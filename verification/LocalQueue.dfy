// The executor's run queue (src/executor/queue.rs): a double-ended queue of runnables.
module LocalQueue {
  import opened Options

  class Queue<T> {
    var entries: seq<T>

    constructor ()
      ensures entries == []
    {
      entries := [];
    }

    function Len(): nat
      reads this
    {
      |entries|
    }

    predicate IsEmpty()
      reads this
    {
      Len() == 0
    }

    method Push(runnable: T)
      modifies this
      ensures entries == old(entries) + [runnable]
    {
      entries := entries + [runnable];
    }

    method PushFront(runnable: T)
      modifies this
      ensures entries == [runnable] + old(entries)
    {
      entries := [runnable] + entries;
    }

    method Pop() returns (runnable: Option<T>)
      modifies this
      ensures runnable.None? <==> old(entries) == []
      ensures runnable.None? ==> entries == []
      ensures runnable.Some? ==> old(entries) == [runnable.value] + entries
    {
      if entries == [] {
        return None;
      }
      runnable := Some(entries[0]);
      entries := entries[1..];
    }
  }
}
