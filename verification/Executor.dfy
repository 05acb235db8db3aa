// The executor's loop (src/executor/executor.rs): batches of runnables with a bound, and the
// root future, polled when its wake flag is set (src/task/waker_fn.rs).  What a run does to the
// executor is arbitrary: it may push runnables to the back of the queue or, when a task yields,
// to its front (src/executor/scheduler.rs), and it may wake the root future.
module Executor {
  import opened Sequences
  import opened LocalQueue

  datatype Push<T> = Back(runnable: T) | Front(runnable: T)

  datatype Effect<T> = Effect(pushes: seq<Push<T>>, wakesRoot: bool)

  // The effect of the run with a given number, on a given runnable.
  type World<!T> = (nat, T) -> Effect<T>

  function PushedOne<T>(q: seq<T>, push: Push<T>): seq<T> {
    match push
    case Back(x) => q + [x]
    case Front(x) => [x] + q
  }

  function Pushed<T>(q: seq<T>, pushes: seq<Push<T>>): seq<T>
    decreases |pushes|
  {
    if pushes == [] then q else Pushed(PushedOne(q, pushes[0]), pushes[1..])
  }

  lemma {:induction false} PushedStep<T>(q: seq<T>, pushes: seq<Push<T>>, k: nat)
    requires k < |pushes|
    ensures Pushed(q, pushes[k..]) == Pushed(PushedOne(q, pushes[k]), pushes[k + 1..])
  {
    assert pushes[k..][1..] == pushes[k + 1..];
  }

  // What is pushed to the front ends up in front, the last push first; what is pushed to the back
  // ends up behind, in order.
  lemma {:induction false} PushedInOrder<T>(q: seq<T>, pushes: seq<Push<T>>)
    ensures Pushed(q, pushes) == FrontPushes(pushes) + q + BackPushes(pushes)
    decreases |pushes|
  {
    if pushes != [] {
      var q' := PushedOne(q, pushes[0]);
      PushedInOrder(q', pushes[1..]);
      var fronts, backs := FrontPushes(pushes[1..]), BackPushes(pushes[1..]);
      match pushes[0]
      case Back(x) => BetweenBack(fronts, q, x, backs);
      case Front(x) => BetweenFront(fronts, x, q, backs);
    }
  }

  lemma BetweenBack<T>(fronts: seq<T>, q: seq<T>, x: T, backs: seq<T>)
    ensures fronts + (q + [x]) + backs == (fronts + []) + q + ([x] + backs)
  {}

  lemma BetweenFront<T>(fronts: seq<T>, x: T, q: seq<T>, backs: seq<T>)
    ensures fronts + ([x] + q) + backs == (fronts + [x]) + q + ([] + backs)
  {}

  function FrontPushes<T>(pushes: seq<Push<T>>): seq<T> {
    if pushes == [] then [] else FrontPushes(pushes[1..]) + if pushes[0].Front? then [pushes[0].runnable] else []
  }

  function BackPushes<T>(pushes: seq<Push<T>>): seq<T> {
    if pushes == [] then [] else (if pushes[0].Back? then [pushes[0].runnable] else []) + BackPushes(pushes[1..])
  }

  // What a batch leaves behind.
  datatype Result<T> = Result(ran: seq<T>, queue: seq<T>, woken: bool)

  // At most `budget + 1` runs, numbered from `i` on.
  function Batch<T>(q: seq<T>, budget: nat, world: World<T>, i: nat): Result<T>
    decreases budget
  {
    if q == [] then Result([], [], false)
    else
      var e := world(i, q[0]);
      var q' := Pushed(q[1..], e.pushes);
      if budget == 0 then Result([q[0]], q', e.wakesRoot)
      else
        var rest := Batch(q', budget - 1, world, i + 1);
        Result([q[0]] + rest.ran, rest.queue, e.wakesRoot || rest.woken)
  }

  // The rest of a batch, after some runs.
  function Onward<T>(done: Result<T>, budget: nat, world: World<T>): Result<T>
    decreases budget
  {
    if done.queue == [] then done
    else
      var t := done.queue[0];
      var e := world(|done.ran|, t);
      var next := Result(done.ran + [t], Pushed(done.queue[1..], e.pushes), done.woken || e.wakesRoot);
      if budget == 0 then next else Onward(next, budget - 1, world)
  }

  lemma {:induction false} OnwardIsBatch<T>(done: Result<T>, budget: nat, world: World<T>)
    ensures var rest := Batch(done.queue, budget, world, |done.ran|);
      Onward(done, budget, world) == Result(done.ran + rest.ran, rest.queue, done.woken || rest.woken)
    decreases budget
  {
    if done.queue != [] && budget > 0 {
      var t := done.queue[0];
      var e := world(|done.ran|, t);
      var q := Pushed(done.queue[1..], e.pushes);
      OnwardIsBatch(Result(done.ran + [t], q, done.woken || e.wakesRoot), budget - 1, world);
      Regroup(done.ran, [t], Batch(q, budget - 1, world, |done.ran| + 1).ran);
    }
  }

  datatype TurnEnd = RootReady | Park | Submit

  class LocalExecutor<T> {
    const localQueue: Queue<T>
    var pollRoot: bool

    constructor ()
      ensures localQueue.entries == [] && fresh(localQueue) && pollRoot
    {
      localQueue := new Queue<T>();
      pollRoot := true;
    }

    // src/task/waker_fn.rs: the flag is read and cleared.
    method ShouldPoll() returns (poll: bool)
      modifies this`pollRoot
      ensures poll == old(pollRoot) && !pollRoot
    {
      poll := pollRoot;
      pollRoot := false;
    }

    method SetPoll()
      modifies this`pollRoot
      ensures pollRoot
    {
      pollRoot := true;
    }

    // What running user code does to the executor.
    method Happen(e: Effect<T>)
      modifies this`pollRoot, localQueue
      ensures localQueue.entries == Pushed(old(localQueue.entries), e.pushes)
      ensures pollRoot == (old(pollRoot) || e.wakesRoot)
    {
      for k := 0 to |e.pushes|
        invariant pollRoot == old(pollRoot)
        invariant Pushed(localQueue.entries, e.pushes[k..]) == Pushed(old(localQueue.entries), e.pushes)
      {
        PushedStep(localQueue.entries, e.pushes, k);
        match e.pushes[k] {
          case Back(x) => localQueue.Push(x);
          case Front(x) => localQueue.PushFront(x);
        }
      }
      if e.wakesRoot {
        SetPoll();
      }
    }

    // One run, and what it means for the rest of the batch.
    method RunOne(t: T, ran: seq<T>, world: World<T>, ghost woken: bool, ghost budget: nat)
      modifies this`pollRoot, localQueue
      ensures pollRoot == (old(pollRoot) || world(|ran|, t).wakesRoot)
      ensures var next := Result(ran + [t], localQueue.entries, woken || world(|ran|, t).wakesRoot);
        Onward(Result(ran, [t] + old(localQueue.entries), woken), budget, world)
        == if budget == 0 then next else Onward(next, budget - 1, world)
    {
      assert ([t] + localQueue.entries)[1..] == localQueue.entries;
      Happen(world(|ran|, t));
    }

    // Runs queued runnables, at most twice as many as are queued now plus one.
    method RunBatch(world: World<T>) returns (ran: seq<T>)
      modifies this`pollRoot, localQueue
      ensures var r := Batch(old(localQueue.entries), 2 * |old(localQueue.entries)|, world, 0);
        ran == r.ran && localQueue.entries == r.queue && pollRoot == (old(pollRoot) || r.woken)
    {
      OnwardIsBatch(Result([], localQueue.entries, false), 2 * |localQueue.entries|, world);
      ran := RunQueued(world);
    }

    method RunQueued(world: World<T>) returns (ran: seq<T>)
      modifies this`pollRoot, localQueue
      ensures var r := Onward(Result([], old(localQueue.entries), false), 2 * |old(localQueue.entries)|, world);
        ran == r.ran && localQueue.entries == r.queue && pollRoot == (old(pollRoot) || r.woken)
    {
      ran := [];
      var maxRound := localQueue.Len() * 2;
      ghost var woken, q := false, localQueue.entries;
      ghost var whole := Onward(Result([], q, false), maxRound, world);
      var t := localQueue.Pop();
      while t.Some?
        invariant maxRound >= 0 && pollRoot == (old(pollRoot) || woken)
        invariant q == if t.Some? then [t.value] + localQueue.entries else []
        invariant t.None? ==> localQueue.entries == []
        invariant Onward(Result(ran, q, woken), maxRound, world) == whole
        decreases maxRound, t.Some?
      {
        RunOne(t.value, ran, world, woken, maxRound);
        woken := woken || world(|ran|, t.value).wakesRoot;
        ran := ran + [t.value];
        if maxRound == 0 {
          return;
        }
        maxRound := maxRound - 1;
        q := localQueue.entries;
        t := localQueue.Pop();
      }
    }

    // One iteration of the inner loop: a batch, then the root future if it was woken, then the
    // decision to return, to wait for the driver, or to go on.
    method Turn(world: World<T>, root: Effect<T>, rootReady: bool) returns (ran: seq<T>, end: TurnEnd, polled: bool)
      modifies this`pollRoot, localQueue
      ensures var r := Batch(old(localQueue.entries), 2 * |old(localQueue.entries)|, world, 0);
        && ran == r.ran
        && polled == (old(pollRoot) || r.woken)
        && localQueue.entries == (if polled then Pushed(r.queue, root.pushes) else r.queue)
        && pollRoot == (polled && root.wakesRoot)
        && (end == RootReady <==> polled && rootReady)
        && (end == Park ==> localQueue.entries == [])
        && (end == Submit ==> localQueue.entries != [])
    {
      ran := RunBatch(world);
      polled := ShouldPoll();
      if polled {
        Happen(root);
        if rootReady {
          return ran, RootReady, polled;
        }
      }
      if localQueue.IsEmpty() {
        return ran, Park, polled;
      }
      end := Submit;
    }
  }

  // A root future that yields once wakes itself in its poll.  With nothing queued the executor
  // then waits for the driver although the root is due.
  method YieldingRootWaits<T>(world: World<T>) returns (ex: LocalExecutor<T>, end: TurnEnd, polled: bool)
    ensures polled && end == Park && ex.pollRoot && ex.localQueue.entries == []
  {
    ex := new LocalExecutor<T>();
    var ran;
    ran, end, polled := ex.Turn(world, Effect([], true), false);
  }

  // ---------- the order of a batch ----------

  // An entry together with whether it was queued when the batch began.
  datatype Tagged<T> = Tagged(entry: T, initial: bool)

  function TagAll<T>(q: seq<T>, initial: bool): seq<Tagged<T>> {
    seq(|q|, k requires 0 <= k < |q| => Tagged(q[k], initial))
  }

  function Untag<T>(q: seq<Tagged<T>>): seq<T> {
    seq(|q|, k requires 0 <= k < |q| => q[k].entry)
  }

  // The entries that were queued when the batch began.
  function Initial<T>(q: seq<Tagged<T>>): seq<T> {
    if q == [] then [] else (if q[0].initial then [q[0].entry] else []) + Initial(q[1..])
  }

  function TagPush<T>(push: Push<T>): Push<Tagged<T>> {
    match push
    case Back(x) => Back(Tagged(x, false))
    case Front(x) => Front(Tagged(x, false))
  }

  function TagPushes<T>(pushes: seq<Push<T>>): seq<Push<Tagged<T>>> {
    seq(|pushes|, k requires 0 <= k < |pushes| => TagPush(pushes[k]))
  }

  // The same world, acting on tagged entries: what a run pushes is not initial.
  function TagWorld<T>(world: World<T>): World<Tagged<T>> {
    (i: nat, t: Tagged<T>) =>
      var e := world(i, t.entry);
      Effect(TagPushes(e.pushes), e.wakesRoot)
  }

  lemma {:induction false} UntagPushed<T>(q: seq<Tagged<T>>, pushes: seq<Push<T>>)
    ensures Untag(Pushed(q, TagPushes(pushes))) == Pushed(Untag(q), pushes)
    decreases |pushes|
  {
    if pushes != [] {
      var tagged := TagPushes(pushes);
      assert tagged[1..] == TagPushes(pushes[1..]);
      assert Untag(PushedOne(q, tagged[0])) == PushedOne(Untag(q), pushes[0]);
      UntagPushed(PushedOne(q, tagged[0]), pushes[1..]);
    }
  }

  lemma UntagFirst<T>(t: Tagged<T>, q: seq<Tagged<T>>)
    ensures Untag([t] + q) == [t.entry] + Untag(q)
  {}

  // Tags do not change what a batch does.
  lemma {:induction false} UntagBatch<T>(q: seq<Tagged<T>>, budget: nat, world: World<T>, i: nat)
    ensures var t, u := Batch(q, budget, TagWorld(world), i), Batch(Untag(q), budget, world, i);
      Untag(t.ran) == u.ran && Untag(t.queue) == u.queue && t.woken == u.woken
    decreases budget
  {
    if q != [] {
      UntagStep(q, world, i);
      if budget > 0 {
        var q' := Pushed(q[1..], TagPushes(world(i, q[0].entry).pushes));
        UntagBatch(q', budget - 1, world, i + 1);
        UntagFirst(q[0], Batch(q', budget - 1, TagWorld(world), i + 1).ran);
      } else {
        UntagFirst(q[0], []);
      }
    }
  }

  lemma {:induction false} UntagStep<T>(q: seq<Tagged<T>>, world: World<T>, i: nat)
    requires q != []
    ensures Untag(q) != [] && Untag(q)[0] == q[0].entry
    ensures var pushes := world(i, q[0].entry).pushes;
      Untag(Pushed(q[1..], TagPushes(pushes))) == Pushed(Untag(q)[1..], pushes)
  {
    assert Untag(q)[1..] == Untag(q[1..]);
    UntagPushed(q[1..], world(i, q[0].entry).pushes);
  }

  lemma {:induction false} InitialAppend<T>(p: seq<Tagged<T>>, q: seq<Tagged<T>>)
    ensures Initial(p + q) == Initial(p) + Initial(q)
  {
    if p == [] {
      assert p + q == q;
    } else {
      assert (p + q)[1..] == p[1..] + q;
      InitialAppend(p[1..], q);
      Regroup(if p[0].initial then [p[0].entry] else [], Initial(p[1..]), Initial(q));
    }
  }

  lemma {:induction false} InitialOfTagged<T>(q: seq<T>)
    ensures Initial(TagAll(q, true)) == q
  {
    if q != [] {
      assert TagAll(q, true)[1..] == TagAll(q[1..], true);
      InitialOfTagged(q[1..]);
    }
  }

  lemma {:induction false} PushesKeepInitial<T>(q: seq<Tagged<T>>, pushes: seq<Push<T>>)
    ensures Initial(Pushed(q, TagPushes(pushes))) == Initial(q)
    decreases |pushes|
  {
    if pushes != [] {
      var push := TagPush(pushes[0]);
      assert TagPushes(pushes)[1..] == TagPushes(pushes[1..]);
      match pushes[0] {
        case Back(x) => InitialAppend(q, [Tagged(x, false)]);
        case Front(x) => InitialAppend([Tagged(x, false)], q);
      }
      assert Initial([Tagged(push.runnable.entry, false)]) == [];
      PushesKeepInitial(PushedOne(q, push), pushes[1..]);
    }
  }

  // The initial entries that a batch runs, followed by those it leaves, are all the initial
  // entries in their original order: none is lost, repeated or overtaken by another.
  lemma {:induction false} BatchKeepsOrder<T>(q: seq<Tagged<T>>, budget: nat, world: World<T>, i: nat)
    ensures var r := Batch(q, budget, TagWorld(world), i); Initial(r.ran) + Initial(r.queue) == Initial(q)
    decreases budget
  {
    if q != [] {
      var pushes := world(i, q[0].entry).pushes;
      var q' := Pushed(q[1..], TagPushes(pushes));
      PushesKeepInitial(q[1..], pushes);
      assert q == [q[0]] + q[1..];
      InitialAppend([q[0]], q[1..]);
      if budget > 0 {
        var rest := Batch(q', budget - 1, TagWorld(world), i + 1);
        BatchKeepsOrder(q', budget - 1, world, i + 1);
        InitialAppend([q[0]], rest.ran);
      }
    }
  }

  // ---------- what a batch is made of ----------

  // Some run of the batch woke the root future.
  lemma {:induction false} BatchWakesExactly<T>(q: seq<T>, budget: nat, world: World<T>, i: nat)
    ensures var r := Batch(q, budget, world, i); r.woken <==> WakesRoot(r.ran, world, i)
    decreases budget
  {
    if q != [] {
      var rest := if budget == 0 then [] else Batch(Pushed(q[1..], world(i, q[0]).pushes), budget - 1, world, i + 1).ran;
      if budget > 0 {
        BatchWakesExactly(Pushed(q[1..], world(i, q[0]).pushes), budget - 1, world, i + 1);
      }
      WakesRootFirst(q[0], rest, world, i);
    }
  }

  ghost predicate WakesRoot<T>(ran: seq<T>, world: World<T>, i: nat) {
    exists k :: 0 <= k < |ran| && world(i + k, ran[k]).wakesRoot
  }

  lemma {:induction false} WakesRootFirst<T>(first: T, rest: seq<T>, world: World<T>, i: nat)
    ensures WakesRoot([first] + rest, world, i) <==> world(i, first).wakesRoot || WakesRoot(rest, world, i + 1)
  {
    var ran := [first] + rest;
    if world(i, first).wakesRoot {
      assert world(i + 0, ran[0]).wakesRoot;
    }
    if WakesRoot(rest, world, i + 1) {
      var k :| 0 <= k < |rest| && world(i + 1 + k, rest[k]).wakesRoot;
      assert world(i + (k + 1), ran[k + 1]).wakesRoot;
    }
    if WakesRoot(ran, world, i) && !world(i, first).wakesRoot {
      var k :| 0 <= k < |ran| && world(i + k, ran[k]).wakesRoot;
      assert world(i + 1 + (k - 1), rest[k - 1]).wakesRoot;
    }
  }

  // How often an entry occurs in a queue, among pushes, and among everything that runs push.
  ghost function Occurs<T>(s: seq<T>, x: T): nat {
    if s == [] then 0 else (if s[0] == x then 1 else 0) + Occurs(s[1..], x)
  }

  ghost function OccursPushed<T>(pushes: seq<Push<T>>, x: T): nat {
    if pushes == [] then 0 else (if pushes[0].runnable == x then 1 else 0) + OccursPushed(pushes[1..], x)
  }

  ghost function OccursDuring<T>(ran: seq<T>, world: World<T>, i: nat, x: T): nat {
    if ran == [] then 0 else OccursPushed(world(i, ran[0]).pushes, x) + OccursDuring(ran[1..], world, i + 1, x)
  }

  lemma {:induction false} OccursAppend<T>(s: seq<T>, t: seq<T>, x: T)
    ensures Occurs(s + t, x) == Occurs(s, x) + Occurs(t, x)
  {
    if s == [] {
      assert s + t == t;
    } else {
      assert (s + t)[1..] == s[1..] + t;
      OccursAppend(s[1..], t, x);
    }
  }

  lemma {:induction false} PushedAll<T>(q: seq<T>, pushes: seq<Push<T>>, x: T)
    ensures Occurs(Pushed(q, pushes), x) == Occurs(q, x) + OccursPushed(pushes, x)
    decreases |pushes|
  {
    if pushes != [] {
      OccursAppend(q, [pushes[0].runnable], x);
      OccursAppend([pushes[0].runnable], q, x);
      PushedAll(PushedOne(q, pushes[0]), pushes[1..], x);
    }
  }

  lemma {:induction false} FirstRun<T>(first: T, rest: seq<T>, world: World<T>, i: nat, x: T)
    ensures Occurs([first] + rest, x) == (if first == x then 1 else 0) + Occurs(rest, x)
    ensures OccursDuring([first] + rest, world, i, x)
         == OccursPushed(world(i, first).pushes, x) + OccursDuring(rest, world, i + 1, x)
  {
    assert ([first] + rest)[1..] == rest;
  }

  // Nothing is lost and nothing appears: what ran and what is left is what was there and what
  // the runs pushed, each entry as often.
  lemma {:induction false} BatchConserves<T>(q: seq<T>, budget: nat, world: World<T>, i: nat, x: T)
    ensures var r := Batch(q, budget, world, i);
      Occurs(r.ran, x) + Occurs(r.queue, x) == Occurs(q, x) + OccursDuring(r.ran, world, i, x)
    decreases budget
  {
    if q != [] {
      var pushes := world(i, q[0]).pushes;
      PushedAll(q[1..], pushes, x);
      if budget == 0 {
        FirstRun(q[0], [], world, i, x);
        assert [q[0]] + [] == [q[0]];
      } else {
        BatchConserves(Pushed(q[1..], pushes), budget - 1, world, i + 1, x);
        FirstRun(q[0], Batch(Pushed(q[1..], pushes), budget - 1, world, i + 1).ran, world, i, x);
      }
    }
  }

  lemma {:induction false} BatchBound<T>(q: seq<T>, budget: nat, world: World<T>, i: nat)
    ensures |Batch(q, budget, world, i).ran| <= budget + 1
    ensures Batch(q, budget, world, i).queue != [] ==> |Batch(q, budget, world, i).ran| == budget + 1
    decreases budget
  {
    if q != [] && budget > 0 {
      BatchBound(Pushed(q[1..], world(i, q[0]).pushes), budget - 1, world, i + 1);
    }
  }

  // ---------- when every initial entry runs ----------

  function Fronts<T>(pushes: seq<Push<T>>): nat {
    |FrontPushes(pushes)|
  }

  // How many entries are pushed to the front while the batch runs.
  function FrontsDuring<T>(q: seq<T>, budget: nat, world: World<T>, i: nat): nat
    decreases budget
  {
    if q == [] then 0
    else
      var e := world(i, q[0]);
      Fronts(e.pushes) + if budget == 0 then 0 else FrontsDuring(Pushed(q[1..], e.pushes), budget - 1, world, i + 1)
  }

  // Entries that stand before the last initial entry.
  function Ahead<T>(q: seq<Tagged<T>>): nat {
    if Initial(q) == [] then 0 else 1 + Ahead(q[1..])
  }

  lemma {:induction false} PushAhead<T>(q: seq<Tagged<T>>, pushes: seq<Push<T>>)
    ensures Ahead(Pushed(q, TagPushes(pushes))) <= Ahead(q) + Fronts(pushes)
    decreases |pushes|
  {
    if pushes != [] {
      var push := TagPush(pushes[0]);
      assert TagPushes(pushes)[1..] == TagPushes(pushes[1..]);
      match pushes[0] {
        case Back(x) => BackIsBehind(q, Tagged(x, false));
        case Front(x) => assert ([Tagged(x, false)] + q)[1..] == q;
      }
      PushAhead(PushedOne(q, push), pushes[1..]);
    }
  }

  lemma {:induction false} BackIsBehind<T>(q: seq<Tagged<T>>, t: Tagged<T>)
    requires !t.initial
    ensures Ahead(q + [t]) == Ahead(q)
  {
    InitialAppend(q, [t]);
    assert Initial([t]) == [];
    if q != [] {
      assert (q + [t])[1..] == q[1..] + [t];
      BackIsBehind(q[1..], t);
    }
  }

  // If what stands before the last initial entry, now or later, fits in the runs that are left,
  // every initial entry runs.
  lemma {:induction false} BudgetSuffices<T>(q: seq<Tagged<T>>, budget: nat, world: World<T>, i: nat)
    requires Ahead(q) + FrontsDuring(Untag(q), budget, world, i) <= budget + 1
    ensures Initial(Batch(q, budget, TagWorld(world), i).ran) == Initial(q)
    decreases budget
  {
    if Initial(q) == [] {
      BatchKeepsOrder(q, budget, world, i);
    } else {
      var q' := AfterRun(q, world(i, q[0].entry).pushes);
      if budget > 0 {
        BudgetSuffices(q', budget - 1, world, i + 1);
        InitialAppend([q[0]], Batch(q', budget - 1, TagWorld(world), i + 1).ran);
      }
    }
  }

  // One run takes the head away; only what it pushes to the front comes before the others.
  lemma {:induction false} AfterRun<T>(q: seq<Tagged<T>>, pushes: seq<Push<T>>) returns (q': seq<Tagged<T>>)
    requires Initial(q) != []
    ensures q' == Pushed(q[1..], TagPushes(pushes))
    ensures Initial(q) == Initial([q[0]]) + Initial(q')
    ensures Ahead(q') <= Ahead(q) - 1 + Fronts(pushes)
    ensures Untag(q') == Pushed(Untag(q)[1..], pushes)
  {
    q' := Pushed(q[1..], TagPushes(pushes));
    PushesKeepInitial(q[1..], pushes);
    PushAhead(q[1..], pushes);
    assert q == [q[0]] + q[1..];
    InitialAppend([q[0]], q[1..]);
    assert Untag(q)[1..] == Untag(q[1..]);
    UntagPushed(q[1..], pushes);
  }

  lemma {:induction false} AllAhead<T>(q: seq<T>)
    ensures Ahead(TagAll(q, true)) == |q|
  {
    InitialOfTagged(q);
    if q != [] {
      assert TagAll(q, true)[1..] == TagAll(q[1..], true);
      AllAhead(q[1..]);
    }
  }

  // One batch over a queue of `n` entries: at most `2 n + 1` runs; the initial entries run in
  // order; and all of them run if at most `n + 1` entries are pushed to the front meanwhile.
  lemma {:induction false} BatchIsFair<T>(q: seq<T>, world: World<T>)
    ensures var r := Batch(q, 2 * |q|, world, 0);
      var t := Batch(TagAll(q, true), 2 * |q|, TagWorld(world), 0);
      && Untag(t.ran) == r.ran
      && |r.ran| <= 2 * |q| + 1
      && Initial(t.ran) + Initial(t.queue) == q
      && (FrontsDuring(q, 2 * |q|, world, 0) <= |q| + 1 ==> Initial(t.ran) == q)
  {
    var tagged := TagAll(q, true);
    assert Untag(tagged) == q;
    UntagBatch(tagged, 2 * |q|, world, 0);
    BatchBound(q, 2 * |q|, world, 0);
    BatchKeepsOrder(tagged, 2 * |q|, world, 0);
    InitialOfTagged(q);
    AllAhead(q);
    if FrontsDuring(q, 2 * |q|, world, 0) <= |q| + 1 {
      BudgetSuffices(tagged, 2 * |q|, world, 0);
    }
  }

  // ---------- the bound is the best one ----------

  // The first run pushes `count` copies of an entry to the front; nothing else is pushed.
  function FloodFirst<T>(x: T, count: nat): World<T> {
    (i: nat, t: T) => Effect(if i == 0 then Copies(x, count) else [], false)
  }

  function Copies<T>(x: T, count: nat): seq<Push<T>> {
    if count == 0 then [] else [Front(x)] + Copies(x, count - 1)
  }

  lemma {:induction false} CopiesPushed<T>(q: seq<T>, x: T, count: nat)
    ensures |Pushed(q, Copies(x, count))| == |q| + count && Fronts(Copies(x, count)) == count
    ensures q != [] ==> var r := Pushed(q, Copies(x, count)); r[|r| - 1] == q[|q| - 1]
    decreases count
  {
    if count > 0 {
      assert Copies(x, count)[1..] == Copies(x, count - 1);
      CopiesPushed([x] + q, x, count - 1);
    }
  }

  // With nothing pushed, a batch runs the head of the queue and leaves the rest.
  lemma {:induction false} QuietBatch<T>(q: seq<T>, budget: nat, x: T, count: nat, i: nat)
    requires i > 0
    ensures Batch(q, budget, FloodFirst(x, count), i).queue == if |q| <= budget + 1 then [] else q[budget + 1..]
    ensures FrontsDuring(q, budget, FloodFirst(x, count), i) == 0
    decreases budget
  {
    if q != [] && budget > 0 {
      QuietBatch(q[1..], budget - 1, x, count, i + 1);
    }
  }

  // With `n + 2` entries pushed to the front, the last initial entry can be left in the queue.
  lemma {:induction false} FairnessBoundIsTight<T>(q: seq<T>, x: T)
    requires |q| >= 2
    ensures FrontsDuring(q, 2 * |q|, FloodFirst(x, |q| + 2), 0) == |q| + 2
    ensures Batch(q, 2 * |q|, FloodFirst(x, |q| + 2), 0).queue == [q[|q| - 1]]
  {
    var n := |q|;
    var q' := Pushed(q[1..], Copies(x, n + 2));
    CopiesPushed(q[1..], x, n + 2);
    QuietBatch(q', 2 * n - 1, x, n + 2, 1);
    assert q'[2 * n..] == [q[n - 1]];
  }
}
