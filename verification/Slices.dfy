// Owned views into a buffer (src/buf/slice.rs).  A slice owns the buffer it views, which may be
// a slice itself; at the bottom lies a vector whose initialised length can be set.
module Slices {
  import opened Options
  import opened MachineWord

  type Byte = x: nat | x < 256

  // A vector: its memory, of which the first `len` bytes are initialised.
  class Vector {
    var memory: seq<Byte>
    var len: nat

    predicate Valid()
      reads this
    {
      len <= |memory| < MODULUS
    }

    constructor (memory: seq<Byte>, len: nat)
      requires len <= |memory| < MODULUS
      ensures Valid() && this.memory == memory && this.len == len
    {
      this.memory := memory;
      this.len := len;
    }
  }

  datatype Buf = Root(vector: Vector) | Slice(buf: Buf, begin: nat, end: nat) {
    function Bottom(): Vector {
      match this
      case Root(v) => v
      case Slice(b, _, _) => b.Bottom()
    }

    // What `new` checks for every slice, from the vector up.
    predicate Valid()
      reads Bottom()
      decreases this, 0
    {
      match this
      case Root(v) => v.Valid()
      case Slice(b, begin, end) => b.Valid() && end <= b.BytesTotal() && begin <= |b.Deref()| && begin <= end
    }

    // The initialised bytes in view.
    function Deref(): seq<Byte>
      requires Valid()
      reads Bottom()
      decreases this, 1
    {
      match this
      case Root(v) => v.memory[..v.len]
      case Slice(b, begin, end) =>
        var bytes := b.Deref();
        bytes[begin..if end < |bytes| then end else |bytes|]
    }

    function BytesInit(): nat
      requires Valid()
      reads Bottom()
      decreases this, 2
    {
      |Deref()|
    }

    function BytesTotal(): nat
      requires Valid()
      reads Bottom()
      decreases this, 1
    {
      match this
      case Root(v) => |v.memory|
      case Slice(_, begin, end) => end - begin
    }

    // Slice::new; its assertions panic otherwise.
    function NewSlice(begin: nat, end: nat): (r: Option<Buf>)
      requires Valid()
      reads Bottom()
      ensures r.Some? ==> r.value.Valid() && r.value.Bottom() == Bottom()
      ensures r.None? <==> end > BytesTotal() || begin > BytesInit() || begin > end
      ensures r.Some? ==> r.value.Offset() == Offset() + begin && r.value.BytesTotal() == end - begin
      ensures r.Some? ==> r.value.BytesInit() == (if end < BytesInit() then end else BytesInit()) - begin
      ensures r.Some? ==> forall k :: 0 <= k < r.value.BytesInit() ==> r.value.Deref()[k] == Deref()[begin + k]
    {
      if end <= BytesTotal() && begin <= BytesInit() && begin <= end then Some(Slice(this, begin, end)) else None
    }

    // Where the view starts in the vector, as the sum of all offsets.
    function Offset(): nat {
      match this
      case Root(_) => 0
      case Slice(b, begin, _) => b.Offset() + begin
    }

    method SetInit(pos: nat)
      requires Valid() && Offset() + pos <= |Bottom().memory|
      modifies Bottom()
      ensures Bottom().len == Offset() + pos && Bottom().memory == old(Bottom().memory)
      ensures Valid() && BytesTotal() == old(BytesTotal())
      ensures BytesInit() == if pos <= BytesTotal() then pos else BytesTotal()
    {
      ghost var total := BytesTotal();
      match this {
        case Root(v) =>
          v.len := pos;
        case Slice(b, begin, _) =>
          b.SetInit(begin + pos);
      }
    }

    // Writing one byte through `deref_mut`.
    method Write(k: nat, x: Byte)
      requires Valid() && k < BytesInit()
      modifies Bottom()
      ensures Valid() && Deref() == old(Deref())[k := x]
      ensures Bottom().len == old(Bottom().len) && Offset() + k < |old(Bottom().memory)|
      ensures Bottom().memory == old(Bottom().memory)[Offset() + k := x]
    {
      match this {
        case Root(v) =>
          v.memory := v.memory[k := x];
        case Slice(b, begin, _) =>
          b.Write(begin + k, x);
      }
    }
  }

  // However deep the nesting, a slice shows exactly the bytes of one slice of the vector whose
  // start is the sum of all offsets and whose capacity is its own.
  lemma {:induction false} NestingIsOneSlice(b: Buf)
    requires b.Valid()
    ensures FlatRange(b)
    ensures var flat := Slice(Root(b.Bottom()), b.Offset(), b.Offset() + b.BytesTotal());
      flat.Valid() && b.Deref() == flat.Deref() && b.BytesTotal() == flat.BytesTotal()
    ensures b.Deref() == View(b.Bottom(), b.Offset(), b.Offset() + b.BytesTotal())
    decreases b
  {
    DerefIsView(b);
    DerefIsView(Slice(Root(b.Bottom()), b.Offset(), b.Offset() + b.BytesTotal()));
  }

  lemma {:induction false} DerefIsView(b: Buf)
    requires b.Valid()
    ensures FlatRange(b) && b.Deref() == View(b.Bottom(), b.Offset(), b.Offset() + b.BytesTotal())
    decreases b
  {
    match b
    case Root(v) =>
    case Slice(inner, begin, end) =>
      DerefIsView(inner);
      SliceIsView(inner, begin, end);
  }

  lemma SliceIsView(inner: Buf, begin: nat, end: nat)
    requires Slice(inner, begin, end).Valid() && FlatRange(inner)
    requires inner.Deref() == View(inner.Bottom(), inner.Offset(), inner.Offset() + inner.BytesTotal())
    ensures var b := Slice(inner, begin, end);
      FlatRange(b) && b.Deref() == View(b.Bottom(), b.Offset(), b.Offset() + b.BytesTotal())
  {
    ViewOfView(inner.Bottom(), inner.Offset(), inner.BytesTotal(), begin, end);
  }

  lemma ViewOfView(v: Vector, start: nat, total: nat, begin: nat, end: nat)
    requires v.Valid() && start <= v.len && begin <= end <= total
    requires begin <= |View(v, start, start + total)|
    ensures start + begin <= v.len
    ensures var outer := View(v, start, start + total);
      outer[begin..if end < |outer| then end else |outer|] == View(v, start + begin, start + end)
  {
    var hi := if start + total < v.len then start + total else v.len;
    var e := if end < hi - start then end else hi - start;
    assert v.memory[start..hi][begin..e] == v.memory[start + begin..start + e];
  }

  predicate FlatRange(b: Buf)
    requires b.Valid()
    reads b.Bottom()
  {
    b.Bottom().Valid() && b.Offset() + b.BytesTotal() <= |b.Bottom().memory| && b.Offset() <= b.Bottom().len
  }

  // The initialised bytes of a vector between two positions.
  function View(v: Vector, start: nat, end: nat): seq<Byte>
    requires v.Valid() && start <= v.len && start <= end
    reads v
  {
    v.memory[start..if end < v.len then end else v.len]
  }
}
