/**
  * The string interner of `lib-intern`: each distinct string is stored once, in an
  * allocation holding its length as a machine word followed by its bytes; a `Str` handle
  * is the address of that allocation. Addresses are modelled as the order of allocation,
  * and the word as `USIZE_SIZE` little-endian bytes.
  */
module Intern {
  import opened Wrappers

  newtype byte = b: int | 0 <= b < 256

  /** `USIZE_SIZE` on a 64-bit target. */
  const UsizeSize: nat := 8

  function Pow256(k: nat): (p: nat)
    ensures p >= 1
  {
    if k == 0 then 1 else 256 * Pow256(k - 1)
  }

  /** The `k` little-endian bytes of `n`. */
  function WordBytes(n: nat, k: nat): (r: seq<byte>)
    ensures |r| == k
  {
    if k == 0 then [] else [(n % 256) as byte] + WordBytes(n / 256, k - 1)
  }

  /** The number whose little-endian bytes are `bs`. */
  function WordValue(bs: seq<byte>): (n: nat)
    ensures n < Pow256(|bs|)
  {
    if bs == [] then 0 else bs[0] as nat + 256 * WordValue(bs[1..])
  }

  /** Writing a word and reading it back gives the number written, when it fits in the word. */
  lemma {:induction false} WordRoundTrip(n: nat, k: nat)
    requires n < Pow256(k)
    ensures WordValue(WordBytes(n, k)) == n
  {
    if k > 0 {
      WordRoundTrip(n / 256, k - 1);
      assert WordBytes(n, k)[1..] == WordBytes(n / 256, k - 1);
    }
  }

  /** A string short enough for its length to fit in the length word. */
  predicate Storable(s: seq<byte>)
  {
    |s| < Pow256(UsizeSize)
  }

  /** The allocation `insert_slow` fills for `s`: the length word, then the bytes. */
  function Encode(s: seq<byte>): (block: seq<byte>)
    requires Storable(s)
    ensures |block| == AllocSize(s)
  {
    WordBytes(|s|, UsizeSize) + s
  }

  /** The layout size `insert_slow` allocates for `s`. */
  function AllocSize(s: seq<byte>): nat
  {
    |s| + UsizeSize
  }

  /** The layout size `OwnStr`'s drop deallocates, computed from the length word it reads. */
  function DeallocSize(block: seq<byte>): nat
    requires |block| >= UsizeSize
  {
    WordValue(block[..UsizeSize]) + UsizeSize
  }

  /** A block that `Decode` can read: a length word and at least that many bytes after it. */
  predicate Readable(block: seq<byte>)
  {
    |block| >= UsizeSize && UsizeSize + WordValue(block[..UsizeSize]) <= |block|
  }

  /** `Deref for Str` and `OwnStr::as_str`: read the length word, then that many bytes. */
  function Decode(block: seq<byte>): seq<byte>
    requires Readable(block)
  {
    block[UsizeSize..UsizeSize + WordValue(block[..UsizeSize])]
  }

  /** Reading an interned allocation back yields the string stored. */
  lemma DecodeEncode(s: seq<byte>)
    requires Storable(s)
    ensures Readable(Encode(s)) && Decode(Encode(s)) == s
  {
    var block := Encode(s);
    assert block[..UsizeSize] == WordBytes(|s|, UsizeSize);
    WordRoundTrip(|s|, UsizeSize);
  }

  /** The deallocation layout matches the allocation layout. */
  lemma LayoutsAgree(s: seq<byte>)
    requires Storable(s)
    ensures DeallocSize(Encode(s)) == AllocSize(s)
  {
    DecodeEncode(s);
  }

  /** A `Str`: the address of an interned allocation. */
  datatype Str = Str(ptr: nat)

  /** The abstract interner: every allocation made, and the set of owned strings as the allocation holding each. */
  datatype Table = Table(blocks: seq<seq<byte>>, owned: map<seq<byte>, nat>)

  /** Every string in the set is held, readable, by its own allocation. */
  predicate Sound(t: Table)
  {
    && |t.owned| == |t.blocks|
    && forall s :: s in t.owned ==> Holds(t, s)
  }

  /** The allocation of `s` in the set exists and reads back as `s`. */
  predicate Holds(t: Table, s: seq<byte>)
    requires s in t.owned
  {
    t.owned[s] < |t.blocks| && Readable(t.blocks[t.owned[s]]) && Decode(t.blocks[t.owned[s]]) == s
  }

  /** `len`: the number of strings in the set. */
  function Size(t: Table): nat
  {
    |t.owned|
  }

  /** `insert_slow`: `get_or_insert_with` under the write lock, allocating only for a string not present. */
  function SlowPath(t: Table, s: seq<byte>): (r: (Str, Table))
    requires Sound(t) && Storable(s)
    ensures Sound(r.1) && s in r.1.owned && r.0.ptr == r.1.owned[s]
  {
    if s in t.owned then (Str(t.owned[s]), t)
    else
      DecodeEncode(s);
      var t1 := Table(t.blocks + [Encode(s)], t.owned[s := |t.blocks|]);
      assert |t1.owned| == |t.owned| + 1;
      (Str(|t.blocks|), t1)
  }

  /** `insert_inner`: the string found under the read lock, else `insert_slow`. */
  function FastPath(t: Table, s: seq<byte>): (r: (Str, Table))
    requires Sound(t) && Storable(s)
    ensures Sound(r.1) && s in r.1.owned && r.0.ptr == r.1.owned[s]
  {
    if s in t.owned then (Str(t.owned[s]), t) else SlowPath(t, s)
  }

  /** What a handle reads as. */
  function Deref(t: Table, h: Str): seq<byte>
    requires h.ptr < |t.blocks| && Readable(t.blocks[h.ptr])
  {
    Decode(t.blocks[h.ptr])
  }

  /** An interned string reads back as itself. */
  lemma InsertReadsBack(t: Table, s: seq<byte>)
    requires Sound(t) && Storable(s)
    ensures var (h, t1) := FastPath(t, s); h.ptr < |t1.blocks| && Readable(t1.blocks[h.ptr]) && Deref(t1, h) == s
  {
  }

  /** Inserting the same string twice returns equal handles. */
  lemma InsertTwice(t: Table, s: seq<byte>)
    requires Sound(t) && Storable(s)
    ensures var (h, t1) := FastPath(t, s); FastPath(t1, s) == (h, t1)
  {
  }

  /** For a string already present, the read path and the write path return the same handle. */
  lemma FastAndSlowAgree(t: Table, s: seq<byte>)
    requires Sound(t) && Storable(s) && s in t.owned
    ensures FastPath(t, s) == SlowPath(t, s)
  {
  }

  /** Handles name strings: equal handles read as equal strings, and distinct strings get distinct handles. */
  lemma HandlesAreStrings(t: Table, s: seq<byte>, u: seq<byte>)
    requires Sound(t) && s in t.owned && u in t.owned
    ensures t.owned[s] == t.owned[u] <==> s == u
  {
  }

  /** Interning a list of strings, one after another. */
  function InsertAll(t: Table, xs: seq<seq<byte>>): (r: Table)
    requires Sound(t) && forall i :: 0 <= i < |xs| ==> Storable(xs[i])
    ensures Sound(r)
    decreases |xs|
  {
    if xs == [] then t else InsertAll(FastPath(t, xs[0]).1, xs[1..])
  }

  /** The distinct strings in `xs`. */
  function Seen(xs: seq<seq<byte>>): set<seq<byte>>
  {
    set i | 0 <= i < |xs| :: xs[i]
  }

  lemma SeenCons(xs: seq<seq<byte>>)
    requires xs != []
    ensures Seen(xs) == {xs[0]} + Seen(xs[1..])
  {
    forall x | x in Seen(xs)
      ensures x in {xs[0]} + Seen(xs[1..])
    {
      var i :| 0 <= i < |xs| && xs[i] == x;
      if i > 0 {
        assert xs[1..][i - 1] == x;
      }
    }
    forall x | x in Seen(xs[1..])
      ensures x in Seen(xs)
    {
      var i :| 0 <= i < |xs[1..]| && xs[1..][i] == x;
      assert xs[i + 1] == x;
    }
  }

  /** One insertion adds exactly its string to the set. */
  lemma FastPathKeys(t: Table, s: seq<byte>)
    requires Sound(t) && Storable(s)
    ensures FastPath(t, s).1.owned.Keys == t.owned.Keys + {s}
  {
  }

  /** Interning adds exactly the strings interned to the set. */
  lemma {:induction false} InsertAllKeys(t: Table, xs: seq<seq<byte>>)
    requires Sound(t) && forall i :: 0 <= i < |xs| ==> Storable(xs[i])
    ensures InsertAll(t, xs).owned.Keys == t.owned.Keys + Seen(xs)
    decreases |xs|
  {
    if xs == [] {
      assert Seen(xs) == {};
    } else {
      var t1 := InsertAllStep(t, xs);
      InsertAllKeys(t1, xs[1..]);
      var R := InsertAll(t, xs).owned.Keys;
      assert R == t1.owned.Keys + Seen(xs[1..]);
      SeenCons(xs);
      SetStep(R, t.owned.Keys, t1.owned.Keys, xs[0], Seen(xs[1..]), Seen(xs));
    }
  }

  /** Set algebra for one step of the induction below. */
  lemma SetStep<X>(r: set<X>, k: set<X>, k1: set<X>, x: X, rest: set<X>, all: set<X>)
    requires r == k1 + rest && k1 == k + {x} && all == {x} + rest
    ensures r == k + all
  {
  }

  /** The first insertion of a non-empty list: the table it leaves and the keys it adds. */
  lemma InsertAllStep(t: Table, xs: seq<seq<byte>>) returns (t1: Table)
    requires Sound(t) && xs != [] && forall i :: 0 <= i < |xs| ==> Storable(xs[i])
    ensures Sound(t1) && t1.owned.Keys == t.owned.Keys + {xs[0]}
    ensures forall i :: 0 <= i < |xs[1..]| ==> Storable(xs[1..][i])
    ensures InsertAll(t, xs) == InsertAll(t1, xs[1..])
  {
    t1 := FastPath(t, xs[0]).1;
    FastPathKeys(t, xs[0]);
  }

  /** `len` counts distinct strings: after interning `xs` it is the number of distinct strings seen. */
  lemma LenCountsDistinct(t: Table, xs: seq<seq<byte>>)
    requires Sound(t) && forall i :: 0 <= i < |xs| ==> Storable(xs[i])
    ensures Size(InsertAll(t, xs)) == |t.owned.Keys + Seen(xs)|
  {
    InsertAllKeys(t, xs);
    var m := InsertAll(t, xs).owned;
    assert |m.Keys| == |m|;
  }

  /** `Intern`: the allocations made and the `HashSet` of owned strings behind its lock. */
  class Interner {
    var blocks: seq<seq<byte>>
    var owned: map<seq<byte>, nat>

    function View(): Table
      reads this
    {
      Table(blocks, owned)
    }

    constructor ()
      ensures View() == Table([], map[]) && Sound(View())
    {
      blocks := [];
      owned := map[];
    }

    /** `len`. */
    method Len() returns (n: nat)
      ensures n == Size(View())
    {
      n := |owned|;
    }

    /** `insert` and `insert_inner`. */
    method Insert(s: seq<byte>) returns (h: Str)
      requires Sound(View()) && Storable(s)
      modifies this
      ensures Sound(View()) && (h, View()) == FastPath(old(View()), s)
    {
      if s in owned {
        return Str(owned[s]);
      }
      h := InsertSlow(s);
    }

    /** `insert_slow`: writes the length word and copies the bytes into a fresh allocation. */
    method InsertSlow(s: seq<byte>) returns (h: Str)
      requires Sound(View()) && Storable(s)
      modifies this
      ensures Sound(View()) && (h, View()) == SlowPath(old(View()), s)
    {
      if s in owned {
        return Str(owned[s]);
      }
      var block := WordBytes(|s|, UsizeSize) + s;
      DecodeEncode(s);
      h := Str(|blocks|);
      blocks := blocks + [block];
      owned := owned[s := h.ptr];
    }
  }
}
