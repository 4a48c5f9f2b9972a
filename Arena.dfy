/**
  * The slab arena of `lib-arena/src/local.rs`: values are written one after another into
  * the current slab of `N` slots; a full slab is retired to a list and a fresh one started.
  * A value is named by its slab (retired slabs first, the current one last) and its slot.
  */
module Arena {
  import opened Wrappers

  datatype Slot = Slot(slab: nat, index: nat)

  /** The abstract arena: the slab size `N`, the retired slabs and the filled part of the current slab. */
  datatype Slabs<T> = Slabs(n: nat, retired: seq<seq<T>>, current: seq<T>)

  /** Slabs are non-empty, every retired slab is full, and the current one holds at most `N`. */
  predicate Sound<T>(a: Slabs<T>)
  {
    && a.n != 0
    && |a.current| <= a.n
    && forall i :: 0 <= i < |a.retired| ==> |a.retired[i]| == a.n
  }

  /** `new`: no slab retired and nothing written. */
  function Empty<T>(n: nat): (a: Slabs<T>)
    requires n != 0
    ensures Sound(a) && All(a) == []
  {
    Slabs(n, [], [])
  }

  /**
    * `alloc`: the next free slot of the current slab, or, when it is full (`alloc_slow`),
    * slot 0 of a fresh slab after the full one is retired.
    */
  function Allocate<T>(a: Slabs<T>, x: T): (r: (Slot, Slabs<T>))
    requires Sound(a)
    ensures Sound(r.1) && 1 <= |r.1.current| && r.1.n == a.n
  {
    if |a.current| == a.n then (Slot(|a.retired| + 1, 0), Slabs(a.n, a.retired + [a.current], [x]))
    else (Slot(|a.retired|, |a.current|), a.(current := a.current + [x]))
  }

  /** The value a slot names, if it has been written. */
  function Get<T>(a: Slabs<T>, h: Slot): Option<T>
  {
    if h.slab < |a.retired| then
      if h.index < |a.retired[h.slab]| then Some(a.retired[h.slab][h.index]) else None
    else if h.slab == |a.retired| && h.index < |a.current| then Some(a.current[h.index])
    else None
  }

  function Concat<T>(ss: seq<seq<T>>): (r: seq<T>)
  {
    if ss == [] then [] else Concat(ss[..|ss| - 1]) + ss[|ss| - 1]
  }

  /** Every value allocated so far, in allocation order. */
  function All<T>(a: Slabs<T>): seq<T>
  {
    Concat(a.retired) + a.current
  }

  /** The slot `alloc` returns names the value it was given. */
  lemma AllocGet<T>(a: Slabs<T>, x: T)
    requires Sound(a)
    ensures var (h, b) := Allocate(a, x); Get(b, h) == Some(x)
  {
  }

  /** The slot `alloc` returns was free before: no two allocations share a slot. */
  lemma AllocFresh<T>(a: Slabs<T>, x: T)
    requires Sound(a)
    ensures Get(a, Allocate(a, x).0).None?
  {
  }

  /** Earlier allocations are never moved or overwritten: every written slot keeps its value. */
  lemma AllocKeeps<T>(a: Slabs<T>, x: T, h: Slot)
    requires Sound(a) && Get(a, h).Some?
    ensures Get(Allocate(a, x).1, h) == Get(a, h)
  {
    var b := Allocate(a, x).1;
    if |a.current| == a.n && h.slab == |a.retired| {
      assert b.retired[h.slab] == a.current;
    }
  }

  /** Allocation appends: the values in allocation order gain exactly the new one at the end. */
  lemma AllocAppends<T>(a: Slabs<T>, x: T)
    requires Sound(a)
    ensures All(Allocate(a, x).1) == All(a) + [x]
  {
    var b := Allocate(a, x).1;
    if |a.current| == a.n {
      assert b.retired[..|b.retired| - 1] == a.retired;
      assert All(b) == Concat(a.retired) + a.current + [x];
    }
  }

  /** The number of values allocated: `N` per retired slab plus the current slab's fill. */
  lemma {:induction false} CountAllocated<T>(a: Slabs<T>)
    requires Sound(a)
    ensures |All(a)| == a.n * |a.retired| + |a.current|
  {
    ConcatLength(a.retired, a.n);
  }

  lemma {:induction false} ConcatLength<T>(ss: seq<seq<T>>, n: nat)
    requires forall i :: 0 <= i < |ss| ==> |ss[i]| == n
    ensures |Concat(ss)| == n * |ss|
    decreases |ss|
  {
    if ss != [] {
      var init := ss[..|ss| - 1];
      ConcatLength(init, n);
      assert |Concat(ss)| == |Concat(init)| + n;
      assert n * |init| + n == n * |ss| by { assert |ss| == |init| + 1; }
    }
  }

  /**
    * `LocalUniqueArena`: the current slab, the count `len` of its written slots, and the
    * retired slabs, which are full and never written again.
    */
  class LocalUniqueArena<T> {
    const n: nat
    var current: array<Option<T>>
    var len: nat
    var data: seq<seq<T>>

    ghost predicate Valid()
      reads this, current
    {
      && n != 0
      && current.Length == n
      && len <= n
      && (forall i :: 0 <= i < len ==> current[i].Some?)
      && forall i :: 0 <= i < |data| ==> |data[i]| == n
    }

    function View(): (a: Slabs<T>)
      reads this, current
      requires Valid()
      ensures Sound(a)
    {
      Slabs(n, data, Values(current[..len]))
    }

    /** `new`: panics on slabs of size 0. */
    constructor (slabSize: nat)
      requires slabSize != 0
      ensures Valid() && View() == Empty(slabSize)
    {
      n := slabSize;
      current := new Option<T>[slabSize](_ => None);
      len := 0;
      data := [];
    }

    /** `alloc`. */
    method Alloc(x: T) returns (h: Slot)
      requires Valid()
      modifies this, current
      ensures Valid() && (h, View()) == Allocate(old(View()), x)
    {
      if len == n {
        h := AllocSlow(x);
      } else {
        current[len] := Some(x);
        h := Slot(|data|, len);
        len := len + 1;
        assert current[..len] == old(current[..len]) + [Some(x)];
        assert Values(current[..len]) == old(Values(current[..len])) + [x];
      }
    }

    /** `alloc_slow`: retires the full slab and writes `x` to slot 0 of a fresh one. */
    method AllocSlow(x: T) returns (h: Slot)
      requires Valid() && len == n
      modifies this
      ensures Valid() && (h, View()) == Allocate(old(View()), x)
    {
      assert current[..] == current[..len];
      data := data + [Values(current[..])];
      len := 0;
      current := new Option<T>[n](_ => None);
      len := 1;
      current[0] := Some(x);
      h := Slot(|data|, 0);
      assert current[..len] == [Some(x)];
      assert Values(current[..len]) == [x];
    }
  }

  /** `LocalSharedArena`: the unique arena behind a shared reference. */
  class LocalSharedArena<T> {
    const inner: LocalUniqueArena<T>

    ghost predicate Valid()
      reads this, inner, inner.current
    {
      inner.Valid()
    }

    constructor (slabSize: nat)
      requires slabSize != 0
      ensures Valid() && inner.View() == Empty(slabSize)
    {
      inner := new LocalUniqueArena(slabSize);
    }

    /** `alloc`: exactly the unique arena's. */
    method Alloc(x: T) returns (h: Slot)
      requires Valid()
      modifies inner, inner.current
      ensures Valid() && (h, inner.View()) == Allocate(old(inner.View()), x)
    {
      h := inner.Alloc(x);
    }
  }
}
