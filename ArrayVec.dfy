/**
  * `ArrayVec<T, N>`: a stack of at most `N` elements stored in a fixed array whose slots
  * past `len` are uninitialised.
  */
module ArrayVec {
  import opened Wrappers

  /** The abstract value of an `ArrayVec`: its capacity `N` and its elements, oldest first. */
  datatype Bounded<T> = Bounded(capacity: nat, items: seq<T>)

  predicate Fits<T>(v: Bounded<T>)
  {
    |v.items| <= v.capacity
  }

  /** `try_push`: refused with the value given back when there is no room, else appended at slot `len`. */
  function Pushing<T>(v: Bounded<T>, x: T): (r: (Result<nat, T>, Bounded<T>))
    requires Fits(v)
    ensures Fits(r.1)
    ensures r.0.Err? <==> |v.items| == v.capacity
    ensures r.0.Err? ==> r.0.error == x && r.1 == v
    ensures r.0.Ok? ==> r.0.value == |v.items| && |r.1.items| == |v.items| + 1 && r.1.capacity == v.capacity && r.1.items[..|v.items|] == v.items && r.1.items[|v.items|] == x
  {
    if v.capacity == 0 || v.capacity == |v.items| then (Err(x), v)
    else (Ok(|v.items|), v.(items := v.items + [x]))
  }

  /** `try_pop`: nothing from an empty vector, else the last element, which is removed. */
  function Popping<T>(v: Bounded<T>): (r: (Option<T>, Bounded<T>))
    requires Fits(v)
    ensures Fits(r.1)
    ensures r.0.None? <==> v.items == []
    ensures r.0.None? ==> r.1 == v
    ensures r.0.Some? ==> r.1.capacity == v.capacity && r.1.items + [r.0.value] == v.items
  {
    if v.capacity == 0 || |v.items| == 0 then (None, v)
    else (Some(v.items[|v.items| - 1]), v.(items := v.items[..|v.items| - 1]))
  }

  /** The stack discipline: a pop right after a successful push gives back that value and the vector as it was. */
  lemma PushThenPop<T>(v: Bounded<T>, x: T)
    requires Fits(v) && |v.items| < v.capacity
    ensures Pushing(v, x).0.Ok?
    ensures Popping(Pushing(v, x).1) == (Some(x), v)
  {
    var w := Pushing(v, x).1;
    assert w.items == v.items + [x];
    assert w.items[..|w.items| - 1] == v.items;
  }

  /** A pop followed by pushing the popped value back restores the vector. */
  lemma PopThenPush<T>(v: Bounded<T>)
    requires Fits(v) && v.items != []
    ensures var (x, w) := Popping(v); Pushing(w, x.value) == (Ok(|v.items| - 1), v)
  {
    var (x, w) := Popping(v);
    assert w.items + [x.value] == v.items;
  }

  /** Pushing the values of `xs` one at a time; stops at the first refusal. */
  function PushAll<T>(v: Bounded<T>, xs: seq<T>): (r: Bounded<T>)
    requires Fits(v)
    ensures Fits(r) && r.capacity == v.capacity
    decreases xs
  {
    if xs == [] then v
    else
      var (res, w) := Pushing(v, xs[0]);
      if res.Err? then v else PushAll(w, xs[1..])
  }

  /** Pops all elements, newest first. */
  function PopAll<T>(v: Bounded<T>): (r: seq<T>)
    requires Fits(v)
    decreases |v.items|
  {
    var (x, w) := Popping(v);
    if x.None? then [] else [x.value] + PopAll(w)
  }

  /** The elements of `s`, last first. */
  function Reverse<T>(s: seq<T>): (r: seq<T>)
    ensures |r| == |s| && forall i :: 0 <= i < |s| ==> r[i] == s[|s| - 1 - i]
  {
    if s == [] then [] else Reverse(s[1..]) + [s[0]]
  }

  /** Last in, first out: popping everything yields the elements in reverse order of their pushes. */
  lemma {:induction false} PopAllReverses<T>(v: Bounded<T>)
    requires Fits(v)
    ensures PopAll(v) == Reverse(v.items)
    decreases |v.items|
  {
    if v.items != [] {
      var (x, w) := Popping(v);
      PopAllReverses(w);
      var n := |v.items|;
      assert v.items == w.items + [x.value];
      ReverseSnoc(w.items, x.value);
    }
  }

  lemma {:induction false} ReverseSnoc<T>(s: seq<T>, x: T)
    ensures Reverse(s + [x]) == [x] + Reverse(s)
    decreases |s|
  {
    if s == [] {
      assert [x][1..] == [];
    } else {
      assert (s + [x])[0] == s[0] && (s + [x])[1..] == s[1..] + [x];
      ReverseSnoc(s[1..], x);
    }
  }

  /** Pushing into room for all of `xs` appends them in order. */
  lemma {:induction false} PushAllAppends<T>(v: Bounded<T>, xs: seq<T>)
    requires Fits(v) && |v.items| + |xs| <= v.capacity
    ensures PushAll(v, xs) == Bounded(v.capacity, v.items + xs)
    decreases xs
  {
    if xs != [] {
      var w := Pushing(v, xs[0]).1;
      assert w.items == v.items + [xs[0]];
      PushAllAppends(w, xs[1..]);
      assert w.items + xs[1..] == v.items + xs;
    } else {
      assert v.items + xs == v.items;
    }
  }

  /**
    * `set_len`'s debug check as written: `len < N`. A full vector whose `N` slots are all
    * initialised is refused.
    */
  predicate SetLenAllowedAsWritten(capacity: nat, len: nat)
  {
    len < capacity
  }

  /** `set_len`'s check as the safety contract states it: the new length fits. */
  predicate SetLenAllowed(capacity: nat, len: nat)
  {
    len <= capacity
  }

  /** The check as written refuses `set_len(N)`, the length of a full vector. */
  lemma SetLenRefusesFull(capacity: nat)
    ensures !SetLenAllowedAsWritten(capacity, capacity)
    ensures SetLenAllowed(capacity, capacity)
  {
  }

  /**
    * `pop`'s guard as written: `N == 0 || len > 0`. With `N == 0` it lets an empty vector
    * through to `pop_unchecked`, whose `len -= 1` then underflows.
    */
  predicate PopGuardAsWritten(capacity: nat, len: nat)
  {
    capacity == 0 || len > 0
  }

  /** `pop`'s guard as `try_pop` and the message intend: the vector is not empty. */
  predicate PopGuard(capacity: nat, len: nat)
  {
    len > 0
  }

  /** On an `ArrayVec<T, 0>` the written guard passes although there is nothing to pop. */
  lemma PopGuardLetsEmptyThrough()
    ensures PopGuardAsWritten(0, 0) && !PopGuard(0, 0)
  {
  }

  /** The corrected guard passes exactly when `try_pop` would find an element. */
  lemma PopGuardMatchesTryPop<T>(v: Bounded<T>)
    requires Fits(v)
    ensures PopGuard(v.capacity, |v.items|) <==> Popping(v).0.Some?
  {
  }

  /** The vector itself: `N` slots, of which the first `len` hold values. */
  class ArrayVec<T> {
    const capacity: nat
    var data: array<Option<T>>
    var len: nat

    ghost predicate Valid()
      reads this, data
    {
      && data.Length == capacity
      && len <= capacity
      && forall i :: 0 <= i < len ==> data[i].Some?
    }

    /** `as_slice`: the initialised prefix. */
    function Items(): (s: seq<T>)
      reads this, data
      requires Valid()
      ensures |s| == len
    {
      Values(data[..len])
    }

    function View(): Bounded<T>
      reads this, data
      requires Valid()
    {
      Bounded(capacity, Items())
    }

    /** `new`: an empty vector with `n` uninitialised slots. */
    constructor (n: nat)
      ensures Valid() && View() == Bounded(n, []) && fresh(data)
    {
      capacity := n;
      len := 0;
      data := new Option<T>[n](_ => None);
    }

    predicate IsEmpty()
      reads this, data
      requires Valid()
      ensures IsEmpty() <==> Items() == []
    {
      len == 0
    }

    predicate IsFull()
      reads this, data
      requires Valid()
      ensures IsFull() <==> |Items()| == capacity
    {
      len == capacity
    }

    function Len(): (n: nat)
      reads this, data
      requires Valid()
      ensures n == |Items()| <= capacity
    {
      len
    }

    /** `set_len`, with its check corrected: the caller promises the first `n` slots hold values. */
    method SetLen(n: nat)
      requires Valid() && SetLenAllowed(capacity, n)
      requires forall i :: 0 <= i < n ==> data[i].Some?
      modifies this
      ensures Valid() && len == n && data == old(data)
      ensures Items() == Values(old(data[..])[..n])
    {
      len := n;
    }

    /** `push_unchecked`: writes slot `len` and counts it; returns the slot written. */
    method PushUnchecked(x: T) returns (slot: nat)
      requires Valid() && len < capacity
      modifies this, data
      ensures Valid() && View() == Pushing(old(View()), x).1
      ensures Ok(slot) == Pushing(old(View()), x).0
    {
      data[len] := Some(x);
      slot := len;
      len := len + 1;
      assert Items() == old(Items()) + [x];
    }

    /** `try_push`. */
    method TryPush(x: T) returns (r: Result<nat, T>)
      requires Valid()
      modifies this, data
      ensures Valid() && (r, View()) == Pushing(old(View()), x)
    {
      if capacity == 0 || capacity == len {
        return Err(x);
      }
      var slot := PushUnchecked(x);
      r := Ok(slot);
    }

    /** `push`: panics on a full vector. */
    method Push(x: T) returns (slot: nat)
      requires Valid() && capacity > 0 && capacity > len
      modifies this, data
      ensures Valid() && (Ok(slot), View()) == Pushing(old(View()), x)
    {
      slot := PushUnchecked(x);
    }

    /** `pop_unchecked`: uncounts the last slot and reads it. */
    method PopUnchecked() returns (x: T)
      requires Valid() && len > 0
      modifies this
      ensures Valid() && (Some(x), View()) == Popping(old(View()))
    {
      len := len - 1;
      x := data[len].value;
      assert Items() == old(Items())[..len];
    }

    /** `try_pop`. */
    method TryPop() returns (r: Option<T>)
      requires Valid()
      modifies this
      ensures Valid() && (r, View()) == Popping(old(View()))
    {
      if capacity == 0 || len == 0 {
        return None;
      }
      var x := PopUnchecked();
      r := Some(x);
    }

    /** `pop`, with its guard corrected to `len > 0`. */
    method Pop() returns (x: T)
      requires Valid() && PopGuard(capacity, len)
      modifies this
      ensures Valid() && (Some(x), View()) == Popping(old(View()))
    {
      x := PopUnchecked();
    }
  }
}
