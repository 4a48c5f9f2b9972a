/**
  * `SmallVec<T>` of `lib-smallvec`: a vector whose first few elements live inline, in the
  * two machine words that otherwise hold the heap pointer and the length. The `cap` word
  * tells the two modes apart: while it is at most the inline capacity the elements are
  * inline and `cap` is their count; above it they are on the heap, `cap` is the heap
  * capacity and the `len` word is their count. The buffer itself is modelled as the
  * sequence of elements it holds.
  */
module SmallVec {
  import opened Wrappers

  /** `size_of::<usize>()` on a 64-bit target. */
  const WordSize: nat := 8

  /** `INLINE_CAPACITY_BYTES`: the two words the inline elements use. */
  const InlineCapacityBytes: nat := 2 * WordSize

  /** `usize::MAX`. */
  const UsizeMax: nat := 0xFFFF_FFFF_FFFF_FFFF

  /**
    * `inline_capacity`: as many elements of `tSize` bytes as fit in the two words, and
    * `usize::MAX` for zero-sized elements.
    */
  function InlineCapacity(tSize: nat): (n: nat)
    ensures tSize == 0 ==> n == UsizeMax
    ensures tSize > 0 ==> n * tSize <= InlineCapacityBytes < (n + 1) * tSize
  {
    if tSize == 0 then UsizeMax
    else
      var n := InlineCapacityBytes / tSize;
      assert n * tSize + InlineCapacityBytes % tSize == InlineCapacityBytes;
      n
  }

  /** `usize::saturating_add`. */
  function SaturatingAdd(a: nat, b: nat): nat
  {
    if a + b <= UsizeMax then a + b else UsizeMax
  }

  /** The `cap` and `len` words of a `SmallVec` of `tSize`-byte elements. */
  datatype Header = Header(tSize: nat, cap: nat, lenWord: nat)

  predicate IsInline(h: Header)
  {
    h.cap <= InlineCapacity(h.tSize)
  }

  /** `len`: the `cap` word while inline, the `len` word on the heap. */
  function LenOf(h: Header): nat
  {
    if IsInline(h) then h.cap else h.lenWord
  }

  /** `capacity`: the larger of the `cap` word and the inline capacity. */
  function CapacityOf(h: Header): nat
  {
    if h.cap < InlineCapacity(h.tSize) then InlineCapacity(h.tSize) else h.cap
  }

  /** A header is consistent when the length it gives fits in the capacity it gives. */
  predicate Consistent(h: Header)
  {
    h.cap <= UsizeMax && (!IsInline(h) ==> h.lenWord <= h.cap)
  }

  /**
    * The two encodings agree: while inline the capacity is the inline capacity and the
    * length is at most that; on the heap the capacity is the `cap` word, above the inline
    * capacity; in both modes the length never exceeds the capacity.
    */
  lemma HeaderMeaning(h: Header)
    requires Consistent(h)
    ensures IsInline(h) ==> CapacityOf(h) == InlineCapacity(h.tSize) && LenOf(h) == h.cap
    ensures !IsInline(h) ==> CapacityOf(h) == h.cap > InlineCapacity(h.tSize) && LenOf(h) == h.lenWord
    ensures LenOf(h) <= CapacityOf(h)
  {
  }

  /** Zero-sized elements never leave the inline mode: their inline capacity is `usize::MAX`. */
  lemma ZeroSizedStaysInline(h: Header)
    requires Consistent(h) && h.tSize == 0
    ensures IsInline(h) && CapacityOf(h) == UsizeMax
  {
  }

  /** `pop` on the elements: the last one, removed; nothing from an empty vector. */
  function PopLast<T>(s: seq<T>): (r: (Option<T>, seq<T>))
    ensures r.0.None? <==> s == []
    ensures r.0.None? ==> r.1 == s
    ensures r.0.Some? ==> r.1 + [r.0.value] == s
  {
    if s == [] then (None, s) else (Some(s[|s| - 1]), s[..|s| - 1])
  }

  /** `push` then `pop` is last in, first out. */
  lemma PushThenPop<T>(s: seq<T>, x: T)
    ensures PopLast(s + [x]) == (Some(x), s)
  {
    assert (s + [x])[..|s|] == s;
  }

  /**
    * What `dedup_by` keeps of `rest` after a kept element `last`: an element is dropped
    * when `same_bucket(element, last kept)` holds, else it is kept and becomes the last kept.
    */
  function DedupTail<T>(last: T, rest: seq<T>, same: (T, T) -> bool): seq<T>
    decreases |rest|
  {
    if rest == [] then []
    else if same(rest[0], last) then DedupTail(last, rest[1..], same)
    else [rest[0]] + DedupTail(rest[0], rest[1..], same)
  }

  /** `dedup_by`: the first element, then what `DedupTail` keeps of the others. */
  function Dedup<T>(s: seq<T>, same: (T, T) -> bool): seq<T>
  {
    if s == [] then [] else [s[0]] + DedupTail(s[0], s[1..], same)
  }

  /** `r` is `s` with some elements left out, the others in their order. */
  ghost predicate Subsequence<T>(r: seq<T>, s: seq<T>)
    decreases |s|
  {
    if r == [] then true
    else if s == [] then false
    else (r[0] == s[0] && Subsequence(r[1..], s[1..])) || Subsequence(r, s[1..])
  }

  /** No kept element is in the same bucket as the one kept before it. */
  predicate NoAdjacentSame<T>(r: seq<T>, same: (T, T) -> bool)
  {
    forall i :: 0 < i < |r| ==> !same(r[i], r[i - 1])
  }

  lemma {:induction false} DedupTailSubsequence<T>(last: T, rest: seq<T>, same: (T, T) -> bool)
    ensures Subsequence(DedupTail(last, rest, same), rest)
    decreases |rest|
  {
    if rest != [] {
      DedupTailSubsequence(if same(rest[0], last) then last else rest[0], rest[1..], same);
      var t := DedupTail(last, rest, same);
      if !same(rest[0], last) {
        assert t[0] == rest[0] && t[1..] == DedupTail(rest[0], rest[1..], same);
      }
    }
  }

  /** `dedup_by` keeps the first element and preserves the order of what it keeps. */
  lemma DedupSubsequence<T>(s: seq<T>, same: (T, T) -> bool)
    ensures Subsequence(Dedup(s, same), s)
    ensures s != [] ==> Dedup(s, same) != [] && Dedup(s, same)[0] == s[0]
  {
    if s != [] {
      DedupTailSubsequence(s[0], s[1..], same);
      var r := Dedup(s, same);
      assert r[1..] == DedupTail(s[0], s[1..], same);
    }
  }

  lemma {:induction false} DedupTailNoAdjacent<T>(last: T, rest: seq<T>, same: (T, T) -> bool)
    ensures var t := DedupTail(last, rest, same); NoAdjacentSame([last] + t, same)
    decreases |rest|
  {
    if rest != [] {
      if same(rest[0], last) {
        DedupTailNoAdjacent(last, rest[1..], same);
      } else {
        var t1 := DedupTail(rest[0], rest[1..], same);
        DedupTailNoAdjacent(rest[0], rest[1..], same);
        assert [last] + ([rest[0]] + t1) == [last] + ([rest[0]] + t1);
        forall i | 0 < i < |[last] + ([rest[0]] + t1)|
          ensures !same(([last] + ([rest[0]] + t1))[i], ([last] + ([rest[0]] + t1))[i - 1])
        {
          if i > 1 {
            assert ([last] + ([rest[0]] + t1))[i] == ([rest[0]] + t1)[i - 1];
            assert ([last] + ([rest[0]] + t1))[i - 1] == ([rest[0]] + t1)[i - 2];
          }
        }
      }
    }
  }

  /** After `dedup_by` no element is in the same bucket as the element kept before it. */
  lemma DedupNoAdjacent<T>(s: seq<T>, same: (T, T) -> bool)
    ensures NoAdjacentSame(Dedup(s, same), same)
  {
    if s != [] {
      DedupTailNoAdjacent(s[0], s[1..], same);
    }
  }

  lemma {:induction false} DedupTailKeeps<T>(last: T, t: seq<T>, same: (T, T) -> bool)
    requires NoAdjacentSame([last] + t, same)
    ensures DedupTail(last, t, same) == t
    decreases |t|
  {
    if t != [] {
      var lt := [last] + t;
      assert lt[1] == t[0] && lt[0] == last;
      assert !same(t[0], last);
      forall i | 0 < i < |t|
        ensures !same(t[i], t[i - 1])
      {
        assert t[i] == lt[i + 1] && t[i - 1] == lt[i];
      }
      assert [t[0]] + t[1..] == t;
      DedupTailKeeps(t[0], t[1..], same);
    }
  }

  /** A vector with no two neighbours in the same bucket is left as it is; so `dedup_by` is idempotent. */
  lemma DedupIdempotent<T>(s: seq<T>, same: (T, T) -> bool)
    ensures NoAdjacentSame(s, same) ==> Dedup(s, same) == s
    ensures Dedup(Dedup(s, same), same) == Dedup(s, same)
  {
    if s != [] && NoAdjacentSame(s, same) {
      assert [s[0]] + s[1..] == s;
      DedupTailKeeps(s[0], s[1..], same);
    }
    var r := Dedup(s, same);
    DedupNoAdjacent(s, same);
    if r != [] {
      assert [r[0]] + r[1..] == r;
      DedupTailKeeps(r[0], r[1..], same);
    }
  }

  /**
    * `slice_partition_dedup_by`: moves the elements `dedup_by` keeps to the front, in order,
    * by swapping, and returns how many there are.
    */
  method PartitionDedupBy<T>(a: array<T>, same: (T, T) -> bool) returns (w: nat)
    modifies a
    ensures w <= a.Length
    ensures a[..w] == Dedup(old(a[..]), same)
    ensures multiset(a[..]) == multiset(old(a[..]))
  {
    ghost var s := a[..];
    var len := a.Length;
    if len <= 1 {
      assert s == [] || s == [a[0]];
      return len;
    }
    var r := 1;
    w := 1;
    assert s[1..] == s[r..];
    while r < len
      invariant Partitioned(a[..], s, r, w, same)
    {
      w := PartitionStep(a, s, r, w, same);
      r := r + 1;
    }
    assert a[..w] + [] == a[..w];
  }

  /**
    * The state of `slice_partition_dedup_by` before reading slot `r`: the slots from `r`
    * on are untouched, the first `w` are what `dedup_by` keeps of the first `r`, and the
    * slots are a permutation of the original ones.
    */
  ghost predicate Partitioned<T>(cur: seq<T>, s: seq<T>, r: nat, w: nat, same: (T, T) -> bool)
  {
    && 1 <= w <= r <= |cur| == |s|
    && cur[r..] == s[r..]
    && cur[..w] + DedupTail(cur[w - 1], s[r..], same) == Dedup(s, same)
    && multiset(cur) == multiset(s)
  }

  /** One iteration of `slice_partition_dedup_by`'s loop: reads slot `r`, keeping it at `w` unless it is in the bucket of slot `w - 1`. */
  method PartitionStep<T>(a: array<T>, ghost s: seq<T>, r: nat, w: nat, same: (T, T) -> bool) returns (w1: nat)
    requires Partitioned(a[..], s, r, w, same) && r < a.Length
    modifies a
    ensures Partitioned(a[..], s, r + 1, w1, same)
  {
    var x := a[r];
    w1 := w;
    if !same(x, a[w - 1]) {
      ghost var cur := a[..];
      KeepStep(cur, s, r, w, same);
      if r != w {
        Swap(a, w, r);
        assert a[..] == cur[w := cur[r]][r := cur[w]];
      }
      w1 := w + 1;
    } else {
      SkipStep(a[..], s, r, w, same);
    }
  }

  /** Slot `r` in the bucket of slot `w - 1` is passed over. */
  lemma SkipStep<T>(cur: seq<T>, s: seq<T>, r: nat, w: nat, same: (T, T) -> bool)
    requires Partitioned(cur, s, r, w, same) && r < |cur| && same(cur[r], cur[w - 1])
    ensures Partitioned(cur, s, r + 1, w, same)
  {
    DedupTailStep(cur[w - 1], s[r..], same);
    assert s[r..][1..] == s[r + 1..];
    assert cur[r + 1..] == cur[r..][1..];
  }

  /** Slot `r` outside the bucket of slot `w - 1` is swapped into slot `w`. */
  lemma KeepStep<T>(cur: seq<T>, s: seq<T>, r: nat, w: nat, same: (T, T) -> bool)
    requires Partitioned(cur, s, r, w, same) && r < |cur| && !same(cur[r], cur[w - 1])
    ensures var next := if r != w then cur[w := cur[r]][r := cur[w]] else cur;
      Partitioned(next, s, r + 1, w + 1, same)
  {
    var x := cur[r];
    DedupTailStep(cur[w - 1], s[r..], same);
    assert s[r..][1..] == s[r + 1..];
    assert x == s[r] by { assert cur[r..][0] == s[r..][0]; }
    var next := if r != w then cur[w := cur[r]][r := cur[w]] else cur;
    assert next[..w + 1] == cur[..w] + [x];
    assert next[r + 1..] == cur[r + 1..];
    assert cur[r + 1..] == cur[r..][1..];
    if r != w {
      SwapMultiset(cur, w, r);
    }
  }

  lemma SwapMultiset<T>(cur: seq<T>, i: nat, j: nat)
    requires i < j < |cur|
    ensures multiset(cur[i := cur[j]][j := cur[i]]) == multiset(cur)
  {
    var mid := cur[i := cur[j]];
    assert multiset(mid) == multiset(cur) - multiset{cur[i]} + multiset{cur[j]};
    assert mid[j] == cur[j];
  }

  /** One step of `DedupTail`, unfolded. */
  lemma DedupTailStep<T>(last: T, rest: seq<T>, same: (T, T) -> bool)
    requires rest != []
    ensures same(rest[0], last) ==> DedupTail(last, rest, same) == DedupTail(last, rest[1..], same)
    ensures !same(rest[0], last) ==> DedupTail(last, rest, same) == [rest[0]] + DedupTail(rest[0], rest[1..], same)
  {
  }

  /** `mem::swap` of two slots of a slice. */
  method Swap<T>(a: array<T>, i: nat, j: nat)
    requires i < j < a.Length
    modifies a
    ensures a[..] == old(a[..])[i := old(a[j])][j := old(a[i])]
    ensures multiset(a[..]) == multiset(old(a[..]))
  {
    a[i], a[j] := a[j], a[i];
  }

  /** The vector: its `cap` and `len` words and the elements its buffer holds. */
  class SmallVec<T> {
    const tSize: nat
    var cap: nat
    var lenWord: nat
    var contents: seq<T>

    function Head(): Header
      reads this
    {
      Header(tSize, cap, lenWord)
    }

    ghost predicate Valid()
      reads this
    {
      Consistent(Head()) && LenOf(Head()) == |contents|
    }

    /** `capacity`. */
    function Capacity(): (c: nat)
      reads this
      requires Valid()
      ensures |contents| <= c
    {
      HeaderMeaning(Head());
      CapacityOf(Head())
    }

    /** `len`. */
    function Len(): (n: nat)
      reads this
      requires Valid()
      ensures n == |contents|
    {
      LenOf(Head())
    }

    /** `new`: inline and empty. */
    constructor (elemSize: nat)
      ensures Valid() && tSize == elemSize && contents == [] && IsInline(Head())
    {
      tSize := elemSize;
      cap := 0;
      lenWord := 0;
      contents := [];
    }

    /** `reserve`: room for `additional` more elements, saturating at `usize::MAX`. */
    method Reserve(additional: nat)
      requires Valid()
      modifies this
      ensures Valid() && contents == old(contents)
      ensures Capacity() >= SaturatingAdd(|contents|, additional)
      ensures old(Capacity()) >= SaturatingAdd(|contents|, additional) ==> Head() == old(Head())
    {
      var len := Len();
      var capacity := Capacity();
      var newCap := SaturatingAdd(len, additional);
      if newCap > capacity {
        ReserveSlow(additional, newCap);
      }
    }

    /**
      * `reserve_slow`: from inline, a new heap buffer of at least `new_cap`; on the heap,
      * the buffer grown by `Vec::reserve`. The exact capacity is the allocator's choice.
      */
    method ReserveSlow(additional: nat, newCap: nat)
      requires Valid() && newCap == SaturatingAdd(|contents|, additional) && newCap > Capacity()
      modifies this
      ensures Valid() && !IsInline(Head()) && contents == old(contents) && Capacity() >= newCap
    {
      var len := Len();
      HeaderMeaning(Head());
      var vecCap: nat;
      if IsInline(Head()) {
        vecCap :| newCap <= vecCap <= UsizeMax;
      } else {
        vecCap :| SaturatingAdd(len, additional) <= vecCap <= UsizeMax;
      }
      cap := vecCap;
      lenWord := len;
    }

    /** Counts one more element in whichever word holds the length. */
    method BumpLen(x: T)
      requires Valid() && |contents| < Capacity()
      modifies this
      ensures Valid() && contents == old(contents) + [x] && IsInline(Head()) == old(IsInline(Head()))
      ensures Capacity() == old(Capacity())
    {
      HeaderMeaning(Head());
      if IsInline(Head()) {
        cap := cap + 1;
      } else {
        lenWord := lenWord + 1;
      }
      contents := contents + [x];
    }

    /** `push`. */
    method Push(x: T)
      requires Valid() && |contents| < UsizeMax
      modifies this
      ensures Valid() && contents == old(contents) + [x]
    {
      Reserve(1);
      BumpLen(x);
    }

    /** `pop`. */
    method Pop() returns (r: Option<T>)
      requires Valid()
      modifies this
      ensures Valid() && (r, contents) == PopLast(old(contents))
      ensures IsInline(Head()) == old(IsInline(Head())) && Capacity() == old(Capacity())
    {
      HeaderMeaning(Head());
      if |contents| == 0 {
        return None;
      }
      var l := Len() - 1;
      if IsInline(Head()) {
        cap := l;
      } else {
        lenWord := l;
      }
      r := Some(contents[l]);
      contents := contents[..l];
    }

    /** `truncate`: panics when `n` exceeds the length. */
    method Truncate(n: nat)
      requires Valid() && n <= |contents|
      modifies this
      ensures Valid() && contents == old(contents)[..n]
      ensures IsInline(Head()) == old(IsInline(Head())) && Capacity() == old(Capacity())
    {
      HeaderMeaning(Head());
      if IsInline(Head()) {
        cap := n;
      } else {
        lenWord := n;
      }
      contents := contents[..n];
    }

    /** `clear`. */
    method Clear()
      requires Valid()
      modifies this
      ensures Valid() && contents == [] && Capacity() == old(Capacity())
    {
      Truncate(0);
    }

    /**
      * `shrink_to_fit`: nothing while inline; back inline when the elements fit there;
      * otherwise the heap buffer shrunk by `Vec::shrink_to_fit`, to a capacity of the
      * allocator's choice between the length and the old capacity.
      */
    method ShrinkToFit()
      requires Valid()
      modifies this
      ensures Valid() && contents == old(contents)
      ensures old(IsInline(Head())) ==> Head() == old(Head())
      ensures IsInline(Head()) <==> |contents| <= InlineCapacity(tSize)
      ensures |contents| <= Capacity() <= old(Capacity())
    {
      var len := Len();
      HeaderMeaning(Head());
      if IsInline(Head()) {
      } else if len <= InlineCapacity(tSize) {
        cap := len;
      } else {
        var c :| len <= c <= cap;
        cap := c;
        lenWord := len;
      }
    }

    /** `extend_from_slice`: reserves once, then writes the elements one by one. */
    method ExtendFromSlice(xs: seq<T>)
      requires Valid() && |contents| + |xs| <= UsizeMax
      modifies this
      ensures Valid() && contents == old(contents) + xs
    {
      Reserve(|xs|);
      var i := 0;
      while i < |xs|
        invariant 0 <= i <= |xs|
        invariant Valid() && contents == old(contents) + xs[..i]
        invariant Capacity() >= |old(contents)| + |xs|
      {
        BumpLen(xs[i]);
        assert xs[..i + 1] == xs[..i] + [xs[i]];
        i := i + 1;
      }
      assert xs[..i] == xs;
    }

    /** `dedup_by`: partitions the elements in place, then truncates to the kept ones. */
    method DedupBy(same: (T, T) -> bool)
      requires Valid()
      modifies this
      ensures Valid() && contents == Dedup(old(contents), same)
    {
      var a := new T[|contents|](i reads this requires 0 <= i < |contents| => contents[i]);
      assert a[..] == contents;
      var w := PartitionDedupBy(a, same);
      assert |a[..]| == |contents|;
      Truncate(w);
      contents := a[..w];
    }
  }
}
