/**
  * The hash-consing `Cache` of `lib-arena/src/cache.rs`: a set of boxed values, where
  * inserting a value already present gives back the box that holds it and drops the new
  * one. A box is named by the order in which it was allocated.
  */
module Cache {
  import opened Wrappers

  /**
    * The abstract cache: the boxes allocated so far, and the set, as the box holding each
    * value present.
    */
  datatype Store<T> = Store(boxes: seq<T>, index: map<T, nat>)

  /** Every box is in the set, holding the value it is found under, and no two entries share a box. */
  predicate Sound<T>(c: Store<T>)
  {
    && |c.index| == |c.boxes|
    && (forall v :: v in c.index ==> c.index[v] < |c.boxes| && c.boxes[c.index[v]] == v)
  }

  /** `new`: an empty set. */
  function Empty<T>(): (c: Store<T>)
    ensures Sound(c) && c.index == map[]
  {
    Store([], map[])
  }

  /** `get`: the box holding a value equal to `v`, if any. */
  function Lookup<T>(c: Store<T>, v: T): (r: Option<nat>)
    requires Sound(c)
    ensures r.Some? <==> v in c.index
    ensures r.Some? ==> r.value < |c.boxes| && c.boxes[r.value] == v
  {
    if v in c.index then Some(c.index[v]) else None
  }

  /**
    * `insert`: the box already holding a value equal to `v`, or a new box holding `v`;
    * the flag is `mark`, true when `v` was dropped because an equal value was present.
    */
  function Added<T>(c: Store<T>, v: T): (r: (nat, bool, Store<T>))
    requires Sound(c)
    ensures Sound(r.2)
  {
    if v in c.index then (c.index[v], true, c)
    else
      var c1 := Store(c.boxes + [v], c.index[v := |c.boxes|]);
      assert |c1.index| == |c.index| + 1;
      (|c.boxes|, false, c1)
  }

  /** Nothing is found in a new cache. */
  lemma GetEmpty<T>(v: T)
    ensures Lookup(Empty<T>(), v).None?
  {
  }

  /** `insert` returns a box holding a value equal to `v`, and afterwards `get(v)` finds that box. */
  lemma InsertThenGet<T>(c: Store<T>, v: T)
    requires Sound(c)
    ensures var (b, _, c1) := Added(c, v); b < |c1.boxes| && c1.boxes[b] == v && Lookup(c1, v) == Some(b)
  {
  }

  /** Inserting an equal value twice returns the same box, and the second insertion changes nothing. */
  lemma InsertTwice<T>(c: Store<T>, v: T)
    requires Sound(c)
    ensures var (b, _, c1) := Added(c, v); Added(c1, v) == (b, true, c1)
  {
  }

  /**
    * When an equal value is present the new one is dropped and the cache is unchanged;
    * otherwise it is kept, the set grows by exactly that value and no box is moved.
    */
  lemma InsertGrows<T>(c: Store<T>, v: T)
    requires Sound(c)
    ensures var (_, dropped, c1) := Added(c, v);
      && (dropped <==> v in c.index)
      && (dropped ==> c1 == c)
      && (!dropped ==> c1.index.Keys == c.index.Keys + {v} && c1.boxes[..|c.boxes|] == c.boxes && |c1.boxes| == |c.boxes| + 1)
  {
    var (_, dropped, c1) := Added(c, v);
    if !dropped {
      assert c1.boxes[..|c.boxes|] == c.boxes;
    }
  }

  /** Values already cached keep their boxes across any insertion. */
  lemma InsertKeeps<T>(c: Store<T>, v: T, w: T)
    requires Sound(c) && w in c.index
    ensures Lookup(Added(c, v).2, w) == Lookup(c, w)
  {
  }

  /** `Cache`: the `HashSet` of boxes, behind its lock. */
  class Cache<T(==)> {
    var boxes: seq<T>
    var index: map<T, nat>

    function View(): Store<T>
      reads this
    {
      Store(boxes, index)
    }

    constructor ()
      ensures View() == Empty()
    {
      boxes := [];
      index := map[];
    }

    /** `get`. */
    method Get(v: T) returns (r: Option<nat>)
      requires Sound(View())
      ensures r == Lookup(View(), v)
    {
      if v in index {
        return Some(index[v]);
      }
      return None;
    }

    /**
      * `insert`: `get_or_insert_with`, whose closure clears `mark` and boxes the value;
      * `mark` still set afterwards means the value given was dropped in place.
      */
    method Insert(v: T) returns (b: nat, mark: bool)
      requires Sound(View())
      modifies this
      ensures Sound(View()) && (b, mark, View()) == Added(old(View()), v)
    {
      mark := true;
      if v !in index {
        mark := false;
        index := index[v := |boxes|];
        boxes := boxes + [v];
      }
      b := index[v];
    }
  }
}
