/** Option and Result, shaped after the Rust types the modelled crates return. */
module Wrappers {

  datatype Option<+T> = None | Some(value: T)

  datatype Result<+T, +E> = Ok(value: T) | Err(error: E)

  /** The values held by a run of slots that are all written, as the vector and arena slabs keep them. */
  function Values<T>(slots: seq<Option<T>>): (r: seq<T>)
    requires forall i :: 0 <= i < |slots| ==> slots[i].Some?
    ensures |r| == |slots| && forall i :: 0 <= i < |slots| ==> slots[i] == Some(r[i])
  {
    seq(|slots|, i requires 0 <= i < |slots| => slots[i].value)
  }
}
