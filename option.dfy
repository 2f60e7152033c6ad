/** Rust's `Option<T>`, restricted to what `src/lib.rs` uses of it. */
module RustOption {

  datatype Option<T> = None | Some(value: T) {

    /**
     * `Option::unwrap_or`: the carried value, or `default` when there is none.
     * Its ensures are the two laws the crate asserts, for every value and default.
     */
    function UnwrapOr(default: T): (r: T)
      ensures Some? ==> r == value
      ensures None? ==> r == default
    {
      match this
      case Some(v) => v
      case None => default
    }
  }

  /** The concrete assertions of `tests::it_works0` and `demo`. */
  lemma UnwrapOrExamples()
    ensures Some("car").UnwrapOr("bike") == "car"
    ensures Some(1).UnwrapOr(-1) == 1
    ensures None.UnwrapOr("bike") == "bike"
    ensures None.UnwrapOr(-1) == -1
  {
  }
}
