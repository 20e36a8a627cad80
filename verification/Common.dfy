/** Shared vocabulary: identifiers, clock readings and optional columns. */
module Common {
  type Id = int

  /** A clock reading. Only the order of readings matters. */
  type Time = int

  /** A nullable column. */
  datatype Option<+T> = None | Some(value: T)

  /** A part is no larger than the whole. */
  lemma SubsetSize<T>(part: set<T>, whole: set<T>)
    requires part <= whole
    ensures |part| <= |whole|
  {
    assert whole == part + (whole - part);
  }
}
