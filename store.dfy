/** What the handlers rely on from the database: a `findOne` without an ordering returns the
    first matching row in table order. */
module Store {
  import opened Http

  /** A `findOne` over a table in row order: the position of the first row satisfying `p`, or
      `None` when no row does. */
  function FindFirst<T>(s: seq<T>, p: T -> bool): (r: Option<nat>)
    ensures r.Some? ==> r.value < |s| && p(s[r.value])
    ensures forall i :: 0 <= i < |s| && (r.None? || i < r.value) ==> !p(s[i])
  {
    if s == [] then None
    else if p(s[0]) then Some(0)
    else match FindFirst(s[1..], p)
      case None => None
      case Some(k) => Some(k + 1)
  }
}
