/** The optional value every module of the model shares. */
module Options {
  datatype Option<+T> = None | Some(value: T)

  /** The smaller of two optional bounds, where an absent bound is no bound. */
  function Earliest(a: Option<int>, b: Option<int>): (r: Option<int>)
    ensures r.None? <==> a.None? && b.None?
    ensures r.Some? ==> r == a || r == b
    ensures r.Some? && a.Some? ==> r.value <= a.value
    ensures r.Some? && b.Some? ==> r.value <= b.value
  {
    match (a, b)
    case (None, _) => b
    case (_, None) => a
    case (Some(x), Some(y)) => if x <= y then a else b
  }
}
