/** Small datatypes and sequence facts shared by every component. */
module Common {

  datatype Option<+T> = None | Some(value: T)

  datatype Result<+T, +E> = Ok(value: T) | Err(error: E)

  function Last<T>(s: seq<T>): T
    requires |s| > 0
  {
    s[|s| - 1]
  }

  function Front<T>(s: seq<T>): seq<T>
    requires |s| > 0
  {
    s[..|s| - 1]
  }

  lemma SnocFront<T>(s: seq<T>, x: T)
    ensures (s + [x])[..|s|] == s && Front(s + [x]) == s && Last(s + [x]) == x
  {
  }

  // ---------------------------------------------------------------- amounts

  lemma ScaleReal(k: real, a: real, b: real)
    requires k >= 0.0 && a <= b
    ensures k * a <= k * b
  {
  }

  lemma ScaleStrict(k: real, a: real, b: real)
    requires k > 0.0 && a < b
    ensures k * a < k * b
  {
  }

  lemma QuotientTimes(total: real, unit: real)
    requires unit != 0.0
    ensures unit * (total / unit) == total
  {
  }

  /** The floor of a quotient is the largest whole number of units that fits. */
  lemma FloorFits(total: real, unit: real)
    requires unit > 0.0
    ensures unit * (total / unit).Floor as real <= total
  {
    var exact := total / unit;
    QuotientTimes(total, unit);
    ScaleReal(unit, exact.Floor as real, exact);
  }

  lemma AboveFloor(total: real, unit: real, q: int)
    requires unit > 0.0 && q > (total / unit).Floor
    ensures unit * q as real > total
  {
    var exact := total / unit;
    QuotientTimes(total, unit);
    ScaleStrict(unit, exact, q as real);
  }
}
