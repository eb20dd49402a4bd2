/**
  IEEE-754 values as the source's tensors and numpy arrays hold them: a finite
  real, an infinity or NaN.  Only the comparisons and the division the model
  needs are defined.
*/
module Floats {

  datatype Ext = Num(r: real) | PosInf | NegInf | NaN

  /** `a < b` in IEEE arithmetic: false whenever NaN is involved. */
  predicate Less(a: Ext, b: Ext) {
    match (a, b)
    case (Num(x), Num(y)) => x < y
    case (NegInf, Num(_)) => true
    case (NegInf, PosInf) => true
    case (Num(_), PosInf) => true
    case _ => false
  }

  /** The position of a value in the order torch.sort uses: -inf, the finite
      values, +inf, and NaN after every other value. */
  function Rank(x: Ext): int {
    match x
    case NegInf => 0
    case Num(_) => 1
    case PosInf => 2
    case NaN => 3
  }

  /** `a <= b` in torch.sort's order, a total order on Ext. */
  predicate SortLe(a: Ext, b: Ext) {
    Rank(a) < Rank(b) || (Rank(a) == Rank(b) && (a.Num? ==> a.r <= b.r))
  }

  lemma SortLeTransitive(a: Ext, b: Ext, c: Ext)
    requires SortLe(a, b) && SortLe(b, c)
    ensures SortLe(a, c)
  {
  }

  lemma SortLeTotal(a: Ext, b: Ext)
    ensures SortLe(a, b) || SortLe(b, a)
  {
  }

  /** Away from NaN, torch.sort's order is the IEEE order. */
  lemma LessIsNotSortLe(a: Ext, b: Ext)
    requires !a.NaN? && !b.NaN?
    ensures Less(a, b) <==> !SortLe(b, a)
  {
  }

  /** numpy's float division: a zero divisor gives an infinity, or NaN for 0/0,
      instead of raising. */
  function Div(a: real, b: real): (q: Ext)
    ensures b != 0.0 ==> q == Num(a / b)
    ensures b == 0.0 ==> (q.NaN? <==> a == 0.0)
    ensures b == 0.0 && a > 0.0 ==> q == PosInf
    ensures b == 0.0 && a < 0.0 ==> q == NegInf
  {
    if b != 0.0 then Num(a / b)
    else if a > 0.0 then PosInf
    else if a < 0.0 then NegInf
    else NaN
  }
}
