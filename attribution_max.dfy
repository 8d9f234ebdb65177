/**
 * `maxAttr`, the largest attribution value: `attr.data.reduce((a, b) =>
 * Math.max(a, b), -Infinity)` in index.js, a left fold of `Math.max` that
 * starts from minus infinity.
 */
module AttributionMax {

  /** The reals extended below by minus infinity, the fold's start value. */
  datatype Extended = NegInfinity | Finite(value: real)

  /** `Math.max(a, b)` with `a` possibly minus infinity. */
  function Max(a: Extended, b: real): (r: Extended)
    ensures r.Finite? && b <= r.value
    ensures a.Finite? ==> a.value <= r.value
    ensures r == a || r.value == b
  {
    match a
    case NegInfinity => Finite(b)
    case Finite(v) => if v >= b then a else Finite(b)
  }

  /** The fold `s.reduce((a, b) => Math.max(a, b), acc)`. */
  function MaxReduce(acc: Extended, s: seq<real>): (r: Extended)
    ensures forall i :: 0 <= i < |s| ==> r.Finite? && s[i] <= r.value
    ensures acc.Finite? ==> r.Finite? && acc.value <= r.value
    ensures r == acc || (r.Finite? && r.value in s)
    decreases |s|
  {
    if s == [] then acc else MaxReduce(Max(acc, s[0]), s[1..])
  }

  /**
   * `maxAttr`: minus infinity exactly for empty data, otherwise an element of
   * the data at least as large as every element.
   */
  function MaxAttr(data: seq<real>): (r: Extended)
    ensures r == NegInfinity <==> data == []
    ensures r.Finite? ==> r.value in data && forall i :: 0 <= i < |data| ==> data[i] <= r.value
  {
    MaxReduce(NegInfinity, data)
  }

  /** The maximum is the only element that bounds all the others. */
  lemma MaxAttrUnique(data: seq<real>, m: real)
    requires m in data
    requires forall i :: 0 <= i < |data| ==> data[i] <= m
    ensures MaxAttr(data) == Finite(m)
  {
  }
}
