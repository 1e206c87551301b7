/** The values a cell of a pandas data frame can hold in this model. */
module Cells {
  import opened Calendar

  /** `Root(v)` is the non-negative square root of `v`, kept symbolic; `Missing` is what
      pandas shows as NaN or NaT, the values `pd.isna` reports. */
  datatype Cell = Num(x: real) | Root(radicand: real) | Stamp(t: DateTime) | Text(s: string) | Flag(b: bool) | Missing

  /** `fillna(0)` restricted to the columns `cols`: a missing value in one of them becomes 0,
      every other cell is kept. */
  function FillNa<K>(m: map<K, Cell>, cols: set<K>): (r: map<K, Cell>)
    ensures r.Keys == m.Keys
    ensures forall k :: k in m && k in cols ==> !r[k].Missing?
    ensures forall k :: k in m && !m[k].Missing? ==> r[k] == m[k]
    ensures forall k :: k in m && k !in cols ==> r[k] == m[k]
  {
    map k | k in m :: if k in cols && m[k].Missing? then Num(0.0) else m[k]
  }

  /** `cell == v` in pandas: a missing value equals nothing. */
  predicate Equals(c: Cell, v: real) {
    c.Num? && c.x == v
  }

  /** `cell > v` in pandas: a comparison with a missing value is false. */
  predicate Exceeds(c: Cell, v: real) {
    c.Num? && c.x > v
  }
}
