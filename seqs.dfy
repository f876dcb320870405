/** Small sequence searches the source takes from Swift's library:
    `firstIndex(where:)` / `first(where:)`, and the first index of a minimum. */
module Seqs {

  datatype Option<T> = None | Some(value: T)

  /** `firstIndex(where:)`: the lowest index whose element satisfies p, if any. */
  function FirstIndex<T>(s: seq<T>, p: T -> bool): (r: Option<nat>)
    ensures r.Some? ==> r.value < |s| && p(s[r.value])
    ensures r.Some? ==> forall j :: 0 <= j < r.value ==> !p(s[j])
    ensures r.None? <==> forall j :: 0 <= j < |s| ==> !p(s[j])
  {
    if s == [] then None
    else if p(s[0]) then Some(0)
    else match FirstIndex(s[1..], p)
      case None => None
      case Some(i) => Some(i + 1)
  }

  /** `d.min()` followed by `d.firstIndex { $0 == min }`: the lowest index of a
      smallest element. */
  function ArgMin(d: seq<real>): (k: nat)
    requires |d| > 0
    ensures k < |d|
    ensures forall j :: 0 <= j < |d| ==> d[k] <= d[j]
    ensures forall j :: 0 <= j < k ==> d[k] < d[j]
  {
    if |d| == 1 then 0
    else
      var k := ArgMin(d[1..]) + 1;
      if d[0] <= d[k] then 0 else k
  }
}
