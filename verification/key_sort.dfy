/** Sorting the distinct integer keys of a map into ascending order (TMap::KeySort with TLess). */
module KeySort {

  predicate StrictlyIncreasing(s: seq<int>) {
    forall i, j :: 0 <= i < j < |s| ==> s[i] < s[j]
  }

  predicate Distinct(s: seq<int>) {
    forall i, j :: 0 <= i < j < |s| ==> s[i] != s[j]
  }

  /** Inserts a new key into an ascending sequence, keeping it ascending. */
  function Insert(x: int, s: seq<int>): (r: seq<int>)
    requires StrictlyIncreasing(s) && x !in s
    ensures StrictlyIncreasing(r)
    ensures forall y :: y in r <==> y == x || y in s
    ensures |r| == |s| + 1
  {
    if |s| == 0 then [x]
    else if x < s[0] then
      assert forall j :: 0 <= j < |s| ==> s[0] <= s[j];
      [x] + s
    else
      var rest := Insert(x, s[1..]);
      assert forall j :: 0 <= j < |rest| ==> rest[j] in rest;
      assert forall y :: y in s[1..] ==> s[0] < y;
      [s[0]] + rest
  }

  /** The keys in ascending order: same elements, each once. */
  function Sort(s: seq<int>): (r: seq<int>)
    requires Distinct(s)
    ensures StrictlyIncreasing(r)
    ensures forall y :: y in r <==> y in s
    ensures |r| == |s|
  {
    if |s| == 0 then []
    else
      var rest := Sort(s[1..]);
      assert s[0] !in s[1..];
      Insert(s[0], rest)
  }
}
