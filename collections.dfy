/**
 * The two array operations every collection update in the application is
 * built from: `Array.prototype.filter` and `Array.prototype.findIndex`.
 */
module Collections {

  /** `s.filter(keep)`: the elements `keep` accepts, in their original order. */
  function Filter<T(!new)>(s: seq<T>, keep: T -> bool): (r: seq<T>)
    ensures |r| <= |s|
    ensures forall x :: x in r <==> x in s && keep(x)
    ensures |r| == |s| <==> forall i :: 0 <= i < |s| ==> keep(s[i])
  {
    if s == [] then []
    else
      var rest := Filter(s[1..], keep);
      assert forall i :: 1 <= i < |s| ==> s[i] == s[1..][i - 1];
      if keep(s[0]) then [s[0]] + rest else rest
  }

  /** Filtering a concatenation filters each part: the survivors keep their relative order. */
  lemma {:induction false} FilterAppend<T(!new)>(a: seq<T>, b: seq<T>, keep: T -> bool)
    ensures Filter(a + b, keep) == Filter(a, keep) + Filter(b, keep)
  {
    if a != [] {
      assert (a + b)[1..] == a[1..] + b;
      FilterAppend(a[1..], b, keep);
    } else {
      assert a + b == b;
    }
  }

  /** Filtering keeps a list whose every element is accepted exactly as it is. */
  lemma {:induction false} FilterKeepsAll<T(!new)>(s: seq<T>, keep: T -> bool)
    requires forall i :: 0 <= i < |s| ==> keep(s[i])
    ensures Filter(s, keep) == s
  {
    if s != [] {
      FilterKeepsAll(s[1..], keep);
    }
  }

  /** Filtering twice by the same test is filtering once. */
  lemma FilterIdempotent<T(!new)>(s: seq<T>, keep: T -> bool)
    ensures Filter(Filter(s, keep), keep) == Filter(s, keep)
  {
    var r := Filter(s, keep);
    assert forall i :: 0 <= i < |r| ==> r[i] in r;
    FilterKeepsAll(r, keep);
  }

  /**
   * `s.findIndex(matches)`: the position of the first element that matches,
   * or -1 when none does.
   */
  function FirstIndex<T>(s: seq<T>, matches: T -> bool): (r: int)
    ensures -1 <= r < |s|
    ensures r == -1 <==> forall i :: 0 <= i < |s| ==> !matches(s[i])
    ensures 0 <= r ==> matches(s[r]) && forall i :: 0 <= i < r ==> !matches(s[i])
  {
    if s == [] then -1
    else if matches(s[0]) then 0
    else
      var t := FirstIndex(s[1..], matches);
      assert forall i :: 1 <= i < |s| ==> s[i] == s[1..][i - 1];
      if t == -1 then -1 else t + 1
  }

  /** The test `findIndex` applies to find a record by id, given how a record's id is read. */
  function HasId<T(!new)>(idOf: T -> string, id: string): (test: T -> bool)
    ensures forall x :: test(x) <==> idOf(x) == id
  {
    (x: T) => idOf(x) == id
  }

  /** The test `filter` applies to drop the records with an id. */
  function LacksId<T(!new)>(idOf: T -> string, id: string): (test: T -> bool)
    ensures forall x :: test(x) <==> idOf(x) != id
  {
    (x: T) => idOf(x) != id
  }
}
