/** The three `Vec` operations the registries and binding lists are built from:
    `iter().position`, `swap_remove` and `insert`. */
module Seqs {
  import opened Results

  /** `s.iter().position(p)`: the index of the first element satisfying `p`. */
  function Position<T>(s: seq<T>, p: T -> bool): (r: Option<nat>)
    ensures r.Some? ==> r.value < |s| && p(s[r.value])
    ensures r.Some? ==> forall j :: 0 <= j < r.value ==> !p(s[j])
    ensures r.None? <==> forall j :: 0 <= j < |s| ==> !p(s[j])
    decreases |s|
  {
    if |s| == 0 then None
    else if p(s[0]) then Some(0)
    else
      match Position(s[1..], p)
      case None => None
      case Some(k) => Some(k + 1)
  }

  /** `s.iter().position(|&y| y == x)`: `Position` with an equality test, stated as "the
      first index holding `x`" so that lookups by id need no closure and no recursion. */
  function IndexOf<T(==)>(s: seq<T>, x: T): (r: Option<nat>)
    ensures r.Some? ==> r.value < |s| && s[r.value] == x
    ensures r.Some? ==> forall j :: 0 <= j < r.value ==> s[j] != x
    ensures r.None? <==> x !in s
  {
    if x !in s then None
    else
      FirstIndexExists(s, x, |s|);
      var i :| 0 <= i < |s| && s[i] == x && forall j :: 0 <= j < i ==> s[j] != x;
      Some(i)
  }

  /** A value in `s[..n]` has a first index there. */
  lemma {:induction false} FirstIndexExists<T>(s: seq<T>, x: T, n: nat)
    requires n <= |s| && x in s[..n]
    ensures exists i :: 0 <= i < n && s[i] == x && forall j :: 0 <= j < i ==> s[j] != x
  {
    if x in s[..n - 1] {
      FirstIndexExists(s, x, n - 1);
    } else {
      assert s[n - 1] == x;
      assert forall j :: 0 <= j < n - 1 ==> s[j] != x by {
        forall j | 0 <= j < n - 1 ensures s[j] != x {
          assert s[j] == s[..n - 1][j];
        }
      }
    }
  }

  /** `v.swap_remove(i)`: the element at `i` is removed and the last element takes its place. */
  function SwapRemove<T>(s: seq<T>, i: nat): (r: seq<T>)
    requires i < |s|
    ensures |r| == |s| - 1
    ensures i < |r| ==> r[i] == s[|s| - 1]
    ensures forall j :: 0 <= j < |r| && j != i ==> r[j] == s[j]
    ensures multiset(r) + multiset{s[i]} == multiset(s)
  {
    var last := |s| - 1;
    if i == last then
      assert s == s[..last] + [s[last]];
      s[..last]
    else
      var r := s[..i] + [s[last]] + s[i + 1 .. last];
      assert s == s[..i] + [s[i]] + s[i + 1 .. last] + [s[last]];
      r
  }

  /** `v.insert(i, x)`: `x` lands at index `i`, later elements shift right by one. */
  function Insert<T>(s: seq<T>, i: nat, x: T): (r: seq<T>)
    requires i <= |s|
    ensures |r| == |s| + 1
    ensures r[i] == x
    ensures forall j :: 0 <= j < i ==> r[j] == s[j]
    ensures forall j :: i < j < |r| ==> r[j] == s[j - 1]
    ensures multiset(r) == multiset(s) + multiset{x}
    ensures r[..i] + r[i + 1..] == s
  {
    assert s == s[..i] + s[i..];
    var r := s[..i] + [x] + s[i..];
    assert r[..i] == s[..i] && r[i + 1..] == s[i..];
    r
  }

  /** Every element of `s` is still in `SwapRemove(s, i)` except the removed one. */
  lemma SwapRemoveKeeps<T>(s: seq<T>, i: nat, j: nat)
    requires i < |s| && j < |s| && j != i
    ensures s[j] in SwapRemove(s, i)
  {
    var r := SwapRemove(s, i);
    if j == |s| - 1 {
      assert r[i] == s[j];
    } else {
      assert r[j] == s[j];
    }
  }
}
