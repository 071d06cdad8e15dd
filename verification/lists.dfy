/** The System.Collections.Generic.List<T> operations the wrappers delegate to, on sequences. */
module Lists {

  /** `List.IndexOf` under a given equality: the first index whose element matches, or -1. */
  function FirstIndexOf<T>(s: seq<T>, matches: T -> bool): (r: int)
    ensures -1 <= r < |s|
    ensures r == -1 <==> forall i :: 0 <= i < |s| ==> !matches(s[i])
    ensures 0 <= r ==> matches(s[r]) && forall i :: 0 <= i < r ==> !matches(s[i])
  {
    if |s| == 0 then -1
    else if matches(s[0]) then 0
    else
      var k := FirstIndexOf(s[1..], matches);
      if k == -1 then -1 else k + 1
  }

  /** `List.RemoveAt`: later elements shift one place to the left. */
  function RemoveAt<T>(s: seq<T>, i: nat): (r: seq<T>)
    requires i < |s|
    ensures |r| == |s| - 1
    ensures forall j :: 0 <= j < i ==> r[j] == s[j]
    ensures forall j :: i <= j < |r| ==> r[j] == s[j + 1]
  {
    s[..i] + s[i + 1..]
  }

  /** `List.Insert`: `x` lands at index `i`, later elements shift one place to the right. */
  function InsertAt<T>(s: seq<T>, i: nat, x: T): (r: seq<T>)
    requires i <= |s|
    ensures |r| == |s| + 1 && r[i] == x
    ensures forall j :: 0 <= j < i ==> r[j] == s[j]
    ensures forall j :: i < j < |r| ==> r[j] == s[j - 1]
  {
    s[..i] + [x] + s[i..]
  }

  /** `List.Remove`: drop the first matching element, reporting whether there was one. */
  function RemoveFirst<T>(s: seq<T>, matches: T -> bool): (r: (bool, seq<T>))
    ensures r.0 <==> exists i :: 0 <= i < |s| && matches(s[i])
    ensures !r.0 ==> r.1 == s
    ensures r.0 ==> r.1 == RemoveAt(s, FirstIndexOf(s, matches))
  {
    var k := FirstIndexOf(s, matches);
    if k == -1 then (false, s) else (true, RemoveAt(s, k))
  }

  /** Removing, then inserting the removed element back where it was, restores the list. */
  lemma InsertRemoved<T>(s: seq<T>, i: nat)
    requires i < |s|
    ensures InsertAt(RemoveAt(s, i), i, s[i]) == s
  {
    var r := InsertAt(RemoveAt(s, i), i, s[i]);
    assert forall j :: 0 <= j < |s| ==> r[j] == s[j];
  }
}
