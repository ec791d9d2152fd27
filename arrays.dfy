/** The two JavaScript array operations the game relies on, on sequences. */
module Arrays {

  /** `splice(i, 1)`: removes the element at index i, or nothing when the
      array has no index i. */
  function Splice<T>(s: seq<T>, i: nat): (r: seq<T>)
    ensures i < |s| ==> |r| == |s| - 1
    ensures i >= |s| ==> r == s
    ensures forall j :: 0 <= j < |r| && j < i ==> r[j] == s[j]
    ensures forall j :: i <= j < |r| ==> r[j] == s[j + 1]
  {
    if i < |s| then s[..i] + s[i + 1..] else s
  }

  ghost predicate Distinct<T>(s: seq<T>)
  {
    forall j, k :: 0 <= j < k < |s| ==> s[j] != s[k]
  }

  lemma SpliceKeepsDistinct<T>(s: seq<T>, i: nat)
    requires Distinct(s)
    ensures Distinct(Splice(s, i))
    ensures forall x :: x in Splice(s, i) ==> x in s
  {
    var r := Splice(s, i);
    forall x | x in r
      ensures x in s
    {
      var j :| 0 <= j < |r| && r[j] == x;
      if j < i {
        assert s[j] == x;
      } else {
        assert s[j + 1] == x;
      }
    }
  }

  lemma PushKeepsDistinct<T>(s: seq<T>, x: T)
    requires Distinct(s) && x !in s
    ensures Distinct(s + [x])
  {
  }
}
