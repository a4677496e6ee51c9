/** The elements of a list that meet a condition, in their order. */
module Selections {

  function Kept<T>(s: seq<T>, keep: T -> bool): seq<T> {
    if s == [] then []
    else Kept(s[..|s| - 1], keep) + if keep(s[|s| - 1]) then [s[|s| - 1]] else []
  }

  /** Exactly these elements, each as often as it stands in the list, in order: at says where. */
  lemma {:induction false} KeptInOrder<T>(s: seq<T>, keep: T -> bool) returns (at: seq<nat>)
    ensures |at| == |Kept(s, keep)|
    ensures forall i :: 0 <= i < |at| ==> at[i] < |s| && s[at[i]] == Kept(s, keep)[i]
    ensures forall i, j :: 0 <= i < j < |at| ==> at[i] < at[j]
    ensures forall k: nat :: k in at <==> k < |s| && keep(s[k])
  {
    if s == [] {
      at := [];
    } else {
      var n := |s| - 1;
      var before := KeptInOrder(s[..n], keep);
      at := before + (if keep(s[n]) then [n] else []);
      assert n !in before;
      forall k: nat ensures k in at <==> k < |s| && keep(s[k]) {
        assert k < n ==> s[..n][k] == s[k];
        assert k in at <==> k in before || (k == n && keep(s[n]));
      }
    }
  }

  lemma {:induction false} KeptFront<T>(s: seq<T>, keep: T -> bool)
    requires s != []
    ensures Kept(s, keep) == (if keep(s[0]) then [s[0]] else []) + Kept(s[1..], keep)
  {
    if |s| > 1 {
      var n := |s| - 1;
      KeptFront(s[..n], keep);
      assert s[..n][1..] == s[1..][..n - 1] && s[1..][n - 1] == s[n];
    }
  }
}
