/** Taking elements out of a list. */
module Sequences {
  function Rejected<T(!new)>(s: seq<T>, drop: T -> bool): seq<T> {
    if s == [] then []
    else if drop(s[0]) then Rejected(s[1..], drop)
    else [s[0]] + Rejected(s[1..], drop)
  }

  ghost predicate Pairwise<T(!new)>(s: seq<T>, rel: (T, T) -> bool) {
    forall i, j :: 0 <= i < j < |s| ==> rel(s[i], s[j])
  }

  /** Exactly the others stay, and whatever holds of all pairs in order goes on to hold. */
  lemma {:induction false} RejectedMembers<T(!new)>(s: seq<T>, drop: T -> bool, rel: (T, T) -> bool)
    ensures forall x :: x in Rejected(s, drop) <==> x in s && !drop(x)
    ensures Pairwise(s, rel) ==> Pairwise(Rejected(s, drop), rel)
  {
    if s != [] {
      RejectedMembers(s[1..], drop, rel);
      assert s == [s[0]] + s[1..];
      var rest := Rejected(s[1..], drop);
      if Pairwise(s, rel) {
        assert Pairwise(s[1..], rel);
        forall k | 0 <= k < |rest|
          ensures rel(s[0], rest[k])
        {
          assert rest[k] in s[1..];
        }
      }
    }
  }

  /** r is what s has at the ascending positions at, and those are the positions whose element is
      kept, given what stands before it. */
  ghost predicate Picks<T>(s: seq<T>, r: seq<T>, at: seq<nat>, keep: (seq<T>, T) -> bool) {
    && |at| == |r|
    && (forall i, j :: 0 <= i < j < |at| ==> at[i] < at[j])
    && (forall i :: 0 <= i < |at| ==> at[i] < |s| && r[i] == s[at[i]])
    && forall k :: 0 <= k < |s| ==> (keep(s[..k], s[k]) <==> k in at)
  }

  lemma PicksSnoc<T>(s: seq<T>, r: seq<T>, at: seq<nat>, keep: (seq<T>, T) -> bool, x: T) returns (at': seq<nat>)
    requires Picks(s, r, at, keep)
    ensures Picks(s + [x], if keep(s, x) then r + [x] else r, at', keep)
  {
    at' := if keep(s, x) then at + [|s|] else at;
    var t := s + [x];
    assert forall i :: 0 <= i < |at| ==> t[at[i]] == s[at[i]];
    forall k | 0 <= k < |t|
      ensures keep(t[..k], t[k]) <==> k in at'
    {
      assert t[..k] == s[..k];
      assert k == |s| ==> t[..k] == s && k !in at;
    }
  }
}
