/** Choosing elements of a sequence by position, in their order. */
module Selections {

  ghost predicate Increasing(at: seq<nat>, n: nat) {
    && (forall i, j :: 0 <= i < j < |at| ==> at[i] < at[j])
    && (forall i :: 0 <= i < |at| ==> at[i] < n)
  }

  /** s is what `of` holds at the increasing positions `at`. */
  ghost predicate IsAt<T>(s: seq<T>, of: seq<T>, at: seq<nat>) {
    && |s| == |at| && Increasing(at, |of|)
    && forall i :: 0 <= i < |s| ==> s[i] == of[at[i]]
  }

  ghost predicate IsAtKept<T>(s: seq<T>, of: seq<T>, kept: seq<bool>, at: seq<nat>)
    requires |kept| == |of|
  {
    IsAt(s, of, at) && forall j :: 0 <= j < |of| ==> (j in at <==> kept[j])
  }

  /** s is exactly the elements that are kept: none missing, none repeated, none moved. */
  ghost predicate Keeps<T>(s: seq<T>, of: seq<T>, kept: seq<bool>)
    requires |kept| == |of|
  {
    exists at :: IsAtKept(s, of, kept, at)
  }

  ghost function Raised(at: seq<nat>): (r: seq<nat>)
    ensures |r| == |at| && forall i :: 0 <= i < |at| ==> r[i] == at[i] + 1
  {
    seq(|at|, i requires 0 <= i < |at| => at[i] + 1)
  }

  lemma RaisedMembers(at: seq<nat>)
    ensures 0 !in Raised(at) && forall j: nat :: j + 1 in Raised(at) <==> j in at
  {
    forall j: nat | j in at ensures j + 1 in Raised(at) {
      var i :| 0 <= i < |at| && at[i] == j;
      assert Raised(at)[i] == j + 1;
    }
  }

  lemma RaisedAt<T>(s: seq<T>, of: seq<T>, at: seq<nat>)
    requires of != [] && IsAt(s, of[1..], at)
    ensures IsAt(s, of, Raised(at)) && IsAt([of[0]] + s, of, [0] + Raised(at))
  {
  }

  lemma RaisedKept(kept: seq<bool>, at: seq<nat>)
    requires kept != [] && forall j :: 0 <= j < |kept| - 1 ==> (j in at <==> kept[1..][j])
    ensures forall j :: 0 < j < |kept| ==> (j in Raised(at) <==> kept[j])
  {
    RaisedMembers(at);
    forall j | 0 < j < |kept| ensures j in Raised(at) <==> kept[j] {
      assert (j - 1) + 1 in Raised(at) <==> j - 1 in at;
      assert kept[1..][j - 1] == kept[j];
    }
  }

  /** One more element in front, kept or not. */
  lemma KeepsFront<T>(s: seq<T>, of: seq<T>, kept: seq<bool>)
    requires |kept| == |of| && of != [] && Keeps(s, of[1..], kept[1..])
    ensures Keeps(if kept[0] then [of[0]] + s else s, of, kept)
  {
    var at: seq<nat> :| IsAtKept(s, of[1..], kept[1..], at);
    RaisedMembers(at);
    RaisedAt(s, of, at);
    RaisedKept(kept, at);
    if kept[0] {
      assert IsAtKept([of[0]] + s, of, kept, [0] + Raised(at));
    } else {
      assert IsAtKept(s, of, kept, Raised(at));
    }
  }

  lemma KeepsNothing<T>(of: seq<T>)
    requires of == []
    ensures Keeps([], of, [])
  {
    var none: seq<nat> := [];
    assert IsAtKept([], of, [], none);
  }

  /** One more element at the end, kept or not. */
  lemma KeepsBack<T>(s: seq<T>, of: seq<T>, kept: seq<bool>, rest: seq<T>, n: nat)
    requires |kept| == |of| == n + 1 && Keeps(rest, of[..n], kept[..n])
    requires s == rest + if kept[n] then [of[n]] else []
    ensures Keeps(s, of, kept)
  {
    var at: seq<nat> :| IsAtKept(rest, of[..n], kept[..n], at);
    if kept[n] {
      var more: seq<nat> := at + [n];
      assert IsAtKept(s, of, kept, more);
    } else {
      assert s == rest;
      assert IsAtKept(s, of, kept, at);
    }
  }
}
