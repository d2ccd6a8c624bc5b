/** Concatenations of lists. */
module Sequences {

  ghost predicate AllDistinct<T>(s: seq<T>)
  {
    forall i, j | 0 <= i < j < |s| :: s[i] != s[j]
  }

  ghost function Flatten<T>(ss: seq<seq<T>>): seq<T>
  {
    if ss == [] then [] else Flatten(ss[..|ss|-1]) + ss[|ss|-1]
  }

  /** Where the i-th list starts in the concatenation. */
  ghost function Offset<T>(ss: seq<seq<T>>, i: nat): nat
    requires i <= |ss|
  {
    |Flatten(ss[..i])|
  }

  lemma {:induction false} FlattenAt<T>(ss: seq<seq<T>>, i: nat)
    requires i < |ss|
    ensures Offset(ss, i + 1) == Offset(ss, i) + |ss[i]| <= |Flatten(ss)|
    ensures Flatten(ss)[Offset(ss, i)..Offset(ss, i + 1)] == ss[i]
  {
    var n := |ss| - 1;
    assert ss[..i+1][..i] == ss[..i];
    if i == n {
      assert ss[..i+1] == ss;
    } else {
      FlattenAt(ss[..n], i);
      assert ss[..n][..i] == ss[..i] && ss[..n][..i+1] == ss[..i+1];
    }
  }

  lemma OffsetEnds<T>(ss: seq<seq<T>>)
    ensures Offset(ss, 0) == 0 && Offset(ss, |ss|) == |Flatten(ss)|
  {
    assert ss[..|ss|] == ss;
  }

  lemma {:induction false} FlattenMembers<T>(ss: seq<seq<T>>, x: T)
    ensures x in Flatten(ss) <==> exists i :: 0 <= i < |ss| && x in ss[i]
  {
    if ss != [] {
      var n := |ss| - 1;
      FlattenMembers(ss[..n], x);
      if i :| 0 <= i < |ss| && x in ss[i] { assert i < n ==> x in ss[..n][i]; }
      if i :| 0 <= i < n && x in ss[..n][i] { assert x in ss[i]; }
    }
  }

  lemma {:induction false} FlattenCons<T>(s: seq<T>, ss: seq<seq<T>>)
    ensures Flatten([s] + ss) == s + Flatten(ss)
  {
    if ss == [] {
      assert [s] + ss == [s] && [s][..0] == [];
    } else {
      var n := |ss| - 1;
      FlattenCons(s, ss[..n]);
      assert ([s] + ss)[..n+1] == [s] + ss[..n];
    }
  }
}
