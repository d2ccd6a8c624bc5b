/** hw2/src/sort.c: the three orders the rosters are sorted by. */
module Comparators {
  import opened GradeDb
  import opened Quicksort

  /** strcmp: the sign that the first differing character decides, a proper prefix coming first. */
  function Strcmp(a: string, b: string): int
  {
    if a == [] then (if b == [] then 0 else -1)
    else if b == [] then 1
    else if a[0] != b[0] then a[0] as int - b[0] as int
    else Strcmp(a[1..], b[1..])
  }

  function CompareName(s1: Record, s2: Record): int
  {
    var c := Strcmp(s1.surname, s2.surname);
    if c != 0 then c else Strcmp(s1.name, s2.name)
  }

  function CompareId(s1: Record, s2: Record): int
  {
    Strcmp(s1.id, s2.id)
  }

  function CompareScore(s1: Record, s2: Record): int
  {
    if s1.composite > s2.composite then -1
    else if s1.composite < s2.composite then 1
    else 0
  }

  lemma {:induction false} StrcmpFlip(a: string, b: string)
    ensures Strcmp(a, b) > 0 <==> Strcmp(b, a) < 0
    ensures Strcmp(a, b) == 0 <==> a == b
  {
    if a != [] && b != [] && a[0] == b[0] {
      StrcmpFlip(a[1..], b[1..]);
      assert a == [a[0]] + a[1..] && b == [b[0]] + b[1..];
    }
  }

  lemma {:induction false} StrcmpTrans(a: string, b: string, c: string)
    ensures Strcmp(a, b) <= 0 && Strcmp(b, c) <= 0 ==> Strcmp(a, c) <= 0
  {
    if a != [] && b != [] && c != [] && a[0] == b[0] == c[0] {
      StrcmpTrans(a[1..], b[1..], c[1..]);
    }
  }

  lemma CompareIdIsPreorder()
    ensures TotalPreorder(CompareId)
  {
    forall x: Record, y: Record ensures CompareId(x, y) > 0 <==> CompareId(y, x) < 0 {
      StrcmpFlip(x.id, y.id);
    }
    forall x: Record, y: Record, z: Record | Leq(CompareId, x, y) && Leq(CompareId, y, z)
      ensures Leq(CompareId, x, z)
    {
      StrcmpTrans(x.id, y.id, z.id);
    }
  }

  lemma CompareScoreIsPreorder()
    ensures TotalPreorder(CompareScore)
  {
    forall x: Record, y: Record ensures CompareScore(x, y) > 0 <==> CompareScore(y, x) < 0 {}
    forall x: Record, y: Record, z: Record | Leq(CompareScore, x, y) && Leq(CompareScore, y, z)
      ensures Leq(CompareScore, x, z)
    {
      assert CompareScore(x, y) <= 0 && CompareScore(y, z) <= 0;
    }
  }

  lemma CompareNameFlip(x: Record, y: Record)
    ensures CompareName(x, y) > 0 <==> CompareName(y, x) < 0
  {
    StrcmpFlip(x.surname, y.surname);
    StrcmpFlip(y.surname, x.surname);
    StrcmpFlip(x.name, y.name);
  }

  lemma CompareNameTrans(x: Record, y: Record, z: Record)
    requires CompareName(x, y) <= 0 && CompareName(y, z) <= 0
    ensures CompareName(x, z) <= 0
  {
    StrcmpTrans(x.surname, y.surname, z.surname);
    StrcmpTrans(x.name, y.name, z.name);
    StrcmpFlip(x.surname, y.surname);
    StrcmpFlip(y.surname, x.surname);
    StrcmpFlip(y.surname, z.surname);
    StrcmpFlip(x.surname, z.surname);
  }

  lemma CompareNameIsPreorder()
    ensures TotalPreorder(CompareName)
  {
    forall x: Record, y: Record ensures CompareName(x, y) > 0 <==> CompareName(y, x) < 0 {
      CompareNameFlip(x, y);
    }
    forall x: Record, y: Record, z: Record | Leq(CompareName, x, y) && Leq(CompareName, y, z)
      ensures Leq(CompareName, x, z)
    {
      CompareNameTrans(x, y, z);
    }
  }

  /** What a warning of checkfordups reports. */
  lemma SameNameExactly(s1: Record, s2: Record)
    ensures CompareName(s1, s2) == 0 <==> s1.surname == s2.surname && s1.name == s2.name
  {
    StrcmpFlip(s1.surname, s2.surname);
    StrcmpFlip(s1.name, s2.name);
  }

  // ----- which way the orders go -----

  /** Dictionary order by character codes: a is a proper prefix of b, or smaller where they first differ. */
  ghost predicate Before(a: string, b: string)
  {
    || (|a| < |b| && b[..|a|] == a)
    || exists i :: 0 <= i < |a| && i < |b| && a[..i] == b[..i] && a[i] < b[i]
  }

  lemma BeforeTail(a: string, b: string)
    requires a != "" && b != "" && a[0] == b[0]
    ensures Before(a, b) <==> Before(a[1..], b[1..])
  {
    var c, d := a[1..], b[1..];
    assert a == [a[0]] + c && b == [b[0]] + d;
    if i :| 0 <= i < |c| && i < |d| && c[..i] == d[..i] && c[i] < d[i] {
      assert a[..i+1] == [a[0]] + c[..i] && b[..i+1] == [b[0]] + d[..i];
    }
    if i :| 0 <= i < |a| && i < |b| && a[..i] == b[..i] && a[i] < b[i] {
      assert c[..i-1] == a[..i][1..] && d[..i-1] == b[..i][1..];
    }
    if |c| < |d| { assert b[..|a|] == [b[0]] + d[..|c|]; assert d[..|c|] == b[..|a|][1..]; }
  }

  lemma BeforeHead(a: string, b: string)
    requires a != "" && b != "" && a[0] != b[0]
    ensures Before(a, b) <==> a[0] < b[0]
  {
    assert a[..0] == b[..0];
    assert |a| <= |b| ==> b[..|a|][0] == b[0];
    assert forall i | 0 < i < |a| && i < |b| :: a[..i][0] == a[0] && b[..i][0] == b[0];
  }

  lemma {:induction false} StrcmpBefore(a: string, b: string)
    ensures Strcmp(a, b) < 0 <==> Before(a, b)
  {
    if a != "" && b != "" {
      if a[0] == b[0] {
        BeforeTail(a, b);
        StrcmpBefore(a[1..], b[1..]);
      } else {
        BeforeHead(a, b);
      }
    }
  }

  /** comparename puts the smaller surname first, and of equal surnames the smaller name. */
  lemma CompareNameOrder(x: Record, y: Record)
    ensures CompareName(x, y) < 0 <==>
      Before(x.surname, y.surname) || (x.surname == y.surname && Before(x.name, y.name))
  {
    hide Before;
    StrcmpBefore(x.surname, y.surname);
    StrcmpBefore(x.name, y.name);
    StrcmpFlip(x.surname, y.surname);
  }

  /** compareid puts the smaller id first. */
  lemma CompareIdOrder(x: Record, y: Record)
    ensures CompareId(x, y) < 0 <==> Before(x.id, y.id)
  {
    StrcmpBefore(x.id, y.id);
  }

  /** comparescore puts the higher composite score first. */
  lemma CompareScoreOrder(x: Record, y: Record)
    ensures CompareScore(x, y) < 0 <==> x.composite > y.composite
  {
  }

  // ----- what the orders say of a sorted roster -----

  /** By name: surnames never decrease, and names never among equal surnames. */
  lemma RosterByName(s: seq<Student>)
    ensures Ordered(s, CompareName, 0, |s|) <==>
      forall i, j | 0 <= i < j < |s| ::
        || Before(s[i].surname, s[j].surname)
        || (s[i].surname == s[j].surname && (s[i].name == s[j].name || Before(s[i].name, s[j].name)))
  {
    hide Before, CompareName;
    forall i, j | 0 <= i < j < |s|
      ensures Cmp(CompareName, s[i], s[j]) <= 0 <==>
        || Before(s[i].surname, s[j].surname)
        || (s[i].surname == s[j].surname && (s[i].name == s[j].name || Before(s[i].name, s[j].name)))
    {
      CompareNameOrder(s[i].Rec(), s[j].Rec());
      SameNameExactly(s[i].Rec(), s[j].Rec());
    }
  }

  /** By id: ids never decrease. */
  lemma RosterById(s: seq<Student>)
    ensures Ordered(s, CompareId, 0, |s|) <==>
      forall i, j | 0 <= i < j < |s| :: s[i].id == s[j].id || Before(s[i].id, s[j].id)
  {
    hide Before, CompareId;
    forall i, j | 0 <= i < j < |s|
      ensures Cmp(CompareId, s[i], s[j]) <= 0 <==> s[i].id == s[j].id || Before(s[i].id, s[j].id)
    {
      CompareIdOrder(s[i].Rec(), s[j].Rec());
      SameIdExactly(s[i].Rec(), s[j].Rec());
    }
  }

  lemma SameIdExactly(s1: Record, s2: Record)
    ensures CompareId(s1, s2) == 0 <==> s1.id == s2.id
  {
    StrcmpFlip(s1.id, s2.id);
  }

  /** By score: composite scores never increase. */
  lemma RosterByScore(s: seq<Student>)
    ensures Ordered(s, CompareScore, 0, |s|) <==>
      forall i, j | 0 <= i < j < |s| :: s[i].composite >= s[j].composite
  {
    forall i, j | 0 <= i < j < |s|
      ensures Cmp(CompareScore, s[i], s[j]) <= 0 <==> s[i].composite >= s[j].composite
    {
    }
  }
}
