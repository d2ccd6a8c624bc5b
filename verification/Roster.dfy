/** hw2/src/sort.c: sorting the linked rosters of a course, and looking for duplicate students. */
module Roster {
  import opened GradeDb
  import opened Quicksort
  import opened Comparators

  /** A NULL-terminated list has no node twice. */
  lemma {:induction false} ChainDistinct(s: Student?, link: Link, nodes: seq<Student>, i: nat, j: nat)
    requires Chain(s, link, nodes) && i < j < |nodes|
    ensures nodes[i] != nodes[j]
    decreases |nodes| - j
  {
    if nodes[i] == nodes[j] {
      assert nodes[i].Get(link) == At(nodes, i + 1) && nodes[j].Get(link) == At(nodes, j + 1);
      if j + 1 < |nodes| { ChainDistinct(s, link, nodes, i + 1, j + 1); }
    }
  }

  ghost predicate Distinct(nodes: seq<Student>)
  {
    forall i, j | 0 <= i < j < |nodes| :: nodes[i] != nodes[j]
  }

  /** A rearrangement of distinct nodes is distinct. */
  lemma PermutedDistinct(s: seq<Student>, t: seq<Student>)
    requires Distinct(s) && multiset(s) == multiset(t)
    ensures Distinct(t)
    ensures forall i | 0 <= i < |t| :: t[i] in s
    ensures forall i | 0 <= i < |s| :: s[i] in t
  {
    forall i | 0 <= i < |t| ensures t[i] in s { assert t[i] in multiset(s); }
    forall i | 0 <= i < |s| ensures s[i] in t { assert s[i] in multiset(t); }
    forall i, j | 0 <= i < j < |t| ensures t[i] != t[j] {
      if t[i] == t[j] {
        assert t == t[..i] + [t[i]] + t[i+1..j] + [t[j]] + t[j+1..];
        assert multiset(t)[t[i]] >= 2;
        AtMostOnce(s, t[i]);
      }
    }
  }

  lemma {:induction false} AtMostOnce(s: seq<Student>, x: Student)
    requires Distinct(s)
    ensures multiset(s)[x] <= 1
  {
    if s != [] {
      assert s == [s[0]] + s[1..];
      AtMostOnce(s[1..], x);
      if s[0] == x { assert x !in s[1..]; }
    }
  }

  /** The table is the list, last node first. */
  lemma {:induction false} TableHoldsNodes(nodes: seq<Student>, table: seq<Student>)
    requires |table| == |nodes| && forall k | 0 <= k < |nodes| :: table[k] == nodes[|nodes| - 1 - k]
    ensures multiset(table) == multiset(nodes)
  {
    if nodes != [] {
      var n := |nodes| - 1;
      TableHoldsNodes(nodes[1..], table[..n]);
      assert nodes == [nodes[0]] + nodes[1..] && table == table[..n] + [table[n]];
    }
  }

  /** The last loop of sortroster: thread the table's entries in table order. */
  method Relink(stab: array<Student>, link: Link, ghost sorted: seq<Student>) returns (r: Student)
    requires stab.Length > 0 && stab[..] == sorted && Distinct(sorted)
    modifies sorted
    ensures Chain(r, link, sorted)
    ensures forall x | x in sorted :: if link.Next? then x.cnext == old(x.cnext) else x.next == old(x.next)
  {
    var sp := stab[0];
    var i := 1;
    while i < stab.Length
      invariant 1 <= i <= stab.Length && sp == sorted[i-1]
      invariant forall k | 0 <= k < i - 1 :: sorted[k].Get(link) == sorted[k+1]
      invariant forall x | x in sorted :: if link.Next? then x.cnext == old(x.cnext) else x.next == old(x.next)
    {
      sp.Set(link, stab[i]);
      sp := stab[i];
      i := i + 1;
    }
    sp.Set(link, null);
    r := stab[0];
  }

  lemma ListDistinct(s: Student?, link: Link, nodes: seq<Student>)
    requires Chain(s, link, nodes)
    ensures Distinct(nodes)
  {
    forall i, j | 0 <= i < j < |nodes| ensures nodes[i] != nodes[j] { ChainDistinct(s, link, nodes, i, j); }
  }

  /** The two loops of sortroster that count the students and put them in a table. */
  method FillTable(s: Student?, link: Link, ghost nodes: seq<Student>) returns (stab: array?<Student>, count: nat)
    requires Chain(s, link, nodes)
    ensures count == |nodes| && (count == 0 <==> stab == null)
    ensures stab != null ==> fresh(stab) && stab.Length == count && multiset(stab[..]) == multiset(nodes)
  {
    var sp := s;
    count := 0;
    while sp != null
      invariant 0 <= count <= |nodes| && sp == At(nodes, count)
      decreases |nodes| - count
    {
      assert sp == nodes[count];
      count := count + 1;
      sp := sp.Get(link);
    }
    if count == 0 { return null, 0; }
    stab := new Student[count](_ => s);
    sp := s;
    var i := count;
    while i > 0
      invariant 0 <= i <= count && sp == At(nodes, count - i)
      invariant forall k | i <= k < count :: stab[k] == nodes[count - 1 - k]
    {
      assert sp == nodes[count - i];
      i := i - 1;
      stab[i] := sp;
      sp := sp.Get(link);
    }
    TableHoldsNodes(nodes, stab[..]);
  }

  /**
   * sortroster: the result is a NULL-terminated list of exactly the nodes it was given, ordered by the
   * comparator, and the other link of every node is what it was.
   */
  method SortRoster(s: Student?, link: Link, compare: Order, ghost nodes: seq<Student>)
    returns (r: Student?, ghost sorted: seq<Student>)
    requires Chain(s, link, nodes) && TotalPreorder(compare)
    modifies nodes
    ensures Chain(r, link, sorted)
    ensures multiset(sorted) == multiset(nodes) && Ordered(sorted, compare, 0, |sorted|)
    ensures forall x | x in nodes :: if link.Next? then x.cnext == old(x.cnext) else x.next == old(x.next)
  {
    ListDistinct(s, link, nodes);
    var stab, count := FillTable(s, link, nodes);
    if stab == null { return null, []; }
    SortTable(stab, 0, count, compare);
    sorted := stab[..];
    PermutedDistinct(nodes, sorted);
    r := Relink(stab, link, sorted);
  }

  // ----- sortrosters -----

  /** `t` is `s` sorted. */
  ghost predicate SortedFrom(s: seq<Student>, t: seq<Student>, compare: Order)
  {
    multiset(s) == multiset(t) && Ordered(t, compare, 0, |t|)
  }

  method SortOwn(s: Section, compare: Order)
    requires TotalPreorder(compare) && s.Valid()
    modifies s, s.members
    ensures s.Valid() && SortedFrom(old(s.nodes), s.nodes, compare)
    ensures forall x | x in s.members :: x.cnext == old(x.cnext)
  {
    ghost var sorted;
    s.roster, sorted := SortRoster(s.roster, Next, compare, s.nodes);
    StaysInside(s.nodes, sorted, s.members);
    s.nodes := sorted;
  }

  /** One round of the loop of sortrosters. */
  method SortSection(c: Course, i: nat, compare: Order, ghost all: seq<Student>)
    requires TotalPreorder(compare) && c.Valid() && Chain(c.roster, CNext, all) && i < |c.sections|
    modifies c.sections[i], c.sections[i].members
    ensures c.Valid() && Chain(c.roster, CNext, all)
    ensures c.Rosters() == old(c.Rosters())[i := c.sections[i].nodes]
    ensures SortedFrom(old(c.sections[i].nodes), c.sections[i].nodes, compare)
  {
    var s := c.sections[i];
    SortOwn(s, compare);
    assert Chain(c.roster, CNext, all) by {
      assert forall j | 0 <= j < |all| :: all[j].Get(CNext) == old(all[j].Get(CNext));
    }
    forall k | 0 <= k < |c.sections| && k != i ensures c.sections[k].Valid() {
      var t := c.sections[k];
      assert s.members !! t.members;
      assert forall j | 0 <= j < |t.nodes| :: t.nodes[j].Get(Next) == old(t.nodes[j].Get(Next));
    }
  }

  ghost predicate SortedUpTo(before: seq<seq<Student>>, after: seq<seq<Student>>, i: nat, compare: Order)
    requires |before| == |after|
  {
    forall k | 0 <= k < |before| ::
      if k < i then SortedFrom(before[k], after[k], compare) else before[k] == after[k]
  }

  /** sortrosters: the course roster and every section roster end up sorted, each by its own link. */
  method SortRosters(c: Course, compare: Order, ghost all: seq<Student>) returns (ghost all': seq<Student>)
    requires TotalPreorder(compare) && c.Valid() && Chain(c.roster, CNext, all)
    modifies c`roster, c.sections, all, c.members
    ensures Chain(c.roster, CNext, all') && SortedFrom(all, all', compare)
    ensures c.Valid() && SortedUpTo(old(c.Rosters()), c.Rosters(), |c.sections|, compare)
  {
    c.roster, all' := SortRoster(c.roster, CNext, compare, all);
    var i := 0;
    while i < |c.sections|
      invariant 0 <= i <= |c.sections|
      invariant c.Valid() && Chain(c.roster, CNext, all')
      invariant SortedUpTo(old(c.Rosters()), c.Rosters(), i, compare)
    {
      SortSection(c, i, compare, all');
      i := i + 1;
    }
  }

  lemma StaysInside(s: seq<Student>, t: seq<Student>, members: set<Student>)
    requires multiset(s) == multiset(t) && forall i | 0 <= i < |s| :: s[i] in members
    ensures forall i | 0 <= i < |t| :: t[i] in members
  {
    forall i | 0 <= i < |t| ensures t[i] in members { assert t[i] in multiset(s); }
  }

  // ----- checkfordups -----

  ghost function Names(nodes: seq<Student>): seq<(string, string)>
  {
    seq(|nodes|, i requires 0 <= i < |nodes| => (nodes[i].surname, nodes[i].name))
  }

  /** One warning for each entry equal to the one before it. */
  ghost function Warnings(names: seq<(string, string)>): seq<(string, string)>
  {
    if |names| < 2 then []
    else (if names[0] == names[1] then [names[0]] else []) + Warnings(names[1..])
  }

  lemma WarningsStep(nodes: seq<Student>, k: nat)
    requires k + 1 < |nodes|
    ensures var name, next := (nodes[k].surname, nodes[k].name), (nodes[k+1].surname, nodes[k+1].name);
      Warnings(Names(nodes[k..])) == (if name == next then [name] else []) + Warnings(Names(nodes[k+1..]))
  {
    assert Names(nodes[k..])[1..] == Names(nodes[k+1..]);
  }

  lemma NoneLeft(nodes: seq<Student>, k: nat)
    requires k <= |nodes| <= k + 1
    ensures Warnings(Names(nodes[k..])) == []
  {
  }

  /** checkfordups; the result lists the (surname, name) pairs it warns about. */
  method CheckForDups(s: Student?, ghost nodes: seq<Student>) returns (warnings: seq<(string, string)>)
    requires Chain(s, CNext, nodes)
    ensures warnings == Warnings(Names(nodes))
  {
    hide Warnings, Names;
    warnings := [];
    var sp := s;
    ghost var k := 0;
    assert sp != null ==> nodes[0].Get(CNext) == At(nodes, 1);
    assert nodes[0..] == nodes;
    while sp != null && sp.cnext != null
      invariant 0 <= k <= |nodes| && sp == At(nodes, k)
      invariant sp != null ==> sp.Get(CNext) == At(nodes, k + 1)
      invariant warnings + Warnings(Names(nodes[k..])) == Warnings(Names(nodes))
      decreases |nodes| - k
    {
      SameNameExactly(sp.Rec(), sp.cnext.Rec());
      WarningsStep(nodes, k);
      if CompareName(sp.Rec(), sp.cnext.Rec()) == 0 {
        warnings := warnings + [(sp.surname, sp.name)];
      }
      sp := sp.cnext;
      k := k + 1;
      assert sp.Get(CNext) == At(nodes, k + 1);
    }
    NoneLeft(nodes, k);
  }

  ghost predicate Grouped(names: seq<(string, string)>)
  {
    forall i, j, k | 0 <= i < j < k < |names| && names[i] == names[k] :: names[i] == names[j]
  }

  lemma SortedIsGrouped(nodes: seq<Student>)
    requires Ordered(nodes, CompareName, 0, |nodes|)
    ensures Grouped(Names(nodes))
  {
    forall i, j, k | 0 <= i < j < k < |nodes| && Names(nodes)[i] == Names(nodes)[k]
      ensures Names(nodes)[i] == Names(nodes)[j]
    {
      var a, b, c := nodes[i].Rec(), nodes[j].Rec(), nodes[k].Rec();
      assert Cmp(CompareName, nodes[i], nodes[j]) <= 0 && Cmp(CompareName, nodes[j], nodes[k]) <= 0;
      SameNameExactly(a, b);
      CompareNameFlip(a, b);
      CompareNameFlip(b, a);
    }
  }

  ghost function NameSet(names: seq<(string, string)>): set<(string, string)>
  {
    set p | p in names
  }

  lemma GroupedTail(names: seq<(string, string)>)
    requires Grouped(names) && |names| >= 2
    ensures Grouped(names[1..]) && (names[0] in names[1..] <==> names[0] == names[1])
  {
  }

  /** On grouped names each pair is warned about once for every occurrence after its first. */
  lemma {:induction false} WarningsPerPair(names: seq<(string, string)>, p: (string, string))
    requires Grouped(names)
    ensures multiset(names)[p] == multiset(Warnings(names))[p] + if p in names then 1 else 0
  {
    if |names| >= 2 {
      GroupedTail(names);
      WarningsPerPair(names[1..], p);
      assert names == [names[0]] + names[1..];
    } else if |names| == 1 {
      assert names == [names[0]];
    }
  }

  lemma NameSetTail(names: seq<(string, string)>)
    requires names != []
    ensures NameSet(names) == NameSet(names[1..]) + {names[0]}
    ensures |NameSet(names)| == |NameSet(names[1..])| + if names[0] in names[1..] then 0 else 1
  {
    assert forall p :: p in names <==> p == names[0] || p in names[1..];
    if names[0] in names[1..] { assert NameSet(names) == NameSet(names[1..]); }
  }

  lemma {:induction false} WarningsCount(names: seq<(string, string)>)
    requires Grouped(names)
    ensures |Warnings(names)| == |names| - |NameSet(names)|
  {
    hide Grouped;
    if |names| >= 2 {
      GroupedTail(names);
      WarningsCount(names[1..]);
      NameSetTail(names);
    } else if |names| == 1 {
      assert NameSet(names) == {names[0]};
    }
  }

  /** After sorting by name, checkfordups warns exactly once per repetition of a surname and name. */
  lemma DuplicatesFound(nodes: seq<Student>, p: (string, string))
    requires Ordered(nodes, CompareName, 0, |nodes|)
    ensures var names := Names(nodes);
      && |Warnings(names)| == |nodes| - |NameSet(names)|
      && multiset(names)[p] == multiset(Warnings(names))[p] + if p in names then 1 else 0
  {
    SortedIsGrouped(nodes);
    WarningsPerPair(Names(nodes), p);
    WarningsCount(Names(nodes));
  }
}
