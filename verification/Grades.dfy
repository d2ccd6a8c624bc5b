/** Which grades a record's log holds, and how the class's records relate to the sections'. */
module Grades {
  import opened GradeDb
  import opened Frequencies
  import opened Quantiles
  import opened Moments
  import opened Sequences
  import opened Linking
  import opened Accumulate

  /** The counted grades of an assignment, in the order of the list. */
  ghost function GradesFor(scores: seq<Score>, ap: Assignment): seq<real>
  {
    if scores == [] then []
    else
      var sc, g := scores[|scores|-1], GradesFor(scores[..|scores|-1], ap);
      if sc.counted && sc.asgt == ap then g + [sc.grade] else g
  }

  /** Which scores count for an assignment with a grade of g. */
  ghost predicate CountsAs(sc: Score, ap: Assignment, g: real)
  {
    sc.counted && sc.asgt == ap && sc.grade == g
  }

  /** Every grade occurs as often as there are counted scores of the assignment with it. */
  lemma {:induction false} GradesCounted(scores: seq<Score>, ap: Assignment, g: real)
    ensures CountEqual(GradesFor(scores, ap), g) == |set i: nat | i < |scores| && CountsAs(scores[i], ap, g)|
  {
    if scores != [] {
      hide CountsAs;
      var n := |scores| - 1;
      GradesCounted(scores[..n], ap, g);
      var before := set i: nat | i < n && CountsAs(scores[..n][i], ap, g);
      var after := set i: nat | i < |scores| && CountsAs(scores[i], ap, g);
      assert after == before + if CountsAs(scores[n], ap, g) then {n} else {};
      LastGrade(scores, ap, g);
    }
  }

  lemma LastGrade(scores: seq<Score>, ap: Assignment, g: real)
    requires scores != []
    ensures var n := |scores| - 1;
      CountEqual(GradesFor(scores, ap), g) ==
        CountEqual(GradesFor(scores[..n], ap), g) + if CountsAs(scores[n], ap, g) then 1 else 0
  {
    var n := |scores| - 1;
    var before := GradesFor(scores[..n], ap);
    assert (before + [scores[n].grade])[..|before|] == before;
  }

  /** If o gets exactly the counted scores of ap whose home passes the test, its log is their grades. */
  lemma {:induction false} LogIsGrades(scores: seq<Score>, l: Links, o: Stats, ap: Assignment)
    requires forall sc | sc in scores && sc.counted :: l.To(sc, o) <==> sc.asgt == ap
    ensures Log(scores, l, o) == GradesFor(scores, ap)
  {
    if scores != [] {
      assert scores == scores[..|scores|-1] + [scores[|scores|-1]];
      LogIsGrades(scores[..|scores|-1], l, o, ap);
    }
  }

  lemma {:induction false} LogConcat(a: seq<Score>, b: seq<Score>, l: Links, o: Stats)
    ensures Log(a + b, l, o) == Log(a, l, o) + Log(b, l, o)
  {
    if b == [] {
      assert a + b == a;
    } else {
      var n := |b| - 1;
      LogConcat(a, b[..n], l, o);
      assert (a + b)[..|a|+n] == a + b[..n];
    }
  }

  lemma {:induction false} LogEmpty(scores: seq<Score>, l: Links, o: Stats)
    requires forall sc | sc in scores && sc.counted :: !l.To(sc, o)
    ensures Log(scores, l, o) == []
  {
    if scores != [] {
      assert scores == scores[..|scores|-1] + [scores[|scores|-1]];
      LogEmpty(scores[..|scores|-1], l, o);
    }
  }

  lemma ScoresConcat(a: seq<Student>, b: seq<Student>)
    ensures ScoresInOrder(a + b) == ScoresInOrder(a) + ScoresInOrder(b)
    decreases |b|
  {
    if b == [] {
      assert a + b == a;
    } else {
      var n := |b| - 1;
      ScoresConcat(a, b[..n]);
      assert (a + b)[..|a|+n] == a + b[..n];
      ScoresSnoc(a + b, |a| + n);
      ScoresSnoc(b, n);
      assert (a + b)[..|a|+n+1] == a + b && b[..n+1] == b;
    }
  }

  lemma {:induction false} OrderedMembers(nodes: seq<Student>, sc: Score)
    ensures sc in ScoresInOrder(nodes) <==> sc in ScoresOf(nodes)
  {
    FlattenMembers(ScoreLists(nodes), sc);
    if sc in ScoresOf(nodes) {
      var x :| x in nodes && sc in x.rawscores;
      var i :| 0 <= i < |nodes| && nodes[i] == x;
      assert sc in ScoreLists(nodes)[i];
    }
    if sc in ScoresInOrder(nodes) {
      var i :| 0 <= i < |nodes| && sc in ScoreLists(nodes)[i];
      assert nodes[i] in nodes && sc in nodes[i].rawscores;
    }
  }

  /** Of these scores the record takes those of ap, or none. */
  ghost predicate Takes(scores: seq<Score>, l: Links, o: Stats, ap: Assignment, some: bool)
  {
    forall sc | sc in scores && sc.counted :: l.To(sc, o) <==> sc.asgt == ap && some
  }

  lemma TakesLog(scores: seq<Score>, l: Links, o: Stats, ap: Assignment, some: bool)
    requires Takes(scores, l, o, ap, some)
    ensures Log(scores, l, o) == if some then GradesFor(scores, ap) else []
  {
    if some { LogIsGrades(scores, l, o, ap); } else { LogEmpty(scores, l, o); }
  }

  /** A record that only takes the scores of ap in the i-th section logs that section's grades. */
  lemma {:induction false} SectionLog(rosters: seq<seq<Student>>, l: Links, o: Stats, ap: Assignment, i: nat)
    requires forall j | 0 <= j < |rosters| :: Takes(ScoresInOrder(rosters[j]), l, o, ap, j == i)
    ensures Log(ScoresInOrder(Flatten(rosters)), l, o) ==
      if i < |rosters| then GradesFor(ScoresInOrder(rosters[i]), ap) else []
  {
    if rosters != [] {
      var n := |rosters| - 1;
      assert Flatten(rosters) == Flatten(rosters[..n]) + rosters[n];
      hide Log, GradesFor, Takes, ScoresInOrder, Flatten;
      var last := ScoresInOrder(rosters[n]);
      forall j | 0 <= j < n ensures Takes(ScoresInOrder(rosters[..n][j]), l, o, ap, j == i) {
        assert rosters[..n][j] == rosters[j];
      }
      SectionLog(rosters[..n], l, o, ap, i);
      ScoresConcat(Flatten(rosters[..n]), rosters[n]);
      LogConcat(ScoresInOrder(Flatten(rosters[..n])), last, l, o);
      TakesLog(last, l, o, ap, i == n);
    }
  }

  lemma {:induction false} GradesConcat(a: seq<Score>, b: seq<Score>, ap: Assignment)
    ensures GradesFor(a + b, ap) == GradesFor(a, ap) + GradesFor(b, ap)
  {
    if b == [] {
      assert a + b == a;
    } else {
      var n := |b| - 1;
      GradesConcat(a, b[..n], ap);
      assert (a + b)[..|a|+n] == a + b[..n] && (a + b)[|a|+n] == b[n];
    }
  }

  ghost function SectionGrades(rosters: seq<seq<Student>>, ap: Assignment): (r: seq<seq<real>>)
    ensures |r| == |rosters|
  {
    seq(|rosters|, i requires 0 <= i < |rosters| => GradesFor(ScoresInOrder(rosters[i]), ap))
  }

  /** The grades of the class are those of its sections, one section after another. */
  lemma {:induction false} ClassGrades(rosters: seq<seq<Student>>, ap: Assignment)
    ensures GradesFor(ScoresInOrder(Flatten(rosters)), ap) == Flatten(SectionGrades(rosters, ap))
  {
    if rosters != [] {
      var n := |rosters| - 1;
      ClassGrades(rosters[..n], ap);
      ScoresConcat(Flatten(rosters[..n]), rosters[n]);
      GradesConcat(ScoresInOrder(Flatten(rosters[..n])), ScoresInOrder(rosters[n]), ap);
      assert SectionGrades(rosters, ap)[..n] == SectionGrades(rosters[..n], ap);
    }
  }

  // ----- class statistics against section statistics -----

  ghost function SumOver(ls: seq<seq<real>>, f: seq<real> -> real): real
  {
    if ls == [] then 0.0 else SumOver(ls[..|ls|-1], f) + f(ls[|ls|-1])
  }

  ghost function CountOver(ls: seq<seq<real>>, f: seq<real> -> nat): nat
  {
    if ls == [] then 0 else CountOver(ls[..|ls|-1], f) + f(ls[|ls|-1])
  }

  lemma {:induction false} CountsConcat(a: seq<real>, b: seq<real>, s: real)
    ensures CountEqual(a + b, s) == CountEqual(a, s) + CountEqual(b, s)
    ensures CountLess(a + b, s) == CountLess(a, s) + CountLess(b, s)
  {
    if b == [] {
      assert a + b == a;
    } else {
      var n := |b| - 1;
      CountsConcat(a, b[..n], s);
      assert (a + b)[..|a|+n] == a + b[..n];
    }
  }

  ghost function Total(xs: seq<real>, f: real -> real): real
  {
    if xs == [] then 0.0 else Total(xs[..|xs|-1], f) + f(xs[|xs|-1])
  }

  lemma {:induction false} TotalConcat(a: seq<real>, b: seq<real>, f: real -> real)
    ensures Total(a + b, f) == Total(a, f) + Total(b, f)
  {
    if b == [] {
      assert a + b == a;
    } else {
      var n := |b| - 1;
      TotalConcat(a, b[..n], f);
      assert (a + b)[..|a|+n] == a + b[..n];
    }
  }

  lemma {:induction false} SumIsTotal(xs: seq<real>)
    ensures Sum(xs) == Total(xs, x => x)
  {
    if xs != [] { SumIsTotal(xs[..|xs|-1]); }
  }

  function Square(x: real): real
  {
    x * x
  }

  lemma {:induction false} SumSqIsTotal(xs: seq<real>)
    ensures SumSq(xs) == Total(xs, Square)
  {
    if xs != [] { SumSqIsTotal(xs[..|xs|-1]); }
  }

  lemma SumsConcat(a: seq<real>, b: seq<real>)
    ensures Sum(a + b) == Sum(a) + Sum(b) && SumSq(a + b) == SumSq(a) + SumSq(b)
  {
    SumIsTotal(a); SumIsTotal(b); SumIsTotal(a + b);
    SumSqIsTotal(a); SumSqIsTotal(b); SumSqIsTotal(a + b);
    TotalConcat(a, b, x => x);
    TotalConcat(a, b, Square);
  }

  /** Bucket counts, ranks, tallies, sums and sums of squares of the class add up over its sections. */
  lemma {:induction false} ClassAddsUp(ls: seq<seq<real>>, s: real)
    ensures CountAt(TableOf(Flatten(ls)), s) == CountOver(ls, x => CountAt(TableOf(x), s))
    ensures Below(TableOf(Flatten(ls)), s) == CountOver(ls, x => Below(TableOf(x), s))
    ensures |Flatten(ls)| == CountOver(ls, x => |x|)
    ensures Sum(Flatten(ls)) == SumOver(ls, Sum) && SumSq(Flatten(ls)) == SumOver(ls, SumSq)
  {
    TableAgrees(Flatten(ls), s);
    if ls != [] {
      var n := |ls| - 1;
      ClassAddsUp(ls[..n], s);
      CountsConcat(Flatten(ls[..n]), ls[n], s);
      SumsConcat(Flatten(ls[..n]), ls[n]);
      TableAgrees(Flatten(ls[..n]), s);
      TableAgrees(ls[n], s);
    }
  }

  /** The range do_sums finds is the range of the table do_freqs builds. */
  lemma RangeIsTable(xs: seq<real>)
    requires xs != []
    ensures var t := TableOf(xs); t != [] && Lowest(xs) == t[0].score && Greatest(xs) == t[|t|-1].score
  {
    ExtremesHold(xs);
    LastIsHighest(xs);
  }
}
