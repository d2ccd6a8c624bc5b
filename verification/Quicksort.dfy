/** hw2/src/sort.c: the quicksort over a table of students. */
module Quicksort {
  import opened GradeDb

  /** A comparison function in the sense of strcmp: only the sign of the result counts. */
  type Order = (Record, Record) -> int

  function Cmp(compare: Order, a: Student, b: Student): int
  {
    compare(a.Rec(), b.Rec())
  }

  predicate Leq(compare: Order, x: Record, y: Record)
  {
    compare(x, y) <= 0
  }

  ghost predicate TotalPreorder(compare: Order)
  {
    && (forall x, y {:trigger Leq(compare, x, y)} :: compare(x, y) > 0 <==> compare(y, x) < 0)
    && (forall x, y, z {:trigger Leq(compare, x, y), Leq(compare, y, z)} ::
          Leq(compare, x, y) && Leq(compare, y, z) ==> Leq(compare, x, z))
  }

  ghost predicate Ordered(s: seq<Student>, compare: Order, low: nat, high: nat)
  {
    high <= |s| && forall i, j | low <= i < j < high :: Cmp(compare, s[i], s[j]) <= 0
  }

  /** Entry `m` is strictly below every other entry of s[low..high]. */
  ghost predicate StrictMin(s: seq<Student>, compare: Order, low: nat, high: nat, m: nat)
    requires low <= m < high <= |s|
  {
    forall k | low <= k < high && k != m :: Cmp(compare, s[k], s[m]) > 0
  }

  /** t is s with s[low..high] rotated left by one place. */
  ghost predicate RotatedLeft(s: seq<Student>, t: seq<Student>, low: nat, high: nat)
    requires low < high <= |s| && |s| == |t|
  {
    forall k {:trigger t[k]} | low <= k < high :: t[k] == s[if k + 1 < high then k + 1 else low]
  }

  /** t holds what s does, rearranged inside [low, high) only. */
  ghost predicate Rearranged(s: seq<Student>, t: seq<Student>, low: nat, high: nat)
  {
    && low <= high <= |s| == |t|
    && multiset(s) == multiset(t)
    && forall k {:trigger t[k]} | 0 <= k < low || high <= k < |s| :: t[k] == s[k]
  }

  function Exchanged(s: seq<Student>, i: nat, j: nat): seq<Student>
    requires i < |s| && j < |s|
  {
    s[i := s[j]][j := s[i]]
  }

  lemma ExchangeRearranges(s: seq<Student>, low: nat, high: nat, i: nat, j: nat)
    requires low <= i < high <= |s| && low <= j < high
    ensures Rearranged(s, Exchanged(s, i, j), low, high)
  {
  }

  lemma RearrangedTrans(s: seq<Student>, t: seq<Student>, u: seq<Student>, low: nat, high: nat)
    requires low <= high <= |s|
    ensures Rearranged(s, s, low, high)
    ensures Rearranged(s, t, low, high) && Rearranged(t, u, low, high) ==> Rearranged(s, u, low, high)
  {
  }

  // ----- the loop of partition -----

  /** What the partition loop leaves, and the place it stops at, from any point of its run. */
  ghost function Parted(s: seq<Student>, l: nat, h: nat, alt: int, p: Student, compare: Order): (r: (seq<Student>, nat))
    requires l <= h <= |s|
    ensures |r.0| == |s| && l <= r.1 <= h
    decreases h - l
  {
    if l == h then (s, l) else
      var c0 := Cmp(compare, s[l], p);
      var c, alt' := if c0 == 0 then alt else c0, if c0 == 0 then -alt else alt;
      if c > 0 then Parted(Exchanged(s, h - 1, l), l, h - 1, alt', p, compare)
      else Parted(s, l + 1, h, alt', p, compare)
  }

  /**
   * What the loop keeps, for the table x it started from and the table s it has now: [low, l) is at most
   * the pivot and [h, high) at least the pivot. While nothing is on the high end, the table is untouched and
   * the pivot still ahead. While nothing is on the low end, the entries seen are x[low] and x[h+1..high],
   * all above the pivot except the one tie (put high, after which alt is -1).
   */
  ghost predicate Parting(x: seq<Student>, s: seq<Student>, compare: Order, low: nat, high: nat,
                          l: nat, h: nat, alt: int, tie: nat)
  {
    && low <= l <= h <= high <= |x| == |s| && low < high
    && (alt == 1 || alt == -1)
    && var mid := (low + high) / 2;
    && (forall k | low <= k < l :: Cmp(compare, s[k], x[mid]) <= 0)
    && (forall k | h <= k < high :: Cmp(compare, s[k], x[mid]) >= 0)
    && (h == high ==> alt == 1 && s == x && l <= mid)
    && (l == low && h < high ==> ShiftedFrom(x, s, low, h, high) && SeenAbove(x, compare, low, h, high, alt, tie))
    && (StrictMin(x, compare, low, high, mid) ==> l == low)
  }

  ghost predicate ShiftedFrom(x: seq<Student>, s: seq<Student>, low: nat, h: nat, high: nat)
    requires low <= h < high <= |x| == |s|
  {
    && s[low] == (if h == low then x[if low + 1 < high then low + 1 else low] else x[h])
    && forall k {:trigger s[k]} | low < k < high ::
         s[k] == if k < h then x[k] else if k + 1 < high then x[k+1] else x[low]
  }

  ghost predicate SeenAbove(x: seq<Student>, compare: Order, low: nat, h: nat, high: nat, alt: int, tie: nat)
    requires low <= h < high <= |x|
  {
    var p := x[(low + high) / 2];
    && (forall k | k == low || h < k < high :: (alt == -1 && k == tie) || Cmp(compare, x[k], p) > 0)
    && (alt == -1 ==> (tie == low || h < tie < high) && Cmp(compare, x[tie], p) == 0)
  }

  lemma ShiftStep(x: seq<Student>, s: seq<Student>, low: nat, h: nat, high: nat)
    requires low < h <= high <= |x| == |s|
    requires if h == high then s == x else ShiftedFrom(x, s, low, h, high)
    ensures ShiftedFrom(x, Exchanged(s, h - 1, low), low, h - 1, high)
  {
    var t := Exchanged(s, h - 1, low);
    assert t[low] == s[h-1] && t[h-1] == s[low];
    forall k | low < k < high
      ensures t[k] == if k < h - 1 then x[k] else if k + 1 < high then x[k+1] else x[low]
    {
      assert k != h - 1 ==> t[k] == s[k];
    }
  }

  /** The entry at l goes to the high end. */
  lemma PartHigh(x: seq<Student>, s: seq<Student>, compare: Order, low: nat, high: nat,
                 l: nat, h: nat, alt: int, tie: nat) returns (tie': nat)
    requires Parting(x, s, compare, low, high, l, h, alt, tie) && l < h
    requires var c := Cmp(compare, s[l], x[(low + high) / 2]); c > 0 || (c == 0 && alt == 1)
    ensures var c := Cmp(compare, s[l], x[(low + high) / 2]);
      Parting(x, Exchanged(s, h - 1, l), compare, low, high, l, h - 1, if c == 0 then -alt else alt, tie')
  {
    var c := Cmp(compare, s[l], x[(low + high) / 2]);
    var cur := if h == high then low else h;
    tie' := if c == 0 && l == low then cur else tie;
    if l == low {
      ShiftStep(x, s, low, h, high);
      assert s[l] == x[cur];
    }
  }

  /** The entry at l stays on the low end. */
  lemma PartLow(x: seq<Student>, s: seq<Student>, compare: Order, low: nat, high: nat,
                l: nat, h: nat, alt: int, tie: nat)
    requires Parting(x, s, compare, low, high, l, h, alt, tie) && l < h
    requires var p := x[(low + high) / 2]; Cmp(compare, p, p) == 0
    requires var c := Cmp(compare, s[l], x[(low + high) / 2]); c < 0 || (c == 0 && alt == -1)
    ensures var c := Cmp(compare, s[l], x[(low + high) / 2]);
      Parting(x, s, compare, low, high, l + 1, h, if c == 0 then -alt else alt, tie)
  {
    var mid := (low + high) / 2;
    var cur := if h == high then low else h;
    if l == low {
      assert s[l] == x[cur];
      assert StrictMin(x, compare, low, high, mid) ==> cur == mid || tie != mid;
    }
  }

  lemma {:induction false} PartingEnds(x: seq<Student>, s: seq<Student>, compare: Order, low: nat, high: nat,
                                       l: nat, h: nat, alt: int, tie: nat) returns (alt': int, tie': nat)
    requires Parting(x, s, compare, low, high, l, h, alt, tie)
    requires var p := x[(low + high) / 2]; Cmp(compare, p, p) == 0
    ensures var r := Parted(s, l, h, alt, x[(low + high) / 2], compare);
      Parting(x, r.0, compare, low, high, r.1, r.1, alt', tie')
    decreases h - l
  {
    alt', tie' := alt, tie;
    if l < h {
      var c0 := Cmp(compare, s[l], x[(low + high) / 2]);
      var c, alt1 := if c0 == 0 then alt else c0, if c0 == 0 then -alt else alt;
      if c > 0 {
        var tie1 := PartHigh(x, s, compare, low, high, l, h, alt, tie);
        alt', tie' := PartingEnds(x, Exchanged(s, h - 1, l), compare, low, high, l, h - 1, alt1, tie1);
      } else {
        PartLow(x, s, compare, low, high, l, h, alt, tie);
        alt', tie' := PartingEnds(x, s, compare, low, high, l + 1, h, alt1, tie);
      }
    }
  }

  lemma {:induction false} PartedRearranges(s: seq<Student>, l: nat, h: nat, alt: int, p: Student, compare: Order,
                                            low: nat, high: nat)
    requires low <= l <= h <= high <= |s|
    ensures Rearranged(s, Parted(s, l, h, alt, p, compare).0, low, high)
    decreases h - l
  {
    hide Rearranged;
    RearrangedTrans(s, s, s, low, high);
    if l < h {
      var c0 := Cmp(compare, s[l], p);
      var c, alt' := if c0 == 0 then alt else c0, if c0 == 0 then -alt else alt;
      if c > 0 {
        var t := Exchanged(s, h - 1, l);
        ExchangeRearranges(s, low, high, h - 1, l);
        PartedRearranges(t, l, h - 1, alt', p, compare, low, high);
        RearrangedTrans(s, t, Parted(t, l, h - 1, alt', p, compare).0, low, high);
      } else {
        PartedRearranges(s, l + 1, h, alt', p, compare, low, high);
      }
    }
  }

  ghost function PartitionOf(s: seq<Student>, low: nat, high: nat, compare: Order): (seq<Student>, nat)
    requires low < high <= |s|
  {
    Parted(s, low, high, 1, s[(low + high) / 2], compare)
  }

  /**
   * Partition never returns high, and returns low exactly when the pivot is the strict minimum of the range;
   * it has then rotated the range left by one place.
   */
  lemma PartitionResult(s: seq<Student>, low: nat, high: nat, compare: Order)
    requires TotalPreorder(compare) && low < high <= |s|
    ensures var (t, l) := PartitionOf(s, low, high, compare);
      var mid := (low + high) / 2;
      && low <= l < high && Rearranged(s, t, low, high)
      && (forall k | low <= k < l :: Cmp(compare, t[k], s[mid]) <= 0)
      && (forall k | l <= k < high :: Cmp(compare, t[k], s[mid]) >= 0)
      && (l == low <==> StrictMin(s, compare, low, high, mid))
      && (l == low ==> RotatedLeft(s, t, low, high))
  {
    var p := s[(low + high) / 2];
    assert Leq(compare, p.Rec(), p.Rec());
    var alt, tie := PartingEnds(s, s, compare, low, high, low, high, 1, low);
    PartedRearranges(s, low, high, 1, p, compare, low, high);
  }

  method Partition(stab: array<Student>, low: nat, high: nat, compare: Order) returns (l: nat)
    requires low < high <= stab.Length
    modifies stab
    ensures (stab[..], l) == PartitionOf(old(stab[..]), low, high, compare)
  {
    var pivot := stab[(low + high) / 2];
    l := low;
    var h := high;
    var alt := 1;
    while l < h
      invariant low <= l <= h <= high
      invariant Parted(stab[..], l, h, alt, pivot, compare) == PartitionOf(old(stab[..]), low, high, compare)
    {
      ghost var s := stab[..];
      var c := Cmp(compare, stab[l], pivot);
      if c == 0 {
        c := alt;
        alt := -alt;
      }
      if c > 0 {
        var temp := stab[h-1];
        stab[h-1] := stab[l];
        stab[l] := temp;
        assert stab[..] == Exchanged(s, h - 1, l);
        h := h - 1;
      } else {
        l := l + 1;
      }
    }
  }

  // ----- the recursion of sorttable -----

  lemma BagOfRange(s: seq<Student>, low: nat, high: nat)
    requires low <= high <= |s|
    ensures multiset(s[low..high]) == multiset(s) - multiset(s[..low]) - multiset(s[high..])
  {
    assert s == s[..low] + s[low..high] + s[high..];
  }

  /** Rearranging within a range keeps what the range holds. */
  lemma SameBag(s: seq<Student>, t: seq<Student>, low: nat, high: nat)
    requires Rearranged(s, t, low, high)
    ensures multiset(t[low..high]) == multiset(s[low..high])
  {
    BagOfRange(s, low, high);
    BagOfRange(t, low, high);
    SameEnds(s, t, low, high);
  }

  lemma SameEnds(s: seq<Student>, t: seq<Student>, low: nat, high: nat)
    requires Rearranged(s, t, low, high)
    ensures t[..low] == s[..low] && t[high..] == s[high..]
  {
  }

  lemma IndexIn(u: seq<Student>, v: seq<Student>, k: nat) returns (i: nat)
    requires multiset(u) == multiset(v) && k < |u|
    ensures i < |v| && v[i] == u[k]
  {
    assert u[k] in multiset(u);
    assert u[k] in v;
    i :| i < |v| && v[i] == u[k];
  }

  /** Every entry of a rearranged range was in the range before. */
  lemma FromRange(s: seq<Student>, t: seq<Student>, low: nat, high: nat, k: nat) returns (i: nat)
    requires Rearranged(s, t, low, high) && low <= k < high
    ensures low <= i < high <= |s| && s[i] == t[k]
  {
    assert high <= |s| == |t|;
    SameBag(s, t, low, high);
    hide Rearranged;
    var j := IndexIn(t[low..high], s[low..high], k - low);
    i := low + j;
  }

  /** Sorting the two parts that partition leaves sorts the whole. */
  lemma Join(s: seq<Student>, t: seq<Student>, u: seq<Student>, compare: Order, low: nat, middle: nat, high: nat,
             p: Student)
    requires TotalPreorder(compare) && low <= middle <= high
    requires Rearranged(s, t, low, middle) && Rearranged(t, u, middle, high)
    requires forall k | low <= k < middle :: Cmp(compare, s[k], p) <= 0
    requires forall k | middle <= k < high :: Cmp(compare, s[k], p) >= 0
    requires Ordered(t, compare, low, middle) && Ordered(u, compare, middle, high)
    ensures Ordered(u, compare, low, high)
  {
    forall i, j | low <= i < j < high ensures Cmp(compare, u[i], u[j]) <= 0 {
      if j < middle {
        assert u[i] == t[i] && u[j] == t[j];
      } else if i < middle {
        var i' := FromRange(s, t, low, middle, i);
        var j' := FromRange(t, u, middle, high, j);
        assert u[i] == t[i] && t[j'] == s[j'];
        assert Leq(compare, s[i'].Rec(), p.Rec()) && Leq(compare, p.Rec(), s[j'].Rec());
        assert Leq(compare, s[i'].Rec(), s[j'].Rec());
      }
    }
  }

  /** The termination measure's second part: 1 while the middle entry is the strict minimum. */
  ghost function Stalled(s: seq<Student>, compare: Order, low: nat, high: nat): nat
    requires high <= |s|
  {
    if low < high && StrictMin(s, compare, low, high, (low + high) / 2) then 1 else 0
  }

  /** After a rotation the old strict minimum sits just before the middle, so the range no longer stalls. */
  lemma RotationUnstalls(s: seq<Student>, t: seq<Student>, compare: Order, low: nat, high: nat)
    requires TotalPreorder(compare) && low + 1 < high <= |s| == |t|
    requires Stalled(s, compare, low, high) == 1 && RotatedLeft(s, t, low, high)
    ensures Stalled(t, compare, low, high) == 0
  {
    var mid := (low + high) / 2;
    assert t[mid-1] == s[mid] && t[mid] == s[if mid + 1 < high then mid + 1 else low];
    assert Leq(compare, t[mid-1].Rec(), t[mid].Rec());
  }

  /** Either the second part is shorter, or the range no longer stalls. */
  lemma Progress(s: seq<Student>, low: nat, high: nat, compare: Order)
    requires TotalPreorder(compare) && low + 1 < high <= |s|
    ensures var (t, l) := PartitionOf(s, low, high, compare);
      low <= l < high && (l == low ==> Stalled(t, compare, low, high) < Stalled(s, compare, low, high))
  {
    PartitionResult(s, low, high, compare);
    var (t, l) := PartitionOf(s, low, high, compare);
    if l == low { RotationUnstalls(s, t, compare, low, high); }
  }

  /** A partition followed by sorting both parts sorts the range. */
  lemma PartsSorted(x: seq<Student>, t: seq<Student>, u: seq<Student>, compare: Order, low: nat, high: nat)
    requires TotalPreorder(compare) && low < high <= |x|
    requires var (s, l) := PartitionOf(x, low, high, compare);
      && low <= l <= high && Rearranged(s, t, low, l) && Ordered(t, compare, low, l)
      && Rearranged(t, u, l, high) && Ordered(u, compare, l, high)
    ensures Rearranged(x, u, low, high) && Ordered(u, compare, low, high)
  {
    PartitionResult(x, low, high, compare);
    var (s, l) := PartitionOf(x, low, high, compare);
    Join(s, t, u, compare, low, l, high, x[(low + high) / 2]);
  }

  method SortTable(stab: array<Student>, low: nat, high: nat, compare: Order)
    requires low <= high <= stab.Length && TotalPreorder(compare)
    modifies stab
    ensures Rearranged(old(stab[..]), stab[..], low, high)
    ensures Ordered(stab[..], compare, low, high)
    decreases high - low, Stalled(stab[..], compare, low, high)
  {
    if low == high { return; }
    ghost var x := stab[..];
    var middle := Partition(stab, low, high, compare);
    if low + 1 == high {
      PartitionResult(x, low, high, compare);
      return;
    }
    Progress(x, low, high, compare);
    ghost var s := stab[..];
    SortTable(stab, low, middle, compare);
    ghost var t := stab[..];
    assert middle == low ==> t == s;
    SortTable(stab, middle, high, compare);
    PartsSorted(x, t, stab[..], compare, low, high);
  }
}
