/** hw3/src/sfmm.c: what whole calls leave behind, beyond a sound heap: where the free blocks are, and what was kept. */
module HeapOutcomes {
  import opened SegregatedLists
  import opened HeapTiles
  import opened HeapBlocks
  import opened HeapGrowth
  import opened HeapPayloads

  /**
   * After a block of `whole` bytes at b has served a request with its first `size` bytes, what is left of it is free,
   * no other block has become free or been taken, and no free block ends at b.
   */
  ghost predicate LeavesRest(t0: Tags, cut0: seq<int>, t: Tags, cut: seq<int>, b: int, size: int, whole: int)
  {
    && (forall x, s :: FreeTile(t, cut, x, s) <==>
          if x == b + size then s == whole - size && s >= MINIMUM else x != b && FreeTile(t0, cut0, x, s))
    && (forall x, s :: FreeTile(t, cut, x, s) ==> x + s != b)
  }

  /** How much of a free block of `whole` bytes serves a request for blk bytes. */
  function Given(whole: int, blk: nat): int
  {
    if whole - blk >= MINIMUM then blk else whole
  }

  /** What serving a request for blk bytes with a block of `whole` bytes at b makes of a coalesced heap. */
  ghost predicate Serves(t0: Tags, cut0: seq<int>, t: Tags, cut: seq<int>, b: int, blk: nat, whole: int, requested: nat)
  {
    && Allocates(t0, cut0, t, cut, b, Given(whole, blk), requested)
    && Coalesced(t, cut) && LeavesRest(t0, cut0, t, cut, b, Given(whole, blk), whole)
    && (AllPrevTold(t0, cut0) ==> Tag(t, b).prev)
    && (whole - blk >= MINIMUM ==> Tag(t, b + blk) == Tag(t, b + whole - WORD) == Info(false, true, whole - blk, 0))
  }

  /** Header and footer of the remainder say how large it is, that it is free, and that the block before it is not. */
  lemma RestHeader(t: Tags, cut: seq<int>, end: int, cs: seq<Class>, k: nat, requested: nat, blk: nat)
    requires Sound(t, cut, end, cs, NONE) && k < |cut| - 1 && !Tag(t, cut[k]).alloc && Coalesced(t, cut)
    requires MINIMUM <= blk && blk % 16 == 0 && Splits(t, cut, k, blk)
    ensures var t', whole := ServedTags(t, cut, k, requested, blk, end), Tag(t, cut[k]).size;
      Tag(t', cut[k] + blk) == Tag(t', cut[k] + whole - WORD) == Info(false, true, whole - blk, 0)
  {
    hide ListsFree, SplitTags, AllocTags, Tag, ServedTags, ServedCut;
    BlockSized(t, cut, end, k);
    SplitStays(t, cut, end, k, requested, blk);
    SplitTagged(t, cut, end, k, requested, blk);
  }

  lemma ServedServes(t: Tags, cut: seq<int>, end: int, cs: seq<Class>, k: nat, requested: nat, blk: nat)
    requires Sound(t, cut, end, cs, NONE) && k < |cut| - 1 && !Tag(t, cut[k]).alloc && Coalesced(t, cut)
    requires MINIMUM <= blk <= Tag(t, cut[k]).size && blk % 16 == 0
    ensures Serves(t, cut, ServedTags(t, cut, k, requested, blk, end), ServedCut(t, cut, k, requested, blk, end),
      cut[k], blk, Tag(t, cut[k]).size, requested)
    ensures ServedSize(t, cut, k, blk) == Given(Tag(t, cut[k]).size, blk)
  {
    hide Sound, Tag, LeavesRest, ServedTags, ServedCut, Coalesced, AllPrevTold, Allocates;
    ServedAllocates(t, cut, end, cs, k, requested, blk);
    ServedCoalesced(t, cut, end, cs, k, requested, blk);
    ServedLeaves(t, cut, end, cs, k, requested, blk);
    if AllPrevTold(t, cut) { ServedHeader(t, cut, end, cs, k, requested, blk); }
    if Splits(t, cut, k, blk) { RestHeader(t, cut, end, cs, k, requested, blk); }
  }

  /** Serving a request leaves no two free blocks next to each other. */
  lemma ServedCoalesced(t: Tags, cut: seq<int>, end: int, cs: seq<Class>, k: nat, requested: nat, blk: nat)
    requires Sound(t, cut, end, cs, NONE) && k < |cut| - 1 && !Tag(t, cut[k]).alloc && Coalesced(t, cut)
    requires MINIMUM <= blk <= Tag(t, cut[k]).size && blk % 16 == 0
    ensures Coalesced(ServedTags(t, cut, k, requested, blk, end), ServedCut(t, cut, k, requested, blk, end))
  {
    hide ListsFree, SplitTags, AllocTags, Tag, MergeTags, Merged;
    BlockSized(t, cut, end, k);
    if Splits(t, cut, k, blk) {
      SplitTagged(t, cut, end, k, requested, blk);
      MergedNone(Cut(cut, k, cut[k] + blk), k + 1);
    } else {
      AllocTagged(t, cut, end, k, requested);
    }
  }

  /** With an allocated block behind it, the remainder stays as it is made. */
  lemma SplitStays(t: Tags, cut: seq<int>, end: int, k: nat, requested: nat, blk: nat)
    requires Tiled(cut, end) && Tagged(t, cut) && k < |cut| - 1 && !Tag(t, cut[k]).alloc && Coalesced(t, cut)
    requires Tile(cut[k], cut[k] + blk) && Splits(t, cut, k, blk)
    ensures ServedTags(t, cut, k, requested, blk, end) == SplitTags(t, cut[k], requested, blk, end)
    ensures ServedCut(t, cut, k, requested, blk, end) == Cut(cut, k, cut[k] + blk)
  {
    hide SplitTags, Tag, MergeTags, Merged;
    BlockSized(t, cut, end, k);
    SplitTagged(t, cut, end, k, requested, blk);
    MergedNone(Cut(cut, k, cut[k] + blk), k + 1);
  }

  /** No free block is next to block k, if that is free too. */
  lemma NoneBeside(t: Tags, cut: seq<int>, end: int, k: nat, x: int, s: int)
    requires Tiled(cut, end) && Coalesced(t, cut) && k < |cut| - 1 && !Tag(t, cut[k]).alloc && FreeTile(t, cut, x, s)
    ensures x + s != cut[k] && x != cut[k+1] && (x != cut[k] ==> !(cut[k] < x < cut[k+1]))
  {
    hide Tag;
    var i :| 0 <= i < |cut| - 1 && cut[i] == x && cut[i+1] == x + s;
    Outlying(cut, end, k, i);
    if i + 1 < |cut| { Outlying(cut, end, k, i + 1); }
    if k > 0 { Spread(cut, end, k - 1, k); }
  }

  lemma SplitLeaves(t: Tags, cut: seq<int>, end: int, cs: seq<Class>, k: nat, requested: nat, blk: nat)
    requires Sound(t, cut, end, cs, NONE) && k < |cut| - 1 && !Tag(t, cut[k]).alloc && Coalesced(t, cut)
    requires Tile(cut[k], cut[k] + blk) && Splits(t, cut, k, blk)
    ensures LeavesRest(t, cut, SplitTags(t, cut[k], requested, blk, end), Cut(cut, k, cut[k] + blk),
      cut[k], blk, Tag(t, cut[k]).size)
  {
    hide ListsFree, SplitTags, Tag, FreeTile, IsTile;
    BlockSized(t, cut, end, k);
    var t', c := SplitTags(t, cut[k], requested, blk, end), cut[k] + blk;
    var cut' := Cut(cut, k, c);
    SplitTagged(t, cut, end, k, requested, blk);
    forall x, s
      ensures FreeTile(t', cut', x, s) <==>
        if x == c then s == cut[k+1] - c && s >= MINIMUM else x != cut[k] && FreeTile(t, cut, x, s)
      ensures FreeTile(t', cut', x, s) ==> x + s != cut[k]
    {
      SplitTiles(t, t', cut, end, k, c, x, s, 0);
      CutTile(cut, end, k, c, x, s);
      FreeTileMeans(t', cut', x, s);
      if FreeTile(t, cut, x, s) { NoneBeside(t, cut, end, k, x, s); }
    }
  }

  lemma FreeTileMeans(t: Tags, cut: seq<int>, x: int, s: int)
    ensures FreeTile(t, cut, x, s) <==> IsTile(cut, x, s) && !Tag(t, x).alloc
  {
  }

  lemma WholeLeaves(t: Tags, cut: seq<int>, end: int, cs: seq<Class>, k: nat, requested: nat)
    requires Sound(t, cut, end, cs, NONE) && k < |cut| - 1 && !Tag(t, cut[k]).alloc && Coalesced(t, cut)
    ensures LeavesRest(t, cut, AllocTags(t, cut[k], requested, end), cut,
      cut[k], Tag(t, cut[k]).size, Tag(t, cut[k]).size)
  {
    hide ListsFree, AllocTags, Tag, FreeTile, IsTile;
    assert TaggedBut(t, cut, k) by { BlockSized(t, cut, end, k); }
    BlockSized(t, cut, end, k);
    var t' := AllocTags(t, cut[k], requested, end);
    AllocTagged(t, cut, end, k, requested);
    forall x, s
      ensures FreeTile(t', cut, x, s) <==>
        if x == cut[k+1] then s == 0 && s >= MINIMUM else x != cut[k] && FreeTile(t, cut, x, s)
      ensures FreeTile(t', cut, x, s) ==> x + s != cut[k]
    {
      AllocTiles(t, t', cut, end, k, x, s, 0);
      if FreeTile(t, cut, x, s) { NoneBeside(t, cut, end, k, x, s); }
    }
  }

  /** Whichever way a request is served. */
  lemma ServedLeaves(t: Tags, cut: seq<int>, end: int, cs: seq<Class>, k: nat, requested: nat, blk: nat)
    requires Sound(t, cut, end, cs, NONE) && k < |cut| - 1 && !Tag(t, cut[k]).alloc && Coalesced(t, cut)
    requires MINIMUM <= blk <= Tag(t, cut[k]).size && blk % 16 == 0
    ensures LeavesRest(t, cut, ServedTags(t, cut, k, requested, blk, end), ServedCut(t, cut, k, requested, blk, end),
      cut[k], ServedSize(t, cut, k, blk), Tag(t, cut[k]).size)
  {
    hide ListsFree, SplitTags, AllocTags, Tag, LeavesRest, ServedTags, ServedCut;
    BlockSized(t, cut, end, k);
    if Splits(t, cut, k, blk) {
      SplitStays(t, cut, end, k, requested, blk);
      SplitLeaves(t, cut, end, cs, k, requested, blk);
    } else {
      NotSplit(t, cut, end, k, requested, blk);
      WholeLeaves(t, cut, end, cs, k, requested);
    }
  }

  lemma NotSplit(t: Tags, cut: seq<int>, end: int, k: nat, requested: nat, blk: nat)
    requires k < |cut| - 1 && !Splits(t, cut, k, blk)
    ensures ServedTags(t, cut, k, requested, blk, end) == AllocTags(t, cut[k], requested, end)
    ensures ServedCut(t, cut, k, requested, blk, end) == cut
  {
  }

  /**
   * The header of the block that served a request still says that an allocated block, or the prologue, is before it.
   */
  lemma ServedHeader(t: Tags, cut: seq<int>, end: int, cs: seq<Class>, k: nat, requested: nat, blk: nat)
    requires Sound(t, cut, end, cs, NONE) && k < |cut| - 1 && !Tag(t, cut[k]).alloc && Coalesced(t, cut)
    requires AllPrevTold(t, cut)
    requires MINIMUM <= blk <= Tag(t, cut[k]).size && blk % 16 == 0
    ensures Tag(ServedTags(t, cut, k, requested, blk, end), cut[k]).prev
  {
    hide ListsFree, SplitTags, AllocTags, Tag, ServedTags, ServedCut;
    BlockSized(t, cut, end, k);
    assert PrevTold(t, cut, k);
    if Splits(t, cut, k, blk) {
      SplitStays(t, cut, end, k, requested, blk);
      SplitTagged(t, cut, end, k, requested, blk);
    } else {
      NotSplit(t, cut, end, k, requested, blk);
      AllocTagged(t, cut, end, k, requested);
    }
  }

  /** Merging the free blocks from i up to j leaves no free neighbours if there are none outside. */
  lemma MergedCoalesced(t: Tags, cut: seq<int>, end: int, i: nat, j: nat)
    requires Tiled(cut, end) && Tagged(t, cut) && i < j < |cut| && cut[i] + MINIMUM <= cut[j]
    requires i > 0 ==> Tag(t, cut[i-1]).alloc
    requires j < |cut| - 1 ==> Tag(t, cut[j]).alloc
    requires forall l | 0 <= l < |cut| - 2 && (l + 1 < i || j <= l) :: Tag(t, cut[l]).alloc || Tag(t, cut[l+1]).alloc
    ensures Coalesced(MergeTags(t, cut[i], cut[j]), Merged(cut, i, j))
  {
    MergeTagged(t, cut, end, i, j);
    hide MergeTags, Tag, Tagged, Tiled;
    var t', cut' := MergeTags(t, cut[i], cut[j]), Merged(cut, i, j);
    forall m | 0 <= m < |cut'| - 2 ensures Tag(t', cut'[m]).alloc || Tag(t', cut'[m+1]).alloc {
      if m + 1 < i {
        assert cut'[m] == cut[m] && cut'[m+1] == cut[m+1];
      } else if m + 1 == i {
        assert cut'[m] == cut[m];
      } else {
        var l := m + (j - i - 1);
        assert cut'[m+1] == cut[l+1] && (m > i ==> cut'[m] == cut[l]);
      }
    }
  }

  /** Freeing a block and coalescing it leaves no two free blocks next to each other. */
  lemma FreeCoalesced(t: Tags, cut: seq<int>, end: int, k: nat)
    requires Tiled(cut, end) && Tagged(t, cut) && k < |cut| - 1 && Coalesced(t, cut)
    ensures var t' := FreeTags(t, cut[k], end); Coalesced(CoalescedTags(t', cut, k), CoalescedCut(t', cut, k))
  {
    hide FreeTags, MergeTags, Tag, Tagged, Merged;
    var t' := FreeTags(t, cut[k], end);
    FreeTagged(t, cut, end, k);
    AllocsKept(t, t', cut, k);
    var i, j := MergeFrom(t', cut, k), MergeTo(t', cut, k);
    Spread(cut, end, i, j);
    if j == i + 1 { MergedNone(cut, k); } else { MergedCoalesced(t', cut, end, i, j); }
  }

  /** Once freed, the block fails the checks of sf_free. */
  lemma FreedFails(t: Tags, cut: seq<int>, end: int, k: nat)
    requires Tiled(cut, end) && Tagged(t, cut) && k < |cut| - 1
    ensures !IsAllocatedBlock(CoalescedTags(FreeTags(t, cut[k], end), cut, k), cut[k], end)
  {
    hide FreeTags, MergeTags, Tag, Tagged, Merged;
    var t' := FreeTags(t, cut[k], end);
    FreeTagged(t, cut, end, k);
    var i, j := MergeFrom(t', cut, k), MergeTo(t', cut, k);
    Spread(cut, end, i, j);
    MergeTagged(t', cut, end, i, j);
  }

  /** The prev_allocated bits of all headers but that of block x are truthful. */
  predicate OthersTold(t: Tags, cut: seq<int>, x: int)
  {
    forall l | 0 <= l < |cut| - 1 && l != x :: PrevTold(t, cut, l)
  }

  lemma FreePrevAt(t: Tags, cut: seq<int>, end: int, k: nat, l: nat)
    requires Tiled(cut, end) && Tagged(t, cut) && k < |cut| - 1 && l < |cut| - 1
    ensures PrevTold(FreeTags(t, cut[k], end), cut, l) <==> l == k + 1 || PrevTold(t, cut, l)
  {
    hide FreeTags, Tag, Tagged, Tiled;
    FreeTagged(t, cut, end, k);
  }

  /** Freed and coalesced, the bits are truthful exactly if all but that of the block after were. */
  lemma FreedPrev(t: Tags, cut: seq<int>, end: int, k: nat)
    requires Tiled(cut, end) && Tagged(t, cut) && k < |cut| - 1 && PrevTold(t, cut, k)
    ensures var t' := FreeTags(t, cut[k], end);
      AllPrevTold(CoalescedTags(t', cut, k), CoalescedCut(t', cut, k)) <==> OthersTold(t, cut, k + 1)
  {
    hide FreeTags, MergeTags, Tag, Tagged, Merged, PrevTold, Tiled;
    var t' := FreeTags(t, cut[k], end);
    FreeTagged(t, cut, end, k);
    forall l: nat | l < |cut| - 1 ensures PrevTold(t', cut, l) <==> l == k + 1 || PrevTold(t, cut, l) {
      FreePrevAt(t, cut, end, k, l);
    }
    var i, j := MergeFrom(t', cut, k), MergeTo(t', cut, k);
    Spread(cut, end, i, j);
    if j == i + 1 { MergedNone(cut, k); } else { MergePrev(t', cut, end, i, j); }
  }

  // ----- growing -----

  /** How many pages make a tail of that size fit blk bytes. */
  function PagesNeeded(tail: int, blk: nat): (n: nat)
    requires tail < blk
    ensures n >= 1 && tail + PAGE_SZ * (n - 1) < blk <= tail + PAGE_SZ * n
  {
    (blk - tail + PAGE_SZ - 1) / PAGE_SZ
  }

  /** The free blocks are those before the tail, which is now free. */
  ghost predicate TailGrown(t0: Tags, cut0: seq<int>, t: Tags, cut: seq<int>)
    requires |cut0| >= 2 && |cut| >= 2
  {
    && !Tag(t, cut[|cut|-2]).alloc && cut[|cut|-2] == PageStart(t0, cut0)
    && forall x, s :: FreeTile(t, cut, x, s) <==>
         (x == PageStart(t0, cut0) && s == Tail(t, cut)) || (x < PageStart(t0, cut0) && FreeTile(t0, cut0, x, s))
  }

  /** What growing keeps: the heap as it was, but for a free tail that is n pages longer. */
  ghost predicate Grown(t0: Tags, cut0: seq<int>, t: Tags, cut: seq<int>, n: nat)
    requires |cut0| >= 2
  {
    && |cut| >= 2 && Tail(t, cut) == Tail(t0, cut0) + PAGE_SZ * n && SameAllocated(t0, cut0, t, cut)
    && (AllPrevTold(t0, cut0) ==> AllPrevTold(t, cut)) && (Coalesced(t0, cut0) ==> Coalesced(t, cut))
    && PayloadsKept(t0, cut0, t, false) && (if n == 0 then t == t0 && cut == cut0 else TailGrown(t0, cut0, t, cut))
  }

  lemma GrownNone(t: Tags, cut: seq<int>, end: int, cs: seq<Class>)
    requires Sound(t, cut, end, cs, NONE)
    ensures |cut| >= 2 && Grown(t, cut, t, cut, 0)
  {
  }

  lemma PageTailGrown(t0: Tags, cut0: seq<int>, t: Tags, cut: seq<int>, end: int, n: nat)
    requires |cut0| >= 2 && |cut| >= 2 && Tiled(cut, end) && Tagged(t, cut)
    requires if n == 0 then t == t0 && cut == cut0 else TailGrown(t0, cut0, t, cut)
    ensures |PageCut(t, cut, end)| >= 2 && TailGrown(t0, cut0, PageTags(t, cut, end), PageCut(t, cut, end))
  {
    hide PageTags, PageCut, FreeTile, Tail, Tag, Tiled, Tagged;
    PageTail(t, cut, end);
    var t', cut' := PageTags(t, cut, end), PageCut(t, cut, end);
    forall x, s
      ensures FreeTile(t', cut', x, s) <==>
        (x == PageStart(t0, cut0) && s == Tail(t', cut')) || (x < PageStart(t0, cut0) && FreeTile(t0, cut0, x, s))
    {
      PageFree(t, cut, end, x, s);
    }
  }

  lemma GrownMore(t0: Tags, cut0: seq<int>, t: Tags, cut: seq<int>, end: int, cs: seq<Class>, n: nat)
    requires |cut0| >= 2 && Grown(t0, cut0, t, cut, n)
    requires Sound(t, cut, end, cs, NONE) && EndTold(t, end, cut) && Lonely(t, cut)
    ensures var t', cut' := PageTags(t, cut, end), PageCut(t, cut, end);
      && Grown(t0, cut0, t', cut', n + 1)
      && EndTold(t', end + PAGE_SZ, cut') && Lonely(t', cut')
      && !Tag(t', PageStart(t, cut)).alloc && PageStart(t, cut) == cut'[|cut'|-2]
  {
    hide PageTags, PageCut, AllocatedTile, AllPrevTold, Coalesced, ListsFree, Lonely, Tail, Tagged, Tiled, PayloadsKept,
      TailGrown;
    PageTail(t, cut, end);
    PageLonely(t, cut, end);
    PageAllocated(t, cut, end);
    PagePayloads(t, cut, end, false);
    KeptTwice(t0, cut0, t, cut, PageTags(t, cut, end), false);
    PageTailGrown(t0, cut0, t, cut, end, n);
    if AllPrevTold(t, cut) { PagePrev(t, cut, end, cs); }
    if Coalesced(t, cut) { PageCoalesced(t, cut, end); }
  }

  lemma TailTag(t: Tags, cut: seq<int>, end: int, cs: seq<Class>)
    requires Sound(t, cut, end, cs, NONE) && !Tag(t, cut[|cut|-2]).alloc
    ensures Tag(t, cut[|cut|-2]).size == Tail(t, cut) && cut[|cut|-2] % 16 == 8
  {
    BlockSized(t, cut, end, |cut| - 2);
    if |cut| > 2 { Spread(cut, end, 0, |cut| - 2); }
  }

  /** Serving the request from the grown tail, against the heap before it grew. */
  ghost predicate GrownServed(t0: Tags, cut0: seq<int>, t': Tags, cut': seq<int>, b: int, blk: nat, whole: int,
                      requested: nat)
  {
    && Allocates(t0, cut0, t', cut', b, Given(whole, blk), requested) && PayloadsKept(t0, cut0, t', false)
    && (AllPrevTold(t0, cut0) ==> AllPrevTold(t', cut'))
    && (Coalesced(t0, cut0) ==> Serves(t0, cut0, t', cut', b, blk, whole, requested))
  }

  lemma ServedLast(t0: Tags, cut0: seq<int>, t: Tags, cut: seq<int>, end0: int, end: int, cs: seq<Class>, n: nat,
                   requested: nat, blk: nat)
    requires Tiled(cut0, end0) && n > 0 && Grown(t0, cut0, t, cut, n) && Sound(t, cut, end, cs, NONE)
    requires MINIMUM <= blk <= Tag(t, cut[|cut|-2]).size && blk % 16 == 0
    ensures var k := |cut| - 2;
      GrownServed(t0, cut0, ServedTags(t, cut, k, requested, blk, end), ServedCut(t, cut, k, requested, blk, end),
                  cut[k], blk, Tail(t, cut), requested)
    ensures ServedSize(t, cut, |cut| - 2, blk) == blk || ServedSize(t, cut, |cut| - 2, blk) == blk + 16
    ensures ServedSize(t, cut, |cut| - 2, blk) == Given(Tail(t, cut), blk) && cut[|cut|-2] == PageStart(t0, cut0)
  {
    hide Sound, AllocatedTile, AllPrevTold, Coalesced, ServedTags, ServedCut, Tail, PayloadsKept, LeavesRest, Spared,
      FreeTile;
    var k := |cut| - 2;
    var t', cut' := ServedTags(t, cut, k, requested, blk, end), ServedCut(t, cut, k, requested, blk, end);
    ServedAllocates(t, cut, end, cs, k, requested, blk);
    ServedPayloads(t, cut, end, cs, k, requested, blk, false);
    SparedLast(t, cut, end, cs);
    KeptTwice(t0, cut0, t, cut, t', false);
    TailTag(t, cut, end, cs);
    if AllPrevTold(t, cut) {
      ServedPrev(t, cut, end, cs, k, requested, blk);
    }
    if Coalesced(t, cut) {
      ServedServes(t, cut, end, cs, k, requested, blk);
      GrownLeaves(t0, cut0, t, cut, end0, t', cut', cut[k], ServedSize(t, cut, k, blk), Tail(t, cut));
    }
  }

  lemma SparedLast(t: Tags, cut: seq<int>, end: int, cs: seq<Class>)
    requires Sound(t, cut, end, cs, NONE)
    ensures Spared(t, cut[|cut|-2], end, true, false)
  {
    SparedAt(t, cut, end, |cut| - 2, true, false);
  }

  lemma GrownLeaves(t0: Tags, cut0: seq<int>, t: Tags, cut: seq<int>, end0: int, t': Tags, cut': seq<int>,
                    b: int, size: int, whole: int)
    requires |cut0| >= 2 && |cut| >= 2 && Tiled(cut0, end0) && TailGrown(t0, cut0, t, cut) && b == PageStart(t0, cut0)
    requires LeavesRest(t, cut, t', cut', b, size, whole) && size > 0
    ensures LeavesRest(t0, cut0, t', cut', b, size, whole)
  {
    hide Tag, FreeTile, Tail;
    forall x, s ensures FreeTile(t0, cut0, x, s) ==> x <= PageStart(t0, cut0) {
      if FreeTile(t0, cut0, x, s) {
        FreeTileMeans(t0, cut0, x, s);
        TileEnds(cut0, end0, x, s);
      }
    }
  }

  // ----- a call and its undoing -----

  /** The remainder of a block of `whole` bytes at b would be the only free block of its size. */
  ghost predicate RestAlone(t: Tags, cut: seq<int>, b: int, blk: nat, whole: int)
  {
    forall x, s | FreeTile(t, cut, x, s) && s == whole - blk && s >= MINIMUM :: x == b
  }

  lemma NextTold(t: Tags, cut: seq<int>, k: nat)
    requires k < |cut| - 1 && Tag(t, cut[k]).alloc
    ensures k + 2 < |cut| && Tag(t, cut[k+1]).prev ==> PrevTold(t, cut, k + 1)
    ensures AllPrevTold(t, cut) ==> OthersTold(t, cut, k + 1)
    ensures k + 2 == |cut| || PrevTold(t, cut, k + 1) ==> (OthersTold(t, cut, k + 1) <==> AllPrevTold(t, cut))
  {
  }

  /** The block that served a request can be freed at once. */
  lemma Freeable(t0: Tags, cut0: seq<int>, t: Tags, cut: seq<int>, end: int, cs: seq<Class>, b: int, blk: nat,
                 whole: int, requested: nat) returns (k: nat)
    requires Serves(t0, cut0, t, cut, b, blk, whole, requested) && AllPrevTold(t0, cut0)
    requires Sound(t, cut, end, cs, NONE) && Separate(cs) && requested + WORD <= blk <= whole
    requires RestAlone(t0, cut0, b, blk, whole)
    ensures k < |cut| - 1 && cut[k] == b && Tag(t, b).alloc && PrevTold(t, cut, k) && NeighboursAlone(t, cut, cs, k)
    ensures IsAllocatedBlock(t, b, end) && Tag(t, b).size == Given(whole, blk) && Tag(t, b).requested == requested
    ensures whole - blk >= MINIMUM || AllPrevTold(t, cut) ==> (OthersTold(t, cut, k + 1) <==> AllPrevTold(t, cut))
  {
    hide Tag, FreeTile, Alone, ListsFree, IsAllocatedBlock, Coalesced, AllPrevTold, OthersTold;
    assert AllocatedTile(t, cut, b, Given(whole, blk), requested);
    k :| 0 <= k < |cut| - 1 && cut[k] == b && cut[k+1] == b + Given(whole, blk);
    BlockSized(t, cut, end, k);
    if k > 0 && !Tag(t, cut[k-1]).alloc {
      FreeTileSize(t, cut, end, k - 1, cut[k-1], cut[k] - cut[k-1]);
      assert false;
    }
    AllocatedBlockPasses(t, cut, end, k);
    NextTold(t, cut, k);
    if k + 2 < |cut| && !Tag(t, cut[k+1]).alloc {
      FreeTileSize(t, cut, end, k + 1, cut[k+1], cut[k+2] - cut[k+1]);
      RestIsAlone(t0, cut0, t, cut, end, cs, b, blk, whole, cut[k+2] - cut[k+1]);
    }
  }

  lemma ListedAt(t: Tags, cut: seq<int>, end: int, b: int, s: int)
    requires Tiled(cut, end) && FreeTile(t, cut, b, s)
    ensures b != NONE
  {
    EndAt(cut, end);
    FreeTileAt(t, cut, end, 0, 1, b, s);
  }

  lemma RestIsAlone(t0: Tags, cut0: seq<int>, t: Tags, cut: seq<int>, end: int, cs: seq<Class>, b: int, blk: nat,
                    whole: int, s: int)
    requires LeavesRest(t0, cut0, t, cut, b, Given(whole, blk), whole) && RestAlone(t0, cut0, b, blk, whole)
    requires Sound(t, cut, end, cs, NONE) && Separate(cs) && FreeTile(t, cut, b + Given(whole, blk), s)
    ensures Alone(cs, b + Given(whole, blk))
  {
    hide FreeTile, Alone, Tiled, Tagged, On;
    assert whole - blk >= MINIMUM && s == whole - blk;
    assert b + blk != NONE by { ListedAt(t, cut, end, b + blk, s); }
    OnlyOfSize(t, cut, cs, b + blk, s);
  }

  /** Freeing the block that a call allocated brings back what was allocated before the call. */
  lemma FreeUndoesMalloc(t0: Tags, cut0: seq<int>, t1: Tags, cut1: seq<int>, t2: Tags, cut2: seq<int>,
                         b: int, size: int, requested: nat)
    requires Allocates(t0, cut0, t1, cut1, b, size, requested) && Allocates(t2, cut2, t1, cut1, b, size, requested)
    ensures SameAllocated(t0, cut0, t2, cut2)
  {
    hide AllocatedTile;
    forall x, s, r: nat ensures AllocatedTile(t2, cut2, x, s, r) <==> AllocatedTile(t0, cut0, x, s, r) {
      assert AllocatedTile(t1, cut1, x, s, r) <==>
        (x == b && s == size && r == requested) || AllocatedTile(t0, cut0, x, s, r);
    }
  }

  /** Of the boundaries of a heap only number i is where that one is, and none is between two consecutive ones. */
  lemma BoundaryAt(cut: seq<int>, end: int, i: nat, j: nat)
    requires Tiled(cut, end) && i < |cut| - 1 && j < |cut| && cut[i] <= cut[j] < cut[i+1]
    ensures i == j
  {
    if j < i { Spread(cut, end, j, i); }
    if i + 1 < j { Spread(cut, end, i + 1, j); }
  }

  /** An allocated block of the first heap starts at a boundary of the second and ends at its next one. */
  lemma AllocatedIn(t1: Tags, cut1: seq<int>, t2: Tags, cut2: seq<int>, end: int, i: nat) returns (j: nat)
    requires SameAllocated(t1, cut1, t2, cut2) && i < |cut1| - 1 && Tag(t1, cut1[i]).alloc
    ensures j < |cut2| - 1 && cut2[j] == cut1[i] && cut2[j+1] == cut1[i+1] && Tag(t2, cut1[i]).alloc
  {
    hide Tag;
    var b, size := cut1[i], cut1[i+1] - cut1[i];
    assert IsTile(cut1, b, size);
    assert AllocatedTile(t1, cut1, b, size, Tag(t1, b).requested);
    assert AllocatedTile(t2, cut2, b, size, Tag(t1, b).requested);
    j :| 0 <= j < |cut2| - 1 && cut2[j] == b && cut2[j+1] == b + size;
  }

  /** A free block of one coalesced heap is no shorter than the free block that starts there in the other. */
  lemma NotShorter(t1: Tags, cut1: seq<int>, t2: Tags, cut2: seq<int>, end: int, i: nat)
    requires Tiled(cut1, end) && Tiled(cut2, end) && Coalesced(t1, cut1) && SameAllocated(t1, cut1, t2, cut2)
    requires i < |cut1| - 1 && i < |cut2| - 1 && cut1[i] == cut2[i] && !Tag(t1, cut1[i]).alloc
    ensures cut1[i+1] >= cut2[i+1]
  {
    hide Tag, SameAllocated;
    if cut1[i+1] < cut2[i+1] {
      Spread(cut1, end, i, i + 1);
      if i + 1 < |cut2| - 1 { Spread(cut2, end, i + 1, |cut2| - 1); }
      assert Tag(t1, cut1[i+1]).alloc;
      var j := AllocatedIn(t1, cut1, t2, cut2, end, i + 1);
      BoundaryAt(cut2, end, i, j);
      assert false;
    }
  }

  lemma NextSame(t1: Tags, cut1: seq<int>, t2: Tags, cut2: seq<int>, end: int, i: nat)
    requires Tiled(cut1, end) && Tiled(cut2, end) && Coalesced(t1, cut1) && Coalesced(t2, cut2)
    requires SameAllocated(t1, cut1, t2, cut2) && SameAllocated(t2, cut2, t1, cut1)
    requires i < |cut1| - 1 && i < |cut2| - 1 && cut1[i] == cut2[i]
    ensures cut1[i+1] == cut2[i+1] && Tag(t1, cut1[i]).alloc == Tag(t2, cut1[i]).alloc
  {
    hide Tag, SameAllocated, Coalesced;
    Spread(cut1, end, i, i + 1);
    Spread(cut2, end, i, i + 1);
    if Tag(t1, cut1[i]).alloc {
      var j := AllocatedIn(t1, cut1, t2, cut2, end, i);
      BoundaryAt(cut2, end, i, j);
    } else if Tag(t2, cut1[i]).alloc {
      var j := AllocatedIn(t2, cut2, t1, cut1, end, i);
      assert false;
    } else {
      NotShorter(t1, cut1, t2, cut2, end, i);
      NotShorter(t2, cut2, t1, cut1, end, i);
    }
  }

  lemma {:induction false} SameCuts(t1: Tags, cut1: seq<int>, t2: Tags, cut2: seq<int>, end: int, i: nat)
    requires Tiled(cut1, end) && Tiled(cut2, end) && Coalesced(t1, cut1) && Coalesced(t2, cut2) && i < |cut1|
    requires SameAllocated(t1, cut1, t2, cut2) && SameAllocated(t2, cut2, t1, cut1)
    ensures i < |cut2| && cut1[i] == cut2[i]
    ensures i < |cut1| - 1 ==> Tag(t1, cut1[i]).alloc == Tag(t2, cut1[i]).alloc
  {
    hide Tag, SameAllocated, Coalesced;
    if i > 0 {
      SameCuts(t1, cut1, t2, cut2, end, i - 1);
      Spread(cut1, end, i - 1, |cut1| - 1);
      NextSame(t1, cut1, t2, cut2, end, i - 1);
    }
    if i < |cut1| - 1 {
      Spread(cut1, end, i, |cut1| - 1);
      NextSame(t1, cut1, t2, cut2, end, i);
    }
  }

  /** In a heap of that size without free neighbours, the allocated blocks determine all the others. */
  lemma CoalescedUnique(t1: Tags, cut1: seq<int>, t2: Tags, cut2: seq<int>, end: int)
    requires Tiled(cut1, end) && Tiled(cut2, end) && Coalesced(t1, cut1) && Coalesced(t2, cut2)
    requires SameAllocated(t1, cut1, t2, cut2)
    ensures cut1 == cut2 && forall x, s :: FreeTile(t1, cut1, x, s) <==> FreeTile(t2, cut2, x, s)
  {
    hide Tag, Coalesced;
    assert SameAllocated(t2, cut2, t1, cut1);
    hide SameAllocated;
    forall i | 0 <= i < |cut1|
      ensures i < |cut2| && cut1[i] == cut2[i] && (i < |cut1| - 1 ==> Tag(t1, cut1[i]).alloc == Tag(t2, cut1[i]).alloc)
    {
      SameCuts(t1, cut1, t2, cut2, end, i);
    }
    var last := |cut1| - 1;
    assert last < |cut2| && cut1[last] == cut2[last];
    if last < |cut2| - 1 { Spread(cut2, end, last, |cut2| - 1); }
  }
}
