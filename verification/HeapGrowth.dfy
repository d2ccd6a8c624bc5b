/** hw3/src/sfmm.c: what a new page does to the tags, and when merging it with the end of the heap is safe. */
module HeapGrowth {
  import opened SegregatedLists
  import opened HeapTiles

  /** The word before the epilogue tells whether the last block is allocated. */
  predicate EndTold(t: Tags, end: int, cut: seq<int>)
  {
    |cut| >= 2 && Tag(t, end - 16).alloc == Tag(t, cut[|cut|-2]).alloc
  }

  /** The tags of a block made of a new page, and the new epilogue. */
  function GrowTags(t: Tags, end: int): Tags
  {
    var page := Info(false, Tag(t, end - 16).alloc, PAGE_SZ, 0);
    t[end - WORD := page][end + PAGE_SZ - WORD := Info(true, false, 0, 0)][end + PAGE_SZ - 16 := page]
  }

  function GrownCut(cut: seq<int>, end: int): seq<int>
  {
    cut + [end + PAGE_SZ - WORD]
  }

  lemma GrowTagged(t: Tags, cut: seq<int>, end: int)
    requires Tiled(cut, end) && Tagged(t, cut)
    ensures Tiled(GrownCut(cut, end), end + PAGE_SZ) && Tagged(GrowTags(t, end), GrownCut(cut, end))
    ensures forall i | 0 <= i < |cut| - 1 :: Tag(GrowTags(t, end), cut[i]) == Tag(t, cut[i])
    ensures Tag(GrowTags(t, end), end - WORD) == Info(false, Tag(t, end - 16).alloc, PAGE_SZ, 0)
    ensures Tag(GrowTags(t, end), end + PAGE_SZ - WORD) == Info(true, false, 0, 0)
  {
    var t', cut' := GrowTags(t, end), GrownCut(cut, end);
    forall i | 0 <= i < |cut| - 1 ensures cut[i] + MINIMUM <= end - WORD { Spread(cut, end, i, |cut| - 1); }
    forall i | 0 <= i < |cut'| - 1 ensures Told(t', cut'[i], cut'[i+1]) && Tile(cut'[i], cut'[i+1]) {
      assert i < |cut| - 1 ==> Told(t, cut[i], cut[i+1]) && Tile(cut[i], cut[i+1]);
    }
  }

  lemma GrownTile(cut: seq<int>, end: int, b: int, size: int)
    requires Tiled(cut, end)
    ensures IsTile(GrownCut(cut, end), b, size) <==> (b == end - WORD && size == PAGE_SZ) || IsTile(cut, b, size)
    ensures IsTile(cut, b, size) ==> b != end - WORD
  {
    var cut' := GrownCut(cut, end);
    assert cut'[|cut|-1] == end - WORD && cut'[|cut|] == end - WORD + PAGE_SZ;
    if IsTile(cut', b, size) {
      var i :| 0 <= i < |cut'| - 1 && cut'[i] == b && cut'[i+1] == b + size;
      if i < |cut| - 1 { assert cut[i] == b && cut[i+1] == b + size; }
    }
    if IsTile(cut, b, size) {
      var i :| 0 <= i < |cut| - 1 && cut[i] == b && cut[i+1] == b + size;
      Spread(cut, end, i, |cut| - 1);
      assert cut'[i] == b && cut'[i+1] == b + size;
    }
  }

  lemma GrownTiles(t: Tags, cut: seq<int>, end: int, b: int, size: int, requested: nat)
    requires Tiled(cut, end) && Tagged(t, cut)
    ensures FreeTile(GrowTags(t, end), GrownCut(cut, end), b, size) <==>
      (b == end - WORD && size == PAGE_SZ) || FreeTile(t, cut, b, size)
    ensures AllocatedTile(GrowTags(t, end), GrownCut(cut, end), b, size, requested) <==>
      AllocatedTile(t, cut, b, size, requested)
  {
    hide GrowTags, GrownCut;
    GrownTile(cut, end, b, size);
    GrowTagged(t, cut, end);
  }

  /** With the truth told at its end, the heap grows by one free block that is on no list yet. */
  lemma GrowSound(t: Tags, cut: seq<int>, end: int, cs: seq<Class>)
    requires Sound(t, cut, end, cs, NONE) && EndTold(t, end, cut)
    ensures var t', cut' := GrowTags(t, end), GrownCut(cut, end);
      && Sound(t', cut', end + PAGE_SZ, cs, end - WORD)
      && |cut'| == |cut| + 1 && cut'[|cut|-1] == end - WORD
      && !Tag(t', end - WORD).alloc && PrevTold(t', cut', |cut| - 1)
      && (AllPrevTold(t, cut) ==> AllPrevTold(t', cut'))
  {
    hide GrowTags, FreeTile, On, Tiled;
    var t', cut' := GrowTags(t, end), GrownCut(cut, end);
    GrowTagged(t, cut, end);
    assert cut[|cut|-1] == end - WORD && |cut| >= 2 by { EndAt(cut, end); }
    forall b: int, size: nat ensures On(cs, b, size) <==> b != end - WORD && FreeTile(t', cut', b, size) {
      GrownTiles(t, cut, end, b, size, 0);
      GrownTile(cut, end, b, size);
      FreeTileAt(t, cut, end, 0, 1, b, size);
      if FreeTile(t, cut, b, size) { FreeIsTile(t, cut, b, size); }
    }
    if AllPrevTold(t, cut) {
      forall i | 0 <= i < |cut'| - 1 ensures PrevTold(t', cut', i) { if i < |cut| - 1 { assert PrevTold(t, cut, i); } }
    }
  }

  lemma EndAt(cut: seq<int>, end: int)
    requires Tiled(cut, end)
    ensures |cut| >= 2 && cut[|cut|-1] == end - WORD
  {
  }

  lemma FreeIsTile(t: Tags, cut: seq<int>, b: int, size: int)
    requires FreeTile(t, cut, b, size)
    ensures IsTile(cut, b, size)
  {
  }

  /** The size of the last block if it is free. */
  function Tail(t: Tags, cut: seq<int>): int
    requires |cut| >= 2
  {
    if Tag(t, cut[|cut|-2]).alloc then 0 else cut[|cut|-1] - cut[|cut|-2]
  }

  /** No other free block has a size that the last one has, or gets by growing page by page. */
  ghost predicate Lonely(t: Tags, cut: seq<int>)
    requires |cut| >= 2
  {
    forall b, size | FreeTile(t, cut, b, size) && size >= Tail(t, cut) && (size - Tail(t, cut)) % PAGE_SZ == 0 ::
      b == cut[|cut|-2]
  }

  /** A free block whose size no other free block has is alone on its list. */
  lemma OnlyOfSize(t: Tags, cut: seq<int>, cs: seq<Class>, b: int, size: nat)
    requires ListsFree(t, cut, cs, NONE) && Separate(cs) && On(cs, b, size)
    requires forall x | FreeTile(t, cut, x, size) :: x == b
    ensures Alone(cs, b)
  {
    hide FreeTile;
    var i :| 0 <= i < |cs| && cs[i].size == size && b in cs[i].blocks;
    forall k | 0 <= k < |cs[i].blocks| ensures cs[i].blocks[k] == b {
      assert On(cs, cs[i].blocks[k], size);
    }
    if |cs[i].blocks| > 1 { DistinctAt(cs[i].blocks, 0, 1); }
    assert cs[i].blocks == [b];
  }

  lemma DistinctAt(ring: seq<int>, k: nat, l: nat)
    requires Distinct(ring) && k < l < |ring|
    ensures ring[k] != ring[l]
  {
  }

  /** No two free blocks are neighbours. */
  predicate Coalesced(t: Tags, cut: seq<int>)
  {
    forall i | 0 <= i < |cut| - 2 :: Tag(t, cut[i]).alloc || Tag(t, cut[i+1]).alloc
  }

  // ----- one more page -----

  /** The tags and boundaries once a new page is merged with a free block before it. */
  function PageTags(t: Tags, cut: seq<int>, end: int): Tags
    requires |cut| >= 2
  {
    CoalescedTags(GrowTags(t, end), GrownCut(cut, end), |cut| - 1)
  }

  function PageCut(t: Tags, cut: seq<int>, end: int): seq<int>
    requires |cut| >= 2
  {
    CoalescedCut(GrowTags(t, end), GrownCut(cut, end), |cut| - 1)
  }

  /** Where the block that a new page becomes part of starts. */
  function PageStart(t: Tags, cut: seq<int>): int
    requires |cut| >= 2
  {
    if Tag(t, cut[|cut|-2]).alloc then cut[|cut|-1] else cut[|cut|-2]
  }

  lemma PageShape(t: Tags, cut: seq<int>, end: int)
    requires Tiled(cut, end) && Tagged(t, cut)
    ensures var n := if Tag(t, cut[|cut|-2]).alloc then |cut| - 1 else |cut| - 2;
      PageCut(t, cut, end) == cut[..n] + [PageStart(t, cut), end + PAGE_SZ - WORD]
    ensures PageTags(t, cut, end) ==
      if Tag(t, cut[|cut|-2]).alloc then GrowTags(t, end)
      else MergeTags(GrowTags(t, end), cut[|cut|-2], end + PAGE_SZ - WORD)
  {
    hide GrowTags, MergeTags, Tag;
    GrowTagged(t, cut, end);
    Spread(cut, end, |cut| - 2, |cut| - 1);
  }

  /** After one more page the last block is free, a page longer, and the end of the heap truthful. */
  lemma PageTail(t: Tags, cut: seq<int>, end: int)
    requires Tiled(cut, end) && Tagged(t, cut)
    ensures var t', cut' := PageTags(t, cut, end), PageCut(t, cut, end);
      && |cut'| >= 2 && cut'[|cut'|-2] == PageStart(t, cut) && cut'[|cut'|-1] == end + PAGE_SZ - WORD
      && !Tag(t', PageStart(t, cut)).alloc && Tail(t', cut') == Tail(t, cut) + PAGE_SZ
      && EndTold(t', end + PAGE_SZ, cut') && Tag(t', end + PAGE_SZ - WORD) == Info(true, false, 0, 0)
  {
    PageShape(t, cut, end);
    GrowTagged(t, cut, end);
    Spread(cut, end, |cut| - 2, |cut| - 1);
  }

  lemma PageAllocated(t: Tags, cut: seq<int>, end: int)
    requires Tiled(cut, end) && Tagged(t, cut)
    ensures SameAllocated(t, cut, PageTags(t, cut, end), PageCut(t, cut, end))
  {
    hide GrowTags, GrownCut, CoalescedTags, CoalescedCut, AllocatedTile;
    var t', cut' := PageTags(t, cut, end), PageCut(t, cut, end);
    GrowTagged(t, cut, end);
    GrownLast(cut, end);
    CoalesceKeeps(GrowTags(t, end), GrownCut(cut, end), end + PAGE_SZ, |cut| - 1);
    forall b, size, r: nat ensures AllocatedTile(t', cut', b, size, r) <==> AllocatedTile(t, cut, b, size, r) {
      GrownTiles(t, cut, end, b, size, r);
    }
  }

  lemma GrownLast(cut: seq<int>, end: int)
    requires Tiled(cut, end)
    ensures |GrownCut(cut, end)| == |cut| + 1 && GrownCut(cut, end)[|cut|-1] == end - WORD == cut[|cut|-1]
  {
  }

  lemma PagePrev(t: Tags, cut: seq<int>, end: int, cs: seq<Class>)
    requires Sound(t, cut, end, cs, NONE) && EndTold(t, end, cut) && AllPrevTold(t, cut)
    ensures AllPrevTold(PageTags(t, cut, end), PageCut(t, cut, end))
  {
    hide GrowTags, GrownCut, CoalescedTags, CoalescedCut, AllPrevTold, ListsFree;
    GrowSound(t, cut, end, cs);
    CoalesceKeeps(GrowTags(t, end), GrownCut(cut, end), end + PAGE_SZ, |cut| - 1);
  }

  lemma PageFree(t: Tags, cut: seq<int>, end: int, b: int, size: int)
    requires Tiled(cut, end) && Tagged(t, cut)
    ensures FreeTile(PageTags(t, cut, end), PageCut(t, cut, end), b, size) <==>
      (b == PageStart(t, cut) && size == Tail(t, cut) + PAGE_SZ) || (b < PageStart(t, cut) && FreeTile(t, cut, b, size))
  {
    hide GrowTags, GrownCut, MergeTags, Merged, FreeTile, Tag;
    var t1, cut1, k := GrowTags(t, end), GrownCut(cut, end), |cut| - 1;
    GrowTagged(t, cut, end);
    GrownLast(cut, end);
    GrownTiles(t, cut, end, b, size, 0);
    Spread(cut, end, k - 1, k);
    if FreeTile(t, cut, b, size) { FreeIsTile(t, cut, b, size); TileEnds(cut, end, b, size); }
    GrownCuts(cut, end);
    MergedNone(cut1, k);
    if !Tag(t, cut[k-1]).alloc { MergeFree(t1, cut1, end + PAGE_SZ, k - 1, k + 1, b, size); }
    if FreeTile(t, cut, b, size) && b == cut[k-1] { FreeNotAllocated(t, cut, b, size); }
  }

  lemma GrownCuts(cut: seq<int>, end: int)
    requires Tiled(cut, end)
    ensures GrownCut(cut, end)[|cut|-2] == cut[|cut|-2] && GrownCut(cut, end)[|cut|] == end + PAGE_SZ - WORD
  {
  }

  lemma FreeNotAllocated(t: Tags, cut: seq<int>, b: int, size: int)
    requires FreeTile(t, cut, b, size)
    ensures !Tag(t, b).alloc
  {
  }

  lemma TileEnds(cut: seq<int>, end: int, b: int, size: int)
    requires Tiled(cut, end) && IsTile(cut, b, size)
    ensures b <= cut[|cut|-2] < cut[|cut|-1] && (b == cut[|cut|-2] ==> size == cut[|cut|-1] - b)
  {
    var i :| 0 <= i < |cut| - 1 && cut[i] == b && cut[i+1] == b + size;
    if i < |cut| - 2 { Spread(cut, end, i, |cut| - 2); }
    Spread(cut, end, |cut| - 2, |cut| - 1);
  }

  lemma PageLonely(t: Tags, cut: seq<int>, end: int)
    requires Tiled(cut, end) && Tagged(t, cut) && Lonely(t, cut)
    ensures |PageCut(t, cut, end)| >= 2 && Lonely(PageTags(t, cut, end), PageCut(t, cut, end))
  {
    hide PageTags, PageCut, FreeTile, Tail;
    var t', cut' := PageTags(t, cut, end), PageCut(t, cut, end);
    PageTail(t, cut, end);
    forall b, size | FreeTile(t', cut', b, size) && size >= Tail(t', cut') && (size - Tail(t', cut')) % PAGE_SZ == 0
      ensures b == cut'[|cut'|-2]
    {
      PageFree(t, cut, end, b, size);
      if b < PageStart(t, cut) {
        assert (size - Tail(t, cut)) % PAGE_SZ == 0 && FreeTile(t, cut, b, size);
        FreeNotAllocated(t, cut, b, size);
      }
    }
  }

  /** A lonely free tail is alone on its list, so that a new page can be merged with it. */
  lemma TailAlone(t: Tags, cut: seq<int>, end: int, cs: seq<Class>)
    requires Sound(t, cut, end, cs, NONE) && Separate(cs) && Lonely(t, cut) && !Tag(t, cut[|cut|-2]).alloc
    ensures Alone(cs, cut[|cut|-2])
  {
    hide FreeTile;
    var k := |cut| - 2;
    Spread(cut, end, k, k + 1);
    if k > 0 { Spread(cut, end, 0, k); }
    FreeTileSize(t, cut, end, k, cut[k], cut[k+1] - cut[k]);
    OnlyOfSize(t, cut, cs, cut[k], cut[k+1] - cut[k]);
  }

  lemma PageCoalesced(t: Tags, cut: seq<int>, end: int)
    requires Tiled(cut, end) && Tagged(t, cut) && Coalesced(t, cut)
    ensures Coalesced(PageTags(t, cut, end), PageCut(t, cut, end))
  {
    hide GrowTags, MergeTags, PageTags, PageCut;
    var t1, cut1, k := GrowTags(t, end), GrownCut(cut, end), |cut| - 1;
    PageShape(t, cut, end);
    GrowTagged(t, cut, end);
    GrownCuts(cut, end);
    Spread(cut, end, k - 1, k);
    if !Tag(t, cut[k-1]).alloc { MergeTagged(t1, cut1, end + PAGE_SZ, k - 1, k + 1); }
  }
}
