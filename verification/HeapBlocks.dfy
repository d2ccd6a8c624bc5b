/** hw3/src/sfmm.c: what allocating a block, whole or in part, does to the tags. */
module HeapBlocks {
  import opened SegregatedLists
  import opened HeapTiles

  /** The tags allocate_block writes for the block at b. */
  function AllocTags(t: Tags, b: int, requested: nat, end: int): Tags
  {
    var t1 := t[b := Tag(t, b).(alloc := true, requested := requested)];
    var next := b + Tag(t, b).size;
    if next + WORD == end then t1
    else SetPrev(SetPrev(t1, next, true), next + Tag(t1, next).size - WORD, true)
  }

  /** Truthful tags, but for the footer of block k. */
  predicate TaggedBut(t: Tags, cut: seq<int>, k: nat)
    requires k < |cut| - 1
  {
    Tag(t, cut[k]).size == cut[k+1] - cut[k] && forall i | 0 <= i < |cut| - 1 && i != k :: Told(t, cut[i], cut[i+1])
  }

  /** No boundary but k and k+1 is near block k. */
  lemma Outlying(cut: seq<int>, end: int, k: nat, i: nat)
    requires Tiled(cut, end) && k < |cut| - 1 && i < |cut|
    ensures i < k ==> cut[i] + MINIMUM <= cut[k]
    ensures i > k + 1 ==> cut[k+1] + MINIMUM <= cut[i]
    ensures cut[k] + MINIMUM <= cut[k+1]
  {
    if i < k { Spread(cut, end, i, k); }
    if i > k + 1 { Spread(cut, end, k + 1, i); }
    Spread(cut, end, k, k + 1);
  }

  /** No header but block k's own, and no footer but its own and the one before, is where its tags are. */
  predicate Clear(cut: seq<int>, k: nat, i: nat)
    requires k < |cut| - 1 && i < |cut|
  {
    && (i != k ==> cut[i] != cut[k]) && (i != k + 1 ==> cut[i] != cut[k+1])
    && cut[i] != cut[k+1] - WORD && cut[i] - WORD != cut[k] && cut[i] - WORD != cut[k+1]
  }

  lemma IsClear(cut: seq<int>, end: int, k: nat, i: nat)
    requires Tiled(cut, end) && k < |cut| - 1 && i < |cut|
    ensures Clear(cut, k, i) && (k + 2 < |cut| ==> Clear(cut, k + 1, i))
  {
    Outlying(cut, end, k, i);
    if k + 2 < |cut| { Outlying(cut, end, k + 1, i); }
  }

  /** Allocating block k, seen at boundary i. */
  lemma AllocAt(t: Tags, cut: seq<int>, end: int, k: nat, requested: nat, i: nat)
    requires Tiled(cut, end) && k < |cut| - 1 && i < |cut| - 1 && TaggedBut(t, cut, k)
    ensures var t' := AllocTags(t, cut[k], requested, end);
      && Told(t', cut[i], cut[i+1])
      && (i == k ==> Tag(t', cut[i]) == Tag(t, cut[i]).(alloc := true, requested := requested))
      && (i == k + 1 ==> Tag(t', cut[i]) == Tag(t, cut[i]).(prev := true))
      && (i != k && i != k + 1 ==> Tag(t', cut[i]) == Tag(t, cut[i]))
  {
    IsClear(cut, end, k, i);
    IsClear(cut, end, k, i + 1);
    assert i != k ==> Told(t, cut[i], cut[i+1]);
    if k + 2 < |cut| {
      Spread(cut, end, k + 1, |cut| - 1);
      assert Told(t, cut[k+1], cut[k+2]);
    }
  }

  lemma AllocTagged(t: Tags, cut: seq<int>, end: int, k: nat, requested: nat)
    requires Tiled(cut, end) && k < |cut| - 1 && TaggedBut(t, cut, k)
    ensures var t' := AllocTags(t, cut[k], requested, end);
      && Tagged(t', cut)
      && Tag(t', cut[k]) == Tag(t, cut[k]).(alloc := true, requested := requested)
      && (forall i | 0 <= i < |cut| - 1 && i != k && i != k + 1 :: Tag(t', cut[i]) == Tag(t, cut[i]))
      && (k + 2 < |cut| ==> Tag(t', cut[k+1]) == Tag(t, cut[k+1]).(prev := true))
  {
    hide AllocTags, Tag, Told, Tiled, TaggedBut;
    var t' := AllocTags(t, cut[k], requested, end);
    AllocAt(t, cut, end, k, requested, k);
    if k + 2 < |cut| { AllocAt(t, cut, end, k, requested, k + 1); }
    forall i | 0 <= i < |cut| - 1
      ensures Told(t', cut[i], cut[i+1]) && (i != k && i != k + 1 ==> Tag(t', cut[i]) == Tag(t, cut[i]))
    {
      AllocAt(t, cut, end, k, requested, i);
    }
  }

  /** Allocating touches no word but the block's header and the tags of the block after it. */
  lemma AllocElsewhere(t: Tags, b: int, requested: nat, end: int, a: int)
    requires a != b && a != b + Tag(t, b).size
    requires b + Tag(t, b).size + WORD != end ==>
      a != b + Tag(t, b).size + Tag(t, b + Tag(t, b).size).size - WORD && b + Tag(t, b).size != b
    ensures Tag(AllocTags(t, b, requested, end), a) == Tag(t, a)
  {
  }

  /** Of all blocks, block k alone has turned from free to allocated. */
  lemma AllocTiles(t: Tags, t': Tags, cut: seq<int>, end: int, k: nat, b: int, size: int, requested: nat)
    requires Tiled(cut, end) && k < |cut| - 1 && !Tag(t, cut[k]).alloc && Tag(t', cut[k]).alloc
    requires forall i | 0 <= i < |cut| - 1 && i != k ::
      Tag(t', cut[i]).alloc == Tag(t, cut[i]).alloc && Tag(t', cut[i]).requested == Tag(t, cut[i]).requested
    ensures FreeTile(t', cut, b, size) <==> b != cut[k] && FreeTile(t, cut, b, size)
    ensures AllocatedTile(t', cut, b, size, requested) <==>
      (b == cut[k] && size == cut[k+1] - cut[k] && requested == Tag(t', b).requested) ||
      AllocatedTile(t, cut, b, size, requested)
  {
    assert IsTile(cut, cut[k], cut[k+1] - cut[k]);
    if b == cut[k] { FreeTileSize(t, cut, end, k, b, size); }
    if IsTile(cut, b, size) {
      var i :| 0 <= i < |cut| - 1 && cut[i] == b && cut[i+1] == b + size;
    }
  }

  lemma AllocSound(t: Tags, cut: seq<int>, end: int, cs: seq<Class>, k: nat, requested: nat)
    requires Sound(t, cut, end, cs, NONE) && k < |cut| - 1 && !Tag(t, cut[k]).alloc
    ensures var t' := AllocTags(t, cut[k], requested, end);
      && Sound(t', cut, end, Removed(cs, cut[k]), NONE)
      && Allocates(t, cut, t', cut, cut[k], cut[k+1] - cut[k], requested)
      && (AllPrevTold(t, cut) ==> AllPrevTold(t', cut))
  {
    hide On, Removed, FreeTile, AllocatedTile, Tiled, AllocTags;
    assert TaggedBut(t, cut, k) by { assert Told(t, cut[k], cut[k+1]); }
    AllocTagged(t, cut, end, k, requested);
    var t' := AllocTags(t, cut[k], requested, end);
    forall b: int, size: nat ensures On(Removed(cs, cut[k]), b, size) <==> b != NONE && FreeTile(t', cut, b, size) {
      OnRemoved(cs, cut[k], b, size);
      AllocTiles(t, t', cut, end, k, b, size, requested);
    }
    forall b, size, r
      ensures AllocatedTile(t', cut, b, size, r) <==>
        (b == cut[k] && size == cut[k+1] - cut[k] && r == requested) || AllocatedTile(t, cut, b, size, r)
    {
      AllocTiles(t, t', cut, end, k, b, size, r);
    }
    NotAllocated(t, cut, cut[k]);
    AllocPrev(t, t', cut, k);
  }

  lemma NotAllocated(t: Tags, cut: seq<int>, b: int)
    requires !Tag(t, b).alloc
    ensures forall size, r :: !AllocatedTile(t, cut, b, size, r)
  {
  }

  lemma AllocPrev(t: Tags, t': Tags, cut: seq<int>, k: nat)
    requires k < |cut| - 1 && Tag(t', cut[k]).alloc && Tag(t', cut[k]).prev == Tag(t, cut[k]).prev
    requires forall i | 0 <= i < |cut| - 1 && i != k && i != k + 1 :: Tag(t', cut[i]) == Tag(t, cut[i])
    requires k + 2 < |cut| ==> Tag(t', cut[k+1]) == Tag(t, cut[k+1]).(prev := true)
    ensures AllPrevTold(t, cut) ==> AllPrevTold(t', cut)
  {
    if AllPrevTold(t, cut) {
      forall i | 0 <= i < |cut| - 1 ensures PrevTold(t', cut, i) { assert PrevTold(t, cut, i); }
    }
  }

  // ----- splitting -----

  /** The header and footer of the remainder of the block at b, of which blk bytes are to be allocated. */
  function RestTags(t: Tags, b: int, blk: nat): Tags
    requires blk <= Tag(t, b).size
  {
    var rest := Info(false, true, Tag(t, b).size - blk, 0);
    t[b + blk := rest][b + Tag(t, b).size - WORD := rest]
  }

  /** The tags split_block writes before it coalesces the remainder. */
  function SplitTags(t: Tags, b: int, requested: nat, blk: nat, end: int): Tags
    requires blk <= Tag(t, b).size
  {
    SetSize(AllocTags(RestTags(t, b, blk), b, requested, end), b, blk)
  }

  /** A boundary at c within block k. */
  function Cut(cut: seq<int>, k: nat, c: int): seq<int>
    requires k < |cut|
  {
    cut[..k+1] + [c] + cut[k+1..]
  }

  lemma CutTiled(cut: seq<int>, end: int, k: nat, c: int)
    requires Tiled(cut, end) && k < |cut| - 1 && Tile(cut[k], c) && Tile(c, cut[k+1])
    ensures Tiled(Cut(cut, k, c), end)
  {
    var cut' := Cut(cut, k, c);
    forall i | 0 <= i < |cut'| - 1 ensures Tile(cut'[i], cut'[i+1]) {
      assert i < k ==> Tile(cut[i], cut[i+1]);
      assert i > k + 1 ==> Tile(cut[i-1], cut[i]);
    }
  }

  lemma RestTagged(t: Tags, cut: seq<int>, end: int, k: nat, blk: nat)
    requires Tiled(cut, end) && Tagged(t, cut) && k < |cut| - 1 && !Tag(t, cut[k]).alloc
    requires Tile(cut[k], cut[k] + blk) && Tile(cut[k] + blk, cut[k+1]) && blk <= Tag(t, cut[k]).size
    ensures var t1 := RestTags(t, cut[k], blk);
      && TaggedBut(t1, cut, k)
      && (forall i | 0 <= i < |cut| :: Tag(t1, cut[i]) == Tag(t, cut[i]))
      && Tag(t1, cut[k] + blk) == Tag(t1, cut[k+1] - WORD) == Info(false, true, cut[k+1] - cut[k] - blk, 0)
  {
    assert Told(t, cut[k], cut[k+1]);
    var t1 := RestTags(t, cut[k], blk);
    forall i | 0 <= i < |cut| ensures Tag(t1, cut[i]) == Tag(t, cut[i]) { Outlying(cut, end, k, i); }
    forall i | 0 <= i < |cut| - 1 && i != k ensures Told(t1, cut[i], cut[i+1]) {
      Outlying(cut, end, k, i);
      Outlying(cut, end, k, i + 1);
      assert Told(t, cut[i], cut[i+1]);
    }
  }

  lemma SplitTagged(t: Tags, cut: seq<int>, end: int, k: nat, requested: nat, blk: nat)
    requires Tiled(cut, end) && Tagged(t, cut) && k < |cut| - 1 && !Tag(t, cut[k]).alloc
    requires Tile(cut[k], cut[k] + blk) && Tile(cut[k] + blk, cut[k+1]) && blk <= Tag(t, cut[k]).size
    ensures var t' := SplitTags(t, cut[k], requested, blk, end);
      && Tag(t', cut[k]) == Tag(t, cut[k]).(alloc := true, requested := requested, size := blk)
      && Tag(t', cut[k] + blk) == Tag(t', cut[k+1] - WORD) == Info(false, true, cut[k+1] - cut[k] - blk, 0)
      && (forall i | 0 <= i < |cut| - 1 && i != k && i != k + 1 :: Tag(t', cut[i]) == Tag(t, cut[i]))
      && (k + 2 < |cut| ==> Tag(t', cut[k+1]) == Tag(t, cut[k+1]).(prev := true))
      && (forall i | 0 <= i < |cut| - 1 && i != k :: Told(t', cut[i], cut[i+1]))
  {
    hide RestTags, AllocTags;
    var t1 := RestTags(t, cut[k], blk);
    var t2 := AllocTags(t1, cut[k], requested, end);
    RestTagged(t, cut, end, k, blk);
    AllocTagged(t1, cut, end, k, requested);
    RestUntouched(t1, cut, end, k, requested, cut[k] + blk);
    RestUntouched(t1, cut, end, k, requested, cut[k+1] - WORD);
    forall i | 0 <= i < |cut| && i != k ensures cut[i] != cut[k] && cut[i] - WORD != cut[k] {
      Outlying(cut, end, k, i);
    }
    var t' := SetSize(t2, cut[k], blk);
    forall i | 0 <= i < |cut| - 1 && i != k ensures Told(t', cut[i], cut[i+1]) { assert Told(t2, cut[i], cut[i+1]); }
  }

  lemma RestUntouched(t1: Tags, cut: seq<int>, end: int, k: nat, requested: nat, a: int)
    requires Tiled(cut, end) && k < |cut| - 1 && TaggedBut(t1, cut, k) && cut[k] < a < cut[k+1]
    ensures Tag(AllocTags(t1, cut[k], requested, end), a) == Tag(t1, a)
  {
    if k + 2 < |cut| { Outlying(cut, end, k + 1, k); assert Told(t1, cut[k+1], cut[k+2]); }
    AllocElsewhere(t1, cut[k], requested, end, a);
  }

  /** After the split the first part is allocated and the remainder a free block that is on no list. */
  lemma SplitSound(t: Tags, cut: seq<int>, end: int, cs: seq<Class>, k: nat, requested: nat, blk: nat)
    requires Sound(t, cut, end, cs, NONE) && k < |cut| - 1 && !Tag(t, cut[k]).alloc
    requires Tile(cut[k], cut[k] + blk) && Tile(cut[k] + blk, cut[k+1]) && blk <= Tag(t, cut[k]).size
    ensures var t' := SplitTags(t, cut[k], requested, blk, end);
      var cut' := Cut(cut, k, cut[k] + blk);
      && Sound(t', cut', end, Removed(cs, cut[k]), cut[k] + blk)
      && !Tag(t', cut[k] + blk).alloc && PrevTold(t', cut', k + 1)
  {
    hide On, Removed, SplitTags;
    var c, t' := cut[k] + blk, SplitTags(t, cut[k], requested, blk, end);
    var cut' := Cut(cut, k, c);
    CutTiled(cut, end, k, c);
    SplitTagged(t, cut, end, k, requested, blk);
    forall i | 0 <= i < |cut'| - 1 ensures Told(t', cut'[i], cut'[i+1]) {
      assert i < k ==> Told(t', cut[i], cut[i+1]);
      assert i > k + 1 ==> Told(t', cut[i-1], cut[i]);
    }
    forall b: int, size: nat ensures On(Removed(cs, cut[k]), b, size) <==> b != c && FreeTile(t', cut', b, size) {
      OnRemoved(cs, cut[k], b, size);
      SplitTiles(t, t', cut, end, k, c, b, size, 0);
      FreeTileAt(t, cut, end, 0, 1, b, size);
    }
  }

  /** The blocks of a heap in which free block k has been split at c and its first part allocated. */
  lemma SplitTiles(t: Tags, t': Tags, cut: seq<int>, end: int, k: nat, c: int, b: int, size: int, requested: nat)
    requires Tiled(cut, end) && k < |cut| - 1 && Tile(cut[k], c) && Tile(c, cut[k+1])
    requires !Tag(t, cut[k]).alloc && Tag(t', cut[k]).alloc && !Tag(t', c).alloc
    requires forall i | 0 <= i < |cut| - 1 && i != k ::
      Tag(t', cut[i]).alloc == Tag(t, cut[i]).alloc && Tag(t', cut[i]).requested == Tag(t, cut[i]).requested
    ensures b != c ==> (FreeTile(t', Cut(cut, k, c), b, size) <==> b != cut[k] && FreeTile(t, cut, b, size))
    ensures AllocatedTile(t', Cut(cut, k, c), b, size, requested) <==>
      (b == cut[k] && size == c - cut[k] && requested == Tag(t', b).requested) ||
      AllocatedTile(t, cut, b, size, requested)
  {
    CutTile(cut, end, k, c, b, size);
    if IsTile(cut, b, size) {
      var i :| 0 <= i < |cut| - 1 && cut[i] == b && cut[i+1] == b + size;
    }
  }

  lemma CutTile(cut: seq<int>, end: int, k: nat, c: int, b: int, size: int)
    requires Tiled(cut, end) && k < |cut| - 1 && Tile(cut[k], c) && Tile(c, cut[k+1])
    ensures IsTile(Cut(cut, k, c), b, size) <==>
      (b == cut[k] && size == c - cut[k]) || (b == c && size == cut[k+1] - c) || (b != cut[k] && IsTile(cut, b, size))
    ensures IsTile(cut, b, size) ==> b != c
  {
    var cut' := Cut(cut, k, c);
    assert cut'[k] == cut[k] && cut'[k+1] == c && cut'[k+2] == cut[k+1];
    if IsTile(cut', b, size) {
      var i :| 0 <= i < |cut'| - 1 && cut'[i] == b && cut'[i+1] == b + size;
      if i < k { Outlying(cut, end, k, i); assert cut[i] == b && cut[i+1] == b + size; }
      if i > k + 1 { Outlying(cut, end, k, i - 1); assert cut[i-1] == b && cut[i] == b + size; }
    }
    if IsTile(cut, b, size) { TileCut(cut, end, k, c, b, size); }
  }

  lemma TileCut(cut: seq<int>, end: int, k: nat, c: int, b: int, size: int)
    requires Tiled(cut, end) && k < |cut| - 1 && Tile(cut[k], c) && Tile(c, cut[k+1]) && IsTile(cut, b, size)
    ensures b != c && (b != cut[k] ==> IsTile(Cut(cut, k, c), b, size))
  {
    var i :| 0 <= i < |cut| - 1 && cut[i] == b && cut[i+1] == b + size;
    Outlying(cut, end, k, i);
    if i != k {
      var j := if i < k then i else i + 1;
      assert Cut(cut, k, c)[j] == b && Cut(cut, k, c)[j+1] == b + size;
    }
  }

  /**
   * The prev_allocated bits when the remainder has been made but not coalesced: all are as truthful as before, but the
   * one of the block after the remainder, which says that its predecessor is allocated.
   */
  lemma SplitPrev(t: Tags, t': Tags, cut: seq<int>, k: nat, c: int)
    requires k < |cut| - 1 && AllPrevTold(t, cut)
    requires Tag(t', cut[k]) == Tag(t, cut[k])
      .(alloc := true, requested := Tag(t', cut[k]).requested, size := Tag(t', cut[k]).size)
    requires !Tag(t', c).alloc && Tag(t', c).prev
    requires forall i | 0 <= i < |cut| - 1 && i != k && i != k + 1 :: Tag(t', cut[i]) == Tag(t, cut[i])
    requires k + 2 < |cut| ==> Tag(t', cut[k+1]) == Tag(t, cut[k+1]).(prev := true)
    ensures forall l | 0 <= l < |cut| && l != k + 2 :: PrevTold(t', Cut(cut, k, c), l)
    ensures k + 2 < |cut| ==> !PrevTold(t', Cut(cut, k, c), k + 2)
  {
    var cut' := Cut(cut, k, c);
    forall l | 0 <= l < |cut| && l != k + 2 ensures PrevTold(t', cut', l) {
      if l <= k { assert PrevTold(t, cut, l); }
      if l > k + 2 { assert PrevTold(t, cut, l - 1); }
    }
  }

  /** Once the remainder is coalesced, the bits are truthful exactly when no allocated block follows it. */
  lemma SplitCoalescedPrev(t: Tags, cut: seq<int>, end: int, k: nat, requested: nat, blk: nat)
    requires Tiled(cut, end) && Tagged(t, cut) && k < |cut| - 1 && !Tag(t, cut[k]).alloc && AllPrevTold(t, cut)
    requires Tile(cut[k], cut[k] + blk) && Tile(cut[k] + blk, cut[k+1]) && blk <= Tag(t, cut[k]).size
    requires Tagged(SplitTags(t, cut[k], requested, blk, end), Cut(cut, k, cut[k] + blk))
    requires Tiled(Cut(cut, k, cut[k] + blk), end)
    ensures var t', cut' := SplitTags(t, cut[k], requested, blk, end), Cut(cut, k, cut[k] + blk);
      AllPrevTold(CoalescedTags(t', cut', k + 1), CoalescedCut(t', cut', k + 1)) <==>
      k + 2 == |cut| || !Tag(t, cut[k+1]).alloc
  {
    hide SplitTags, Tag, MergeTags, Merged, Tiled;
    var c := cut[k] + blk;
    var t', cut' := SplitTags(t, cut[k], requested, blk, end), Cut(cut, k, c);
    SplitTagged(t, cut, end, k, requested, blk);
    SplitPrev(t, t', cut, k, c);
    MergedNone(cut', k + 1);
    if k + 2 < |cut| && !Tag(t, cut[k+1]).alloc {
      Spread(cut', end, k + 1, k + 3);
      MergePrev(t', cut', end, k + 1, k + 3);
    } else if k + 2 < |cut| {
      assert !PrevTold(t', cut', k + 2);
    }
  }

  // ----- serving a request -----

  function BlockSize(requested: nat): (total: nat)
  {
    if requested + WORD < MINIMUM then MINIMUM else (requested + WORD + 15) / 16 * 16
  }

  lemma BlockSizeLeast(requested: nat)
    ensures BlockSize(requested) % 16 == 0 && BlockSize(requested) >= MINIMUM
    ensures BlockSize(requested) >= requested + WORD
    ensures forall n: nat | n % 16 == 0 && n >= MINIMUM && n >= requested + WORD :: BlockSize(requested) <= n
  {
  }

  /** Block k is split to give blk bytes. */
  predicate Splits(t: Tags, cut: seq<int>, k: nat, blk: nat)
    requires k < |cut|
  {
    Tag(t, cut[k]).size - blk >= MINIMUM
  }

  /** The tags and the boundaries after blk bytes of block k have been allocated. */
  function ServedTags(t: Tags, cut: seq<int>, k: nat, requested: nat, blk: nat, end: int): Tags
    requires k < |cut| - 1
  {
    if Splits(t, cut, k, blk) then
      CoalescedTags(SplitTags(t, cut[k], requested, blk, end), Cut(cut, k, cut[k] + blk), k + 1)
    else AllocTags(t, cut[k], requested, end)
  }

  function ServedCut(t: Tags, cut: seq<int>, k: nat, requested: nat, blk: nat, end: int): seq<int>
    requires k < |cut| - 1
  {
    if Splits(t, cut, k, blk) then
      CoalescedCut(SplitTags(t, cut[k], requested, blk, end), Cut(cut, k, cut[k] + blk), k + 1)
    else cut
  }

  /** The size of the block that serves a request for blk bytes. */
  function ServedSize(t: Tags, cut: seq<int>, k: nat, blk: nat): nat
    requires k < |cut|
  {
    if Splits(t, cut, k, blk) then blk else Tag(t, cut[k]).size
  }

  /**
   * Serving a request allocates one block, at most 16 bytes larger than needed, and leaves the other allocated ones
   * alone.
   */
  lemma ServedAllocates(t: Tags, cut: seq<int>, end: int, cs: seq<Class>, k: nat, requested: nat, blk: nat)
    requires Sound(t, cut, end, cs, NONE) && k < |cut| - 1 && !Tag(t, cut[k]).alloc
    requires MINIMUM <= blk <= Tag(t, cut[k]).size && blk % 16 == 0
    ensures ServedSize(t, cut, k, blk) == blk || ServedSize(t, cut, k, blk) == blk + 16
    ensures Allocates(t, cut, ServedTags(t, cut, k, requested, blk, end), ServedCut(t, cut, k, requested, blk, end),
      cut[k], ServedSize(t, cut, k, blk), requested)
  {
    hide ListsFree, SplitTags, AllocTags, CoalescedTags, CoalescedCut, AllocatedTile, Tiled, Tagged;
    assert Tag(t, cut[k]).size == cut[k+1] - cut[k] && Tile(cut[k], cut[k+1]) by { BlockSized(t, cut, end, k); }
    if Splits(t, cut, k, blk) {
      SplitAllocates(t, cut, end, cs, k, requested, blk);
      SplitSound(t, cut, end, cs, k, requested, blk);
      CoalesceKeeps(SplitTags(t, cut[k], requested, blk, end), Cut(cut, k, cut[k] + blk), end, k + 1);
    } else {
      AllocSound(t, cut, end, cs, k, requested);
    }
  }

  lemma BlockSized(t: Tags, cut: seq<int>, end: int, k: nat)
    requires Tiled(cut, end) && Tagged(t, cut) && k < |cut| - 1
    ensures Tag(t, cut[k]).size == cut[k+1] - cut[k] && Tile(cut[k], cut[k+1])
  {
    assert Told(t, cut[k], cut[k+1]) && Tile(cut[k], cut[k+1]);
  }

  lemma SplitAllocates(t: Tags, cut: seq<int>, end: int, cs: seq<Class>, k: nat, requested: nat, blk: nat)
    requires Sound(t, cut, end, cs, NONE) && k < |cut| - 1 && !Tag(t, cut[k]).alloc
    requires Tile(cut[k], cut[k] + blk) && Tile(cut[k] + blk, cut[k+1]) && blk <= Tag(t, cut[k]).size
    ensures Allocates(t, cut, SplitTags(t, cut[k], requested, blk, end), Cut(cut, k, cut[k] + blk),
      cut[k], blk, requested)
  {
    hide ListsFree, SplitTags, AllocatedTile;
    var t', cut' := SplitTags(t, cut[k], requested, blk, end), Cut(cut, k, cut[k] + blk);
    SplitTagged(t, cut, end, k, requested, blk);
    forall b, size, r: nat
      ensures AllocatedTile(t', cut', b, size, r) <==>
        (b == cut[k] && size == blk && r == requested) || AllocatedTile(t, cut, b, size, r)
    {
      SplitTiles(t, t', cut, end, k, cut[k] + blk, b, size, r);
    }
    NotAllocated(t, cut, cut[k]);
  }

  /** The prev_allocated bits stay truthful exactly when the block is not split or no allocated block follows it. */
  lemma ServedPrev(t: Tags, cut: seq<int>, end: int, cs: seq<Class>, k: nat, requested: nat, blk: nat)
    requires Sound(t, cut, end, cs, NONE) && k < |cut| - 1 && !Tag(t, cut[k]).alloc && AllPrevTold(t, cut)
    requires MINIMUM <= blk <= Tag(t, cut[k]).size && blk % 16 == 0
    ensures AllPrevTold(ServedTags(t, cut, k, requested, blk, end), ServedCut(t, cut, k, requested, blk, end)) <==>
      !Splits(t, cut, k, blk) || k + 2 == |cut| || !Tag(t, cut[k+1]).alloc
  {
    hide ListsFree, SplitTags, AllocTags, CoalescedTags, CoalescedCut, AllPrevTold;
    BlockSized(t, cut, end, k);
    if Splits(t, cut, k, blk) {
      SplitSound(t, cut, end, cs, k, requested, blk);
      SplitCoalescedPrev(t, cut, end, k, requested, blk);
    } else {
      AllocSound(t, cut, end, cs, k, requested);
    }
  }

  // ----- freeing -----

  /** The tags sf_free writes before it coalesces. */
  function FreeTags(t: Tags, b: int, end: int): Tags
  {
    var t1 := t[b := Tag(t, b).(alloc := false, requested := 0)];
    var next := b + Tag(t, b).size;
    var t2 := SetSize(SetPrev(t1, next - WORD, Tag(t1, b).prev), next - WORD, Tag(t1, b).size);
    if next == end - WORD then t2
    else SetPrev(SetPrev(t2, next, false), next + Tag(t2, next).size - WORD, false)
  }

  /** Freeing block k, seen at boundary i. */
  lemma FreeAt(t: Tags, cut: seq<int>, end: int, k: nat, i: nat)
    requires Tiled(cut, end) && Tagged(t, cut) && k < |cut| - 1 && i < |cut| - 1
    ensures var t' := FreeTags(t, cut[k], end);
      && Told(t', cut[i], cut[i+1])
      && (i == k ==> Tag(t', cut[i]) == Tag(t, cut[i]).(alloc := false, requested := 0))
      && (i == k + 1 ==> Tag(t', cut[i]) == Tag(t, cut[i]).(prev := false))
      && (i != k && i != k + 1 ==> Tag(t', cut[i]) == Tag(t, cut[i]))
  {
    IsClear(cut, end, k, i);
    IsClear(cut, end, k, i + 1);
    BlockSized(t, cut, end, k);
    assert Told(t, cut[i], cut[i+1]);
    if k + 2 < |cut| {
      Spread(cut, end, k + 1, |cut| - 1);
      BlockSized(t, cut, end, k + 1);
    }
  }

  lemma FreeTagged(t: Tags, cut: seq<int>, end: int, k: nat)
    requires Tiled(cut, end) && Tagged(t, cut) && k < |cut| - 1
    ensures var t' := FreeTags(t, cut[k], end);
      && Tagged(t', cut)
      && Tag(t', cut[k]) == Tag(t, cut[k]).(alloc := false, requested := 0)
      && (forall i | 0 <= i < |cut| - 1 && i != k && i != k + 1 :: Tag(t', cut[i]) == Tag(t, cut[i]))
      && (k + 2 < |cut| ==> Tag(t', cut[k+1]) == Tag(t, cut[k+1]).(prev := false))
  {
    hide FreeTags, Tag, Told, Tiled;
    var t' := FreeTags(t, cut[k], end);
    FreeAt(t, cut, end, k, k);
    if k + 2 < |cut| { FreeAt(t, cut, end, k, k + 1); }
    forall i | 0 <= i < |cut| - 1
      ensures Told(t', cut[i], cut[i+1]) && (i != k && i != k + 1 ==> Tag(t', cut[i]) == Tag(t, cut[i]))
    {
      FreeAt(t, cut, end, k, i);
    }
  }

  /** No block but k has become free or been allocated. */
  lemma AllocsKept(t: Tags, t': Tags, cut: seq<int>, k: nat)
    requires k < |cut| - 1 && !Tag(t', cut[k]).alloc
    requires forall i | 0 <= i < |cut| - 1 && i != k && i != k + 1 :: Tag(t', cut[i]) == Tag(t, cut[i])
    requires k + 2 < |cut| ==> Tag(t', cut[k+1]) == Tag(t, cut[k+1]).(prev := false)
    ensures forall i | 0 <= i < |cut| - 1 && i != k ::
      Tag(t', cut[i]).alloc == Tag(t, cut[i]).alloc && Tag(t', cut[i]).requested == Tag(t, cut[i]).requested
  {
  }

  /** The freed block is on no list; every other block is as it was. */
  lemma FreeSound(t: Tags, cut: seq<int>, end: int, cs: seq<Class>, k: nat)
    requires Sound(t, cut, end, cs, NONE) && k < |cut| - 1 && Tag(t, cut[k]).alloc
    ensures var t' := FreeTags(t, cut[k], end);
      && Sound(t', cut, end, cs, cut[k]) && !Tag(t', cut[k]).alloc
      && Allocates(t', cut, t, cut, cut[k], cut[k+1] - cut[k], Tag(t, cut[k]).requested)
      && (AllPrevTold(t, cut) ==> AllPrevTold(t', cut))
      && (PrevTold(t, cut, k) ==> PrevTold(t', cut, k))
      && (NeighboursAlone(t, cut, cs, k) ==> NeighboursAlone(t', cut, cs, k))
  {
    hide On, FreeTile, AllocatedTile, Tiled, FreeTags, Alone;
    FreeTagged(t, cut, end, k);
    var t' := FreeTags(t, cut[k], end);
    forall b: int, size: nat ensures On(cs, b, size) <==> b != cut[k] && FreeTile(t', cut, b, size) {
      AllocTiles(t', t, cut, end, k, b, size, 0);
      FreeTileAt(t, cut, end, 0, 1, b, size);
    }
    forall b, size, r: nat
      ensures AllocatedTile(t, cut, b, size, r) <==>
        (b == cut[k] && size == cut[k+1] - cut[k] && r == Tag(t, cut[k]).requested) ||
        AllocatedTile(t', cut, b, size, r)
    {
      AllocTiles(t', t, cut, end, k, b, size, r);
    }
    NotAllocated(t', cut, cut[k]);
    if AllPrevTold(t, cut) {
      forall i | 0 <= i < |cut| - 1 ensures PrevTold(t', cut, i) { assert PrevTold(t, cut, i); }
    }
  }

  /** is_allocated_block: the checks on a pointer before it is freed. */
  predicate IsAllocatedBlock(t: Tags, b: int, end: int)
  {
    && PROLOGUE <= b <= end - WORD && Tag(t, b).alloc
    && Tag(t, b).size % 16 == 0 && Tag(t, b).size >= MINIMUM && Tag(t, b).requested + WORD <= Tag(t, b).size
    && (!Tag(t, b).prev ==> !Tag(t, b - Tag(t, b - WORD).size).alloc && !Tag(t, b - WORD).alloc)
  }

  /**
   * What sf_free aborts on, wherever the pointer leads: outside the blocks, not allocated, a size that is too small or
   * no multiple of 16, a request that does not fit, or a free block before it that does not look like one.
   */
  lemma Rejected(t: Tags, b: int, end: int)
    ensures b < 40 || b > end - 8 || !Tag(t, b).alloc ==> !IsAllocatedBlock(t, b, end)
    ensures Tag(t, b).size % 16 != 0 || Tag(t, b).size < 32 ==> !IsAllocatedBlock(t, b, end)
    ensures Tag(t, b).requested + 8 > Tag(t, b).size ==> !IsAllocatedBlock(t, b, end)
    ensures !Tag(t, b).prev && (Tag(t, b - 8).alloc || Tag(t, b - Tag(t, b - 8).size).alloc) ==>
      !IsAllocatedBlock(t, b, end)
  {
  }

  /**
   * An allocated block passes the checks exactly when its request fits it and, if the block before is free, the footer
   * of that one says so too; sf_free leaves that bit of a footer as it finds it.
   */
  lemma AllocatedBlockPasses(t: Tags, cut: seq<int>, end: int, k: nat)
    requires Tiled(cut, end) && Tagged(t, cut) && k < |cut| - 1 && Tag(t, cut[k]).alloc && PrevTold(t, cut, k)
    ensures IsAllocatedBlock(t, cut[k], end) <==>
      && Tag(t, cut[k]).requested + WORD <= Tag(t, cut[k]).size
      && (k == 0 || Tag(t, cut[k-1]).alloc || !Tag(t, cut[k] - WORD).alloc)
  {
    hide Tag;
    BlockSized(t, cut, end, k);
    Spread(cut, end, k, |cut| - 1);
    if k > 0 {
      Spread(cut, end, 0, k);
      assert Told(t, cut[k-1], cut[k]);
    }
  }

  /**
   * Two allocated blocks of 32 bytes, the last word of the first one's payload being odd: once the first is freed, the
   * checks on the second fail, although it is still allocated.
   */
  lemma FreedNeighbourStops()
    ensures var t: Tags := map[
      40 := Info(true, true, 32, 24), 64 := Info(true, false, 0, 0),
      72 := Info(true, true, 32, 24)];
      var cut, t' := [40, 72, 104], FreeTags(t, 40, 112);
      && Sound(t, cut, 112, [], NONE) && AllPrevTold(t, cut)
      && IsAllocatedBlock(t, 40, 112) && IsAllocatedBlock(t, 72, 112)
      && Sound(t', cut, 112, [], 40) && AllPrevTold(t', cut)
      && AllocatedTile(t', cut, 72, 32, 24) && !IsAllocatedBlock(t', 72, 112)
  {
    hide FreeTags, FreeTile;
    var t: Tags := map[40 := Info(true, true, 32, 24), 64 := Info(true, false, 0, 0), 72 := Info(true, true, 32, 24)];
    var cut := [40, 72, 104];
    NoneFree(t, cut);
    FreeSound(t, cut, 112, [], 0);
    FreedTags(t);
    assert IsTile(cut, 72, 32) by { assert cut[1] == 72 && cut[2] == 72 + 32; }
  }

  lemma NoneFree(t: Tags, cut: seq<int>)
    requires forall i | 0 <= i < |cut| - 1 :: Tag(t, cut[i]).alloc
    ensures ListsFree(t, cut, [], NONE)
  {
  }

  lemma FreedTags(t: Tags)
    requires t == map[40 := Info(true, true, 32, 24), 64 := Info(true, false, 0, 0), 72 := Info(true, true, 32, 24)]
    ensures var t' := FreeTags(t, 40, 112);
      && Tag(t', 40) == Info(false, true, 32, 0) && Tag(t', 64) == Info(true, true, 32, 0)
      && Tag(t', 72) == Info(true, false, 32, 24)
  {
  }
}
