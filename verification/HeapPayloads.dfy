/**
 * hw3/src/sfmm.c: what the allocator does to the payloads of allocated blocks. allocate_block and sf_free set a bit
 * in the last word of the block that follows, where only a free block has a footer.
 */
module HeapPayloads {
  import opened SegregatedLists
  import opened HeapTiles
  import opened HeapBlocks
  import opened HeapGrowth

  /** Where the words of an allocated block that are looked at end: those that hold bytes asked for, or all. */
  function Reach(lo: int, hi: int, requested: nat, asked: bool): int
  {
    if asked && lo + WORD + requested < hi then lo + WORD + requested else hi
  }

  /** Address a is within an allocated block, behind its header; with `asked`, among the bytes asked for. */
  predicate InPayload(t: Tags, cut: seq<int>, a: int, asked: bool)
  {
    exists i ::
      && 0 <= i < |cut| - 1 && Tag(t, cut[i]).alloc
      && cut[i] < a < Reach(cut[i], cut[i+1], Tag(t, cut[i]).requested, asked)
  }

  /** No word within a block that is allocated in t differs in t'; with `asked`, none that holds bytes asked for. */
  ghost predicate PayloadsKept(t: Tags, cut: seq<int>, t': Tags, asked: bool)
  {
    forall a | InPayload(t, cut, a, asked) :: Tag(t', a) == Tag(t, a)
  }

  /** Writing the bit to the block after b changes no word, or no byte asked for, of an allocated block. */
  predicate Spared(t: Tags, b: int, end: int, bit: bool, asked: bool)
  {
    var next := b + Tag(t, b).size;
    || next + WORD == end || !Tag(t, next).alloc || Tag(t, next + Tag(t, next).size - WORD).prev == bit
    || (asked && Tag(t, next).requested + 2 * WORD <= Tag(t, next).size)
  }

  /** The same for block k. */
  predicate SparedNext(t: Tags, cut: seq<int>, k: nat, bit: bool, asked: bool)
    requires k < |cut| - 1
  {
    || k + 2 == |cut| || !Tag(t, cut[k+1]).alloc || Tag(t, cut[k+2] - WORD).prev == bit
    || (asked && Tag(t, cut[k+1]).requested + 2 * WORD <= cut[k+2] - cut[k+1])
  }

  lemma SparedAt(t: Tags, cut: seq<int>, end: int, k: nat, bit: bool, asked: bool)
    requires Tiled(cut, end) && Tagged(t, cut) && k < |cut| - 1
    ensures Spared(t, cut[k], end, bit, asked) <==> SparedNext(t, cut, k, bit, asked)
  {
    hide Tag;
    BlockSized(t, cut, end, k);
    if k + 2 < |cut| {
      BlockSized(t, cut, end, k + 1);
      Spread(cut, end, k + 1, |cut| - 1);
    }
  }

  /** A place within block i is no boundary, and where a footer can be only if it is block i's. */
  lemma Within(cut: seq<int>, end: int, i: nat, a: int, j: nat)
    requires Tiled(cut, end) && i < |cut| - 1 && cut[i] < a < cut[i+1] && j < |cut|
    ensures a != cut[j] && (j != i + 1 ==> a != cut[j] - WORD)
    ensures j < |cut| - 1 && j != i ==> !(cut[j] <= a < cut[j+1])
  {
    Outlying(cut, end, i, j);
    if j + 1 < |cut| { Outlying(cut, end, i, j + 1); }
  }

  // ----- allocating -----

  /** What allocating block k does to a word within another block. */
  lemma AllocWord(t: Tags, cut: seq<int>, end: int, k: nat, requested: nat, i: nat, a: int)
    requires Tiled(cut, end) && k < |cut| - 1 && TaggedBut(t, cut, k) && i < |cut| - 1 && i != k
    requires cut[i] < a < cut[i+1]
    ensures Tag(AllocTags(t, cut[k], requested, end), a) ==
      if i == k + 1 && a == cut[k+2] - WORD then Tag(t, a).(prev := true) else Tag(t, a)
  {
    Within(cut, end, i, a, k);
    Within(cut, end, i, a, k + 1);
    Spread(cut, end, k, k + 1);
    if k + 2 < |cut| {
      Within(cut, end, i, a, k + 2);
      Spread(cut, end, k + 1, |cut| - 1);
      assert Told(t, cut[k+1], cut[k+2]);
    }
  }

  /** t' is t but for block k and the bit set in the last word of the block after it. */
  ghost predicate MarksNext(t: Tags, cut: seq<int>, t': Tags, k: nat, bit: bool)
    requires k < |cut| - 1
  {
    forall i, a | 0 <= i < |cut| - 1 && i != k && cut[i] < a < cut[i+1] ::
      Tag(t', a) == if i == k + 1 && a == cut[i+1] - WORD then Tag(t, a).(prev := bit) else Tag(t, a)
  }

  lemma MarksSpared(t: Tags, cut: seq<int>, t': Tags, k: nat, bit: bool, i: nat, a: int, asked: bool)
    requires k < |cut| - 1 && MarksNext(t, cut, t', k, bit) && SparedNext(t, cut, k, bit, asked)
    requires i < |cut| - 1 && i != k && Tag(t, cut[i]).alloc
    requires cut[i] < a < Reach(cut[i], cut[i+1], Tag(t, cut[i]).requested, asked)
    ensures Tag(t', a) == Tag(t, a)
  {
    hide Tag;
    if i == k + 1 && a == cut[k+2] - WORD { assert Tag(t', a) == Tag(t, a).(prev := bit); }
  }

  lemma MarksPayload(t: Tags, cut: seq<int>, end: int, t': Tags, k: nat, bit: bool, asked: bool)
    requires Tiled(cut, end) && k < |cut| - 1 && MarksNext(t, cut, t', k, bit) && !SparedNext(t, cut, k, bit, asked)
    ensures k + 2 < |cut| && InPayload(t, cut, cut[k+2] - WORD, asked)
    ensures Tag(t', cut[k+2] - WORD) != Tag(t, cut[k+2] - WORD)
  {
    hide Tag;
    PayloadAt(t, cut, end, k + 1, asked);
    Spread(cut, end, k + 1, k + 2);
    var i, a := k + 1, cut[k+2] - WORD;
    assert cut[i] < a < cut[i+1];
    assert Tag(t', a) == Tag(t, a).(prev := bit);
  }

  /** Then the payloads of the other allocated blocks are kept exactly if the block after is spared. */
  lemma MarksSpare(t: Tags, cut: seq<int>, end: int, t': Tags, k: nat, bit: bool, asked: bool)
    requires Tiled(cut, end) && Tagged(t, cut) && k < |cut| - 1 && !Tag(t, cut[k]).alloc
    requires MarksNext(t, cut, t', k, bit)
    ensures PayloadsKept(t, cut, t', asked) <==> Spared(t, cut[k], end, bit, asked)
  {
    hide Tag, MarksNext, Spared;
    SparedAt(t, cut, end, k, bit, asked);
    if Spared(t, cut[k], end, bit, asked) {
      forall a | InPayload(t, cut, a, asked) ensures Tag(t', a) == Tag(t, a) {
        var i :|
          && 0 <= i < |cut| - 1 && Tag(t, cut[i]).alloc
          && cut[i] < a < Reach(cut[i], cut[i+1], Tag(t, cut[i]).requested, asked);
        MarksSpared(t, cut, t', k, bit, i, a, asked);
      }
    } else {
      MarksPayload(t, cut, end, t', k, bit, asked);
    }
  }

  /** allocate_block keeps the payloads of all other blocks exactly if it spares the one of the next. */
  lemma AllocPayloads(t: Tags, cut: seq<int>, end: int, k: nat, requested: nat, asked: bool)
    requires Tiled(cut, end) && Tagged(t, cut) && k < |cut| - 1 && !Tag(t, cut[k]).alloc
    ensures PayloadsKept(t, cut, AllocTags(t, cut[k], requested, end), asked) <==> Spared(t, cut[k], end, true, asked)
  {
    hide AllocTags, Tag;
    assert TaggedBut(t, cut, k) by { BlockSized(t, cut, end, k); }
    var t' := AllocTags(t, cut[k], requested, end);
    forall i, a | 0 <= i < |cut| - 1 && i != k && cut[i] < a < cut[i+1]
      ensures Tag(t', a) == if i == k + 1 && a == cut[i+1] - WORD then Tag(t, a).(prev := true) else Tag(t, a)
    {
      AllocWord(t, cut, end, k, requested, i, a);
    }
    MarksSpare(t, cut, end, t', k, true, asked);
  }

  /** What splitting block k does to a word within another block, before the remainder is coalesced. */
  lemma SplitWord(t: Tags, cut: seq<int>, end: int, k: nat, requested: nat, blk: nat, i: nat, a: int)
    requires Tiled(cut, end) && Tagged(t, cut) && k < |cut| - 1 && !Tag(t, cut[k]).alloc
    requires Tile(cut[k], cut[k] + blk) && Tile(cut[k] + blk, cut[k+1]) && blk <= Tag(t, cut[k]).size
    requires i < |cut| - 1 && i != k && cut[i] < a < cut[i+1]
    ensures Tag(SplitTags(t, cut[k], requested, blk, end), a) ==
      if i == k + 1 && a == cut[i+1] - WORD then Tag(t, a).(prev := true) else Tag(t, a)
  {
    hide AllocTags;
    var t1 := RestTags(t, cut[k], blk);
    RestTagged(t, cut, end, k, blk);
    BlockSized(t, cut, end, k);
    Within(cut, end, i, a, k);
    assert Tag(t1, a) == Tag(t, a);
    AllocWord(t1, cut, end, k, requested, i, a);
  }

  // ----- coalescing -----

  /** Coalescing writes within free blocks only. */
  lemma CoalesceWord(t: Tags, cut: seq<int>, end: int, k: nat, i: nat, a: int)
    requires Tiled(cut, end) && k < |cut| - 1 && !Tag(t, cut[k]).alloc
    requires i < |cut| - 1 && Tag(t, cut[i]).alloc && cut[i] < a < cut[i+1]
    ensures Tag(CoalescedTags(t, cut, k), a) == Tag(t, a)
  {
    var lo, hi := MergeFrom(t, cut, k), MergeTo(t, cut, k);
    Within(cut, end, i, a, lo);
    Within(cut, end, i, a, hi);
  }

  lemma CoalescePayloads(t: Tags, cut: seq<int>, end: int, k: nat, asked: bool)
    requires Tiled(cut, end) && k < |cut| - 1 && !Tag(t, cut[k]).alloc
    ensures PayloadsKept(t, cut, CoalescedTags(t, cut, k), asked)
  {
    hide Tag, CoalescedTags, Tiled;
    forall a | InPayload(t, cut, a, asked) ensures Tag(CoalescedTags(t, cut, k), a) == Tag(t, a) {
      var i :|
        && 0 <= i < |cut| - 1 && Tag(t, cut[i]).alloc
        && cut[i] < a < Reach(cut[i], cut[i+1], Tag(t, cut[i]).requested, asked);
      CoalesceWord(t, cut, end, k, i, a);
    }
  }

  /** The payloads of a heap are those of its allocated blocks. */
  lemma PayloadOf(t: Tags, cut: seq<int>, a: int, asked: bool)
    ensures InPayload(t, cut, a, asked) <==> exists b, size, r ::
      AllocatedTile(t, cut, b, size, r) && b < a < Reach(b, b + size, r, asked)
  {
    if InPayload(t, cut, a, asked) {
      var i :|
        && 0 <= i < |cut| - 1 && Tag(t, cut[i]).alloc
        && cut[i] < a < Reach(cut[i], cut[i+1], Tag(t, cut[i]).requested, asked);
      assert IsTile(cut, cut[i], cut[i+1] - cut[i]);
      assert AllocatedTile(t, cut, cut[i], cut[i+1] - cut[i], Tag(t, cut[i]).requested);
    }
  }

  lemma SamePayloads(t: Tags, cut: seq<int>, t': Tags, cut': seq<int>, a: int, asked: bool)
    requires SameAllocated(t, cut, t', cut')
    ensures InPayload(t, cut, a, asked) <==> InPayload(t', cut', a, asked)
  {
    hide AllocatedTile, InPayload;
    PayloadOf(t, cut, a, asked);
    PayloadOf(t', cut', a, asked);
  }

  /** What is allocated in the first heap and kept on the way to the second and to the third is kept altogether. */
  lemma KeptTwice(t0: Tags, cut0: seq<int>, t1: Tags, cut1: seq<int>, t2: Tags, asked: bool)
    requires SameAllocated(t0, cut0, t1, cut1) && PayloadsKept(t0, cut0, t1, asked)
    ensures PayloadsKept(t0, cut0, t2, asked) <==> PayloadsKept(t1, cut1, t2, asked)
  {
    hide AllocatedTile, InPayload, SameAllocated, Tag;
    forall a ensures InPayload(t0, cut0, a, asked) <==> InPayload(t1, cut1, a, asked) {
      SamePayloads(t0, cut0, t1, cut1, a, asked);
    }
  }

  // ----- serving a request -----

  /** A block allocated before a split is allocated after it. */
  lemma SplitPayload(t: Tags, cut: seq<int>, end: int, k: nat, requested: nat, blk: nat, a: int, asked: bool)
    requires Tiled(cut, end) && Tagged(t, cut) && k < |cut| - 1 && !Tag(t, cut[k]).alloc
    requires Tile(cut[k], cut[k] + blk) && Tile(cut[k] + blk, cut[k+1]) && blk <= Tag(t, cut[k]).size
    requires InPayload(t, cut, a, asked)
    ensures InPayload(SplitTags(t, cut[k], requested, blk, end), Cut(cut, k, cut[k] + blk), a, asked)
  {
    hide Tag, SplitTags;
    SplitTagged(t, cut, end, k, requested, blk);
    var i :|
      && 0 <= i < |cut| - 1 && Tag(t, cut[i]).alloc
      && cut[i] < a < Reach(cut[i], cut[i+1], Tag(t, cut[i]).requested, asked);
    var j := if i < k then i else i + 1;
    var cut' := Cut(cut, k, cut[k] + blk);
    assert cut'[j] == cut[i] && cut'[j+1] == cut[i+1];
  }

  lemma SplitPayloads(t: Tags, cut: seq<int>, end: int, k: nat, requested: nat, blk: nat, asked: bool)
    requires Tiled(cut, end) && Tagged(t, cut) && k < |cut| - 1 && !Tag(t, cut[k]).alloc
    requires Tile(cut[k], cut[k] + blk) && Tile(cut[k] + blk, cut[k+1]) && blk <= Tag(t, cut[k]).size
    ensures PayloadsKept(t, cut, SplitTags(t, cut[k], requested, blk, end), asked) <==>
      Spared(t, cut[k], end, true, asked)
  {
    hide Tag, SplitTags;
    var t' := SplitTags(t, cut[k], requested, blk, end);
    forall i, a | 0 <= i < |cut| - 1 && i != k && cut[i] < a < cut[i+1]
      ensures Tag(t', a) == if i == k + 1 && a == cut[i+1] - WORD then Tag(t, a).(prev := true) else Tag(t, a)
    {
      SplitWord(t, cut, end, k, requested, blk, i, a);
    }
    MarksSpare(t, cut, end, t', k, true, asked);
  }

  /**
   * Serving a request keeps the payloads of all allocated blocks exactly if the block after the one that serves it is
   * the epilogue, is free, or has the bit set already.
   */
  lemma ServedPayloads(t: Tags, cut: seq<int>, end: int, cs: seq<Class>, k: nat, requested: nat, blk: nat, asked: bool)
    requires Sound(t, cut, end, cs, NONE) && k < |cut| - 1 && !Tag(t, cut[k]).alloc
    requires MINIMUM <= blk <= Tag(t, cut[k]).size && blk % 16 == 0
    ensures PayloadsKept(t, cut, ServedTags(t, cut, k, requested, blk, end), asked) <==>
      Spared(t, cut[k], end, true, asked)
  {
    hide Tag, ListsFree, SplitTags, AllocTags, CoalescedTags, InPayload, Spared;
    BlockSized(t, cut, end, k);
    if Splits(t, cut, k, blk) {
      var t', cut' := SplitTags(t, cut[k], requested, blk, end), Cut(cut, k, cut[k] + blk);
      SplitPayloads(t, cut, end, k, requested, blk, asked);
      SplitSound(t, cut, end, cs, k, requested, blk);
      CoalescePayloads(t', cut', end, k + 1, asked);
      forall a | InPayload(t, cut, a, asked) ensures InPayload(t', cut', a, asked) {
        SplitPayload(t, cut, end, k, requested, blk, a, asked);
      }
    } else {
      AllocPayloads(t, cut, end, k, requested, asked);
    }
  }

  // ----- growing -----

  lemma PagePayloads(t: Tags, cut: seq<int>, end: int, asked: bool)
    requires Tiled(cut, end) && Tagged(t, cut)
    ensures PayloadsKept(t, cut, PageTags(t, cut, end), asked)
  {
    hide CoalescedTags, Tag, InPayload, GrowTags;
    GrowTagged(t, cut, end);
    GrownLast(cut, end);
    CoalescePayloads(GrowTags(t, end), GrownCut(cut, end), end + PAGE_SZ, |cut| - 1, asked);
    forall a | InPayload(t, cut, a, asked)
      ensures Tag(GrowTags(t, end), a) == Tag(t, a) && InPayload(GrowTags(t, end), GrownCut(cut, end), a, asked)
    {
      GrowPayload(t, cut, end, a, asked);
    }
  }

  lemma GrowPayload(t: Tags, cut: seq<int>, end: int, a: int, asked: bool)
    requires Tiled(cut, end) && Tagged(t, cut) && InPayload(t, cut, a, asked)
    ensures Tag(GrowTags(t, end), a) == Tag(t, a) && InPayload(GrowTags(t, end), GrownCut(cut, end), a, asked)
  {
    GrowTagged(t, cut, end);
    var i :|
      && 0 <= i < |cut| - 1 && Tag(t, cut[i]).alloc
      && cut[i] < a < Reach(cut[i], cut[i+1], Tag(t, cut[i]).requested, asked);
    if i + 1 < |cut| - 1 { Spread(cut, end, i + 1, |cut| - 1); }
    assert GrownCut(cut, end)[i] == cut[i] && GrownCut(cut, end)[i+1] == cut[i+1];
  }

  // ----- freeing -----

  lemma FreeWord(t: Tags, cut: seq<int>, end: int, k: nat, i: nat, a: int)
    requires Tiled(cut, end) && Tagged(t, cut) && k < |cut| - 1 && i < |cut| - 1 && i != k && cut[i] < a < cut[i+1]
    ensures Tag(FreeTags(t, cut[k], end), a) ==
      if i == k + 1 && a == cut[i+1] - WORD then Tag(t, a).(prev := false) else Tag(t, a)
  {
    BlockSized(t, cut, end, k);
    Within(cut, end, i, a, k);
    Within(cut, end, i, a, k + 1);
    if k + 2 < |cut| {
      Within(cut, end, i, a, k + 2);
      Spread(cut, end, k + 1, |cut| - 1);
      BlockSized(t, cut, end, k + 1);
    }
    IsClear(cut, end, k, k);
    hide Tiled, Tagged;
    OwnTags(t, cut[k], end, a);
  }

  /** Freeing writes to the block's own tags and to those of the next. */
  lemma OwnTags(t: Tags, b: int, end: int, a: int)
    requires a != b && a != b + Tag(t, b).size && a != b + Tag(t, b).size - WORD && Tag(t, b).size >= MINIMUM
    requires Tag(t, b + Tag(t, b).size).size >= MINIMUM || b + Tag(t, b).size == end - WORD
    ensures var next := b + Tag(t, b).size;
      Tag(FreeTags(t, b, end), a) ==
      if next != end - WORD && a == next + Tag(t, next).size - WORD then Tag(t, a).(prev := false) else Tag(t, a)
  {
  }

  /** sf_free keeps the payloads of the blocks that stay allocated exactly if it spares the one of the next. */
  lemma FreePayloads(t: Tags, cut: seq<int>, end: int, k: nat, asked: bool)
    requires Tiled(cut, end) && Tagged(t, cut) && k < |cut| - 1
    ensures PayloadsKept(FreeTags(t, cut[k], end), cut, t, asked) <==> Spared(t, cut[k], end, false, asked)
  {
    hide Tag, FreeTags, Spared, SparedNext, PayloadsKept, Tagged, Tiled;
    var t' := FreeTags(t, cut[k], end);
    FreeTagged(t, cut, end, k);
    SparedAt(t, cut, end, k, false, asked);
    forall i, a | 0 <= i < |cut| - 1 && i != k && cut[i] < a < cut[i+1]
      ensures Tag(t', a) == if i == k + 1 && a == cut[i+1] - WORD then Tag(t, a).(prev := false) else Tag(t, a)
    {
      FreeWord(t, cut, end, k, i, a);
    }
    AllocsKept(t, t', cut, k);
    if SparedNext(t, cut, k, false, asked) {
      FreeSpares(t, cut, end, t', k, asked);
    } else {
      FreeTouches(t, cut, end, t', k, asked);
    }
  }

  lemma FreeSpares(t: Tags, cut: seq<int>, end: int, t': Tags, k: nat, asked: bool)
    requires Tiled(cut, end) && k < |cut| - 1 && !Tag(t', cut[k]).alloc && MarksNext(t, cut, t', k, false)
    requires forall i | 0 <= i < |cut| - 1 && i != k ::
      Tag(t', cut[i]).alloc == Tag(t, cut[i]).alloc && Tag(t', cut[i]).requested == Tag(t, cut[i]).requested
    requires SparedNext(t, cut, k, false, asked)
    ensures PayloadsKept(t', cut, t, asked)
  {
    hide Tag, MarksNext, Reach, Tiled, SparedNext;
    forall a | InPayload(t', cut, a, asked) ensures Tag(t, a) == Tag(t', a) {
      var i :|
        && 0 <= i < |cut| - 1 && Tag(t', cut[i]).alloc
        && cut[i] < a < Reach(cut[i], cut[i+1], Tag(t', cut[i]).requested, asked);
      assert Tag(t, cut[i]).requested == Tag(t', cut[i]).requested;
      MarksSpared(t, cut, t', k, false, i, a, asked);
    }
  }

  lemma FreeTouches(t: Tags, cut: seq<int>, end: int, t': Tags, k: nat, asked: bool)
    requires Tiled(cut, end) && k < |cut| - 1 && !Tag(t', cut[k]).alloc && MarksNext(t, cut, t', k, false)
    requires forall i | 0 <= i < |cut| - 1 && i != k ::
      Tag(t', cut[i]).alloc == Tag(t, cut[i]).alloc && Tag(t', cut[i]).requested == Tag(t, cut[i]).requested
    requires !SparedNext(t, cut, k, false, asked)
    ensures !PayloadsKept(t', cut, t, asked)
  {
    hide Tag, MarksNext, Reach, Tiled, InPayload;
    MarksPayload(t, cut, end, t', k, false, asked);
    PayloadAt(t', cut, end, k + 1, asked);
  }

  /** The last word of an allocated block is in its payload. */
  lemma PayloadAt(t: Tags, cut: seq<int>, end: int, i: nat, asked: bool)
    requires Tiled(cut, end) && i + 1 < |cut| && Tag(t, cut[i]).alloc
    requires asked ==> Tag(t, cut[i]).requested + 2 * WORD > cut[i+1] - cut[i]
    ensures InPayload(t, cut, cut[i+1] - WORD, asked)
  {
    hide Tag;
    Spread(cut, end, i, i + 1);
    assert cut[i] < cut[i+1] - WORD < Reach(cut[i], cut[i+1], Tag(t, cut[i]).requested, asked);
  }

  /** The same once the freed block has been coalesced. */
  lemma FreedPayloads(t: Tags, cut: seq<int>, end: int, k: nat, asked: bool)
    requires Tiled(cut, end) && Tagged(t, cut) && k < |cut| - 1
    ensures var t' := FreeTags(t, cut[k], end);
      PayloadsKept(CoalescedTags(t', cut, k), CoalescedCut(t', cut, k), t, asked) <==>
      Spared(t, cut[k], end, false, asked)
  {
    hide Tag, FreeTags, CoalescedTags, CoalescedCut, Spared, InPayload, AllocatedTile;
    var t' := FreeTags(t, cut[k], end);
    FreeTagged(t, cut, end, k);
    FreePayloads(t, cut, end, k, asked);
    CoalesceKeeps(t', cut, end, k);
    CoalescePayloads(t', cut, end, k, asked);
    forall a
      ensures InPayload(t', cut, a, asked) <==>
        InPayload(CoalescedTags(t', cut, k), CoalescedCut(t', cut, k), a, asked)
    {
      SamePayloads(t', cut, CoalescedTags(t', cut, k), CoalescedCut(t', cut, k), a, asked);
    }
  }

  /**
   * A request for 88 bytes is served by a free block of 96 before an allocated one of 32: the last word of the latter's
   * payload, the one at 160, changes.
   */
  lemma FitTouchesPayload()
    ensures var t: Tags := map[
      40 := Info(false, true, 96, 0), 128 := Info(false, true, 96, 0),
      136 := Info(true, false, 32, 24)];
      var cut, cs := [40, 136, 168], [Class(96, [40])];
      && Sound(t, cut, 176, cs, NONE) && AllPrevTold(t, cut) && Coalesced(t, cut)
      && InPayload(t, cut, 160, true) && Tag(ServedTags(t, cut, 0, 88, 96, 176), 160) != Tag(t, 160)
  {
    hide AllocTags, Tag;
    var t: Tags := map[
      40 := Info(false, true, 96, 0), 128 := Info(false, true, 96, 0),
      136 := Info(true, false, 32, 24)];
    var cut, cs := [40, 136, 168], [Class(96, [40])];
    assert cs[0].size == 96 && 40 in cs[0].blocks;
    assert cut[0] == 40 && cut[1] == 40 + 96;
    FitTags(t);
    assert Tag(t, cut[1]).alloc && cut[1] < 160 < cut[2];
    AllocWord(t, cut, 176, 0, 88, 1, 160);
  }

  lemma FitTags(t: Tags)
    requires t == map[40 := Info(false, true, 96, 0), 128 := Info(false, true, 96, 0), 136 := Info(true, false, 32, 24)]
    ensures Tag(t, 40) == Tag(t, 128) == Info(false, true, 96, 0) && Tag(t, 136) == Info(true, false, 32, 24)
    ensures !Tag(t, 160).prev
  {
  }

  /**
   * Of two allocated blocks of 32 bytes the first is freed: the last word of the second one's payload, in which the bit
   * was set, changes.
   */
  lemma FreeTouchesPayload()
    ensures var t: Tags := map[
      40 := Info(true, true, 32, 24), 72 := Info(true, true, 32, 24),
      96 := Info(false, true, 0, 0)];
      var cut := [40, 72, 104];
      && Sound(t, cut, 112, [], NONE) && AllPrevTold(t, cut) && Coalesced(t, cut) && IsAllocatedBlock(t, 40, 112)
      && InPayload(t, cut, 96, true) && Tag(CoalescedTags(FreeTags(t, 40, 112), cut, 0), 96) != Tag(t, 96)
  {
    hide FreeTags, Tag;
    var t: Tags := map[
      40 := Info(true, true, 32, 24), 72 := Info(true, true, 32, 24),
      96 := Info(false, true, 0, 0)];
    var cut := [40, 72, 104];
    PairTags(t);
    NoneFree(t, cut);
    assert Tag(t, cut[1]).alloc && cut[1] < 96 < Reach(cut[1], cut[2], Tag(t, cut[1]).requested, true);
    FreeWord(t, cut, 112, 0, 1, 96);
    FreeTagged(t, cut, 112, 0);
  }

  lemma PairTags(t: Tags)
    requires t == map[40 := Info(true, true, 32, 24), 72 := Info(true, true, 32, 24), 96 := Info(false, true, 0, 0)]
    ensures Tag(t, 40) == Tag(t, 72) == Info(true, true, 32, 24) && Tag(t, 96) == Info(false, true, 0, 0)
  {
  }
}
