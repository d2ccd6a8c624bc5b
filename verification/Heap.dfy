/** hw3/src/sfmm.c: the allocator itself, on the tags and the free lists. */
module Heap {
  import opened Options
  import opened SegregatedLists
  import opened HeapTiles
  import opened HeapBlocks
  import opened HeapGrowth
  import opened HeapPayloads
  import opened HeapOutcomes

  class Arena {
    var tags: Tags
    /** sf_mem_end, relative to sf_mem_start. */
    var end: int
    /** How many more pages sf_mem_grow can deliver. */
    var pages: nat
    const free: FreeLists
    ghost var cut: seq<int>

    ghost predicate Valid(except: int)
      reads this, free
    {
      free.Valid() && Sound(tags, cut, end, free.classes, except)
    }

    /** initialSetup, with one page and `more` to come: a single free block between prologue and epilogue. */
    constructor (more: nat)
      ensures Valid(NONE) && cut == [PROLOGUE, PAGE_SZ - WORD] && AllPrevTold(tags, cut) && !Tag(tags, PROLOGUE).alloc
      ensures end == PAGE_SZ && pages == more && fresh(free)
      ensures EndTold(tags, end, cut) && Coalesced(tags, cut) && Lonely(tags, cut)
      ensures Tag(tags, 8) == Tag(tags, 32) == Tag(tags, end - WORD) == Info(true, false, 0, 0)
    {
      var size := PAGE_SZ - PROLOGUE - WORD;
      end, pages, cut := PAGE_SZ, more, [PROLOGUE, PAGE_SZ - WORD];
      tags := map[
        PROLOGUE - 32 := Info(true, false, 0, 0), PROLOGUE - WORD := Info(true, false, 0, 0),
        PAGE_SZ - WORD := Info(true, false, 0, 0),
        PROLOGUE := Info(false, true, size, 0), PAGE_SZ - 16 := Info(false, true, size, 0)];
      free := new FreeLists();
      new;
      free.AddFreeList(size, 0);
      free.CircularInsert(0, PROLOGUE);
      assert ClassAdded([], 0, size) == [Class(size, [])] && [PROLOGUE] + [] == [PROLOGUE];
      OneBlock(tags, size, free.classes);
    }

    /** The header at r and the footer of a block given a new size, the footer also the header's prev_allocated bit. */
    method WriteMerged(r: int, footer: int, size: nat)
      requires r + MINIMUM <= footer + WORD && size == footer + WORD - r && size % 16 == 0
      modifies this`tags
      ensures tags == MergeTags(old(tags), r, footer + WORD)
    {
      tags := SetSize(tags, r, Stored(size));
      tags := SetSize(tags, footer, Tag(tags, r).size);
      tags := SetPrev(tags, footer, Tag(tags, r).prev);
    }

    /** Upward: the block before is free, the one after is not. */
    method MergeUp(block: int, ghost k: nat) returns (r: int)
      requires Valid(block) && 0 < k < |cut| - 1 && cut[k] == block
      requires !Tag(tags, block).alloc && !Tag(tags, cut[k-1]).alloc && Alone(free.classes, cut[k-1])
      modifies this`tags, this`cut, free
      ensures r == old(cut)[k-1] && cut == Merged(old(cut), k - 1, k + 1)
      ensures tags == MergeTags(old(tags), old(cut)[k-1], old(cut)[k+1])
      ensures Valid(NONE)
    {
      hide Sound, MergeTags, On, Inserted, Removed, Alone, Holds, Tag, Merged;
      MergeUpSound(tags, cut, end, free.classes, k);
      var footer := block + Tag(tags, block).size - WORD;
      r := block - Tag(tags, block - WORD).size;
      var oldSize := Tag(tags, r).size;
      var size := oldSize + Tag(tags, block).size;
      WriteMerged(r, footer, size);
      free.DeleteFreeblock(r, oldSize);
      free.InsertBlock(r, size);
      cut := Merged(cut, k - 1, k + 1);
    }

    /** Downward: the block after is free, the one before is not. */
    method MergeDown(block: int, ghost k: nat) returns (r: int)
      requires Valid(block) && k + 2 < |cut| && cut[k] == block
      requires !Tag(tags, block).alloc && !Tag(tags, cut[k+1]).alloc && Alone(free.classes, cut[k+1])
      modifies this`tags, this`cut, free
      ensures r == block && cut == Merged(old(cut), k, k + 2)
      ensures tags == MergeTags(old(tags), block, old(cut)[k+2])
      ensures Valid(NONE)
    {
      hide Sound, MergeTags, On, Inserted, Removed, Alone, Holds, Tag, Merged;
      MergeDownSound(tags, cut, end, free.classes, k);
      r := block;
      var next := block + Tag(tags, block).size;
      var footer := next + Tag(tags, next).size - WORD;
      var size := Tag(tags, block).size + Tag(tags, next).size;
      var oldSize := Tag(tags, footer).size;
      WriteMerged(r, footer, size);
      free.DeleteFreeblock(next, oldSize);
      free.InsertBlock(r, size);
      cut := Merged(cut, k, k + 2);
    }

    /** Both ways. */
    method MergeBoth(block: int, ghost k: nat) returns (r: int)
      requires Valid(block) && 0 < k && k + 2 < |cut| && cut[k] == block
      requires !Tag(tags, block).alloc && !Tag(tags, cut[k-1]).alloc && !Tag(tags, cut[k+1]).alloc
      requires Alone(free.classes, cut[k-1]) && Alone(free.classes, cut[k+1])
      modifies this`tags, this`cut, free
      ensures r == old(cut)[k-1] && cut == Merged(old(cut), k - 1, k + 2)
      ensures tags == MergeTags(old(tags), old(cut)[k-1], old(cut)[k+2])
      ensures Valid(NONE)
    {
      hide Sound, MergeTags, On, Inserted, Removed, Alone, Holds, Tag, Merged;
      MergeBothSound(tags, cut, end, free.classes, k);
      var next := block + Tag(tags, block).size;
      r := block - Tag(tags, block - WORD).size;
      var footer := next + Tag(tags, next).size - WORD;
      var oldPrev, oldNext := Tag(tags, r).size, Tag(tags, footer).size;
      var size := oldPrev + Tag(tags, block).size + oldNext;
      WriteMerged(r, footer, size);
      free.DeleteFreeblock(r, oldPrev);
      free.DeleteFreeblock(next, oldNext);
      free.InsertBlock(r, size);
      cut := Merged(cut, k - 1, k + 2);
    }

    /** For a free block with truthful tags that is on no list yet. */
    method CoalesceBlocks(block: int, ghost k: nat) returns (r: int)
      requires Valid(block) && k < |cut| - 1 && cut[k] == block && !Tag(tags, block).alloc
      requires PrevTold(tags, cut, k) && NeighboursAlone(tags, cut, free.classes, k)
      modifies this`tags, this`cut, free
      ensures Valid(NONE)
      ensures r == old(cut[MergeFrom(tags, cut, k)])
      ensures cut == old(CoalescedCut(tags, cut, k)) && tags == old(CoalescedTags(tags, cut, k))
    {
      hide Tiled, MergeTags, On, Inserted, Removed, Alone, Holds, Tag, Merged, ListsFree;
      Ends(tags, cut, end, free.classes, block, k);
      InsertSound(tags, cut, end, free.classes, k);
      NotListed(tags, cut, end, free.classes, block);
      MergedNone(cut, k);
      var size := Tag(tags, block).size;
      var next := block + size;
      var last := next == end - WORD;
      var first := block == PROLOGUE;
      if last || Tag(tags, next).alloc {
        if !first && !Tag(tags, block).prev {
          r := MergeUp(block, k);
          return;
        }
      }
      if first || Tag(tags, block).prev {
        if !last && !Tag(tags, next).alloc {
          r := MergeDown(block, k);
          return;
        }
      }
      if !first && !last && !Tag(tags, block).prev && !Tag(tags, next).alloc {
        r := MergeBoth(block, k);
        return;
      }
      free.InsertBlock(block, size);
      r := block;
    }

    /** The tags that allocate_block writes. */
    method WriteAllocated(block: int, requested: nat)
      modifies this`tags
      ensures tags == AllocTags(old(tags), block, requested, end)
    {
      tags := tags[block := Tag(tags, block).(alloc := true, requested := requested)];
      var next := block + Tag(tags, block).size;
      if next + WORD != end {
        tags := SetPrev(tags, next, true);
        tags := SetPrev(tags, next + Tag(tags, next).size - WORD, true);
      }
    }

    /** allocate_block, for a block that is free. */
    method AllocateBlock(block: int, requested: nat)
      requires free.Valid() && Holds(free.classes, block)
      modifies this`tags, free
      ensures free.Valid() && free.classes == Removed(old(free.classes), block)
      ensures tags == AllocTags(old(tags), block, requested, end)
    {
      free.Unlink(block);
      WriteAllocated(block, requested);
    }

    /** The tags of the remainder. */
    method WriteRest(block: int, blk: nat)
      requires 0 < blk <= Tag(tags, block).size
      modifies this`tags
      ensures tags == RestTags(old(tags), block, blk)
    {
      var rest := Tag(tags, block).size - blk;
      tags := tags[block + blk := Info(false, true, rest, 0)];
      tags := tags[block + Tag(tags, block).size - WORD := Info(false, true, rest, 0)];
    }

    /** split_block, for a free block; blk bytes of it are to be allocated. */
    method SplitBlock(block: int, requested: nat, blk0: nat, ghost k: nat)
      requires Valid(NONE) && k < |cut| - 1 && cut[k] == block && !Tag(tags, block).alloc
      requires MINIMUM <= blk0 <= Tag(tags, block).size && blk0 % 16 == 0
      requires k + 2 < |cut| && !Tag(tags, cut[k+1]).alloc ==> Alone(free.classes, cut[k+1])
      modifies this`tags, this`cut, free
      ensures Valid(NONE)
      ensures tags == old(ServedTags(tags, cut, k, requested, blk0, end))
      ensures cut == old(ServedCut(tags, cut, k, requested, blk0, end))
    {
      hide Tag, AllocTags, RestTags, MergeTags, Merged, On, Holds, Removed, Alone, Sound, CoalescedTags, CoalescedCut,
        Cut;
      BlockTags(tags, cut, end, free.classes, k);
      if Splits(tags, cut, k, blk0) {
        SplitReady(tags, cut, end, free.classes, k, requested, blk0);
      } else {
        AllocSound(tags, cut, end, free.classes, k, requested);
      }
      var blk := AlignCut(block, blk0);
      var rest := Tag(tags, block).size - blk;
      if rest < MINIMUM {
        AllocateBlock(block, requested);
      } else {
        WriteRest(block, blk);
        AllocateBlock(block, requested);
        tags := SetSize(tags, block, Stored(blk));
        cut := Cut(cut, k, block + blk);
        var _ := CoalesceBlocks(block + blk, k + 1);
      }
    }

    /** process_request, for a free block that fits. */
    method ProcessRequest(block: int, requested: nat, blk: nat, ghost k: nat) returns (payload: int)
      requires Valid(NONE) && k < |cut| - 1 && cut[k] == block && !Tag(tags, block).alloc
      requires MINIMUM <= blk <= Tag(tags, block).size && blk % 16 == 0
      requires k + 2 < |cut| && !Tag(tags, cut[k+1]).alloc ==> Alone(free.classes, cut[k+1])
      modifies this`tags, this`cut, free
      ensures Valid(NONE) && payload == block + WORD
      ensures tags == old(ServedTags(tags, cut, k, requested, blk, end))
      ensures cut == old(ServedCut(tags, cut, k, requested, blk, end))
    {
      hide Tag, AllocTags, SplitTags, On, Holds, Removed, Alone, Sound, CoalescedTags, CoalescedCut;
      BlockTags(tags, cut, end, free.classes, k);
      payload := block + WORD;
      if Tag(tags, block).size == blk || Tag(tags, block).size - blk < MINIMUM {
        AllocSound(tags, cut, end, free.classes, k, requested);
        AllocateBlock(block, requested);
      } else {
        SplitBlock(block, requested, blk, k);
      }
    }

    /** One round of the growth loop of sf_malloc: a page from sf_mem_grow, merged with a free block before it. */
    method Grow() returns (r: Option<int>)
      requires Valid(NONE) && EndTold(tags, end, cut) && Lonely(tags, cut)
      modifies this, free
      ensures r.None? <==> old(pages) == 0
      ensures r.None? ==> unchanged(this) && unchanged(free)
      ensures r.Some? ==>
        && Valid(NONE) && r.value == old(PageStart(tags, cut))
        && tags == old(PageTags(tags, cut, end)) && cut == old(PageCut(tags, cut, end))
        && end == old(end) + PAGE_SZ && pages == old(pages) - 1
    {
      hide Tag, On, Holds, Removed, Alone, Sound, CoalescedTags, CoalescedCut, Lonely, FreeTile;
      if pages == 0 { return None; }
      GrowReady(tags, cut, end, free.classes);
      ghost var k := |cut| - 1;
      var block := end - WORD;
      WritePage();
      cut := GrownCut(cut, end);
      end, pages := end + PAGE_SZ, pages - 1;
      var b := CoalesceBlocks(block, k);
      return Some(b);
    }

    /** The tags of the new page and the new epilogue. */
    method WritePage()
      modifies this`tags
      ensures tags == GrowTags(old(tags), end)
    {
      var footer := end - 16;
      tags := tags[end - WORD := Info(false, Tag(tags, footer).alloc, PAGE_SZ, 0)];
      tags := tags[end + PAGE_SZ - WORD := Info(true, false, 0, 0)];
      tags := tags[end + PAGE_SZ - 16 := Info(false, Tag(tags, footer).alloc, PAGE_SZ, 0)];
    }

    /**
     * The growth loop of sf_malloc, when no free block fits: pages are added to the free tail until it does. The
     * request is served exactly when that many pages are left.
     */
    method GrowAndServe(requested: nat, blk: nat) returns (r: Option<int>, ghost size: nat)
      requires Valid(NONE) && EndTold(tags, end, cut) && Lonely(tags, cut) && Tail(tags, cut) < blk
      requires MINIMUM <= blk && blk % 16 == 0
      modifies this, free
      ensures Valid(NONE)
      ensures r.Some? <==> PagesNeeded(old(Tail(tags, cut)), blk) <= old(pages)
      ensures pages == old(pages) - if r.Some? then PagesNeeded(old(Tail(tags, cut)), blk) else old(pages)
      ensures r.None? ==> SameAllocated(old(tags), old(cut), tags, cut)
      ensures r.Some? ==>
        && (size == blk || size == blk + 16) && r.value % 16 == 0 && r.value - WORD == old(PageStart(tags, cut))
        && Allocates(old(tags), old(cut), tags, cut, r.value - WORD, size, requested)
      ensures PayloadsKept(old(tags), old(cut), tags, false)
      ensures old(AllPrevTold(tags, cut)) ==> AllPrevTold(tags, cut)
      ensures old(Coalesced(tags, cut)) ==> Coalesced(tags, cut)
      ensures r.Some? && old(Coalesced(tags, cut)) ==>
        var whole := old(Tail(tags, cut)) + PAGE_SZ * PagesNeeded(old(Tail(tags, cut)), blk);
        Serves(old(tags), old(cut), tags, cut, r.value - WORD, blk, whole, requested)
    {
      hide Tag, Sound, Alone, EndTold, PageTags, PageCut, ServedTags, ServedCut, AllPrevTold, Coalesced, Allocates,
        SameAllocated, PayloadsKept, LeavesRest, Tail, TailGrown;
      ghost var n := 0;
      ghost var t0, cut0 := tags, cut;
      size := 0;
      GrownNone(t0, cut0, end, free.classes);
      SoundParts(t0, cut0, end, free.classes, NONE);
      while true
        invariant Valid(NONE) && EndTold(tags, end, cut) && |cut| >= 2 && Lonely(tags, cut) && Tail(tags, cut) < blk
        invariant n <= old(pages) && pages == old(pages) - n && |cut0| >= 2 && Grown(t0, cut0, tags, cut, n)
        decreases pages
      {
        GrownMore(t0, cut0, tags, cut, end, free.classes, n);
        var b := Grow();
        if b.None? { return None, 0; }
        n := n + 1;
        TailTag(tags, cut, end, free.classes);
        if Tag(tags, b.value).size >= blk {
          ghost var k := |cut| - 2;
          ServedLast(t0, cut0, tags, cut, old(end), end, free.classes, n, requested, blk);
          size := ServedSize(tags, cut, k, blk);
          assert b.value == PageStart(t0, cut0) && Tail(tags, cut) == Tail(t0, cut0) + PAGE_SZ * n;
          assert n == PagesNeeded(Tail(t0, cut0), blk);
          var payload := ProcessRequest(b.value, requested, blk, k);
          return Some(payload), size;
        }
      }
    }

    /** sf_malloc after the first call; a failure for lack of memory sets ENOMEM. */
    method Malloc(requested: nat) returns (r: Option<int>, enomem: bool, ghost size: nat)
      requires Valid(NONE) && Coalesced(tags, cut)
      requires Fitting(free.classes, BlockSize(requested)) == |free.classes| ==>
        EndTold(tags, end, cut) && Lonely(tags, cut)
      modifies this, free
      ensures Valid(NONE) && Coalesced(tags, cut)
      ensures enomem <==> r.None? && requested != 0
      ensures r.None? ==>
        SameAllocated(old(tags), old(cut), tags, cut) && PayloadsKept(old(tags), old(cut), tags, false)
      ensures r.Some? ==>
        && (size == BlockSize(requested) || size == BlockSize(requested) + 16) && r.value % 16 == 0
        && Allocates(old(tags), old(cut), tags, cut, r.value - WORD, size, requested)
      ensures var blk, cs := BlockSize(requested), old(free.classes);
        var i := Fitting(cs, blk);
        if requested == 0 then r.None? && unchanged(this) && unchanged(free)
        else if i < |cs| then
          var b, whole := cs[i].blocks[0], cs[i].size;
          && r == Some(b + WORD) && pages == old(pages) && end == old(end)
          && Serves(old(tags), old(cut), tags, cut, b, blk, whole, requested)
          && (forall asked: bool ::
                PayloadsKept(old(tags), old(cut), tags, asked) <==> Spared(old(tags), b, end, true, asked))
          && (old(AllPrevTold(tags, cut)) ==>
                (AllPrevTold(tags, cut) <==> whole - blk < MINIMUM || b + whole + WORD == end))
        else
          && old(|cut| >= 2 && Tail(tags, cut) < blk)
          && (r.Some? <==> PagesNeeded(old(Tail(tags, cut)), blk) <= old(pages))
          && (r.Some? ==>
                var whole := old(Tail(tags, cut)) + PAGE_SZ * PagesNeeded(old(Tail(tags, cut)), blk);
                && r == Some(old(PageStart(tags, cut)) + WORD)
                && Serves(old(tags), old(cut), tags, cut, r.value - WORD, blk, whole, requested))
          && PayloadsKept(old(tags), old(cut), tags, false) && (old(AllPrevTold(tags, cut)) ==> AllPrevTold(tags, cut))
    {
      hide Tag, Sound, Alone, ServedTags, ServedCut, AllPrevTold, Coalesced, Allocates, SameAllocated, Fitting,
        BlockSize, EndTold, Lonely, PayloadsKept, Serves, Spared, Tail, PageStart;
      BlockSizeLeast(requested);
      SameAllocatedSelf(tags, cut);
      size := 0;
      if requested == 0 { return None, false, 0; }
      var blk := TotalBlockSize(requested);
      var b := free.SearchFreeblock(blk);
      if b.Some? {
        ghost var k := FitReady(tags, cut, end, free.classes, requested, blk);
        size := ServedSize(tags, cut, k, blk);
        var payload := ProcessRequest(b.value, requested, blk, k);
        return Some(payload), false, size;
      }
      NoFit(tags, cut, end, free.classes, blk);
      r, size := GrowAndServe(requested, blk);
      enomem := r.None?;
    }

    /** The tags that sf_free writes. */
    method WriteFree(block: int)
      modifies this`tags
      ensures tags == FreeTags(old(tags), block, end)
    {
      tags := tags[block := Tag(tags, block).(alloc := false, requested := 0)];
      var next := block + Tag(tags, block).size;
      var footer := next - WORD;
      var header := Tag(tags, block);
      tags := SetPrev(tags, footer, header.prev);
      tags := SetSize(tags, footer, header.size);
      if next != end - WORD {
        var nextFooter := next + Tag(tags, next).size - WORD;
        tags := SetPrev(tags, next, false);
        tags := SetPrev(tags, nextFooter, false);
      }
    }

    /**
     * sf_free: it stops the program when the checks on the pointer fail, as they do when the block is freed twice.
     * Block k is the one that the pointer belongs to.
     */
    method Free(payload: int, ghost k: nat) returns (ok: bool)
      requires Valid(NONE)
      requires IsAllocatedBlock(tags, payload - WORD, end) ==>
        && k < |cut| - 1 && cut[k] == payload - WORD
        && PrevTold(tags, cut, k) && NeighboursAlone(tags, cut, free.classes, k)
      modifies this`tags, this`cut, free
      ensures ok <==> old(IsAllocatedBlock(tags, payload - WORD, end))
      ensures !ok ==> unchanged(this) && unchanged(free)
      ensures ok ==> Valid(NONE) && !IsAllocatedBlock(tags, payload - WORD, end)
      ensures ok ==>
        && tags == old(CoalescedTags(FreeTags(tags, cut[k], end), cut, k))
        && cut == old(CoalescedCut(FreeTags(tags, cut[k], end), cut, k))
      ensures ok ==>
        Allocates(tags, cut, old(tags), old(cut), payload - WORD, old(Tag(tags, cut[k]).size),
          old(Tag(tags, cut[k]).requested))
      ensures ok ==> forall asked: bool ::
        PayloadsKept(tags, cut, old(tags), asked) <==> old(Spared(tags, payload - WORD, end, false, asked))
      ensures ok ==> (AllPrevTold(tags, cut) <==> old(OthersTold(tags, cut, k + 1)))
      ensures ok && old(Coalesced(tags, cut)) ==> Coalesced(tags, cut)
    {
      hide Tag, Sound, Alone, FreeTags, IsAllocatedBlock, CoalescedTags, CoalescedCut, AllocatedTile, AllPrevTold,
        Coalesced, PayloadsKept, Spared;
      var block := payload - WORD;
      ok := IsAllocatedBlock(tags, block, end);
      if !ok { return; }
      PassesAllocated(tags, block, end);
      FreeReady(tags, cut, end, free.classes, k);
      WriteFree(block);
      var _ := CoalesceBlocks(block, k);
    }

    /** What is left of the block that will serve a request for blk bytes will be the only free block of its size. */
    ghost predicate RemainderAlone(blk: nat)
      reads this, free
    {
      var cs, i := free.classes, Fitting(free.classes, blk);
      if i < |cs| then RestAlone(tags, cut, cs[i].blocks[0], blk, cs[i].size)
      else |cut| >= 2 && Tail(tags, cut) < blk && PagesNeeded(Tail(tags, cut), blk) <= pages ==>
        RestAlone(tags, cut, PageStart(tags, cut), blk, Tail(tags, cut) + PAGE_SZ * PagesNeeded(Tail(tags, cut), blk))
    }

    /**
     * A request and the release of what it was given: the same blocks are allocated as before, and without growth the
     * free ones are the same too.
     */
    method MallocThenFree(requested: nat) returns (served: bool)
      requires Valid(NONE) && Coalesced(tags, cut) && AllPrevTold(tags, cut)
      requires Fitting(free.classes, BlockSize(requested)) == |free.classes| ==>
        EndTold(tags, end, cut) && Lonely(tags, cut)
      requires RemainderAlone(BlockSize(requested))
      modifies this, free
      ensures Valid(NONE) && Coalesced(tags, cut) && SameAllocated(old(tags), old(cut), tags, cut)
      ensures var blk, cs := BlockSize(requested), old(free.classes);
        var fits := Fitting(cs, blk) < |cs|;
        var enough := old(|cut| >= 2 && Tail(tags, cut) < blk) && PagesNeeded(old(Tail(tags, cut)), blk) <= old(pages);
        && (fits ==> end == old(end))
        && (served <==> requested != 0 && (fits || enough))
        && (AllPrevTold(tags, cut) <==>
              served && fits ==>
                var b, whole := cs[Fitting(cs, blk)].blocks[0], cs[Fitting(cs, blk)].size;
                whole - blk < MINIMUM || b + whole + WORD == end)
      ensures end == old(end) ==>
        && cut == old(cut)
        && forall x, s :: FreeTile(old(tags), old(cut), x, s) <==> FreeTile(tags, cut, x, s)
    {
      hide Sound, Tag, Alone, AllPrevTold, Coalesced, SameAllocated, EndTold, Lonely, PayloadsKept, Spared, Tail,
        PageStart, LeavesRest, RestAlone, Allocates, FreeTile, AllocatedTile, IsAllocatedBlock, BlockSize, Fitting,
        OthersTold;
      BlockSizeLeast(requested);
      ghost var t0, cut0 := tags, cut;
      var r, enomem, size := Malloc(requested);
      if r.Some? {
        ghost var cs, blk := old(free.classes), BlockSize(requested);
        ghost var i := Fitting(cs, blk);
        ghost var whole := if i < |cs| then cs[i].size
          else old(Tail(tags, cut)) + PAGE_SZ * PagesNeeded(old(Tail(tags, cut)), blk);
        ghost var k := Freeable(t0, cut0, tags, cut, end, free.classes, r.value - WORD, blk, whole, requested);
        ghost var t1, cut1 := tags, cut;
        var ok := Free(r.value, k);
        FreeUndoesMalloc(t0, cut0, t1, cut1, tags, cut, r.value - WORD, Given(whole, blk), requested);
      }
      served := r.Some?;
      if end == old(end) { Unchanged(t0, cut0, old(end), old(free.classes), tags, cut, free.classes); }
    }
  }

  /** What passes the checks has an allocated header, and what does not have one fails them. */
  lemma PassesAllocated(t: Tags, b: int, end: int)
    ensures IsAllocatedBlock(t, b, end) ==> Tag(t, b).alloc && PROLOGUE <= b <= end - WORD
  {
  }

  lemma FreeReady(t: Tags, cut: seq<int>, end: int, cs: seq<Class>, k: nat)
    requires Sound(t, cut, end, cs, NONE) && k < |cut| - 1 && Tag(t, cut[k]).alloc
    requires PrevTold(t, cut, k) && NeighboursAlone(t, cut, cs, k)
    ensures var t' := FreeTags(t, cut[k], end);
      && Sound(t', cut, end, cs, cut[k]) && !Tag(t', cut[k]).alloc
      && PrevTold(t', cut, k) && NeighboursAlone(t', cut, cs, k)
      && !IsAllocatedBlock(CoalescedTags(t', cut, k), cut[k], end)
      && Allocates(CoalescedTags(t', cut, k), CoalescedCut(t', cut, k),
           t, cut, cut[k], Tag(t, cut[k]).size, Tag(t, cut[k]).requested)
      && (AllPrevTold(CoalescedTags(t', cut, k), CoalescedCut(t', cut, k)) <==> OthersTold(t, cut, k + 1))
      && (Coalesced(t, cut) ==> Coalesced(CoalescedTags(t', cut, k), CoalescedCut(t', cut, k)))
      && (forall asked: bool :: PayloadsKept(CoalescedTags(t', cut, k), CoalescedCut(t', cut, k), t, asked) <==>
            Spared(t, cut[k], end, false, asked))
  {
    hide FreeTags, CoalescedTags, CoalescedCut, AllocatedTile, AllPrevTold, ListsFree, Alone, Coalesced, PayloadsKept,
      Spared, OthersTold, IsAllocatedBlock;
    if Coalesced(t, cut) { FreeCoalesced(t, cut, end, k); }
    FreedPayloads(t, cut, end, k, false);
    FreedPayloads(t, cut, end, k, true);
    FreedPrev(t, cut, end, k);
    FreedFails(t, cut, end, k);
    BlockSized(t, cut, end, k);
    FreeSound(t, cut, end, cs, k);
    CoalesceKeeps(FreeTags(t, cut[k], end), cut, end, k);
  }

  /** Without growth, what is allocated determines the blocks. */
  lemma Unchanged(t1: Tags, cut1: seq<int>, end: int, cs1: seq<Class>, t2: Tags, cut2: seq<int>, cs2: seq<Class>)
    requires Sound(t1, cut1, end, cs1, NONE) && Sound(t2, cut2, end, cs2, NONE)
    requires Coalesced(t1, cut1) && Coalesced(t2, cut2) && SameAllocated(t1, cut1, t2, cut2)
    ensures cut1 == cut2 && forall x, s :: FreeTile(t1, cut1, x, s) <==> FreeTile(t2, cut2, x, s)
  {
    hide Coalesced, SameAllocated, FreeTile, ListsFree, Tiled;
    CoalescedUnique(t1, cut1, t2, cut2, end);
  }

  lemma SameAllocatedSelf(t: Tags, cut: seq<int>)
    ensures SameAllocated(t, cut, t, cut) && PayloadsKept(t, cut, t, false)
  {
  }

  /** The block that was found is block k of the heap and can serve the request. */
  lemma FitReady(t: Tags, cut: seq<int>, end: int, cs: seq<Class>, requested: nat, blk: nat) returns (k: nat)
    requires Sound(t, cut, end, cs, NONE) && Coalesced(t, cut) && Fitting(cs, blk) < |cs| && MINIMUM <= blk
    requires blk % 16 == 0
    ensures k < |cut| - 1 && cut[k] == cs[Fitting(cs, blk)].blocks[0] && !Tag(t, cut[k]).alloc && cut[k] % 16 == 8
    ensures blk <= Tag(t, cut[k]).size && (k + 2 < |cut| ==> Tag(t, cut[k+1]).alloc)
    ensures var t', cut' := ServedTags(t, cut, k, requested, blk, end), ServedCut(t, cut, k, requested, blk, end);
      var whole := cs[Fitting(cs, blk)].size;
      && Allocates(t, cut, t', cut', cut[k], ServedSize(t, cut, k, blk), requested) && Coalesced(t', cut')
      && (ServedSize(t, cut, k, blk) == blk || ServedSize(t, cut, k, blk) == blk + 16)
      && Serves(t, cut, t', cut', cut[k], blk, whole, requested)
      && (forall asked: bool :: PayloadsKept(t, cut, t', asked) <==> Spared(t, cut[k], end, true, asked))
      && (AllPrevTold(t, cut) ==> (AllPrevTold(t', cut') <==> whole - blk < MINIMUM || cut[k] + whole + WORD == end))
  {
    hide AllocatedTile, ServedTags, ServedCut, Tag, AllPrevTold, Serves, PayloadsKept, Spared, Allocates;
    var i := Fitting(cs, blk);
    var b := cs[i].blocks[0];
    assert On(cs, b, cs[i].size) && FreeTile(t, cut, b, cs[i].size);
    k :| 0 <= k < |cut| - 1 && cut[k] == b && cut[k+1] == b + cs[i].size;
    BlockTags(t, cut, end, cs, k);
    ServedAllocates(t, cut, end, cs, k, requested, blk);
    ServedCoalesced(t, cut, end, cs, k, requested, blk);
    ServedServes(t, cut, end, cs, k, requested, blk);
    ServedPayloads(t, cut, end, cs, k, requested, blk, false);
    ServedPayloads(t, cut, end, cs, k, requested, blk, true);
    if AllPrevTold(t, cut) {
      ServedPrev(t, cut, end, cs, k, requested, blk);
      Ends(t, cut, end, cs, NONE, k);
    }
  }

  lemma NoFit(t: Tags, cut: seq<int>, end: int, cs: seq<Class>, blk: nat)
    requires Sound(t, cut, end, cs, NONE) && Fitting(cs, blk) == |cs| && 0 < blk
    ensures |cut| >= 2 && Tail(t, cut) < blk
  {
    hide Fitting, Tag;
    var k := |cut| - 2;
    if !Tag(t, cut[k]).alloc {
      Listed(t, cut, end, cs, NONE, k) by {
        FreeTileAt(t, cut, end, 0, 1, cut[k], 0);
        if k > 0 { Spread(cut, end, 0, k); }
      }
      BlockSized(t, cut, end, k);
      var i :| 0 <= i < |cs| && cs[i].size == Tag(t, cut[k]).size && cut[k] in cs[i].blocks;
    }
  }

  lemma GrowReady(t: Tags, cut: seq<int>, end: int, cs: seq<Class>)
    requires Sound(t, cut, end, cs, NONE) && EndTold(t, end, cut) && Lonely(t, cut) && Separate(cs)
    ensures var t', cut' := GrowTags(t, end), GrownCut(cut, end);
      && Sound(t', cut', end + PAGE_SZ, cs, end - WORD)
      && |cut| >= 2 && |cut'| == |cut| + 1 && cut'[|cut|-1] == end - WORD
      && !Tag(t', end - WORD).alloc && PrevTold(t', cut', |cut| - 1)
      && NeighboursAlone(t', cut', cs, |cut| - 1)
      && cut'[MergeFrom(t', cut', |cut| - 1)] == PageStart(t, cut)
  {
    hide Alone, FreeTile, On, GrowTags;
    GrowSound(t, cut, end, cs);
    GrowTagged(t, cut, end);
    if !Tag(t, cut[|cut|-2]).alloc { TailAlone(t, cut, end, cs); }
  }

  /** How far an address is from the next one where a header can be. */
  function Misalignment(hp: int): nat
  {
    (8 - hp) % 16
  }

  lemma Aligned(start: int, hp: int)
    requires start <= hp <= start + Misalignment(start)
    ensures hp % 8 == 0 && hp / 8 % 2 == 1 <==> hp == start + Misalignment(start)
    ensures Misalignment(start) < 16 && (Misalignment(start) == 0 <==> start % 16 == 8)
    ensures (start + Misalignment(start)) % 16 == 8
  {
  }

  /** The alignment loop of split_block: payloads are aligned when headers are at 8 modulo 16. */
  method AlignCut(block: int, blk0: nat) returns (blk: nat)
    ensures (block + blk) % 16 == 8 && blk0 <= blk < blk0 + 16
    ensures (block + blk0) % 16 == 8 ==> blk == blk0
  {
    hide Misalignment;
    var hp := block + blk0;
    blk := blk0;
    ghost var start := hp;
    Aligned(start, hp);
    while !(hp % 8 == 0 && hp / 8 % 2 == 1)
      invariant start <= hp <= start + Misalignment(start) && blk - blk0 == hp - start
      decreases start + Misalignment(start) - hp
    {
      Aligned(start, hp);
      hp := hp + 1;
      blk := blk + 1;
    }
    Aligned(start, hp);
  }

  /** total_block_sz: the least multiple of 16 with room for the request and the header, but at least 32. */
  method TotalBlockSize(requested: nat) returns (total: nat)
    ensures total == BlockSize(requested)
  {
    total := requested + WORD;
    if total < MINIMUM { return MINIMUM; }
    while total % 16 != 0
      invariant requested + WORD <= total <= BlockSize(requested)
      decreases BlockSize(requested) - total
    {
      total := total + 1;
    }
  }

  lemma BlockTags(t: Tags, cut: seq<int>, end: int, cs: seq<Class>, k: nat)
    requires Sound(t, cut, end, cs, NONE) && k < |cut| - 1 && !Tag(t, cut[k]).alloc
    ensures Tag(t, cut[k]).size == cut[k+1] - cut[k] && Tag(t, cut[k]).size % 16 == 0
    ensures Holds(cs, cut[k]) && cut[k] % 16 == 8
  {
    assert Told(t, cut[k], cut[k+1]) && Tile(cut[k], cut[k+1]);
    if k > 0 { Spread(cut, end, 0, k); }
    FreeTileAt(t, cut, end, 0, 1, cut[k], cut[k+1] - cut[k]);
    FreeTileSize(t, cut, end, k, cut[k], cut[k+1] - cut[k]);
    Listed(t, cut, end, cs, NONE, k);
  }

  /** When the remainder has been made, it can be coalesced. */
  lemma SplitReady(t: Tags, cut: seq<int>, end: int, cs: seq<Class>, k: nat, requested: nat, blk: nat)
    requires Sound(t, cut, end, cs, NONE) && k < |cut| - 1 && !Tag(t, cut[k]).alloc
    requires MINIMUM <= blk && blk % 16 == 0 && Splits(t, cut, k, blk)
    requires k + 2 < |cut| && !Tag(t, cut[k+1]).alloc ==> Alone(cs, cut[k+1])
    ensures var t' := SplitTags(t, cut[k], requested, blk, end);
      var cut' := Cut(cut, k, cut[k] + blk);
      && |cut'| == |cut| + 1 && cut'[k+1] == cut[k] + blk
      && Sound(t', cut', end, Removed(cs, cut[k]), cut[k] + blk)
      && !Tag(t', cut[k] + blk).alloc && PrevTold(t', cut', k + 1)
      && NeighboursAlone(t', cut', Removed(cs, cut[k]), k + 1)
  {
    hide Sound, SplitTags, Alone, Removed;
    BlockTags(t, cut, end, cs, k);
    SplitSound(t, cut, end, cs, k, requested, blk);
    SplitNeighbours(t, cut, end, cs, k, requested, blk);
  }

  lemma SplitNeighbours(t: Tags, cut: seq<int>, end: int, cs: seq<Class>, k: nat, requested: nat, blk: nat)
    requires Sound(t, cut, end, cs, NONE) && k < |cut| - 1 && !Tag(t, cut[k]).alloc
    requires Tile(cut[k], cut[k] + blk) && Tile(cut[k] + blk, cut[k+1]) && blk <= Tag(t, cut[k]).size
    requires k + 2 < |cut| && !Tag(t, cut[k+1]).alloc ==> Alone(cs, cut[k+1])
    ensures NeighboursAlone(SplitTags(t, cut[k], requested, blk, end), Cut(cut, k, cut[k] + blk),
      Removed(cs, cut[k]), k + 1)
  {
    hide SplitTags, Alone, Removed, Tag;
    SplitTagged(t, cut, end, k, requested, blk);
    if k + 2 < |cut| && !Tag(t, cut[k+1]).alloc {
      Spread(cut, end, k, k + 1);
      AloneRemoved(cs, cut[k], cut[k+1]);
    }
  }

  /** Which block is first and which last shows in the addresses. */
  lemma Ends(t: Tags, cut: seq<int>, end: int, cs: seq<Class>, except: int, k: nat)
    requires Sound(t, cut, end, cs, except) && k < |cut| - 1
    ensures cut[k] == PROLOGUE <==> k == 0
    ensures cut[k+1] == cut[k] + Tag(t, cut[k]).size && (cut[k+1] == end - WORD <==> k == |cut| - 2)
    ensures k > 0 ==> cut[k-1] < cut[k]
    ensures k + 2 < |cut| ==> cut[k+1] < cut[k+2]
  {
    assert Told(t, cut[k], cut[k+1]);
    if k > 0 { Spread(cut, end, 0, k); Spread(cut, end, k - 1, k); }
    if k + 2 < |cut| { Spread(cut, end, k + 1, |cut| - 1); Spread(cut, end, k + 1, k + 2); }
  }

  lemma MergeUpSound(t: Tags, cut: seq<int>, end: int, cs: seq<Class>, k: nat)
    requires 0 < k < |cut| - 1 && Sound(t, cut, end, cs, cut[k]) && !Tag(t, cut[k]).alloc && !Tag(t, cut[k-1]).alloc
    ensures On(cs, cut[k-1], Tag(t, cut[k-1]).size) && cut[k-1] + MINIMUM <= cut[k+1] && (cut[k+1] - cut[k-1]) % 16 == 0
    ensures Tag(t, cut[k]).size == cut[k+1] - cut[k]
    ensures Tag(t, cut[k-1]).size == Tag(t, cut[k] - WORD).size == cut[k] - cut[k-1]
    ensures Sound(MergeTags(t, cut[k-1], cut[k+1]), Merged(cut, k - 1, k + 1), end,
      Inserted(Removed(cs, cut[k-1]), cut[k-1], cut[k+1] - cut[k-1]), NONE)
  {
    hide Tag, FreeTile, On, Inserted, Removed, MergeTags, Merged;
    TagsBefore(t, cut, end, k);
    Listed(t, cut, end, cs, cut[k], k - 1);
    DelistedOne(t, cut, cs, k - 1, cut[k], cut[k-1]);
    MergeSound(t, cut, end, cs, Removed(cs, cut[k-1]), k - 1, k, k + 1);
  }

  lemma MergeDownSound(t: Tags, cut: seq<int>, end: int, cs: seq<Class>, k: nat)
    requires k + 2 < |cut| && Sound(t, cut, end, cs, cut[k]) && !Tag(t, cut[k]).alloc && !Tag(t, cut[k+1]).alloc
    ensures On(cs, cut[k+1], Tag(t, cut[k+1]).size) && cut[k] + MINIMUM <= cut[k+2] && (cut[k+2] - cut[k]) % 16 == 0
    ensures Tag(t, cut[k]).size == cut[k+1] - cut[k]
    ensures Tag(t, cut[k+1]).size == Tag(t, cut[k+2] - WORD).size == cut[k+2] - cut[k+1]
    ensures Sound(MergeTags(t, cut[k], cut[k+2]), Merged(cut, k, k + 2), end,
      Inserted(Removed(cs, cut[k+1]), cut[k], cut[k+2] - cut[k]), NONE)
    ensures !Holds(Removed(cs, cut[k+1]), cut[k])
  {
    hide Tag, FreeTile, On, Inserted, Removed, MergeTags, Merged;
    TagsBefore(t, cut, end, k + 1);
    LastTags(t, cut, k + 1);
    Listed(t, cut, end, cs, cut[k], k + 1);
    DelistedOne(t, cut, cs, k, cut[k], cut[k+1]);
    StillNotListed(t, cut, end, cs, cut[k], cut[k+1]);
    MergeSound(t, cut, end, cs, Removed(cs, cut[k+1]), k, k, k + 2);
  }

  lemma LastTags(t: Tags, cut: seq<int>, k: nat)
    requires Tagged(t, cut) && k < |cut| - 1 && !Tag(t, cut[k]).alloc
    ensures Tag(t, cut[k+1] - WORD).size == cut[k+1] - cut[k]
  {
    assert Told(t, cut[k], cut[k+1]);
  }

  lemma StillNotListed(t: Tags, cut: seq<int>, end: int, cs: seq<Class>, b: int, x: int)
    requires Sound(t, cut, end, cs, b)
    ensures !Holds(Removed(cs, x), b)
  {
    HoldsOn(Removed(cs, x), b);
    forall size: nat ensures !On(Removed(cs, x), b, size) { OnRemoved(cs, x, b, size); }
  }

  /** What the tags of a block and its two free neighbours say. */
  lemma BothTags(t: Tags, cut: seq<int>, end: int, k: nat)
    requires Tiled(cut, end) && Tagged(t, cut) && 0 < k && k + 2 < |cut|
    requires !Tag(t, cut[k-1]).alloc && !Tag(t, cut[k+1]).alloc
    ensures cut[k-1] < cut[k] < cut[k+1] && cut[k-1] + MINIMUM <= cut[k+2] && (cut[k+2] - cut[k-1]) % 16 == 0
    ensures Tag(t, cut[k]).size == cut[k+1] - cut[k]
    ensures Tag(t, cut[k-1]).size == Tag(t, cut[k] - WORD).size == cut[k] - cut[k-1]
    ensures Tag(t, cut[k+1]).size == Tag(t, cut[k+2] - WORD).size == cut[k+2] - cut[k+1]
  {
    hide Tag, Tagged;
    TagsBefore(t, cut, end, k);
    TagsBefore(t, cut, end, k + 1);
    LastTags(t, cut, k + 1);
    Spread(cut, end, k - 1, k);
    Spread(cut, end, k, k + 1);
    Spread(cut, end, k - 1, k + 2);
  }

  lemma MergeBothSound(t: Tags, cut: seq<int>, end: int, cs: seq<Class>, k: nat)
    requires 0 < k && k + 2 < |cut| && Sound(t, cut, end, cs, cut[k])
    requires !Tag(t, cut[k]).alloc && !Tag(t, cut[k-1]).alloc && !Tag(t, cut[k+1]).alloc
    requires Alone(cs, cut[k+1])
    ensures On(cs, cut[k-1], Tag(t, cut[k-1]).size) && On(Removed(cs, cut[k-1]), cut[k+1], Tag(t, cut[k+1]).size)
    ensures Alone(Removed(cs, cut[k-1]), cut[k+1])
    ensures cut[k-1] + MINIMUM <= cut[k+2] && (cut[k+2] - cut[k-1]) % 16 == 0
    ensures Tag(t, cut[k]).size == cut[k+1] - cut[k]
    ensures Tag(t, cut[k-1]).size == Tag(t, cut[k] - WORD).size == cut[k] - cut[k-1]
    ensures Tag(t, cut[k+1]).size == Tag(t, cut[k+2] - WORD).size == cut[k+2] - cut[k+1]
    ensures Sound(MergeTags(t, cut[k-1], cut[k+2]), Merged(cut, k - 1, k + 2), end,
      Inserted(Removed(Removed(cs, cut[k-1]), cut[k+1]), cut[k-1], cut[k+2] - cut[k-1]), NONE)
    ensures !Holds(Removed(Removed(cs, cut[k-1]), cut[k+1]), cut[k-1])
  {
    hide Tag, FreeTile, On, Inserted, Removed, MergeTags, Merged, Alone, Delisted, Sound, Holds;
    SoundParts(t, cut, end, cs, cut[k]);
    hide Tiled, Tagged, ListsFree;
    BothTags(t, cut, end, k);
    Listed(t, cut, end, cs, cut[k], k - 1);
    Listed(t, cut, end, cs, cut[k], k + 1);
    DelistedTwo(t, cut, cs, k - 1);
    AloneRemoved(cs, cut[k-1], cut[k+1]);
    OnRemoved(cs, cut[k-1], cut[k+1], Tag(t, cut[k+1]).size);
    GoneAfter(cs, cut[k-1], cut[k+1]);
    MergeSound(t, cut, end, cs, Removed(Removed(cs, cut[k-1]), cut[k+1]), k - 1, k, k + 2);
  }

  lemma SoundParts(t: Tags, cut: seq<int>, end: int, cs: seq<Class>, except: int)
    requires Sound(t, cut, end, cs, except)
    ensures Tiled(cut, end) && Tagged(t, cut) && ListsFree(t, cut, cs, except)
  {
  }

  lemma GoneAfter(cs: seq<Class>, b: int, x: int)
    ensures !Holds(Removed(Removed(cs, b), x), b)
  {
    HoldsOn(Removed(Removed(cs, b), x), b);
    forall size: nat ensures !On(Removed(Removed(cs, b), x), b, size) {
      OnRemoved(cs, b, b, size);
      OnRemoved(Removed(cs, b), x, b, size);
    }
  }

  lemma Multiples(a: int, b: int)
    requires a % 16 == 0 && b % 16 == 0
    ensures (a + b) % 16 == 0
  {
  }

  /** What the tags of block k and a free block before it say. */
  lemma TagsBefore(t: Tags, cut: seq<int>, end: int, k: nat)
    requires Tiled(cut, end) && Tagged(t, cut) && 0 < k < |cut| - 1
    ensures Tag(t, cut[k]).size == cut[k+1] - cut[k] && Tag(t, cut[k-1]).size == cut[k] - cut[k-1]
    ensures !Tag(t, cut[k-1]).alloc ==> Tag(t, cut[k] - WORD).size == cut[k] - cut[k-1]
    ensures cut[k-1] + 2 * MINIMUM <= cut[k+1] && (cut[k+1] - cut[k-1]) % 16 == 0
  {
    hide Tag;
    BlockSized(t, cut, end, k - 1);
    BlockSized(t, cut, end, k);
    if !Tag(t, cut[k-1]).alloc { LastTags(t, cut, k - 1); }
    hide Tiled, Tagged;
    Multiples(cut[k] - cut[k-1], cut[k+1] - cut[k]);
  }

  lemma OneBlock(t: Tags, size: nat, cs: seq<Class>)
    requires size == PAGE_SZ - PROLOGUE - WORD && cs == [Class(size, [PROLOGUE])]
    requires Tag(t, PROLOGUE) == Info(false, true, size, 0) && Tag(t, PAGE_SZ - 16) == Info(false, true, size, 0)
    ensures Sound(t, [PROLOGUE, PAGE_SZ - WORD], PAGE_SZ, cs, NONE)
  {
    var cut := [PROLOGUE, PAGE_SZ - WORD];
    assert IsTile(cut, PROLOGUE, size) by { assert cut[0] == PROLOGUE && cut[1] == PROLOGUE + size; }
    assert On(cs, PROLOGUE, size) by { assert cs[0].size == size && PROLOGUE in cs[0].blocks; }
  }

  /**
   * A free block of 96 bytes before an allocated one, split for a request of 32 bytes: the allocated block's header
   * then says that the free remainder before it is allocated.
   */
  lemma SplitMisleads()
    ensures var t: Tags := map[
      40 := Info(false, true, 96, 0), 128 := Info(false, true, 96, 0),
      136 := Info(true, false, 32, 8)];
      var cut, cs := [40, 136, 168], [Class(96, [40])];
      && Sound(t, cut, 176, cs, NONE) && AllPrevTold(t, cut) && Splits(t, cut, 0, 32)
      && !AllPrevTold(ServedTags(t, cut, 0, 8, 32, 176), ServedCut(t, cut, 0, 8, 32, 176))
  {
    hide ServedTags, ServedCut;
    var t: Tags := map[
      40 := Info(false, true, 96, 0), 128 := Info(false, true, 96, 0),
      136 := Info(true, false, 32, 8)];
    var cut, cs := [40, 136, 168], [Class(96, [40])];
    assert cs[0].size == 96 && 40 in cs[0].blocks;
    assert cut[0] == 40 && cut[1] == 40 + 96;
    ServedPrev(t, cut, 176, cs, 0, 8, 32);
  }

  /**
   * Once the 32 bytes are freed again, the free block of 96 bytes is back, and the allocated block's header still says
   * that the block before it is allocated.
   */
  lemma StillMisled()
    ensures var t: Tags := map[
      40 := Info(false, true, 96, 0), 128 := Info(false, true, 96, 0),
      136 := Info(true, false, 32, 8)];
      var cut := [40, 136, 168];
      var t1, cut1 := ServedTags(t, cut, 0, 8, 32, 176), ServedCut(t, cut, 0, 8, 32, 176);
      var t2, cut2 := CoalescedTags(FreeTags(t1, 40, 176), cut1, 0), CoalescedCut(FreeTags(t1, 40, 176), cut1, 0);
      cut2 == cut && !Tag(t2, 40).alloc && Tag(t2, 40).size == 96 && Tag(t2, 136).prev
  {
    hide ServedTags, ServedCut, SplitTags, FreeTags, MergeTags;
    var t: Tags := map[
      40 := Info(false, true, 96, 0), 128 := Info(false, true, 96, 0),
      136 := Info(true, false, 32, 8)];
    var cut, cs, cut1 := [40, 136, 168], [Class(96, [40])], [40, 72, 136, 168];
    var t1 := SplitTags(t, 40, 8, 32, 176);
    SplitMisleads();
    SplitStays(t, cut, 176, 0, 8, 32);
    assert Cut(cut, 0, 72) == cut1;
    SplitSound(t, cut, 176, cs, 0, 8, 32);
    SplitTagged(t, cut, 176, 0, 8, 32);
    MisledFree(t1, cut1);
  }

  lemma MisledFree(t1: Tags, cut1: seq<int>)
    requires cut1 == [40, 72, 136, 168] && Tagged(t1, cut1)
    requires Tag(t1, 40).alloc && !Tag(t1, 72).alloc && Tag(t1, 136).alloc && Tag(t1, 136).prev
    ensures var t := FreeTags(t1, 40, 176);
      var t2 := CoalescedTags(t, cut1, 0);
      && CoalescedCut(t, cut1, 0) == [40, 136, 168]
      && !Tag(t2, 40).alloc && Tag(t2, 40).size == 96 && Tag(t2, 136).prev
  {
    hide FreeTags, MergeTags, Tag, Tagged;
    var t := FreeTags(t1, cut1[0], 176);
    FreeTagged(t1, cut1, 176, 0);
    assert Tag(t, cut1[2]) == Tag(t1, cut1[2]) && !Tag(t, cut1[1]).alloc;
    MergeTagged(t, cut1, 176, 0, 2);
    assert Tag(MergeTags(t, cut1[0], cut1[2]), cut1[2]) == Tag(t, cut1[2]);
  }
}
