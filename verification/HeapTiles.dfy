/**
 * hw3/src/sfmm.c: boundary tags and the blocks they describe. Addresses are relative to the start of the heap, which is
 * aligned to 16; blocks lie between the prologue and the epilogue, from each boundary in `cut` to the next.
 */
module HeapTiles {
  import opened SegregatedLists

  /** The word of a header or footer; `size` is the stored size field times 16. */
  datatype Info = Info(alloc: bool, prev: bool, size: nat, requested: nat)

  type Tags = map<int, Info>

  const PROLOGUE: int := 40
  const WORD: int := 8
  const PAGE_SZ: int := 4096
  const MINIMUM: int := 32

  /** The word at address a; words never written read as zero. */
  function Tag(t: Tags, a: int): Info
  {
    if a in t then t[a] else Info(false, false, 0, 0)
  }

  function SetSize(t: Tags, a: int, size: nat): Tags
  {
    t[a := Tag(t, a).(size := size)]
  }

  function SetPrev(t: Tags, a: int, prev: bool): Tags
  {
    t[a := Tag(t, a).(prev := prev)]
  }

  /** The size field drops the low four bits. */
  function Stored(size: nat): (r: nat)
    ensures size % 16 == 0 ==> r == size
  {
    size / 16 * 16
  }

  // ----- blocks -----

  predicate Tile(lo: int, hi: int)
  {
    hi - lo >= MINIMUM && (hi - lo) % 16 == 0
  }

  predicate Tiled(cut: seq<int>, end: int)
  {
    && |cut| >= 2 && cut[0] == PROLOGUE && cut[|cut|-1] == end - WORD
    && forall i | 0 <= i < |cut| - 1 :: Tile(cut[i], cut[i+1])
  }

  /**
   * The header of the block from lo to hi tells its size; a free block has a footer that repeats that and its prev bit.
   */
  predicate Told(t: Tags, lo: int, hi: int)
  {
    && Tag(t, lo).size == hi - lo
    && (!Tag(t, lo).alloc ==> Tag(t, hi - WORD).size == hi - lo && Tag(t, hi - WORD).prev == Tag(t, lo).prev)
  }

  predicate Tagged(t: Tags, cut: seq<int>)
  {
    forall i | 0 <= i < |cut| - 1 :: Told(t, cut[i], cut[i+1])
  }

  /** The header of block i tells whether the one before is allocated, as the prologue is. */
  predicate PrevTold(t: Tags, cut: seq<int>, i: int)
    requires 0 <= i < |cut| - 1
  {
    Tag(t, cut[i]).prev == (i == 0 || Tag(t, cut[i-1]).alloc)
  }

  predicate AllPrevTold(t: Tags, cut: seq<int>)
  {
    forall i | 0 <= i < |cut| - 1 :: PrevTold(t, cut, i)
  }

  /** There is a block of that size at b. */
  predicate IsTile(cut: seq<int>, b: int, size: int)
  {
    exists i :: 0 <= i < |cut| - 1 && cut[i] == b && cut[i+1] == b + size
  }

  predicate FreeTile(t: Tags, cut: seq<int>, b: int, size: int)
  {
    IsTile(cut, b, size) && !Tag(t, b).alloc
  }

  predicate AllocatedTile(t: Tags, cut: seq<int>, b: int, size: int, requested: nat)
  {
    IsTile(cut, b, size) && Tag(t, b).alloc && Tag(t, b).requested == requested
  }

  /** The same blocks are allocated as before. */
  ghost predicate SameAllocated(t: Tags, cut: seq<int>, t': Tags, cut': seq<int>)
  {
    forall b, size, r :: AllocatedTile(t', cut', b, size, r) <==> AllocatedTile(t, cut, b, size, r)
  }

  /** One more block is allocated, where none was, and every other as before. */
  ghost predicate Allocates(t: Tags, cut: seq<int>, t': Tags, cut': seq<int>, b0: int, size0: int, requested: nat)
  {
    && (forall size, r :: !AllocatedTile(t, cut, b0, size, r))
    && (forall b, size, r :: AllocatedTile(t', cut', b, size, r) <==>
          (b == b0 && size == size0 && r == requested) || AllocatedTile(t, cut, b, size, r))
  }

  /** The lists hold exactly the free blocks, each under its own size, but for one that is on no list. */
  ghost predicate ListsFree(t: Tags, cut: seq<int>, cs: seq<Class>, except: int)
  {
    forall b: int, size: nat :: On(cs, b, size) <==> b != except && FreeTile(t, cut, b, size)
  }

  lemma {:induction false} Spread(cut: seq<int>, end: int, i: nat, j: nat)
    requires Tiled(cut, end) && i < j < |cut|
    ensures cut[i] + MINIMUM <= cut[j] && (cut[j] - cut[i]) % 16 == 0
    decreases j - i
  {
    assert Tile(cut[j-1], cut[j]);
    if i < j - 1 { Spread(cut, end, i, j - 1); }
  }

  /** Every block lies between prologue and epilogue, and its payload is aligned to 16. */
  lemma TilePlaced(cut: seq<int>, end: int, b: int, size: int)
    requires Tiled(cut, end) && IsTile(cut, b, size)
    ensures (b + WORD) % 16 == 0 && PROLOGUE <= b && b + size <= end - WORD
  {
    var i :| 0 <= i < |cut| - 1 && cut[i] == b && cut[i+1] == b + size;
    if i > 0 { Spread(cut, end, 0, i); }
    if i + 1 < |cut| - 1 { Spread(cut, end, i + 1, |cut| - 1); }
  }

  /** Two blocks do not overlap. */
  lemma TilesDisjoint(cut: seq<int>, end: int, b: int, size: int, b': int, size': int)
    requires Tiled(cut, end) && IsTile(cut, b, size) && IsTile(cut, b', size') && b < b'
    ensures b + size <= b'
  {
    var i :| 0 <= i < |cut| - 1 && cut[i] == b && cut[i+1] == b + size;
    var j :| 0 <= j < |cut| - 1 && cut[j] == b' && cut[j+1] == b' + size';
    if i + 1 < j { Spread(cut, end, i + 1, j); }
    if j < i { Spread(cut, end, j, i); }
  }

  // ----- merging -----

  /** The boundaries without those strictly between i and j. */
  function Merged(cut: seq<int>, i: nat, j: nat): seq<int>
    requires i < j < |cut|
  {
    cut[..i+1] + cut[j..]
  }

  lemma MergedTiled(cut: seq<int>, end: int, i: nat, j: nat)
    requires Tiled(cut, end) && i < j < |cut|
    ensures Tiled(Merged(cut, i, j), end)
  {
    Spread(cut, end, i, j);
    var cut' := Merged(cut, i, j);
    forall k | 0 <= k < |cut'| - 1 ensures Tile(cut'[k], cut'[k+1]) {
      assert k < i ==> Tile(cut[k], cut[k+1]);
      assert k > i ==> Tile(cut[k+j-i-1], cut[k+j-i]);
    }
  }

  /** The tags that are written when the free blocks from i up to j become one. */
  function MergeTags(t: Tags, lo: int, hi: int): Tags
    requires lo <= hi
  {
    SetPrev(SetSize(SetSize(t, lo, hi - lo), hi - WORD, hi - lo), hi - WORD, Tag(t, lo).prev)
  }

  lemma MergeTagged(t: Tags, cut: seq<int>, end: int, i: nat, j: nat)
    requires Tiled(cut, end) && Tagged(t, cut) && i < j < |cut| && cut[i] + MINIMUM <= cut[j]
    ensures Tagged(MergeTags(t, cut[i], cut[j]), Merged(cut, i, j))
    ensures forall k | 0 <= k < |cut| :: k != i ==> Tag(MergeTags(t, cut[i], cut[j]), cut[k]) == Tag(t, cut[k])
    ensures Tag(MergeTags(t, cut[i], cut[j]), cut[i]) == Tag(t, cut[i]).(size := cut[j] - cut[i])
  {
    var cut', t' := Merged(cut, i, j), MergeTags(t, cut[i], cut[j]);
    forall k | 0 <= k < |cut|
      ensures (k != i ==> cut[k] != cut[i]) && (k != j ==> cut[k] != cut[j])
      ensures cut[k] != cut[j] - WORD && cut[k] - WORD != cut[i]
    {
      if k < j { Spread(cut, end, k, j); } else if k > j { Spread(cut, end, j, k); }
      if k < i { Spread(cut, end, k, i); } else if k > i { Spread(cut, end, i, k); }
    }
    forall k | 0 <= k < |cut'| - 1 ensures Told(t', cut'[k], cut'[k+1]) {
      assert k < i ==> Told(t, cut[k], cut[k+1]);
      assert k > i ==> Told(t, cut[k+j-i-1], cut[k+j-i]);
    }
  }

  lemma TileMerged(cut: seq<int>, end: int, i: nat, j: nat, b: int, size: int)
    requires Tiled(cut, end) && i < j < |cut| && IsTile(cut, b, size) && !(cut[i] <= b < cut[j])
    ensures IsTile(Merged(cut, i, j), b, size)
  {
    var k :| 0 <= k < |cut| - 1 && cut[k] == b && cut[k+1] == b + size;
    if k < i { Spread(cut, end, k, i); }
    if i < k { Spread(cut, end, i, k); }
    if k < j { Spread(cut, end, k, j); }
    var k' := if k < i then k else k - (j - i - 1);
    assert Merged(cut, i, j)[k'] == b && Merged(cut, i, j)[k' + 1] == b + size;
  }

  lemma MergedTile(cut: seq<int>, end: int, i: nat, j: nat, b: int, size: int)
    requires Tiled(cut, end) && i < j < |cut|
    ensures IsTile(Merged(cut, i, j), b, size) <==>
      (b == cut[i] && size == cut[j] - cut[i]) || (!(cut[i] <= b < cut[j]) && IsTile(cut, b, size))
  {
    var cut' := Merged(cut, i, j);
    assert cut'[i] == cut[i] && cut'[i+1] == cut[j];
    if IsTile(cut', b, size) {
      var k' :| 0 <= k' < |cut'| - 1 && cut'[k'] == b && cut'[k'+1] == b + size;
      if k' != i {
        var k := if k' < i then k' else k' + (j - i - 1);
        if k < i { Spread(cut, end, k, i); } else { if j < k { Spread(cut, end, j, k); } }
        assert cut[k] == b && cut[k+1] == b + size;
      }
    }
    if !(cut[i] <= b < cut[j]) && IsTile(cut, b, size) { TileMerged(cut, end, i, j, b, size); }
  }

  lemma MergeTagSame(t: Tags, cut: seq<int>, end: int, i: nat, j: nat, b: int, size: int)
    requires Tiled(cut, end) && Tagged(t, cut) && i < j < |cut| && cut[i] + MINIMUM <= cut[j]
    requires IsTile(cut, b, size) && b != cut[i]
    ensures Tag(MergeTags(t, cut[i], cut[j]), b) == Tag(t, b)
  {
    hide MergeTags;
    MergeTagged(t, cut, end, i, j);
  }

  /** After merging, the free blocks are the merged one and those outside it. */
  lemma MergeFree(t: Tags, cut: seq<int>, end: int, i: nat, j: nat, b: int, size: int)
    requires Tiled(cut, end) && Tagged(t, cut) && i < j < |cut| && cut[i] + MINIMUM <= cut[j] && !Tag(t, cut[i]).alloc
    ensures FreeTile(MergeTags(t, cut[i], cut[j]), Merged(cut, i, j), b, size) <==>
      (b == cut[i] && size == cut[j] - cut[i]) || (!(cut[i] <= b < cut[j]) && FreeTile(t, cut, b, size))
  {
    hide MergeTags, Tagged, Tiled, IsTile;
    MergedTile(cut, end, i, j, b, size);
    MergeTagged(t, cut, end, i, j);
    if IsTile(cut, b, size) && b != cut[i] { MergeTagSame(t, cut, end, i, j, b, size); }
  }

  /** Merging free blocks leaves every allocated block what it was, and makes none. */
  lemma MergeAllocated(t: Tags, cut: seq<int>, end: int, i: nat, j: nat, b: int, size: int, requested: nat)
    requires Tiled(cut, end) && Tagged(t, cut) && i < j < |cut| && cut[i] + MINIMUM <= cut[j]
    requires forall k | i <= k < j :: !Tag(t, cut[k]).alloc
    ensures AllocatedTile(MergeTags(t, cut[i], cut[j]), Merged(cut, i, j), b, size, requested) <==>
      AllocatedTile(t, cut, b, size, requested)
  {
    hide MergeTags, Tagged, IsTile;
    MergedTile(cut, end, i, j, b, size);
    MergeTagged(t, cut, end, i, j);
    if IsTile(cut, b, size) {
      if b != cut[i] { MergeTagSame(t, cut, end, i, j, b, size); }
      if cut[i] <= b < cut[j] { TileWithin(cut, end, i, j, b, size); }
    }
  }

  /** A block that starts within a range of boundaries starts at one of them. */
  lemma TileWithin(cut: seq<int>, end: int, i: nat, j: nat, b: int, size: int)
    requires Tiled(cut, end) && i < j < |cut| && IsTile(cut, b, size) && cut[i] <= b < cut[j]
    ensures exists k :: i <= k < j && cut[k] == b
  {
    var k :| 0 <= k < |cut| - 1 && cut[k] == b && cut[k+1] == b + size;
    if k < i { Spread(cut, end, k, i); }
    if j < k { Spread(cut, end, j, k); }
  }

  /** The prev_allocated bits of the headers that are left tell the truth if they did before. */
  lemma MergePrev(t: Tags, cut: seq<int>, end: int, i: nat, j: nat)
    requires Tiled(cut, end) && Tagged(t, cut) && i < j < |cut| && cut[i] + MINIMUM <= cut[j]
    requires !Tag(t, cut[i]).alloc && !Tag(t, cut[j-1]).alloc
    ensures AllPrevTold(MergeTags(t, cut[i], cut[j]), Merged(cut, i, j)) <==>
      forall l | 0 <= l < |cut| - 1 && (l <= i || j <= l) :: PrevTold(t, cut, l)
  {
    hide MergeTags, Tagged;
    MergeTagged(t, cut, end, i, j);
    var t', cut' := MergeTags(t, cut[i], cut[j]), Merged(cut, i, j);
    forall k | 0 <= k < |cut'| - 1
      ensures PrevTold(t', cut', k) <==> PrevTold(t, cut, if k <= i then k else k + j - i - 1)
    { }
    forall l | 0 <= l < |cut| - 1 && (l <= i || j <= l)
      ensures AllPrevTold(t', cut') ==> PrevTold(t, cut, l)
    {
      var k := if l <= i then l else l - (j - i - 1);
      assert PrevTold(t', cut', k) <==> PrevTold(t, cut, l);
    }
  }

  // ----- the lists -----

  lemma OnRemoved(cs: seq<Class>, b: int, x: int, size: nat)
    ensures On(Removed(cs, b), x, size) <==> x != b && On(cs, x, size)
  {
    var cs' := Removed(cs, b);
    forall i | 0 <= i < |cs| ensures x in cs'[i].blocks <==> x != b && x in cs[i].blocks {
      WithoutIn(cs[i].blocks, b, x);
    }
    if On(cs', x, size) {
      var i :| 0 <= i < |cs'| && cs'[i].size == size && x in cs'[i].blocks;
      assert cs[i].size == size && x in cs[i].blocks;
    }
    if x != b && On(cs, x, size) {
      var i :| 0 <= i < |cs| && cs[i].size == size && x in cs[i].blocks;
      assert cs'[i].size == size && x in cs'[i].blocks;
    }
  }

  lemma {:induction false} WithoutIn(blocks: seq<int>, b: int, x: int)
    ensures x in Without(blocks, b) <==> x != b && x in blocks
  {
    if blocks != [] { WithoutIn(blocks[1..], b, x); }
  }

  lemma OnInserted(cs: seq<Class>, b: int, size: nat, x: int, other: nat)
    ensures On(Inserted(cs, b, size), x, other) <==> (x == b && other == size) || On(cs, x, other)
  {
    hide AtLeast;
    var i, cs' := AtLeast(cs, size), Inserted(cs, b, size);
    assert i < |cs'| && cs'[i].size == size && b in cs'[i].blocks;
    var added := |cs'| - |cs|;
    if On(cs', x, other) {
      var k :| 0 <= k < |cs'| && cs'[k].size == other && x in cs'[k].blocks;
      if k != i { assert cs[if k < i then k else k - added] == cs'[k]; } else
        if added == 0 { assert x == b || x in cs[i].blocks; }
    }
    if On(cs, x, other) {
      var k :| 0 <= k < |cs| && cs[k].size == other && x in cs[k].blocks;
      assert x in cs'[if k < i then k else k + added].blocks;
    }
  }

  lemma AloneRemoved(cs: seq<Class>, b: int, x: int)
    requires Alone(cs, x) && x != b
    ensures Alone(Removed(cs, b), x)
  {
    var i :| 0 <= i < |cs| && cs[i].blocks == [x];
    WithoutAbsent([x], b);
    assert Removed(cs, b)[i].blocks == [x];
  }

  lemma HoldsOn(cs: seq<Class>, b: int)
    ensures Holds(cs, b) <==> exists size: nat :: On(cs, b, size)
  {
    if Holds(cs, b) {
      var i :| 0 <= i < |cs| && b in cs[i].blocks;
      assert On(cs, b, cs[i].size);
    }
  }

  /** Not the address of any block. */
  const NONE: int := 0

  /** A heap tiled by blocks with truthful tags, whose lists hold exactly the free blocks but for one. */
  ghost predicate Sound(t: Tags, cut: seq<int>, end: int, cs: seq<Class>, except: int)
  {
    Tiled(cut, end) && Tagged(t, cut) && ListsFree(t, cut, cs, except)
  }

  /** x is none of the boundaries from i up to j. */
  predicate Outside(cut: seq<int>, i: nat, j: nat, x: int)
    requires i < j < |cut|
  {
    forall k | i <= k < j :: x != cut[k]
  }

  /** cs1 holds what cs does but for the blocks from boundary i up to j. */
  ghost predicate Delisted(cs: seq<Class>, cs1: seq<Class>, cut: seq<int>, i: nat, j: nat)
    requires i < j < |cut|
  {
    forall x: int, size: nat :: On(cs1, x, size) <==> On(cs, x, size) && Outside(cut, i, j, x)
  }

  lemma MergeSound(t: Tags, cut: seq<int>, end: int, cs: seq<Class>, cs1: seq<Class>, i: nat, k: nat, j: nat)
    requires i <= k < j < |cut| && Sound(t, cut, end, cs, cut[k])
    requires forall l | i <= l < j :: !Tag(t, cut[l]).alloc
    requires Delisted(cs, cs1, cut, i, j)
    requires cut[i] + MINIMUM <= cut[j]
    ensures Sound(MergeTags(t, cut[i], cut[j]), Merged(cut, i, j), end, Inserted(cs1, cut[i], cut[j] - cut[i]), NONE)
  {
    hide MergeTags, Tiled, Tagged, FreeTile, Merged, On, Inserted;
    MergedTiled(cut, end, i, j);
    MergeTagged(t, cut, end, i, j);
    var t', cut', cs' := MergeTags(t, cut[i], cut[j]), Merged(cut, i, j), Inserted(cs1, cut[i], cut[j] - cut[i]);
    forall b: int, size: nat ensures On(cs', b, size) <==> b != NONE && FreeTile(t', cut', b, size) {
      OnInserted(cs1, cut[i], cut[j] - cut[i], b, size);
      MergeFree(t, cut, end, i, j, b, size);
      FreeTileAt(t, cut, end, i, j, b, size);
      FreeTileAt(t', cut', end, 0, 1, b, size);
    }
  }

  /** Where a free block is, with respect to a range of boundaries. */
  lemma FreeTileAt(t: Tags, cut: seq<int>, end: int, i: nat, j: nat, b: int, size: int)
    requires Tiled(cut, end) && i < j < |cut|
    ensures FreeTile(t, cut, b, size) ==> b != NONE
    ensures FreeTile(t, cut, b, size) ==> (cut[i] <= b < cut[j] <==> !Outside(cut, i, j, b))
  {
    if FreeTile(t, cut, b, size) {
      var k :| 0 <= k < |cut| - 1 && cut[k] == b && cut[k+1] == b + size;
      if k > 0 { Spread(cut, end, 0, k); }
      if cut[i] <= b < cut[j] { TileWithin(cut, end, i, j, b, size); }
      forall l | i <= l < j ensures cut[i] <= cut[l] < cut[j] {
        if i < l { Spread(cut, end, i, l); }
        Spread(cut, end, l, j);
      }
    }
  }

  lemma Listed(t: Tags, cut: seq<int>, end: int, cs: seq<Class>, except: int, i: nat)
    requires Sound(t, cut, end, cs, except) && i < |cut| - 1 && !Tag(t, cut[i]).alloc && cut[i] != except
    ensures On(cs, cut[i], Tag(t, cut[i]).size) && Holds(cs, cut[i])
  {
    assert Told(t, cut[i], cut[i+1]) && Tile(cut[i], cut[i+1]);
    assert IsTile(cut, cut[i], cut[i+1] - cut[i]);
    assert FreeTile(t, cut, cut[i], Tag(t, cut[i]).size);
    HoldsOn(cs, cut[i]);
  }

  lemma NotListed(t: Tags, cut: seq<int>, end: int, cs: seq<Class>, b: int)
    requires Sound(t, cut, end, cs, b)
    ensures !Holds(cs, b)
  {
    HoldsOn(cs, b);
  }

  /** A block on no list and one taken off its list, next to each other. */
  lemma DelistedOne(t: Tags, cut: seq<int>, cs: seq<Class>, i: nat, block: int, b: int)
    requires i + 2 < |cut| && ListsFree(t, cut, cs, block)
    requires (cut[i] == b && cut[i+1] == block) || (cut[i] == block && cut[i+1] == b)
    ensures Delisted(cs, Removed(cs, b), cut, i, i + 2)
  {
    hide FreeTile, On, Removed;
    forall x: int, size: nat
      ensures On(Removed(cs, b), x, size) <==> On(cs, x, size) && Outside(cut, i, i + 2, x)
    {
      OnRemoved(cs, b, x, size);
    }
  }

  lemma DelistedTwo(t: Tags, cut: seq<int>, cs: seq<Class>, i: nat)
    requires i + 3 < |cut| && ListsFree(t, cut, cs, cut[i+1])
    ensures Delisted(cs, Removed(Removed(cs, cut[i]), cut[i+2]), cut, i, i + 3)
  {
    hide FreeTile, On, Removed;
    var cs1 := Removed(cs, cut[i]);
    forall x: int, size: nat
      ensures On(Removed(cs1, cut[i+2]), x, size) <==> On(cs, x, size) && Outside(cut, i, i + 3, x)
    {
      OnRemoved(cs, cut[i], x, size);
      OnRemoved(cs1, cut[i+2], x, size);
      assert Outside(cut, i, i + 3, x) <==> x != cut[i] && x != cut[i+1] && x != cut[i+2];
    }
  }

  /** The block that was on no list put on the list of its size. */
  lemma InsertSound(t: Tags, cut: seq<int>, end: int, cs: seq<Class>, k: nat)
    requires k < |cut| - 1 && Sound(t, cut, end, cs, cut[k]) && !Tag(t, cut[k]).alloc
    ensures Sound(t, cut, end, Inserted(cs, cut[k], Tag(t, cut[k]).size), NONE)
  {
    hide On, Inserted;
    assert Told(t, cut[k], cut[k+1]) && Tile(cut[k], cut[k+1]);
    var size0 := Tag(t, cut[k]).size;
    forall b: int, size: nat
      ensures On(Inserted(cs, cut[k], size0), b, size) <==> b != NONE && FreeTile(t, cut, b, size)
    {
      OnInserted(cs, cut[k], size0, b, size);
      FreeTileAt(t, cut, end, 0, 1, b, size);
      if b == cut[k] { FreeTileSize(t, cut, end, k, b, size); }
    }
  }

  lemma FreeTileSize(t: Tags, cut: seq<int>, end: int, k: nat, b: int, size: int)
    requires Tiled(cut, end) && k < |cut| - 1 && b == cut[k] && !Tag(t, b).alloc
    ensures FreeTile(t, cut, b, size) <==> size == cut[k+1] - cut[k]
  {
    assert IsTile(cut, b, cut[k+1] - cut[k]);
    if FreeTile(t, cut, b, size) {
      var l :| 0 <= l < |cut| - 1 && cut[l] == b && cut[l+1] == b + size;
      if l < k { Spread(cut, end, l, k); }
      if k < l { Spread(cut, end, k, l); }
    }
  }

  // ----- coalescing -----

  /** The first and the end boundary of the block that a freed block k becomes part of. */
  function MergeFrom(t: Tags, cut: seq<int>, k: nat): (i: nat)
    requires k < |cut| - 1
    ensures i <= k
  {
    if k > 0 && !Tag(t, cut[k-1]).alloc then k - 1 else k
  }

  function MergeTo(t: Tags, cut: seq<int>, k: nat): (j: nat)
    requires k < |cut| - 1
    ensures k < j < |cut|
  {
    if k + 2 < |cut| && !Tag(t, cut[k+1]).alloc then k + 2 else k + 1
  }

  function CoalescedCut(t: Tags, cut: seq<int>, k: nat): seq<int>
    requires k < |cut| - 1
  {
    Merged(cut, MergeFrom(t, cut, k), MergeTo(t, cut, k))
  }

  function CoalescedTags(t: Tags, cut: seq<int>, k: nat): Tags
    requires k < |cut| - 1
  {
    var i, j := MergeFrom(t, cut, k), MergeTo(t, cut, k);
    if j == i + 1 || cut[j] < cut[i] then t else MergeTags(t, cut[i], cut[j])
  }

  /** Each free neighbour is the only block on the list of its size. */
  predicate NeighboursAlone(t: Tags, cut: seq<int>, cs: seq<Class>, k: nat)
    requires k < |cut| - 1
  {
    && (k > 0 && !Tag(t, cut[k-1]).alloc ==> Alone(cs, cut[k-1]))
    && (k + 2 < |cut| && !Tag(t, cut[k+1]).alloc ==> Alone(cs, cut[k+1]))
  }

  lemma MergedNone(cut: seq<int>, k: nat)
    requires k + 1 < |cut|
    ensures Merged(cut, k, k + 1) == cut
  {
  }

  /** Coalescing leaves the allocated blocks what they were and the prev_allocated bits of the headers truthful. */
  lemma CoalesceKeeps(t: Tags, cut: seq<int>, end: int, k: nat)
    requires Tiled(cut, end) && Tagged(t, cut) && k < |cut| - 1 && !Tag(t, cut[k]).alloc
    ensures SameAllocated(t, cut, CoalescedTags(t, cut, k), CoalescedCut(t, cut, k))
    ensures AllPrevTold(t, cut) ==> AllPrevTold(CoalescedTags(t, cut, k), CoalescedCut(t, cut, k))
  {
    hide Tag, MergeTags, Merged, IsTile, Tiled, Tagged;
    var i, j := MergeFrom(t, cut, k), MergeTo(t, cut, k);
    Spread(cut, end, i, j);
    if j == i + 1 {
      MergedNone(cut, k);
    } else {
      forall b, size, requested
        ensures AllocatedTile(CoalescedTags(t, cut, k), CoalescedCut(t, cut, k), b, size, requested) <==>
          AllocatedTile(t, cut, b, size, requested)
      {
        MergeAllocated(t, cut, end, i, j, b, size, requested);
      }
      if AllPrevTold(t, cut) { MergePrev(t, cut, end, i, j); }
    }
  }
}
