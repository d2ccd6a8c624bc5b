/**
 * Any run of insert_block and the unlinking of allocate_block: the classes against a plain record of what is free,
 * most recent first.
 */
module FreeListRuns {
  import opened Options
  import opened SegregatedLists

  datatype Op = Insert(addr: int, size: nat) | Take(addr: int)
  datatype Entry = Entry(addr: int, size: nat)

  /** The entries without block b. */
  function Forget(live: seq<Entry>, b: int): seq<Entry>
  {
    if live == [] then [] else (if live[0].addr == b then [] else [live[0]]) + Forget(live[1..], b)
  }

  function OfSize(live: seq<Entry>, size: nat): seq<int>
  {
    if live == [] then [] else (if live[0].size == size then [live[0].addr] else []) + OfSize(live[1..], size)
  }

  function Live(ops: seq<Op>): seq<Entry>
  {
    if ops == [] then []
    else
      var before := Live(ops[..|ops|-1]);
      match ops[|ops|-1]
      case Insert(b, size) => [Entry(b, size)] + before
      case Take(b) => Forget(before, b)
  }

  function Classes(ops: seq<Op>): seq<Class>
  {
    if ops == [] then [] else Step(Classes(ops[..|ops|-1]), ops[|ops|-1])
  }

  /** The blocks on the list of that size. */
  function BlocksOf(cs: seq<Class>, size: nat): seq<int>
  {
    var i := AtLeast(cs, size);
    if i < |cs| && cs[i].size == size then cs[i].blocks else []
  }

  /** Each list is a stack of the free blocks of its size, and the sizes of the lists increase. */
  ghost predicate Mirrors(cs: seq<Class>, live: seq<Entry>)
  {
    Increasing(cs) && forall size: nat :: BlocksOf(cs, size) == OfSize(live, size)
  }

  lemma {:induction false} OfSizeEmpty(live: seq<Entry>, size: nat)
    ensures OfSize(live, size) == [] <==> forall e | e in live :: e.size != size
  {
    if live != [] {
      OfSizeEmpty(live[1..], size);
      assert forall e :: e in live <==> e == live[0] || e in live[1..];
    }
  }

  lemma {:induction false} OfSizeForget(live: seq<Entry>, b: int, size: nat)
    ensures OfSize(Forget(live, b), size) == Without(OfSize(live, size), b)
  {
    if live != [] {
      OfSizeForget(live[1..], b, size);
      var rest, left := OfSize(live[1..], size), Forget(live[1..], b);
      assert ([live[0].addr] + rest)[1..] == rest && ([live[0]] + left)[1..] == left;
      assert [] + rest == rest && [] + left == left && [] + OfSize(left, size) == OfSize(left, size);
      assert [] + Without(rest, b) == Without(rest, b);
    }
  }

  lemma OfSizePush(live: seq<Entry>, b: int, size: nat, other: nat)
    ensures OfSize([Entry(b, size)] + live, other) ==
      if other == size then [b] + OfSize(live, other) else OfSize(live, other)
  {
    assert ([Entry(b, size)] + live)[1..] == live;
    assert [] + OfSize(live, other) == OfSize(live, other);
  }

  lemma BlocksAt(cs: seq<Class>, i: nat)
    requires Increasing(cs) && i < |cs|
    ensures BlocksOf(cs, cs[i].size) == cs[i].blocks
  {
    AtLeastIs(cs, i);
  }

  lemma InsertIncreases(cs: seq<Class>, b: int, size: nat)
    requires Increasing(cs)
    ensures Increasing(Inserted(cs, b, size))
  {
    var i := AtLeast(cs, size);
    if i == |cs| || cs[i].size != size { AddIncreasing(cs, i, size); }
  }

  /** Where class j of another size is afterwards. */
  function Moved(cs: seq<Class>, size: nat, j: nat): nat
  {
    var i := AtLeast(cs, size);
    if j < i || (i < |cs| && cs[i].size == size) then j else j + 1
  }

  lemma InsertMoves(cs: seq<Class>, b: int, size: nat, j: nat)
    requires j < |cs| && cs[j].size != size
    ensures Moved(cs, size, j) < |Inserted(cs, b, size)| && Inserted(cs, b, size)[Moved(cs, size, j)] == cs[j]
  {
    hide AtLeast;
    var i := AtLeast(cs, size);
    if i < |cs| && cs[i].size == size {
      assert Inserted(cs, b, size)[j] == cs[j];
    } else {
      AddMoves(cs, i, size);
      assert Inserted(cs, b, size) == With(ClassAdded(cs, i, size), i, [b]);
    }
  }

  lemma InsertFrom(cs: seq<Class>, b: int, size: nat)
    ensures var cs' := Inserted(cs, b, size);
      forall k | 0 <= k < |cs'| && cs'[k].size != size :: exists j :: 0 <= j < |cs| && cs[j].size == cs'[k].size
  {
    hide AtLeast;
    var i, cs' := AtLeast(cs, size), Inserted(cs, b, size);
    if i < |cs| && cs[i].size == size {
      forall k | 0 <= k < |cs'| ensures exists j :: 0 <= j < |cs| && cs[j].size == cs'[k].size {
        assert cs[k].size == cs'[k].size;
      }
    } else {
      AddMoves(cs, i, size);
      assert forall k | 0 <= k < |cs'| && k != i :: cs'[k] == ClassAdded(cs, i, size)[k];
      forall k | 0 <= k < |cs'| && cs'[k].size != size ensures exists j :: 0 <= j < |cs| && cs[j].size == cs'[k].size {
        assert cs[if k < i then k else k - 1].size == cs'[k].size;
      }
    }
  }

  lemma AddMoves(cs: seq<Class>, i: nat, size: nat)
    requires i <= |cs|
    ensures forall j | 0 <= j < i :: ClassAdded(cs, i, size)[j] == cs[j]
    ensures forall k | i < k <= |cs| :: ClassAdded(cs, i, size)[k] == cs[k-1]
  {
  }

  lemma InsertBlocks(cs: seq<Class>, b: int, size: nat, other: nat)
    requires Increasing(cs)
    ensures BlocksOf(Inserted(cs, b, size), other) ==
      if other == size then [b] + BlocksOf(cs, other) else BlocksOf(cs, other)
  {
    InsertIncreases(cs, b, size);
    if other == size {
      BlocksAt(Inserted(cs, b, size), AtLeast(cs, size));
    } else {
      InsertBlocksOther(cs, b, size, other);
    }
  }

  lemma InsertBlocksOther(cs: seq<Class>, b: int, size: nat, other: nat)
    requires Increasing(cs) && Increasing(Inserted(cs, b, size)) && other != size
    ensures BlocksOf(Inserted(cs, b, size), other) == BlocksOf(cs, other)
  {
    hide Inserted, Increasing, Moved;
    var j, k, cs' := AtLeast(cs, other), AtLeast(Inserted(cs, b, size), other), Inserted(cs, b, size);
    InsertFrom(cs, b, size);
    if j < |cs| && cs[j].size == other {
      InsertMoves(cs, b, size, j);
      BlocksAt(cs', Moved(cs, size, j));
    } else if k < |cs'| && cs'[k].size == other {
      var j0 :| 0 <= j0 < |cs| && cs[j0].size == other;
      AtLeastIs(cs, j0);
    }
  }

  lemma InsertMirrors(cs: seq<Class>, live: seq<Entry>, b: int, size: nat)
    requires Mirrors(cs, live)
    ensures Mirrors(Inserted(cs, b, size), [Entry(b, size)] + live)
  {
    hide OfSize, BlocksOf;
    InsertIncreases(cs, b, size);
    forall other: nat ensures BlocksOf(Inserted(cs, b, size), other) == OfSize([Entry(b, size)] + live, other) {
      InsertBlocks(cs, b, size, other);
      OfSizePush(live, b, size, other);
    }
  }

  lemma TakeBlocks(cs: seq<Class>, b: int, size: nat)
    requires Increasing(cs)
    ensures Increasing(Removed(cs, b)) && BlocksOf(Removed(cs, b), size) == Without(BlocksOf(cs, size), b)
  {
    var j, k := AtLeast(cs, size), AtLeast(Removed(cs, b), size);
    if j < |cs| && cs[j].size == size { BlocksAt(Removed(cs, b), j); }
    if k < |cs| && cs[k].size == size { BlocksAt(cs, k); }
  }

  lemma TakeMirrors(cs: seq<Class>, live: seq<Entry>, b: int)
    requires Mirrors(cs, live)
    ensures Mirrors(Removed(cs, b), Forget(live, b))
  {
    hide OfSize, BlocksOf, Without;
    TakeBlocks(cs, b, 0);
    forall size: nat ensures BlocksOf(Removed(cs, b), size) == OfSize(Forget(live, b), size) {
      TakeBlocks(cs, b, size);
      OfSizeForget(live, b, size);
    }
  }

  /**
   * After every run the list of lists is strictly increasing and each list is a stack of the free blocks of its size.
   */
  lemma {:induction false} RunMirrors(ops: seq<Op>)
    ensures Mirrors(Classes(ops), Live(ops))
    decreases |ops|
  {
    if ops != [] {
      var before := ops[..|ops|-1];
      RunMirrors(before);
      match ops[|ops|-1]
      case Insert(b, size) => InsertMirrors(Classes(before), Live(before), b, size);
      case Take(b) => TakeMirrors(Classes(before), Live(before), b);
    }
  }

  /** Entry k is the best fit: of the smallest size that will do, and of those the most recent. */
  predicate BestFit(live: seq<Entry>, size: nat, k: nat)
    requires k < |live|
  {
    && size <= live[k].size
    && forall j | 0 <= j < |live| && size <= live[j].size ::
         live[k].size < live[j].size || (live[k].size == live[j].size && k <= j)
  }

  lemma {:induction false} FirstOfSize(live: seq<Entry>, size: nat) returns (k: nat)
    requires OfSize(live, size) != []
    ensures k < |live| && live[k] == Entry(OfSize(live, size)[0], size)
    ensures forall j | 0 <= j < k :: live[j].size != size
  {
    if live[0].size == size {
      k := 0;
    } else {
      k := FirstOfSize(live[1..], size);
      k := k + 1;
    }
  }

  /** The block search_freeblock finds after a run, if any. */
  function Found(ops: seq<Op>, size: nat): Option<int>
  {
    var cs := Classes(ops);
    var i := Fitting(cs, size);
    if i < |cs| then Some(cs[i].blocks[0]) else None
  }

  /** A class that an entry that is big enough is in comes no earlier than the class found. */
  lemma FoundFirst(cs: seq<Class>, live: seq<Entry>, size: nat, e: Entry)
    requires Mirrors(cs, live) && e in live && size <= e.size
    ensures var i := Fitting(cs, size); i < |cs| && cs[i].size <= e.size
  {
    hide OfSize;
    OfSizeEmpty(live, e.size);
    assert BlocksOf(cs, e.size) != [];
  }

  /** After every run search_freeblock finds the best fit, and nothing exactly when nothing fits. */
  lemma SearchBestFit(ops: seq<Op>, size: nat)
    ensures Found(ops, size).None? <==> forall e | e in Live(ops) :: e.size < size
    ensures Found(ops, size).Some? ==>
      exists k :: 0 <= k < |Live(ops)| && Live(ops)[k].addr == Found(ops, size).value && BestFit(Live(ops), size, k)
  {
    hide OfSize, Classes, Live;
    var cs, live := Classes(ops), Live(ops);
    var i := Fitting(cs, size);
    RunMirrors(ops);
    forall e | e in live && size <= e.size ensures i < |cs| && cs[i].size <= e.size {
      FoundFirst(cs, live, size, e);
    }
    if i < |cs| {
      BlocksAt(cs, i);
      var k := FirstOfSize(live, cs[i].size);
      forall j | 0 <= j < |live| && size <= live[j].size
        ensures live[k].size < live[j].size || (live[k].size == live[j].size && k <= j)
      {
        assert live[j] in live;
      }
      assert live[k] in live && BestFit(live, size, k);
    }
  }

  predicate LegalStep(cs: seq<Class>, op: Op)
  {
    match op case Insert(b, _) => !Holds(cs, b) case Take(b) => Holds(cs, b)
  }

  function Step(cs: seq<Class>, op: Op): seq<Class>
  {
    match op case Insert(b, size) => Inserted(cs, b, size) case Take(b) => Removed(cs, b)
  }

  /** A run that inserts only blocks that are not free and takes only blocks that are. */
  predicate Legal(ops: seq<Op>)
  {
    ops != [] ==> Legal(ops[..|ops|-1]) && LegalStep(Classes(ops[..|ops|-1]), ops[|ops|-1])
  }

  method PerformStep(f: FreeLists, op: Op)
    requires f.Valid() && LegalStep(f.classes, op)
    modifies f
    ensures f.Valid() && f.classes == Step(old(f.classes), op)
  {
    match op {
      case Insert(b, size) => f.InsertBlock(b, size);
      case Take(b) => f.Unlink(b);
    }
  }

  /** Performing a legal run on the rings themselves ends in the classes of the run, with every ring well linked. */
  method Perform(f: FreeLists, ops: seq<Op>)
    requires f.Valid() && f.classes == [] && Legal(ops)
    modifies f
    ensures f.Valid() && f.classes == Classes(ops)
  {
    hide Step, LegalStep, Increasing, Separate, Nodes, LinkedAll;
    var i := 0;
    while i < |ops|
      invariant i <= |ops| && f.Valid() && f.classes == Classes(ops[..i])
    {
      LegalPrefix(ops, i + 1);
      assert ops[..i + 1][..i] == ops[..i];
      PerformStep(f, ops[i]);
      i := i + 1;
    }
    assert ops[..|ops|] == ops;
  }

  lemma {:induction false} LegalPrefix(ops: seq<Op>, i: nat)
    requires Legal(ops) && i <= |ops|
    ensures Legal(ops[..i])
    decreases |ops|
  {
    if i == |ops| { assert ops[..i] == ops; } else {
      LegalPrefix(ops[..|ops|-1], i);
      assert ops[..|ops|-1][..i] == ops[..i];
    }
  }
}
