/**
 * hw3/src/sfmm.c: the segregated free lists. A list node carries a size and the sentinel of a circular doubly linked
 * ring of free blocks of that size; the nodes themselves are kept in increasing order of size.
 */
module SegregatedLists {
  import opened Options

  datatype ListNode = ListNode(size: nat, id: nat)

  /** What a link can point to: a block, by the address of its header, or the sentinel of a list node. */
  datatype Loc = Block(addr: int) | Head(id: nat)

  /** A free list: the blocks from the sentinel's `next` on. */
  datatype Class = Class(size: nat, blocks: seq<int>)

  // ----- one ring -----

  /** Position k of the closed path sentinel, blocks, sentinel. */
  function Pos(id: nat, ring: seq<int>, k: int): Loc
  {
    if 1 <= k <= |ring| then Block(ring[k-1]) else Head(id)
  }

  /** x and y are neighbours, seen from either side. */
  predicate Joined(next: map<Loc, Loc>, prev: map<Loc, Loc>, x: Loc, y: Loc)
  {
    x in next && next[x] == y && y in prev && prev[y] == x
  }

  predicate JoinedAt(next: map<Loc, Loc>, prev: map<Loc, Loc>, id: nat, ring: seq<int>, k: int)
  {
    Joined(next, prev, Pos(id, ring, k), Pos(id, ring, k + 1))
  }

  predicate Linked(next: map<Loc, Loc>, prev: map<Loc, Loc>, id: nat, ring: seq<int>)
  {
    forall k | 0 <= k <= |ring| :: JoinedAt(next, prev, id, ring, k)
  }

  predicate Distinct(ring: seq<int>)
  {
    forall k, l | 0 <= k < l < |ring| :: ring[k] != ring[l]
  }

  /** A block put behind the sentinel. */
  lemma InsertLinks(next: map<Loc, Loc>, prev: map<Loc, Loc>, id: nat, ring: seq<int>, b: int,
                    next': map<Loc, Loc>, prev': map<Loc, Loc>)
    requires Linked(next, prev, id, ring) && Distinct(ring) && b !in ring && Head(id) in next
    requires next' == next[Block(b) := next[Head(id)]][Head(id) := Block(b)]
    requires prev' == prev[next[Head(id)] := Block(b)][Block(b) := Head(id)]
    ensures Linked(next', prev', id, [b] + ring)
  {
    assert JoinedAt(next, prev, id, ring, 0);
    forall k | 0 <= k <= |ring| + 1 ensures JoinedAt(next', prev', id, [b] + ring, k) {
      if k >= 2 { assert JoinedAt(next, prev, id, ring, k - 1); }
    }
  }

  /** The block at position m of the ring taken out. */
  lemma RemoveLinks(next: map<Loc, Loc>, prev: map<Loc, Loc>, id: nat, ring: seq<int>, m: nat,
                    next': map<Loc, Loc>, prev': map<Loc, Loc>)
    requires Linked(next, prev, id, ring) && Distinct(ring) && m < |ring|
    requires Block(ring[m]) in next && Block(ring[m]) in prev
    requires next' == next[prev[Block(ring[m])] := next[Block(ring[m])]] - {Block(ring[m])}
    requires prev' == prev[next[Block(ring[m])] := prev[Block(ring[m])]] - {Block(ring[m])}
    ensures Linked(next', prev', id, ring[..m] + ring[m+1..])
  {
    assert JoinedAt(next, prev, id, ring, m) && JoinedAt(next, prev, id, ring, m + 1);
    var ring' := ring[..m] + ring[m+1..];
    forall k | 0 <= k <= |ring'| ensures JoinedAt(next', prev', id, ring', k) {
      assert k < m ==> JoinedAt(next, prev, id, ring, k);
      assert k > m ==> JoinedAt(next, prev, id, ring, k + 1);
    }
  }

  /** Links that agree on the places of a ring keep it linked. */
  lemma KeepLinks(next: map<Loc, Loc>, prev: map<Loc, Loc>, id: nat, ring: seq<int>,
                  next': map<Loc, Loc>, prev': map<Loc, Loc>)
    requires Linked(next, prev, id, ring)
    requires forall x | x == Head(id) || (x.Block? && x.addr in ring) ::
      && (x in next ==> x in next' && next'[x] == next[x]) && (x in prev ==> x in prev' && prev'[x] == prev[x])
    ensures Linked(next', prev', id, ring)
  {
    forall k | 0 <= k <= |ring| ensures JoinedAt(next', prev', id, ring, k) {
      assert JoinedAt(next, prev, id, ring, k);
    }
  }

  // ----- the list of lists -----

  predicate Increasing(cs: seq<Class>)
  {
    forall i, j | 0 <= i < j < |cs| :: cs[i].size < cs[j].size
  }

  predicate Holds(cs: seq<Class>, b: int)
  {
    exists i :: 0 <= i < |cs| && b in cs[i].blocks
  }

  /** No block is on two lists or twice on one. */
  predicate Separate(cs: seq<Class>)
  {
    && (forall i | 0 <= i < |cs| :: Distinct(cs[i].blocks))
    && (forall i, j, b | 0 <= i < |cs| && 0 <= j < |cs| && b in cs[i].blocks && b in cs[j].blocks :: i == j)
  }

  predicate Nodes(lists: seq<ListNode>, cs: seq<Class>)
  {
    && |lists| == |cs|
    && (forall i | 0 <= i < |cs| :: lists[i].size == cs[i].size && lists[i].id < |cs|)
    && (forall i, j | 0 <= i < j < |cs| :: lists[i].id != lists[j].id)
  }

  predicate LinkedAll(lists: seq<ListNode>, next: map<Loc, Loc>, prev: map<Loc, Loc>, cs: seq<Class>)
    requires |lists| == |cs|
  {
    forall i | 0 <= i < |cs| :: Linked(next, prev, lists[i].id, cs[i].blocks)
  }

  /** Class i with other blocks. */
  function With(cs: seq<Class>, i: nat, blocks: seq<int>): (r: seq<Class>)
    requires i < |cs|
  {
    cs[i := Class(cs[i].size, blocks)]
  }

  /** The other rings do not notice links that change at class i and at the block b only. */
  lemma OthersLinked(lists: seq<ListNode>, next: map<Loc, Loc>, prev: map<Loc, Loc>, cs: seq<Class>, i: nat, b: int,
                     next': map<Loc, Loc>, prev': map<Loc, Loc>, blocks: seq<int>)
    requires Nodes(lists, cs) && Separate(cs) && LinkedAll(lists, next, prev, cs) && i < |cs|
    requires forall j | 0 <= j < |cs| && j != i :: b !in cs[j].blocks
    requires forall x | x != Head(lists[i].id) && (x.Block? ==> x.addr != b && x.addr !in cs[i].blocks) ::
      && (x in next ==> x in next' && next'[x] == next[x]) && (x in prev ==> x in prev' && prev'[x] == prev[x])
    requires Linked(next', prev', lists[i].id, blocks)
    ensures LinkedAll(lists, next', prev', With(cs, i, blocks))
  {
    forall j | 0 <= j < |cs| && j != i ensures Linked(next', prev', lists[j].id, cs[j].blocks) {
      KeepLinks(next, prev, lists[j].id, cs[j].blocks, next', prev');
    }
  }

  lemma InsertKeeps(lists: seq<ListNode>, next: map<Loc, Loc>, prev: map<Loc, Loc>, cs: seq<Class>, i: nat, b: int,
                    next': map<Loc, Loc>, prev': map<Loc, Loc>)
    requires Nodes(lists, cs) && Separate(cs) && LinkedAll(lists, next, prev, cs) && i < |cs| && !Holds(cs, b)
    requires Head(lists[i].id) in next
    requires next' == next[Block(b) := next[Head(lists[i].id)]][Head(lists[i].id) := Block(b)]
    requires prev' == prev[next[Head(lists[i].id)] := Block(b)][Block(b) := Head(lists[i].id)]
    ensures LinkedAll(lists, next', prev', With(cs, i, [b] + cs[i].blocks))
  {
    assert JoinedAt(next, prev, lists[i].id, cs[i].blocks, 0);
    InsertLinks(next, prev, lists[i].id, cs[i].blocks, b, next', prev');
    OthersLinked(lists, next, prev, cs, i, b, next', prev', [b] + cs[i].blocks);
  }

  lemma InsertSeparate(cs: seq<Class>, i: nat, b: int)
    requires Separate(cs) && i < |cs| && !Holds(cs, b)
    ensures Separate(With(cs, i, [b] + cs[i].blocks))
  {
    assert Distinct([b] + cs[i].blocks);
  }

  lemma RemoveKeeps(lists: seq<ListNode>, next: map<Loc, Loc>, prev: map<Loc, Loc>, cs: seq<Class>, i: nat, m: nat,
                    b: int,
                    next': map<Loc, Loc>, prev': map<Loc, Loc>)
    requires Nodes(lists, cs) && Separate(cs) && LinkedAll(lists, next, prev, cs)
    requires i < |cs| && m < |cs[i].blocks| && cs[i].blocks[m] == b
    requires Block(b) in next && Block(b) in prev
    requires next' == next[prev[Block(b)] := next[Block(b)]] - {Block(b)}
    requires prev' == prev[next[Block(b)] := prev[Block(b)]] - {Block(b)}
    ensures LinkedAll(lists, next', prev', With(cs, i, cs[i].blocks[..m] + cs[i].blocks[m+1..]))
  {
    assert JoinedAt(next, prev, lists[i].id, cs[i].blocks, m) && JoinedAt(next, prev, lists[i].id, cs[i].blocks, m + 1);
    RemoveLinks(next, prev, lists[i].id, cs[i].blocks, m, next', prev');
    OthersLinked(lists, next, prev, cs, i, b, next', prev', cs[i].blocks[..m] + cs[i].blocks[m+1..]);
  }

  lemma RemoveSeparate(cs: seq<Class>, i: nat, m: nat)
    requires Separate(cs) && i < |cs| && m < |cs[i].blocks|
    ensures Separate(With(cs, i, cs[i].blocks[..m] + cs[i].blocks[m+1..]))
    ensures !Holds(With(cs, i, cs[i].blocks[..m] + cs[i].blocks[m+1..]), cs[i].blocks[m])
  {
    var blocks := cs[i].blocks[..m] + cs[i].blocks[m+1..];
    assert Distinct(blocks);
    assert forall b | b in blocks :: b in cs[i].blocks;
  }

  /** A new node, with an empty ring, in front of position i. */
  function NodeAdded(lists: seq<ListNode>, i: nat, size: nat): seq<ListNode>
    requires i <= |lists|
  {
    lists[..i] + [ListNode(size, |lists|)] + lists[i..]
  }

  function ClassAdded(cs: seq<Class>, i: nat, size: nat): seq<Class>
    requires i <= |cs|
  {
    cs[..i] + [Class(size, [])] + cs[i..]
  }

  lemma AddNodes(lists: seq<ListNode>, cs: seq<Class>, i: nat, size: nat)
    requires Nodes(lists, cs) && i <= |cs|
    ensures Nodes(NodeAdded(lists, i, size), ClassAdded(cs, i, size))
  {
  }

  lemma AddKeeps(lists: seq<ListNode>, next: map<Loc, Loc>, prev: map<Loc, Loc>, cs: seq<Class>, i: nat, size: nat,
                 next': map<Loc, Loc>, prev': map<Loc, Loc>)
    requires Nodes(lists, cs) && LinkedAll(lists, next, prev, cs) && i <= |cs|
    requires next' == next[Head(|lists|) := Head(|lists|)] && prev' == prev[Head(|lists|) := Head(|lists|)]
    ensures Nodes(NodeAdded(lists, i, size), ClassAdded(cs, i, size))
    ensures LinkedAll(NodeAdded(lists, i, size), next', prev', ClassAdded(cs, i, size))
  {
    AddNodes(lists, cs, i, size);
    var lists', cs' := NodeAdded(lists, i, size), ClassAdded(cs, i, size);
    forall j | 0 <= j < |cs'| ensures Linked(next', prev', lists'[j].id, cs'[j].blocks) {
      if j == i {
        assert JoinedAt(next', prev', |lists|, [], 0);
      } else {
        var j0 := if j < i then j else j - 1;
        KeepLinks(next, prev, lists[j0].id, cs[j0].blocks, next', prev');
      }
    }
  }

  lemma AddSeparate(cs: seq<Class>, i: nat, size: nat)
    requires Separate(cs) && i <= |cs|
    ensures Separate(ClassAdded(cs, i, size))
    ensures forall b :: Holds(ClassAdded(cs, i, size), b) ==> Holds(cs, b)
  {
    var cs' := ClassAdded(cs, i, size);
    forall b | Holds(cs', b) ensures Holds(cs, b) {
      var j :| 0 <= j < |cs'| && b in cs'[j].blocks;
      assert b in cs[if j < i then j else j - 1].blocks;
    }
  }

  lemma AddIncreasing(cs: seq<Class>, i: nat, size: nat)
    requires Increasing(cs) && i == AtLeast(cs, size) && (i < |cs| ==> cs[i].size != size)
    ensures Increasing(ClassAdded(cs, i, size))
  {
  }

  // ----- what the operations do to the classes -----

  /** The first class of at least that size. */
  function AtLeast(cs: seq<Class>, size: nat): (i: nat)
    ensures i <= |cs| && (forall j | 0 <= j < i :: cs[j].size < size) && (i < |cs| ==> size <= cs[i].size)
  {
    if cs == [] || size <= cs[0].size then 0 else AtLeast(cs[1..], size) + 1
  }

  /** insert_block: a new class when there is none of that size; the block becomes the first of its class. */
  function Inserted(cs: seq<Class>, b: int, size: nat): seq<Class>
  {
    var i := AtLeast(cs, size);
    if i < |cs| && cs[i].size == size then With(cs, i, [b] + cs[i].blocks)
    else With(ClassAdded(cs, i, size), i, [b])
  }

  function Without(blocks: seq<int>, b: int): seq<int>
  {
    if blocks == [] then [] else (if blocks[0] == b then [] else [blocks[0]]) + Without(blocks[1..], b)
  }

  /** The classes without block b. */
  function Removed(cs: seq<Class>, b: int): (r: seq<Class>)
    ensures |r| == |cs| && forall i | 0 <= i < |cs| :: r[i] == Class(cs[i].size, Without(cs[i].blocks, b))
  {
    if cs == [] then [] else [Class(cs[0].size, Without(cs[0].blocks, b))] + Removed(cs[1..], b)
  }

  lemma {:induction false} WithoutAbsent(blocks: seq<int>, b: int)
    requires b !in blocks
    ensures Without(blocks, b) == blocks
  {
    if blocks != [] { WithoutAbsent(blocks[1..], b); }
  }

  lemma {:induction false} WithoutAt(blocks: seq<int>, m: nat)
    requires Distinct(blocks) && m < |blocks|
    ensures Without(blocks, blocks[m]) == blocks[..m] + blocks[m+1..]
  {
    if m == 0 {
      WithoutAbsent(blocks[1..], blocks[0]);
    } else {
      WithoutAt(blocks[1..], m - 1);
      assert blocks[..m] + blocks[m+1..] == [blocks[0]] + (blocks[1..][..m-1] + blocks[1..][m..]);
    }
  }

  /** A block is on one list, at one position. */
  lemma RemovedAt(cs: seq<Class>, i: nat, m: nat)
    requires Separate(cs) && i < |cs| && m < |cs[i].blocks|
    ensures Removed(cs, cs[i].blocks[m]) == With(cs, i, cs[i].blocks[..m] + cs[i].blocks[m+1..])
  {
    var b := cs[i].blocks[m];
    WithoutAt(cs[i].blocks, m);
    forall j | 0 <= j < |cs| && j != i ensures Without(cs[j].blocks, b) == cs[j].blocks {
      assert b in cs[i].blocks;
      WithoutAbsent(cs[j].blocks, b);
    }
  }

  predicate On(cs: seq<Class>, b: int, size: nat)
  {
    exists i :: 0 <= i < |cs| && cs[i].size == size && b in cs[i].blocks
  }

  /** Block b is the only one on its list. */
  predicate Alone(cs: seq<Class>, b: int)
  {
    exists i :: 0 <= i < |cs| && cs[i].blocks == [b]
  }

  lemma AloneAt(cs: seq<Class>, b: int, i: nat)
    requires Separate(cs) && i < |cs| && b in cs[i].blocks
    ensures Alone(cs, b) <==> cs[i].blocks == [b]
  {
    if Alone(cs, b) {
      var j :| 0 <= j < |cs| && cs[j].blocks == [b];
      assert b in cs[j].blocks;
    }
  }

  /** The first class of at least that size that has a block. */
  function Fitting(cs: seq<Class>, size: nat): (i: nat)
    ensures i <= |cs| && (i < |cs| ==> size <= cs[i].size && cs[i].blocks != [])
    ensures forall j | 0 <= j < i :: cs[j].size < size || cs[j].blocks == []
  {
    if cs == [] || (size <= cs[0].size && cs[0].blocks != []) then 0 else Fitting(cs[1..], size) + 1
  }

  class FreeLists {
    /** The list of lists, after its own sentinel. */
    var lists: seq<ListNode>
    var next: map<Loc, Loc>
    var prev: map<Loc, Loc>
    ghost var classes: seq<Class>

    ghost predicate Valid()
      reads this
    {
      && Nodes(lists, classes) && LinkedAll(lists, next, prev, classes)
      && Increasing(classes) && Separate(classes)
    }

    constructor ()
      ensures Valid() && classes == []
    {
      lists, next, prev, classes := [], map[], map[], [];
    }

    /** search_freelist; past the end for NULL. */
    method SearchFreelist(size: nat) returns (i: nat)
      requires Valid()
      ensures i == AtLeast(classes, size)
    {
      i := 0;
      while i < |lists|
        invariant i <= |lists| && forall j | 0 <= j < i :: classes[j].size < size
      {
        if lists[i].size >= size { break; }
        i := i + 1;
      }
    }

    method SearchFreeblock(size: nat) returns (r: Option<int>)
      requires Valid()
      ensures var i := Fitting(classes, size);
        r == if i < |classes| then Some(classes[i].blocks[0]) else None
    {
      var i := 0;
      while i < |lists|
        invariant i <= |lists| && forall j | 0 <= j < i :: classes[j].size < size || classes[j].blocks == []
      {
        var id := lists[i].id;
        assert JoinedAt(next, prev, id, classes[i].blocks, 0);
        if lists[i].size >= size && next[Head(id)] != Head(id) {
          assert i == Fitting(classes, size);
          return Some(next[Head(id)].addr);
        }
        i := i + 1;
      }
      return None;
    }

    /** sf_add_free_list: a node with an empty ring in front of position i. */
    method AddFreeList(size: nat, i: nat)
      requires Valid() && i == AtLeast(classes, size) && (i < |lists| ==> lists[i].size != size)
      modifies this
      ensures Valid() && classes == ClassAdded(old(classes), i, size) && i < |lists|
    {
      var id := |lists|;
      AddKeeps(lists, next, prev, classes, i, size, next[Head(id) := Head(id)], prev[Head(id) := Head(id)]);
      AddSeparate(classes, i, size);
      AddIncreasing(classes, i, size);
      hide Increasing, Separate, Nodes, LinkedAll;
      lists := NodeAdded(lists, i, size);
      next, prev := next[Head(id) := Head(id)], prev[Head(id) := Head(id)];
      classes := ClassAdded(classes, i, size);
    }

    /** circular_linked_list_insert, on the sentinel of position i. */
    method CircularInsert(i: nat, b: int)
      requires Valid() && i < |lists| && !Holds(classes, b)
      modifies this
      ensures Valid() && classes == With(old(classes), i, [b] + old(classes)[i].blocks)
    {
      var s, x := Head(lists[i].id), Block(b);
      assert JoinedAt(next, prev, lists[i].id, classes[i].blocks, 0);
      ghost var next0, prev0 := next, prev;
      if next[s] == s {
        next := next[s := x];
        prev := prev[s := x];
        prev := prev[x := s];
        next := next[x := s];
      } else {
        next := next[x := next[s]];
        prev := prev[x := s];
        prev := prev[next[s] := x];
        next := next[s := x];
      }
      assert next == next0[x := next0[s]][s := x] && prev == prev0[next0[s] := x][x := s];
      InsertKeeps(lists, next0, prev0, classes, i, b, next, prev);
      InsertSeparate(classes, i, b);
      classes := With(classes, i, [b] + classes[i].blocks);
    }

    method InsertBlock(b: int, size: nat)
      requires Valid() && !Holds(classes, b)
      modifies this
      ensures Valid() && classes == Inserted(old(classes), b, size)
    {
      hide Increasing, Separate, LinkedAll, Holds;
      var i := SearchFreelist(size);
      if i == |lists| || lists[i].size != size {
        AddSeparate(classes, i, size);
        AddFreeList(size, i);
        assert [b] + classes[i].blocks == [b];
      }
      CircularInsert(i, b);
    }

    /** The unlinking in allocate_block, from the block's own links; the block is at position m of class i. */
    method UnlinkAt(b: int, ghost i: nat, ghost m: nat)
      requires Valid() && i < |classes| && m < |classes[i].blocks| && classes[i].blocks[m] == b
      modifies this
      ensures Valid()
      ensures classes == With(old(classes), i, old(classes)[i].blocks[..m] + old(classes)[i].blocks[m+1..])
    {
      var x := Block(b);
      ghost var id, ring := lists[i].id, classes[i].blocks;
      assert JoinedAt(next, prev, id, ring, m) && JoinedAt(next, prev, id, ring, m + 1);
      ghost var next0, prev0 := next, prev;
      var y, z := prev[x], next[x];
      if z != y {
        next := next[y := z];
        prev := prev[z := y];
      } else {
        next := next[y := y];
        prev := prev[y := y];
      }
      next, prev := next - {x}, prev - {x};
      RemoveKeeps(lists, next0, prev0, classes, i, m, b, next, prev);
      RemoveSeparate(classes, i, m);
      classes := With(classes, i, ring[..m] + ring[m+1..]);
    }

    method Unlink(b: int)
      requires Valid() && Holds(classes, b)
      modifies this
      ensures Valid() && classes == Removed(old(classes), b) && !Holds(classes, b)
    {
      hide Increasing, Nodes, LinkedAll;
      ghost var i :| 0 <= i < |classes| && b in classes[i].blocks;
      ghost var m :| 0 <= m < |classes[i].blocks| && classes[i].blocks[m] == b;
      RemovedAt(classes, i, m);
      RemoveSeparate(classes, i, m);
      UnlinkAt(b, i, m);
    }

    /** The links that delete_freeblock_from_freelist writes. */
    method WriteDeleted(s: Loc, x: Loc)
      requires x in next
      modifies this`next, this`prev
      ensures next == old(next)[s := old(next)[x]]
      ensures prev == if old(next)[x] == s then old(prev)[s := s] else old(prev)
    {
      if next[x] != s {
        next := next[s := next[x]];
      } else {
        prev := prev[s := s];
        next := next[s := s];
      }
    }

    /** delete_freeblock_from_freelist, for the block at position m of class i. */
    method DeleteAt(b: int, size: nat, ghost i: nat, ghost m: nat)
      requires Valid() && i < |classes| && m < |classes[i].blocks| && classes[i].blocks[m] == b
      requires classes[i].size == size
      modifies this
      ensures lists == old(lists)
      ensures old(classes)[i].blocks == [b] ==> Valid() && classes == With(old(classes), i, [])
      ensures old(classes)[i].blocks != [b] ==>
        !Linked(next, prev, lists[i].id, old(classes)[i].blocks[..m] + old(classes)[i].blocks[m+1..])
    {
      hide Linked, Distinct;
      var j := SearchFreelist(size);
      AtLeastIs(classes, i);
      ghost var ring, id := classes[i].blocks, lists[i].id;
      ghost var next0, prev0 := next, prev;
      RingLinks(next, prev, id, ring, m);
      WriteDeleted(Head(lists[j].id), Block(b));
      if ring == [b] {
        AloneKeeps(lists, next0, prev0, classes, i, b, next, prev);
        RemoveSeparate(classes, i, 0);
        assert ring[..0] + ring[1..] == [];
        classes := With(classes, i, []);
      } else {
        assert |ring| > 1;
        NotAlone(next0, prev0, id, ring, m, next, prev);
      }
    }

    /** delete_freeblock_from_freelist: it takes the block out of its ring exactly when that is the only one there. */
    method DeleteFreeblock(b: int, size: nat)
      requires Valid() && On(classes, b, size)
      modifies this
      ensures lists == old(lists)
      ensures LinkedAll(lists, next, prev, Removed(old(classes), b)) <==> Alone(old(classes), b)
      ensures Alone(old(classes), b) ==> Valid() && classes == Removed(old(classes), b) && !Holds(classes, b)
    {
      hide Increasing, Nodes, Linked;
      ghost var i :| 0 <= i < |classes| && classes[i].size == size && b in classes[i].blocks;
      ghost var m :| 0 <= m < |classes[i].blocks| && classes[i].blocks[m] == b;
      AloneAt(classes, b, i);
      RemovedAt(classes, i, m);
      RemoveSeparate(classes, i, m);
      ghost var cs := classes;
      assert Alone(cs, b) ==> Removed(cs, b) == With(cs, i, []);
      DeleteAt(b, size, i, m);
    }
  }

  lemma AtLeastIs(cs: seq<Class>, i: nat)
    requires Increasing(cs) && i < |cs|
    ensures AtLeast(cs, cs[i].size) == i
  {
    var j := AtLeast(cs, cs[i].size);
    assert cs[i].size <= cs[i].size;
  }

  lemma AloneKeeps(lists: seq<ListNode>, next: map<Loc, Loc>, prev: map<Loc, Loc>, cs: seq<Class>, i: nat, b: int,
                   next': map<Loc, Loc>, prev': map<Loc, Loc>)
    requires Nodes(lists, cs) && Separate(cs) && LinkedAll(lists, next, prev, cs)
    requires i < |cs| && cs[i].blocks == [b]
    requires next' == next[Head(lists[i].id) := Head(lists[i].id)]
    requires prev' == prev[Head(lists[i].id) := Head(lists[i].id)]
    ensures Linked(next', prev', lists[i].id, []) && LinkedAll(lists, next', prev', With(cs, i, []))
  {
    assert JoinedAt(next', prev', lists[i].id, [], 0);
    OthersLinked(lists, next, prev, cs, i, b, next', prev', []);
  }

  lemma RingLinks(next: map<Loc, Loc>, prev: map<Loc, Loc>, id: nat, ring: seq<int>, m: nat)
    requires Linked(next, prev, id, ring) && m < |ring|
    ensures Block(ring[m]) in next && (|ring| == 1 ==> next[Block(ring[m])] == Head(id))
  {
    assert JoinedAt(next, prev, id, ring, m + 1);
  }

  /** With more than one block on the ring, the links that are left do not form the ring without b. */
  lemma NotAlone(next: map<Loc, Loc>, prev: map<Loc, Loc>, id: nat, ring: seq<int>, m: nat,
                 next': map<Loc, Loc>, prev': map<Loc, Loc>)
    requires Linked(next, prev, id, ring) && Distinct(ring) && m < |ring| && |ring| > 1 && Block(ring[m]) in next
    requires next' == next[Head(id) := next[Block(ring[m])]]
    requires next[Block(ring[m])] != Head(id) ==> prev' == prev
    ensures !Linked(next', prev', id, ring[..m] + ring[m+1..])
  {
    var ring' := ring[..m] + ring[m+1..];
    assert JoinedAt(next, prev, id, ring, m) && JoinedAt(next, prev, id, ring, m + 1);
    assert !JoinedAt(next', prev', id, ring', 0);
  }

  /** Two blocks of one size are one too many for delete_freeblock_from_freelist. */
  lemma PairNotAlone()
    ensures On([Class(32, [40, 72])], 40, 32) && !Alone([Class(32, [40, 72])], 40)
  {
    var cs := [Class(32, [40, 72])];
    assert cs[0].size == 32 && cs[0].blocks[0] == 40 && 40 in cs[0].blocks;
    assert forall i | 0 <= i < |cs| :: |cs[i].blocks| == 2;
  }

  /**
   * On the ring of the blocks 40 and 72, deleting the first leaves 72 pointing back at it, and deleting the second
   * leaves the ring empty.
   */
  lemma PairDamaged()
    ensures var next := map[Head(0) := Block(40), Block(40) := Block(72), Block(72) := Head(0)];
      var prev := map[Head(0) := Block(72), Block(72) := Block(40), Block(40) := Head(0)];
      var first, second := next[Head(0) := next[Block(40)]], next[Head(0) := Head(0)];
      && Linked(next, prev, 0, [40, 72])
      && first[Head(0)] == Block(72) && prev[Block(72)] == Block(40) && !Linked(first, prev, 0, [72])
      && Linked(second, prev[Head(0) := Head(0)], 0, []) && !Linked(second, prev[Head(0) := Head(0)], 0, [40])
  {
    var next := map[Head(0) := Block(40), Block(40) := Block(72), Block(72) := Head(0)];
    var prev := map[Head(0) := Block(72), Block(72) := Block(40), Block(40) := Head(0)];
    var first, second := next[Head(0) := next[Block(40)]], next[Head(0) := Head(0)];
    assert !JoinedAt(first, prev, 0, [72], 0);
    assert !JoinedAt(second, prev[Head(0) := Head(0)], 0, [40], 0);
  }
}
