/** The two subfiles as sequences of blocks, the chains threaded through them, and the
    elementary steps every file operation is made of. */
module Disks {
  import opened Blocks
  import opened Layout
  import opened Sequences

  /** A block's place: a primary group or an overflow block, both numbered from 1. */
  datatype Loc = Prim(n: nat) | Over(n: nat)

  datatype Disk = Disk(primary: seq<Block>, overflow: seq<Block>, freeChain: nat)

  predicate Within(d: Disk, loc: Loc) {
    1 <= loc.n <= if loc.Prim? then |d.primary| else |d.overflow|
  }

  function Get(d: Disk, loc: Loc): Block
    requires Within(d, loc)
  {
    if loc.Prim? then d.primary[loc.n - 1] else d.overflow[loc.n - 1]
  }

  /** Rewrite a block. Writing the primary group just past the end extends the subfile. */
  function Put(d: Disk, loc: Loc, b: Block): Disk
    requires Within(d, loc) || loc == Prim(|d.primary| + 1)
  {
    if loc.Over? then d.(overflow := d.overflow[loc.n - 1 := b])
    else if loc.n == |d.primary| + 1 then d.(primary := d.primary + [b])
    else d.(primary := d.primary[loc.n - 1 := b])
  }

  function BlockAt(blocks: seq<Block>, n: nat): Block {
    if 1 <= n <= |blocks| then blocks[n - 1] else FreeBlock(0)
  }

  function BlocksOf(overflow: seq<Block>, path: seq<nat>): (bs: seq<Block>)
    ensures |bs| == |path|
  {
    seq(|path|, i requires 0 <= i < |path| => BlockAt(overflow, path[i]))
  }

  /** All blocks of a group: its primary block, then its overflow chain. */
  function GroupBlocks(d: Disk, path: seq<nat>, g: nat): (bs: seq<Block>)
    ensures |bs| == |path| + 1
  {
    [BlockAt(d.primary, g)] + BlocksOf(d.overflow, path)
  }

  function LocAt(path: seq<nat>, g: nat, i: nat): Loc
    requires i <= |path|
  {
    if i == 0 then Prim(g) else Over(path[i - 1])
  }

  /** A well-formed group chain: every overflow block, except perhaps the one at `hole`,
      holds at least one record. */
  ghost predicate GroupShape(bs: seq<Block>, path: seq<nat>, groupSize: nat, hole: nat) {
    && |bs| == |path| + 1
    && forall i | 0 <= i < |bs| ::
      && Packed(bs[i], groupSize)
      && bs[i].next == Nth(path, i)
      && (1 <= i && i != hole ==> bs[i].recs != [])
  }

  ghost predicate GroupOk(d: Disk, l: Map, g: nat, groupSize: nat)
    requires Group(g) in l.paths
  {
    var path := l.paths[Group(g)];
    1 <= g <= |d.primary| && GroupShape(GroupBlocks(d, path, g), path, groupSize, 0)
  }

  /** The blocks of an overflow chain point each to the next and the last to nothing. */
  ghost predicate Linked(bs: seq<Block>, path: seq<nat>) {
    |bs| == |path| && forall i | 0 <= i < |bs| :: bs[i].next == Nth(path, i + 1)
  }

  ghost predicate RootOk(d: Disk, l: Map, r: Root, groupSize: nat)
    requires r in l.paths
  {
    var bs := BlocksOf(d.overflow, l.paths[r]);
    match r
    case FreeList => d.freeChain == Nth(l.paths[r], 0) && Linked(bs, l.paths[r])
    case Group(g) => GroupOk(d, l, g, groupSize)
    case Source => Linked(bs, l.paths[r]) && forall i | 0 <= i < |bs| :: Packed(bs[i], groupSize)
    case _ => Linked(bs, l.paths[r]) && BigChain(bs, groupSize)
  }

  /** The partition holds and every chain is well formed, except perhaps those in `open`. */
  ghost predicate Sound(d: Disk, l: Map, groupSize: nat, open: set<Root>) {
    && |d.overflow| == |l.owner|
    && Partition(l)
    && FreeList in l.paths && FreeList !in open
    && forall r | r in l.paths && r !in open :: RootOk(d, l, r, groupSize)
  }

  /** A chain occupies the same blocks with the same contents on both disks. */
  ghost predicate SameRoot(d: Disk, l: Map, d': Disk, l': Map, r: Root) {
    && r in l.paths && r in l'.paths && l'.paths[r] == l.paths[r]
    && BlocksOf(d'.overflow, l.paths[r]) == BlocksOf(d.overflow, l.paths[r])
    && (r.Group? && 1 <= r.g <= |d.primary| ==> r.g <= |d'.primary| && d'.primary[r.g - 1] == d.primary[r.g - 1])
  }

  ghost predicate SameRoots(d: Disk, l: Map, d': Disk, l': Map, changed: set<Root>) {
    && FreeList in changed
    && (forall r | r in l.paths && r !in changed :: SameRoot(d, l, d', l', r))
    && forall r | r in l'.paths && r !in changed :: r in l.paths
  }

  lemma SameRootOk(d: Disk, l: Map, d': Disk, l': Map, r: Root, groupSize: nat)
    requires SameRoot(d, l, d', l', r) && r != FreeList && RootOk(d, l, r, groupSize)
    ensures RootOk(d', l', r, groupSize)
  {
  }

  lemma SoundFrame(d: Disk, l: Map, d': Disk, l': Map, groupSize: nat, open: set<Root>, changed: set<Root>)
    requires Sound(d, l, groupSize, open) && SameRoots(d, l, d', l', changed)
    requires |d'.overflow| == |l'.owner| && Partition(l') && FreeList in l'.paths
    requires RootOk(d', l', FreeList, groupSize)
    ensures Sound(d', l', groupSize, open + changed - {FreeList})
  {
    forall r | r in l'.paths && r !in open + changed - {FreeList} ensures RootOk(d', l', r, groupSize) {
      if r != FreeList {
        SameRootOk(d, l, d', l', r, groupSize);
      }
    }
  }

  lemma SameRootsTrans(d: Disk, l: Map, d': Disk, l': Map, d'': Disk, l'': Map, changed: set<Root>)
    requires SameRoots(d, l, d', l', changed) && SameRoots(d', l', d'', l'', changed)
    ensures SameRoots(d, l, d'', l'', changed)
  {
    forall r | r in l.paths && r !in changed ensures SameRoot(d, l, d'', l'', r) {
      assert SameRoot(d, l, d', l', r) && SameRoot(d', l', d'', l'', r);
    }
  }

  // ------------------------------------------------------------------------
  // Elementary steps

  /** Get an overflow block: the head of the free chain, or a new block at the end. */
  function Alloc(d: Disk): (r: (Disk, nat))
    requires d.freeChain <= |d.overflow|
  {
    if d.freeChain != 0 then (d.(freeChain := d.overflow[d.freeChain - 1].next), d.freeChain)
    else (d.(overflow := d.overflow + [FreeBlock(0)]), |d.overflow| + 1)
  }

  /** Give an overflow block to the head of the free chain. */
  function Free(d: Disk, b: nat): Disk
    requires 1 <= b <= |d.overflow|
  {
    d.(overflow := d.overflow[b - 1 := FreeBlock(d.freeChain)], freeChain := b)
  }

  lemma FreeHeadInRange(d: Disk, l: Map, groupSize: nat, open: set<Root>)
    requires Sound(d, l, groupSize, open)
    ensures d.freeChain <= |d.overflow|
    ensures l.paths[FreeList] != [] ==> l.paths[FreeList][0] == d.freeChain >= 1
    ensures l.paths[FreeList] == [] ==> d.freeChain == 0
    ensures d.freeChain != 0 ==> d.freeChain in l.paths[FreeList]
  {
    assert RootOk(d, l, FreeList, groupSize);
    assert PathOwned(l, FreeList);
    if l.paths[FreeList] != [] {
      assert l.paths[FreeList][0] in l.paths[FreeList];
    }
  }

  /** Rewriting a block that no element of the path names leaves the path's blocks alone. */
  lemma BlocksOfFrame(ov: seq<Block>, ov': seq<Block>, path: seq<nat>)
    requires |ov| <= |ov'|
    requires forall x | x in path :: 1 <= x <= |ov| && ov'[x - 1] == ov[x - 1]
    ensures BlocksOf(ov', path) == BlocksOf(ov, path)
  {
    forall i | 0 <= i < |path| ensures BlocksOf(ov', path)[i] == BlocksOf(ov, path)[i] {
      assert path[i] in path;
    }
  }

  lemma AllocSound(d: Disk, l: Map, groupSize: nat, open: set<Root>, r: Root)
    returns (l': Map)
    requires Sound(d, l, groupSize, open) && r in l.paths && r != FreeList
    ensures d.freeChain <= |d.overflow|
    ensures var (d', b) := Alloc(d);
            && Sound(d', l', groupSize, open + {r})
            && SameRoots(d, l, d', l', {FreeList, r})
            && l'.paths.Keys == l.paths.Keys
            && l'.paths[r] == l.paths[r] + [b]
            && 1 <= b <= |d'.overflow|
            && b !in l.paths[r]
            && BlocksOf(d'.overflow, l.paths[r]) == BlocksOf(d.overflow, l.paths[r])
            && d'.primary == d.primary
  {
    FreeHeadInRange(d, l, groupSize, open);
    var (d', b) := Alloc(d);
    l' := Take(l, r);
    TakeKeepsPartition(l, r);
    var free := l.paths[FreeList];
    assert RootOk(d, l, FreeList, groupSize);
    forall q | q in l.paths ensures BlocksOf(d'.overflow, l.paths[q]) == BlocksOf(d.overflow, l.paths[q]) {
      assert PathOwned(l, q);
      BlocksOfFrame(d.overflow, d'.overflow, l.paths[q]);
    }
    assert b !in l.paths[r] by {
      assert PathOwned(l, r);
      if free != [] {
        OwnersDiffer(l, FreeList, b, r);
      }
    }
    assert RootOk(d', l', FreeList, groupSize) by {
      if free != [] {
        var bs, bs' := BlocksOf(d.overflow, free), BlocksOf(d'.overflow, free[1..]);
        assert bs[0] == d.overflow[free[0] - 1];
        forall i | 0 <= i < |bs'| ensures bs'[i].next == Nth(free[1..], i + 1) {
          assert bs'[i] == bs[i + 1];
        }
      }
    }
    SoundFrame(d, l, d', l', groupSize, open, {FreeList, r});
  }

  /** Rewriting a block changes only the chain it is on. */
  lemma PutSound(d: Disk, l: Map, groupSize: nat, open: set<Root>, r: Root, loc: Loc, b: Block)
    requires Sound(d, l, groupSize, open) && r in l.paths && r != FreeList
    requires Within(d, loc)
    requires if loc.Over? then loc.n in l.paths[r] else r == Group(loc.n)
    ensures Sound(Put(d, loc, b), l, groupSize, open + {r})
    ensures SameRoots(d, l, Put(d, loc, b), l, {FreeList, r})
  {
    var d' := Put(d, loc, b);
    forall q | q in l.paths && q != r ensures SameRoot(d, l, d', l, q) {
      assert PathOwned(l, q) && PathOwned(l, r);
      BlocksOfFrame(d.overflow, d'.overflow, l.paths[q]);
    }
    assert RootOk(d, l, FreeList, groupSize);
    SoundFrame(d, l, d', l, groupSize, open, {FreeList, r});
  }

  lemma BlocksOfRemove(ov: seq<Block>, path: seq<nat>, i: nat)
    requires i < |path|
    ensures BlocksOf(ov, RemoveAt(path, i)) == RemoveAt(BlocksOf(ov, path), i)
  {
  }

  /** Releasing one block of a chain changes only that chain and the free chain. */
  lemma FreeSound(d: Disk, l: Map, groupSize: nat, open: set<Root>, r: Root, i: nat)
    requires Sound(d, l, groupSize, open) && r in l.paths && r != FreeList && i < |l.paths[r]|
    ensures 1 <= l.paths[r][i] <= |d.overflow|
    ensures var b := l.paths[r][i]; var d' := Free(d, b); var l' := Release(l, r, i);
            && Sound(d', l', groupSize, open + {r})
            && SameRoots(d, l, d', l', {FreeList, r})
            && BlocksOf(d'.overflow, l'.paths[r]) == RemoveAt(BlocksOf(d.overflow, l.paths[r]), i)
            && d'.primary == d.primary
  {
    assert PathOwned(l, r) && PathOwned(l, FreeList);
    assert l.paths[r][i] in l.paths[r];
    var b := l.paths[r][i];
    var d', l' := Free(d, b), Release(l, r, i);
    ReleaseKeepsPartition(l, r, i);
    forall q | q in l.paths && q != r ensures BlocksOf(d'.overflow, l.paths[q]) == BlocksOf(d.overflow, l.paths[q]) {
      assert PathOwned(l, q);
      BlocksOfFrame(d.overflow, d'.overflow, l.paths[q]);
    }
    RemoveAtMembers(l.paths[r], i);
    assert PathOwned(l', r);
    BlocksOfFrame(d.overflow, d'.overflow, RemoveAt(l.paths[r], i));
    BlocksOfRemove(d.overflow, l.paths[r], i);
    assert RootOk(d', l', FreeList, groupSize) by {
      assert RootOk(d, l, FreeList, groupSize);
      var bs := BlocksOf(d'.overflow, l'.paths[FreeList]);
      forall j | 0 <= j < |bs| ensures bs[j].next == Nth(l'.paths[FreeList], j + 1) {
        if j > 0 {
          assert bs[j] == BlocksOf(d.overflow, l.paths[FreeList])[j - 1];
        }
      }
    }
    SoundFrame(d, l, d', l', groupSize, open, {FreeList, r});
  }
}
