/** Chains of blocks that hold one large record: building, reading and releasing them. */
module BigRecs {
  import opened Blocks
  import opened Layout
  import opened Disks
  import opened Images
  import opened Sequences
  import opened Chunks

  /** A large record being written: all blocks but the last are on disk, full and linked. */
  ghost predicate Partial(d: Disk, l: Map, groupSize: nat, head: nat, total: nat, done: Data) {
    && Sound(d, l, groupSize, {Incoming})
    && Incoming in l.paths
    && var path := l.paths[Incoming];
    && |path| >= 1 && path[0] == head
    && PartialBlocks(BlocksOf(d.overflow, path), path, groupSize, total, done)
  }

  ghost predicate PartialBlocks(bs: seq<Block>, path: seq<nat>, groupSize: nat, total: nat, done: Data) {
    && |bs| == |path| >= 1
    && (forall i | 0 <= i < |bs| - 1 :: bs[i].BigBlock? && |bs[i].data| == groupSize - BIG_BLOCK_SIZE && bs[i].next == path[i + 1])
    && (|bs| > 1 ==> bs[0].dataLen == total)
    && BigDataOf(bs[..|bs| - 1]) == done
  }

  function HeaderLen(path: seq<nat>, total: nat): nat {
    if |path| == 1 then total else 0
  }

  lemma PartialStart(d: Disk, l: Map, groupSize: nat, total: nat) returns (l': Map)
    requires Sound(d, l, groupSize, {}) && Incoming !in l.paths
    ensures d.freeChain <= |d.overflow|
    ensures var (d', n) := Alloc(d);
            && Partial(d', l', groupSize, n, total, [])
            && l'.paths[Incoming] == [n]
            && d'.primary == d.primary
            && SameRoots(d, l, d', l', {FreeList, Incoming})
            && l'.paths.Keys == l.paths.Keys + {Incoming}
  {
    var l1 := Open(l, Incoming);
    OpenKeepsPartition(l, Incoming);
    forall r | r in l1.paths && r != Incoming ensures RootOk(d, l1, r, groupSize) {
      assert RootOk(d, l, r, groupSize);
    }
    l' := AllocSound(d, l1, groupSize, {Incoming}, Incoming);
    var (d', n) := Alloc(d);
    assert {Incoming} + {Incoming} == {Incoming};
    assert SameRoots(d, l, d, l1, {FreeList, Incoming});
    SameRootsTrans(d, l, d, l1, d', l', {FreeList, Incoming});
  }

  /** A block is filled, linked to a new block, and written. */
  lemma PartialMore(d: Disk, l: Map, groupSize: nat, head: nat, total: nat, done: Data, piece: Data) returns (l': Map)
    requires Partial(d, l, groupSize, head, total, done) && |piece| == groupSize - BIG_BLOCK_SIZE
    ensures d.freeChain <= |d.overflow|
    ensures var path := l.paths[Incoming]; var (d1, n) := Alloc(d); var last := path[|path| - 1];
            && 1 <= last <= |d1.overflow|
            && var d' := Put(d1, Over(last), BigBlock(n, HeaderLen(path, total), piece));
            && Partial(d', l', groupSize, head, total, done + piece)
            && l'.paths[Incoming] == path + [n]
            && d'.primary == d.primary
            && SameRoots(d, l, d', l', {FreeList, Incoming})
            && l'.paths.Keys == l.paths.Keys
  {
    var path := l.paths[Incoming];
    l' := AllocSound(d, l, groupSize, {Incoming}, Incoming);
    assert {Incoming} + {Incoming} == {Incoming};
    var (d1, n) := Alloc(d);
    var last := path[|path| - 1];
    var b := BigBlock(n, HeaderLen(path, total), piece);
    assert PathOwned(l, Incoming) && PathOwned(l', Incoming);
    assert last in path && last in path + [n];
    PutSound(d1, l', groupSize, {Incoming}, Incoming, Over(last), b);
    var d' := Put(d1, Over(last), b);
    SameRootsTrans(d, l, d1, l', d', l', {FreeList, Incoming});
    MoreBlocks(d.overflow, d1.overflow, path, n, b, groupSize, total, done, piece);
  }

  /** The blocks of the chain after one more has been filled and linked. */
  lemma MoreBlocks(ov: seq<Block>, ov1: seq<Block>, path: seq<nat>, n: nat, b: Block, groupSize: nat, total: nat,
                   done: Data, piece: Data)
    requires path != [] && NoDup(path + [n]) && 1 <= path[|path| - 1] <= |ov1|
    requires PartialBlocks(BlocksOf(ov, path), path, groupSize, total, done)
    requires BlocksOf(ov1, path) == BlocksOf(ov, path)
    requires b == BigBlock(n, HeaderLen(path, total), piece) && |piece| == groupSize - BIG_BLOCK_SIZE
    ensures PartialBlocks(BlocksOf(ov1[path[|path| - 1] - 1 := b], path + [n]), path + [n], groupSize, total, done + piece)
  {
    var last := path[|path| - 1];
    PathPut(ov1, path + [n], |path| - 1, b);
    var bs, bs' := BlocksOf(ov, path), BlocksOf(ov1[last - 1 := b], path + [n]);
    assert forall i | 0 <= i < |path| :: BlocksOf(ov1, path + [n])[i] == BlocksOf(ov1, path)[i];
    assert bs'[..|path|] == bs[..|path| - 1] + [b];
    BigDataOfConcat(bs[..|path| - 1], [b]);
    BigDataOfOne(b);
  }

  lemma BigDataOfOne(b: Block)
    requires b.BigBlock?
    ensures BigDataOf([b]) == b.data
  {
    assert [b][1..] == [];
    assert BigDataOf([]) == [];
  }

  lemma PathPut(ov: seq<Block>, path: seq<nat>, i: nat, b: Block)
    requires NoDup(path) && i < |path| && 1 <= path[i] <= |ov|
    ensures BlocksOf(ov[path[i] - 1 := b], path) == BlocksOf(ov, path)[i := b]
  {
  }

  /** The last block is written, and the chain is a complete large record. */
  lemma PartialDone(d: Disk, l: Map, groupSize: nat, head: nat, total: nat, done: Data, piece: Data)
    requires Partial(d, l, groupSize, head, total, done) && 0 < |piece| <= groupSize - BIG_BLOCK_SIZE
    requires total == |done + piece|
    ensures var path := l.paths[Incoming]; var last := path[|path| - 1];
            && 1 <= last <= |d.overflow|
            && var d' := Put(d, Over(last), BigBlock(0, HeaderLen(path, total), piece));
            && Sound(d', l, groupSize, {})
            && LargeIs(d', l, Incoming, head, done + piece)
            && d'.primary == d.primary
            && SameRoots(d, l, d', l, {FreeList, Incoming})
    ensures head != 0
  {
    var path := l.paths[Incoming];
    var last := path[|path| - 1];
    var b := BigBlock(0, HeaderLen(path, total), piece);
    assert PathOwned(l, Incoming);
    assert last in path && head in path;
    PutSound(d, l, groupSize, {Incoming}, Incoming, Over(last), b);
    assert {Incoming} + {Incoming} == {Incoming};
    var d' := Put(d, Over(last), b);
    PathPut(d.overflow, path, |path| - 1, b);
    var bs, bs' := BlocksOf(d.overflow, path), BlocksOf(d'.overflow, path);
    assert bs' == bs[..|path| - 1] + [b];
    BigDataOfConcat(bs[..|path| - 1], [b]);
    BigDataOfOne(b);
    assert RootOk(d', l, Incoming, groupSize) by {
      assert Linked(bs', path);
      assert BigChain(bs', groupSize);
    }
    forall r | r in l.paths ensures RootOk(d', l, r, groupSize) {
    }
  }

  /** A large record being written since the disk was `d0`: block `ogrp` is the one in memory. */
  ghost predicate Writing(d0: Disk, l0: Map, d: Disk, l: Map, groupSize: nat, head: nat, total: nat, done: Data,
                          ogrp: nat, headerLen: nat) {
    && Partial(d, l, groupSize, head, total, done)
    && ogrp == l.paths[Incoming][|l.paths[Incoming]| - 1]
    && headerLen == HeaderLen(l.paths[Incoming], total)
    && SameRoots(d0, l0, d, l, {FreeList, Incoming})
    && l.paths.Keys == l0.paths.Keys + {Incoming} && d.primary == d0.primary
  }

  lemma WritingStart(d: Disk, l: Map, groupSize: nat, total: nat) returns (l': Map)
    requires Sound(d, l, groupSize, {}) && Incoming !in l.paths
    ensures d.freeChain <= |d.overflow|
    ensures Writing(d, l, Alloc(d).0, l', groupSize, Alloc(d).1, total, [], Alloc(d).1, total)
  {
    l' := PartialStart(d, l, groupSize, total);
  }

  lemma WritingMore(d0: Disk, l0: Map, d: Disk, l: Map, groupSize: nat, head: nat, total: nat, done: Data,
                    ogrp: nat, headerLen: nat, piece: Data) returns (l': Map)
    requires Writing(d0, l0, d, l, groupSize, head, total, done, ogrp, headerLen)
    requires |piece| == groupSize - BIG_BLOCK_SIZE
    ensures d.freeChain <= |d.overflow|
    ensures var (d1, n) := Alloc(d);
            && 1 <= ogrp <= |d1.overflow|
            && Writing(d0, l0, Put(d1, Over(ogrp), BigBlock(n, headerLen, piece)), l', groupSize, head, total, done + piece, n, 0)
  {
    l' := PartialMore(d, l, groupSize, head, total, done, piece);
    var (d1, n) := Alloc(d);
    SameRootsTrans(d0, l0, d, l, Put(d1, Over(ogrp), BigBlock(n, headerLen, piece)), l', {FreeList, Incoming});
  }

  lemma WritingDone(d0: Disk, l0: Map, d: Disk, l: Map, groupSize: nat, head: nat, total: nat, done: Data,
                    ogrp: nat, headerLen: nat, piece: Data)
    requires Writing(d0, l0, d, l, groupSize, head, total, done, ogrp, headerLen)
    requires 0 < |piece| <= groupSize - BIG_BLOCK_SIZE && total == |done + piece|
    ensures 1 <= ogrp <= |d.overflow| && head != 0
    ensures var d' := Put(d, Over(ogrp), BigBlock(0, headerLen, piece));
            && Sound(d', l, groupSize, {})
            && LargeIs(d', l, Incoming, head, done + piece)
            && d'.primary == d0.primary
            && SameRoots(d0, l0, d', l, {FreeList, Incoming})
  {
    PartialDone(d, l, groupSize, head, total, done, piece);
    SameRootsTrans(d0, l0, d, l, Put(d, Over(ogrp), BigBlock(0, headerLen, piece)), l, {FreeList, Incoming});
  }

  // ------------------------------------------------------------------------
  // Reading

  /** What remains of a complete chain after its first `i` blocks. */
  lemma BigSuffix(bs: seq<Block>, groupSize: nat, i: nat)
    requires BigChain(bs, groupSize) && i < |bs|
    ensures BigDataOf(bs[..i + 1]) == BigDataOf(bs[..i]) + bs[i].data
    ensures |BigDataOf(bs)| == |BigDataOf(bs[..i])| + |bs[i].data| + |BigDataOf(bs[i + 1..])|
    ensures i + 1 < |bs| ==> |bs[i].data| == groupSize - BIG_BLOCK_SIZE
    ensures i + 1 == |bs| ==> BigDataOf(bs[i + 1..]) == []
    ensures |bs[i].data| <= groupSize - BIG_BLOCK_SIZE
  {
    assert bs[..i + 1] == bs[..i] + [bs[i]];
    BigDataOfConcat(bs[..i], [bs[i]]);
    BigDataOfOne(bs[i]);
    assert bs == bs[..i + 1] + bs[i + 1..];
    BigDataOfConcat(bs[..i + 1], bs[i + 1..]);
  }

  lemma BigLink(d: Disk, l: Map, groupSize: nat, open: set<Root>, r: Root, i: nat)
    requires Sound(d, l, groupSize, open) && r in l.paths && r !in open
    requires OffGroup(r)
    requires i < |l.paths[r]|
    ensures var path := l.paths[r]; var bs := BlocksOf(d.overflow, path);
            && 1 <= path[i] <= |d.overflow| && d.overflow[path[i] - 1] == bs[i]
            && bs[i].next == Nth(path, i + 1)
            && (bs[i].next == 0 <==> i + 1 == |path|)
            && BigChain(bs, groupSize)
  {
    assert RootOk(d, l, r, groupSize) && PathOwned(l, r);
    assert l.paths[r][i] in l.paths[r];
    if i + 1 < |l.paths[r]| {
      assert l.paths[r][i + 1] in l.paths[r];
    }
  }

  // ------------------------------------------------------------------------
  // Releasing

  /** All blocks of the chain have been cleared; the last is linked to the old free chain. */
  ghost predicate Cleared(d: Disk, d': Disk, path: seq<nat>) {
    && |d'.overflow| == |d.overflow| && d'.primary == d.primary
    && (forall i | 0 <= i < |path| :: 1 <= path[i] <= |d.overflow|)
    && (forall i | 0 <= i < |path| - 1 :: d'.overflow[path[i] - 1] == FreeBlock(path[i + 1]))
    && (path != [] ==> d'.overflow[path[|path| - 1] - 1] == FreeBlock(d.freeChain) && d'.freeChain == path[0])
    && forall b | 1 <= b <= |d.overflow| && b !in path :: d'.overflow[b - 1] == d.overflow[b - 1]
  }

  /** The first `i` blocks of the chain have been cleared, their links kept. */
  ghost predicate Clearing(d: Disk, d': Disk, path: seq<nat>, i: nat) {
    && i < |path|
    && |d'.overflow| == |d.overflow| && d'.primary == d.primary && d'.freeChain == d.freeChain
    && (forall j | 0 <= j < |path| :: 1 <= path[j] <= |d.overflow|)
    && (forall j | 0 <= j < i :: d'.overflow[path[j] - 1] == FreeBlock(path[j + 1]))
    && (forall j | i <= j < |path| :: d'.overflow[path[j] - 1] == d.overflow[path[j] - 1])
    && forall b | 1 <= b <= |d.overflow| && b !in path :: d'.overflow[b - 1] == d.overflow[b - 1]
  }

  lemma ClearingStart(d: Disk, l: Map, groupSize: nat)
    requires Sound(d, l, groupSize, {}) && Outgoing in l.paths
    ensures l.paths[Outgoing] != [] && Clearing(d, d, l.paths[Outgoing], 0)
  {
    assert RootOk(d, l, Outgoing, groupSize) && PathOwned(l, Outgoing);
    assert forall j | 0 <= j < |l.paths[Outgoing]| :: l.paths[Outgoing][j] in l.paths[Outgoing];
  }

  lemma ClearingNext(d: Disk, l: Map, d': Disk, groupSize: nat, i: nat)
    requires Sound(d, l, groupSize, {}) && Outgoing in l.paths && Clearing(d, d', l.paths[Outgoing], i)
    ensures var path := l.paths[Outgoing]; var next := d'.overflow[path[i] - 1].next;
            && (next == 0 <==> i + 1 == |path|)
            && (next != 0 ==> next == path[i + 1]
                              && Clearing(d, Put(d', Over(path[i]), FreeBlock(next)), path, i + 1))
            && (next == 0 ==> Cleared(d, Put(d', Over(path[i]), FreeBlock(d.freeChain)).(freeChain := path[0]), path))
  {
    hide BigChain, Linked;
    var path := l.paths[Outgoing];
    assert PathOwned(l, Outgoing);
    BigLink(d, l, groupSize, {}, Outgoing, i);
    assert path[i] in path;
  }

  lemma ReleaseSound(d: Disk, l: Map, d': Disk, groupSize: nat)
    requires Sound(d, l, groupSize, {}) && Outgoing in l.paths && l.paths[Outgoing] != []
    requires Cleared(d, d', l.paths[Outgoing])
    ensures FreeList in l.paths
    ensures var l' := ReleaseAll(l, Outgoing);
            && Sound(d', l', groupSize, {})
            && SameRoots(d, l, d', l', {FreeList, Outgoing})
            && l'.paths.Keys == l.paths.Keys - {Outgoing}
  {
    hide BigChain;
    var path, free, l' := l.paths[Outgoing], l.paths[FreeList], ReleaseAll(l, Outgoing);
    ReleaseAllKeepsPartition(l, Outgoing);
    assert PathOwned(l, Outgoing) && RootOk(d, l, FreeList, groupSize);
    forall r | r in l.paths && r != Outgoing ensures BlocksOf(d'.overflow, l.paths[r]) == BlocksOf(d.overflow, l.paths[r]) {
      assert PathOwned(l, r);
      forall x | x in l.paths[r] ensures x !in path {
        OwnersDiffer(l, r, x, Outgoing);
      }
      BlocksOfFrame(d.overflow, d'.overflow, l.paths[r]);
    }
    assert RootOk(d', l', FreeList, groupSize) by {
      var bs := BlocksOf(d'.overflow, path + free);
      forall i | 0 <= i < |bs| ensures bs[i].next == Nth(path + free, i + 1) {
        if i >= |path| {
          assert bs[i] == BlocksOf(d.overflow, free)[i - |path|];
        }
      }
    }
    forall r | r in l'.paths ensures RootOk(d', l', r, groupSize) {
      if r != FreeList {
        assert RootOk(d, l, r, groupSize) && SameRoot(d, l, d', l', r);
        SameRootOk(d, l, d', l', r, groupSize);
      }
    }
  }
}
