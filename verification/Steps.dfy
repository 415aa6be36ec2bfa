/** The steps of the methods that rewrite one group, with the block in memory laid over the
    disk: what each leaves true, whichever way its branches go. */
module Steps {
  import opened Addressing
  import opened Blocks
  import opened Layout
  import opened Disks
  import opened Groups
  import opened Tables
  import opened Images
  import opened Overlays
  import opened Updates
  import opened Enumerations
  import opened Sequences

  /** With the buffer written, the chain is sound, and the buffer is its i-th block. */
  ghost predicate Filling(d: Disk, l: Map, groupSize: nat, g: nat, i: nat, loc: Loc, buff: Block) {
    && Within(d, loc) && buff.DataBlock?
    && Sound(Put(d, loc, buff), l, groupSize, {Group(g)})
    && Opened(Put(d, loc, buff), l, g, groupSize, i)
    && loc == LocAt(l.paths[Group(g)], g, i)
  }

  lemma FillingNext(d: Disk, l: Map, groupSize: nat, g: nat, i: nat, loc: Loc, buff: Block)
    requires Filling(d, l, groupSize, g, i, loc, buff)
    ensures var v := Put(d, loc, buff); var path := l.paths[Group(g)]; var bs := GroupBlocks(v, path, g);
            && bs[i] == buff && Packed(buff, groupSize) && buff.next == Nth(path, i)
            && (buff.next == 0 <==> i == |path|)
            && (i < |path| ==>
                  && path[i] == buff.next && loc != Over(buff.next)
                  && Within(d, Over(buff.next)) && Get(d, Over(buff.next)) == bs[i + 1] && Packed(bs[i + 1], groupSize)
                  && buff.next <= |l.owner|)
  {
    var v := Put(d, loc, buff);
    var path := l.paths[Group(g)];
    LocWithin(v, l, groupSize, {Group(g)}, g, i);
    assert PathOwned(l, Group(g));
    if i < |path| {
      LocWithin(v, l, groupSize, {Group(g)}, g, i + 1);
    }
  }

  /** The first record of the next block does not fit this one. */
  ghost predicate TightAt(bs: seq<Block>, groupSize: nat, j: nat)
    requires j + 1 < |bs|
  {
    && bs[j].DataBlock? && bs[j + 1].DataBlock? && bs[j + 1].recs != []
    && bs[j].used + Size(bs[j + 1].recs[0]) > groupSize
  }

  /** From block `i` on, no record could stand in the block before. */
  ghost predicate Tight(bs: seq<Block>, groupSize: nat, i: nat) {
    forall j | i <= j < |bs| - 1 :: TightAt(bs, groupSize, j)
  }

  /** The block that the record at a place of the group was in has gone, if that was an overflow block that
      held nothing else; or the chain has been closed up from that block on. */
  ghost predicate TidiedUp(bs: seq<Block>, bs': seq<Block>, groupSize: nat, at: nat) {
    exists i :: 0 <= i < |bs| && TidiedFrom(bs, bs', groupSize, at, i)
  }

  ghost predicate TidiedFrom(bs: seq<Block>, bs': seq<Block>, groupSize: nat, at: nat, i: nat)
    requires i < |bs|
  {
    && bs[i].DataBlock? && |RecsOf(bs[..i])| <= at < |RecsOf(bs[..i])| + |bs[i].recs|
    && if i > 0 && |bs[i].recs| == 1 then |bs'| == |bs| - 1 else Tight(bs', groupSize, i)
  }

  /** Blocks `i` to `i'` of a chain have been closed up: those before are as they were, block `i` begins
      with what it held, and from there to `i'` no record could stand in the block before. */
  ghost predicate ClosedUp(bs: seq<Block>, i: nat, bs': seq<Block>, i': nat, groupSize: nat) {
    && i < |bs| && i <= i' < |bs'| && bs'[..i] == bs[..i]
    && bs[i].DataBlock? && bs'[i].DataBlock? && bs[i].recs <= bs'[i].recs
    && (i < i' ==> bs'[i'].DataBlock? && bs'[i'].recs != [])
    && forall j | i <= j < i' :: TightAt(bs', groupSize, j)
  }

  lemma ClosedUpTrans(bs: seq<Block>, i: nat, bs1: seq<Block>, i1: nat, bs2: seq<Block>, i2: nat, groupSize: nat)
    requires ClosedUp(bs, i, bs1, i1, groupSize) && ClosedUp(bs1, i1, bs2, i2, groupSize)
    ensures ClosedUp(bs, i, bs2, i2, groupSize)
  {
    assert forall j | 0 <= j < i1 :: bs2[j] == bs2[..i1][j] == bs1[..i1][j] == bs1[j];
    assert bs2[..i] == bs2[..i1][..i] == bs1[..i1][..i] == bs1[..i];
    forall j | i <= j < i2 ensures TightAt(bs2, groupSize, j) {
      if j < i1 {
        assert TightAt(bs1, groupSize, j);
        if j + 1 == i1 {
          assert bs2[i1].recs[0] == bs1[i1].recs[0];
        }
      }
    }
  }

  /** Closing up a chain keeps its records and their order, and leaves the buffer at the
      i'-th block; unless the buffer was an emptied overflow block it is not one now. */
  ghost predicate Compacted(d: Disk, l: Map, d': Disk, l': Map, groupSize: nat, g: nat,
                            i: nat, loc: Loc, buff: Block, i': nat, loc': Loc, buff': Block)
  {
    && Within(d, loc) && Within(d', loc') && Group(g) in l.paths && buff.DataBlock?
    && Filling(d', l', groupSize, g, i', loc', buff')
    && Evolved(Put(d, loc, buff), l, Put(d', loc', buff'), l', g)
    && GroupRecs(Put(d', loc', buff'), l'.paths[Group(g)], g) == GroupRecs(Put(d, loc, buff), l.paths[Group(g)], g)
    && (i == 0 || buff.recs != [] ==> i' == 0 || buff'.recs != [])
    && ClosedUp(GroupBlocks(Put(d, loc, buff), l.paths[Group(g)], g), i,
                GroupBlocks(Put(d', loc', buff'), l'.paths[Group(g)], g), i', groupSize)
  }

  lemma CompactedStart(d: Disk, l: Map, groupSize: nat, g: nat, i: nat, loc: Loc, buff: Block)
    requires Filling(d, l, groupSize, g, i, loc, buff)
    ensures Compacted(d, l, d, l, groupSize, g, i, loc, buff, i, loc, buff)
  {
    FillingNext(d, l, groupSize, g, i, loc, buff);
  }

  lemma CompactedTrans(d: Disk, l: Map, d1: Disk, l1: Map, d2: Disk, l2: Map, groupSize: nat, g: nat,
                       i: nat, loc: Loc, buff: Block, i1: nat, loc1: Loc, buff1: Block, i2: nat, loc2: Loc, buff2: Block)
    requires Compacted(d, l, d1, l1, groupSize, g, i, loc, buff, i1, loc1, buff1)
    requires Compacted(d1, l1, d2, l2, groupSize, g, i1, loc1, buff1, i2, loc2, buff2)
    ensures Compacted(d, l, d2, l2, groupSize, g, i, loc, buff, i2, loc2, buff2)
  {
    hide ClosedUp;
    EvolvedTrans(Put(d, loc, buff), l, Put(d1, loc1, buff1), l1, Put(d2, loc2, buff2), l2, g);
    ClosedUpTrans(GroupBlocks(Put(d, loc, buff), l.paths[Group(g)], g), i,
                  GroupBlocks(Put(d1, loc1, buff1), l1.paths[Group(g)], g), i1,
                  GroupBlocks(Put(d2, loc2, buff2), l2.paths[Group(g)], g), i2, groupSize);
  }

  lemma MovedAll(b: Block, o: Block, groupSize: nat, k: nat, b': Block, o': Block)
    requires Packed(b, groupSize) && Packed(o, groupSize) && k <= |o.recs| && Moved(b, o, k, b', o')
    requires b'.used <= groupSize && o'.used == BLOCK_HEADER_SIZE
    ensures b'.recs == b.recs + o.recs && k == |o.recs|
    ensures Packed(Relink(b', o'.next), groupSize)
  {
    AtEnd(o.recs, k);
    MovePacked(b, o, groupSize, k);
    assert o.recs[..|o.recs|] == o.recs;
  }

  lemma MovedSome(b: Block, o: Block, k: nat, b': Block, o': Block)
    requires b.DataBlock? && o.DataBlock? && k <= |o.recs| && Moved(b, o, k, b', o')
    requires o.used == BLOCK_HEADER_SIZE + Bytes(o.recs) && o'.used != BLOCK_HEADER_SIZE
    ensures k < |o.recs|
  {
    AtEnd(o.recs, k);
  }

  lemma DechainStep(d: Disk, l: Map, groupSize: nat, g: nat, i: nat, loc: Loc, buff: Block, b: Block)
    requires Filling(d, l, groupSize, g, i, loc, buff) && buff.next != 0
    requires var bs := GroupBlocks(Put(d, loc, buff), l.paths[Group(g)], g);
             && i + 1 < |bs| && bs[i + 1].DataBlock?
             && Packed(b, groupSize) && b.next == bs[i + 1].next && b.recs == buff.recs + bs[i + 1].recs
    ensures 1 <= buff.next <= |d.overflow| && Within(Free(d, buff.next), loc)
    ensures i < |l.paths[Group(g)]| && 1 <= l.paths[Group(g)][i] <= |l.owner|
    ensures var l' := Release(l, Group(g), i); var d' := Free(d, buff.next);
            && Compacted(d, l, d', l', groupSize, g, i, loc, buff, i, loc, b)
            && |l'.paths[Group(g)]| == |l.paths[Group(g)]| - 1
  {
    FillingNext(d, l, groupSize, g, i, loc, buff);
    DechainSound(Put(d, loc, buff), l, groupSize, {Group(g)}, g, i, i, b);
    FreeCommutes(d, loc, buff, buff.next);
    PutTwice(Free(d, buff.next), loc, buff, b);
  }

  lemma AdvanceStep(d: Disk, l: Map, groupSize: nat, g: nat, i: nat, loc: Loc, buff: Block, k: nat, b: Block, o: Block)
    requires Filling(d, l, groupSize, g, i, loc, buff) && buff.next != 0
    requires var bs := GroupBlocks(Put(d, loc, buff), l.paths[Group(g)], g);
             && i + 1 < |bs| && bs[i + 1].DataBlock? && k < |bs[i + 1].recs|
             && Moved(buff, bs[i + 1], k, b, o)
             && b.used <= groupSize < b.used + Size(bs[i + 1].recs[k])
    ensures i < |l.paths[Group(g)]|
    ensures Compacted(d, l, Put(d, loc, b), l, groupSize, g, i, loc, buff, i + 1, Over(buff.next), o)
  {
    FillingNext(d, l, groupSize, g, i, loc, buff);
    AdvanceSound(Put(d, loc, buff), l, groupSize, {Group(g)}, g, i, k, b, o);
    PutTwice(d, loc, buff, b);
  }

  lemma NextReadable(d: Disk, l: Map, groupSize: nat, g: nat, i: nat, loc: Loc, buff: Block)
    requires Filling(d, l, groupSize, g, i, loc, buff) && buff.next != 0
    ensures Packed(buff, groupSize) && Within(d, Over(buff.next)) && Packed(Get(d, Over(buff.next)), groupSize)
  {
    FillingNext(d, l, groupSize, g, i, loc, buff);
  }

  /** Both outcomes of filling the buffer from the next block. */
  lemma CompactEither(d: Disk, l: Map, groupSize: nat, g: nat, i: nat, loc: Loc, buff: Block, obuff: Block,
                      k: nat, b: Block, o: Block)
    requires Filling(d, l, groupSize, g, i, loc, buff) && buff.next != 0
    requires Within(d, Over(buff.next)) && obuff == Get(d, Over(buff.next)) && obuff.DataBlock?
    requires k <= |obuff.recs| && Moved(buff, obuff, k, b, o) && b.used <= groupSize
    requires k < |obuff.recs| ==> b.used + Size(obuff.recs[k]) > groupSize
    ensures i < |l.paths[Group(g)]| && 1 <= l.paths[Group(g)][i] <= |l.owner| && FreeList in l.paths
    ensures o.used == BLOCK_HEADER_SIZE ==>
              var l' := Release(l, Group(g), i);
              && Compacted(d, l, Free(d, buff.next), l', groupSize, g, i, loc, buff, i, loc, Relink(b, o.next))
              && |l'.paths[Group(g)]| == |l.paths[Group(g)]| - 1
    ensures o.used != BLOCK_HEADER_SIZE ==>
              Compacted(d, l, Put(d, loc, b), l, groupSize, g, i, loc, buff, i + 1, Over(buff.next), o)
  {
    FillingNext(d, l, groupSize, g, i, loc, buff);
    if o.used == BLOCK_HEADER_SIZE {
      MovedAll(buff, obuff, groupSize, k, b, o);
      DechainStep(d, l, groupSize, g, i, loc, buff, Relink(b, o.next));
    } else {
      MovedSome(buff, obuff, k, b, o);
      AdvanceStep(d, l, groupSize, g, i, loc, buff, k, b, o);
    }
  }

  /** The effect of AppendStep on the disk and the buffer. */
  function AppendReal(d: Disk, loc: Loc, b: Block, rec: Record, groupSize: nat): (r: (Disk, Loc, Block))
    requires d.freeChain <= |d.overflow| && Writable(d, loc) && b.DataBlock? && b.used <= groupSize
  {
    if Size(rec) > groupSize - b.used then
      var (d', n) := Spill(d, loc, b);
      (d', Over(n), DataBlock(0, BLOCK_HEADER_SIZE + Size(rec), [rec]))
    else (d, loc, DataBlock(b.next, b.used + Size(rec), b.recs + [rec]))
  }

  /** The second buffer can be written, and belongs to a group other than the first one's. */
  ghost predicate SideGood(d: Disk, l: Map, side: Side, loc: Loc, g: nat) {
    && (side.Side? ==>
          && Writable(d, side.loc) && side.loc != loc
          && (Within(d, loc) || Within(d, side.loc))
          && side.g != g
          && (side.loc.Over? ==> Group(side.g) in l.paths && side.loc.n in l.paths[Group(side.g)]))
    && Writable(Laid(d, side), loc)
  }

  ghost predicate SideFits(d: Disk, side: Side, loc: Loc) {
    && (side.Side? ==>
          && Writable(d, side.loc) && side.loc != loc
          && (Within(d, loc) || Within(d, side.loc))
          && (side.loc.Over? ==> side.loc.n != d.freeChain))
    && Writable(Laid(d, side), loc) && (loc.Over? ==> loc.n != d.freeChain)
  }

  lemma AppendNeeds(d: Disk, l: Map, groupSize: nat, open: set<Root>, g: nat, loc: Loc, buff: Block, side: Side)
    requires side.Side? ==>
               Writable(d, side.loc) && side.loc != loc && (Within(d, loc) || Within(d, side.loc))
               && (side.loc.Over? ==> Group(side.g) in l.paths && side.loc.n in l.paths[Group(side.g)])
    requires Writable(Laid(d, side), loc)
    requires Sound(Put(Laid(d, side), loc, buff), l, groupSize, open) && Group(g) in l.paths
    requires loc == LocAt(l.paths[Group(g)], g, |l.paths[Group(g)]|)
    ensures SideFits(d, side, loc) && d.freeChain <= |d.overflow|
  {
    var v := Put(Laid(d, side), loc, buff);
    FreeHeadInRange(v, l, groupSize, open);
    PathNotFree(l, Group(g), loc, |l.paths[Group(g)]|);
    if side.Side? && side.loc.Over? {
      OwnersDiffer(l, Group(side.g), side.loc.n, FreeList);
    }
  }

  /** With the buffers written, AppendStep is the append on the disk. */
  lemma AppendRealLaid(d: Disk, side: Side, loc: Loc, b: Block, rec: Record, groupSize: nat)
    requires SideFits(d, side, loc) && d.freeChain <= |d.overflow| && b.DataBlock? && b.used <= groupSize
    ensures var v := Put(Laid(d, side), loc, b);
            && Writable(d, loc) && Within(v, loc) && Get(v, loc) == b && v.freeChain <= |v.overflow|
            && var (d', loc', b') := AppendReal(d, loc, b, rec, groupSize);
            && (side.Side? ==> Writable(d', side.loc) && (Within(d', loc') || Within(d', side.loc)))
            && Writable(Laid(d', side), loc')
            && Append(v, loc, rec, groupSize) == (Put(Laid(d', side), loc', b'), loc')
            && (|d'.primary| == |d.primary| || |d'.primary| == |d.primary| + 1 == loc.n)
            && (Within(d', loc') || (loc' == loc && !Within(d, loc)))
  {
    AppendLaid(Laid(d, side), loc, b, rec, groupSize);
    if Size(rec) > groupSize - b.used {
      SpillLaid(d, side, loc, b);
    }
  }

  lemma AtEnd(recs: seq<Record>, k: nat)
    requires k <= |recs|
    ensures Bytes(recs[..k]) <= Bytes(recs)
    ensures k == |recs| <==> Bytes(recs[..k]) == Bytes(recs)
  {
    assert recs == recs[..k] + recs[k..];
    BytesConcat(recs[..k], recs[k..]);
    NoBytesNoRecords(recs[k..]);
  }

  lemma PrefixRecs(bs: seq<Block>, i: nat)
    requires i < |bs| && bs[i].DataBlock?
    ensures RecsOf(bs[..i + 1]) == RecsOf(bs[..i]) + bs[i].recs
  {
    assert bs[..i + 1] == bs[..i] + [bs[i]];
    RecsOfConcat(bs[..i], [bs[i]]);
    RecsOfOne(bs[i]);
  }

  /** A block's link is 0 exactly at the end of the chain, else it names the next block. */
  lemma NextOfGroup(d: Disk, l: Map, groupSize: nat, g: nat, i: nat)
    requires Sound(d, l, groupSize, {}) && Group(g) in l.paths && i <= |l.paths[Group(g)]|
    ensures var path := l.paths[Group(g)]; var b := GroupBlocks(d, path, g)[i];
            && b.next == Nth(path, i)
            && (b.next == 0 <==> i == |path|)
  {
    GroupExists(d, l, groupSize, {}, g);
    assert PathOwned(l, Group(g));
    if i < |l.paths[Group(g)]| {
      assert l.paths[Group(g)][i] in l.paths[Group(g)];
    }
  }

  /** The i-th block of a chain is not on the free chain. */
  lemma PathNotFree(l: Map, r: Root, loc: Loc, i: nat)
    requires Partition(l) && FreeList in l.paths && r in l.paths && r.Group?
    requires i <= |l.paths[r]| && loc == LocAt(l.paths[r], r.g, i)
    ensures loc.Over? ==> 1 <= loc.n && loc.n !in l.paths[FreeList]
  {
    assert PathOwned(l, r);
    if i > 0 {
      assert l.paths[r][i - 1] in l.paths[r];
      OwnersDiffer(l, r, loc.n, FreeList);
    }
  }

  lemma SpillLaid(d: Disk, side: Side, loc: Loc, b: Block)
    requires side.Side? ==>
               Writable(d, side.loc) && side.loc != loc && (Within(d, loc) || Within(d, side.loc))
               && (side.loc.Over? ==> side.loc.n != d.freeChain)
    requires Writable(Laid(d, side), loc) && (loc.Over? ==> loc.n != d.freeChain)
    requires d.freeChain <= |d.overflow| && b.DataBlock?
    ensures Writable(d, loc) && Laid(d, side).freeChain == d.freeChain <= |Laid(d, side).overflow|
    ensures side.Side? ==> Writable(Spill(d, loc, b).0, side.loc)
    ensures Spill(Laid(d, side), loc, b) == (Laid(Spill(d, loc, b).0, side), Spill(d, loc, b).1)
  {
    if side.Side? {
      SpillCommutes(d, side.loc, side.block, loc, b);
    }
  }

  // ------------------------------------------------------------------------
  // Writing and deleting a record

  /** Where the record at index `k` of a group's i-th block stands in the group. */
  ghost function PlaceOf(d: Disk, l: Map, g: nat, i: nat, k: nat): nat
    requires i <= |PathOf(l, Group(g))|
  {
    |RecsOf(GroupBlocks(d, PathOf(l, Group(g)), g)[..i])| + k
  }

  lemma BlockOfGroup(d: Disk, l: Map, groupSize: nat, g: nat, i: nat)
    requires Sound(d, l, groupSize, {}) && Group(g) in l.paths && i <= |l.paths[Group(g)]|
    ensures 1 <= g <= |d.primary| && Opened(d, l, g, groupSize, 0)
    ensures Packed(GroupBlocks(d, l.paths[Group(g)], g)[i], groupSize)
    ensures Within(d, LocAt(l.paths[Group(g)], g, i))
    ensures Get(d, LocAt(l.paths[Group(g)], g, i)) == GroupBlocks(d, l.paths[Group(g)], g)[i]
  {
    GroupExists(d, l, groupSize, {}, g);
    LocWithin(d, l, groupSize, {}, g, i);
  }

  /** A record found in a block is the record at its place in the group. */
  lemma RecordAtPlace(d: Disk, l: Map, groupSize: nat, g: nat, i: nat, k: nat)
    requires Sound(d, l, groupSize, {}) && Group(g) in l.paths && i <= |l.paths[Group(g)]|
    requires var b := GroupBlocks(d, l.paths[Group(g)], g)[i]; b.DataBlock? && k < |b.recs|
    ensures PlaceOf(d, l, g, i, k) < |RecsAt(d, l, g)|
    ensures RecsAt(d, l, g)[PlaceOf(d, l, g, i, k)] == GroupBlocks(d, l.paths[Group(g)], g)[i].recs[k]
    ensures Size(GroupBlocks(d, l.paths[Group(g)], g)[i].recs[k]) <= GroupBlocks(d, l.paths[Group(g)], g)[i].used
  {
    BlockOfGroup(d, l, groupSize, g, i);
    var bs := GroupBlocks(d, l.paths[Group(g)], g);
    BytesRemove(bs[i].recs, k);
    RecsOfAround(bs, i);
    MidRemove(RecsOf(bs[..i]), bs[i].recs, RecsOf(bs[i + 1..]), k);
  }

  lemma ReplaceStep(d: Disk, l: Map, groupSize: nat, g: nat, i: nat, k: nat, loc: Loc, b: Block, rec: Record)
    requires Sound(d, l, groupSize, {}) && Group(g) in l.paths && i <= |l.paths[Group(g)]|
    requires loc == LocAt(l.paths[Group(g)], g, i) && b == GroupBlocks(d, l.paths[Group(g)], g)[i]
    requires b.DataBlock? && k < |b.recs| && Size(rec) == Size(b.recs[k])
    ensures Within(d, loc) && PlaceOf(d, l, g, i, k) < |RecsAt(d, l, g)|
    ensures var d' := Put(d, loc, DataBlock(b.next, b.used, b.recs[k := rec]));
            && Sound(d', l, groupSize, {}) && Evolved(d, l, d', l, g)
            && RecsAt(d', l, g) == RecsAt(d, l, g)[PlaceOf(d, l, g, i, k) := rec]
  {
    var path := l.paths[Group(g)];
    var b' := DataBlock(b.next, b.used, b.recs[k := rec]);
    BlockOfGroup(d, l, groupSize, g, i);
    ReplaceShape(GroupBlocks(d, path, g), path, groupSize, i, k, b', rec);
    GroupPut(d, l, groupSize, {}, g, i, b');
    Reclose(Put(d, loc, b'), l, groupSize, {Group(g)}, g);
    assert {Group(g)} - {Group(g)} == {};
    assert {} + {Group(g)} == {Group(g)};
  }

  /** The block without the record at index `k`. */
  function Without(b: Block, k: nat): Block
    requires b.DataBlock? && k < |b.recs| && Size(b.recs[k]) <= b.used
  {
    DataBlock(b.next, b.used - Size(b.recs[k]), RemoveAt(b.recs, k))
  }

  lemma DeleteStep(d: Disk, l: Map, groupSize: nat, g: nat, i: nat, k: nat, loc: Loc, b: Block)
    requires Sound(d, l, groupSize, {}) && Group(g) in l.paths && i <= |l.paths[Group(g)]|
    requires loc == LocAt(l.paths[Group(g)], g, i) && b == GroupBlocks(d, l.paths[Group(g)], g)[i]
    requires b.DataBlock? && k < |b.recs|
    ensures Size(b.recs[k]) <= b.used && Within(d, loc) && PlaceOf(d, l, g, i, k) < |RecsAt(d, l, g)|
    ensures Filling(d, l, groupSize, g, i, loc, Without(b, k))
    ensures Evolved(d, l, Put(d, loc, Without(b, k)), l, g)
    ensures RecsAt(Put(d, loc, Without(b, k)), l, g) == RemoveAt(RecsAt(d, l, g), PlaceOf(d, l, g, i, k))
    ensures (Without(b, k).used == BLOCK_HEADER_SIZE) <==> Without(b, k).recs == []
  {
    hide RootOk, RecsOf, Bytes, GroupShape, Size, BlocksOf;
    var path := l.paths[Group(g)];
    BlockOfGroup(d, l, groupSize, g, i);
    BytesRemove(b.recs, k);
    DeleteShape(GroupBlocks(d, path, g), path, groupSize, i, k, Without(b, k));
    GroupPut(d, l, groupSize, {}, g, i, Without(b, k));
    assert {} + {Group(g)} == {Group(g)};
    NoBytesNoRecords(Without(b, k).recs);
  }

  /** Taking out the only record of an overflow block: the block is freed and the one before
      it is linked past it. */
  lemma DropStep(d: Disk, l: Map, groupSize: nat, g: nat, i: nat, k: nat, loc: Loc, prev: Loc, b: Block)
    requires Sound(d, l, groupSize, {}) && Group(g) in l.paths && 0 < i <= |l.paths[Group(g)]|
    requires loc == LocAt(l.paths[Group(g)], g, i) && prev == LocAt(l.paths[Group(g)], g, i - 1)
    requires b == GroupBlocks(d, l.paths[Group(g)], g)[i] && b.DataBlock? && k < |b.recs|
    requires Size(b.recs[k]) <= b.used && Without(b, k).used == BLOCK_HEADER_SIZE
    ensures FreeList in l.paths && 1 <= l.paths[Group(g)][i - 1] == loc.n <= |l.owner|
    ensures 1 <= loc.n <= |d.overflow| && PlaceOf(d, l, g, i, k) < |RecsAt(d, l, g)|
    ensures var l', d1 := Release(l, Group(g), i - 1), Free(d, loc.n);
            && Within(d1, prev) && Get(d1, prev).DataBlock?
            && var d' := Put(d1, prev, Relink(Get(d1, prev), b.next));
            && Sound(d', l', groupSize, {}) && Evolved(d, l, d', l', g)
            && RecsAt(d', l', g) == RemoveAt(RecsAt(d, l, g), PlaceOf(d, l, g, i, k))
  {
    hide RecsOf, Bytes, Sound;
    var path, v := l.paths[Group(g)], Put(d, loc, Without(b, k));
    DeleteStep(d, l, groupSize, g, i, k, loc, b);
    LocWithin(v, l, groupSize, {Group(g)}, g, i);
    LocWithin(v, l, groupSize, {Group(g)}, g, i - 1);
    PrevDiffers(d, l, groupSize, g, i, loc, prev, Without(b, k));
    var pb := GroupBlocks(v, path, g)[i - 1];
    assert GroupBlocks(v, path, g)[i] == Without(b, k);
    assert Packed(pb, groupSize);
    DechainSound(v, l, groupSize, {Group(g)}, g, i - 1, i, Relink(pb, b.next));
    DropFinal(d, l, v, Put(Free(v, loc.n), prev, Relink(pb, b.next)), Release(l, Group(g), i - 1), groupSize, g);
  }

  lemma PrevDiffers(d: Disk, l: Map, groupSize: nat, g: nat, i: nat, loc: Loc, prev: Loc, b: Block)
    requires Sound(d, l, groupSize, {}) && Group(g) in l.paths && 0 < i <= |l.paths[Group(g)]|
    requires loc == LocAt(l.paths[Group(g)], g, i) && prev == LocAt(l.paths[Group(g)], g, i - 1)
    ensures Within(d, loc) && 1 <= loc.n <= |d.overflow|
    ensures Free(Put(d, loc, b), loc.n) == Free(d, loc.n)
    ensures Within(Free(d, loc.n), prev)
            && Get(Free(d, loc.n), prev) == GroupBlocks(Put(d, loc, b), l.paths[Group(g)], g)[i - 1]
  {
    hide RootOk, Packed, Opened, RecsOf;
    BlockOfGroup(d, l, groupSize, g, i);
    BlockOfGroup(d, l, groupSize, g, i - 1);
    assert PathOwned(l, Group(g));
  }

  lemma DropFinal(d: Disk, l: Map, v: Disk, d': Disk, l': Map, groupSize: nat, g: nat)
    requires Evolved(d, l, v, l, g) && Sound(d', l', groupSize, {Group(g)}) && Evolved(v, l, d', l', g)
    requires Opened(d', l', g, groupSize, 0)
    ensures Sound(d', l', groupSize, {}) && Evolved(d, l, d', l', g)
  {
    EvolvedTrans(d, l, v, l, d', l', g);
    Reclose(d', l', groupSize, {Group(g)}, g);
    assert {Group(g)} - {Group(g)} == {};
  }

  /** Nothing has been changed yet: the buffer is the last block of the chain as it stands. */
  lemma UnchangedStep(d: Disk, l: Map, groupSize: nat, g: nat, loc: Loc, b: Block)
    requires Sound(d, l, groupSize, {}) && Group(g) in l.paths
    requires loc == LocAt(l.paths[Group(g)], g, |l.paths[Group(g)]|)
    requires b == GroupBlocks(d, l.paths[Group(g)], g)[|l.paths[Group(g)]|]
    ensures Within(d, loc) && Put(d, loc, b) == d && b.DataBlock?
    ensures Filling(d, l, groupSize, g, |l.paths[Group(g)]|, loc, b)
  {
    BlockOfGroup(d, l, groupSize, g, |l.paths[Group(g)]|);
    PutSame(d, loc);
    Widen(d, l, groupSize, {}, {Group(g)});
    AnyHole(d, l, groupSize, g, |l.paths[Group(g)]|);
  }

  lemma PutSame(d: Disk, loc: Loc)
    requires Within(d, loc)
    ensures Put(d, loc, Get(d, loc)) == d
  {
  }

  lemma AnyHole(d: Disk, l: Map, groupSize: nat, g: nat, hole: nat)
    requires Opened(d, l, g, groupSize, 0) && hole <= |l.paths[Group(g)]|
    ensures Opened(d, l, g, groupSize, hole)
  {
  }

  /** What appending the buffer's record and writing the buffer leave behind, when the group
      was closed up to the buffer before. */
  lemma AppendFinal(d0: Disk, l0: Map, v: Disk, l: Map, d': Disk, l': Map, groupSize: nat, g: nat, rec: Record)
    requires Group(g) in l0.paths && Evolved(d0, l0, v, l, g) && Group(g) in l.paths
    requires Appended(v, l, d', l', g, groupSize, {Group(g)}, rec)
    ensures Sound(d', l', groupSize, {}) && Evolved(d0, l0, d', l', g)
    ensures RecsAt(d', l', g) == RecsAt(v, l, g) + [rec]
  {
    EvolvedTrans(d0, l0, v, l, d', l', g);
    assert {Group(g)} - {Group(g)} == {};
  }

  /** The buffer is the last block of a chain that is closed up to it: it can be appended to. */
  ghost predicate Ready(d0: Disk, l0: Map, d: Disk, l: Map, groupSize: nat, g: nat, loc: Loc, buff: Block,
                        recs: seq<Record>) {
    && Group(g) in l.paths && Filling(d, l, groupSize, g, |l.paths[Group(g)]|, loc, buff)
    && Group(g) in l0.paths && Evolved(d0, l0, Put(d, loc, buff), l, g)
    && RecsAt(Put(d, loc, buff), l, g) == recs
  }

  lemma ReadyUnchanged(d: Disk, l: Map, groupSize: nat, g: nat, loc: Loc, b: Block)
    requires Sound(d, l, groupSize, {}) && Group(g) in l.paths
    requires loc == LocAt(l.paths[Group(g)], g, |l.paths[Group(g)]|)
    requires b == GroupBlocks(d, l.paths[Group(g)], g)[|l.paths[Group(g)]|]
    ensures Ready(d, l, d, l, groupSize, g, loc, b, RecsAt(d, l, g))
  {
    UnchangedStep(d, l, groupSize, g, loc, b);
  }

  /** Writing the buffer of a chain that is closed up to it completes the group. */
  lemma ReadyFinal(d0: Disk, l0: Map, d: Disk, l: Map, groupSize: nat, g: nat, loc: Loc, b: Block, recs: seq<Record>)
    requires Ready(d0, l0, d, l, groupSize, g, loc, b, recs)
    requires |l.paths[Group(g)]| == 0 || b.recs != []
    ensures Sound(Put(d, loc, b), l, groupSize, {})
  {
    var v, path := Put(d, loc, b), l.paths[Group(g)];
    LocWithin(v, l, groupSize, {Group(g)}, g, |path|);
    assert Opened(v, l, g, groupSize, 0);
    Reclose(v, l, groupSize, {Group(g)}, g);
    assert {Group(g)} - {Group(g)} == {};
  }

  lemma ReadyCompacted(d0: Disk, l0: Map, d: Disk, l: Map, groupSize: nat, g: nat, i: nat, loc: Loc, b: Block,
                       recs: seq<Record>, i': nat, loc': Loc, b': Block)
    requires Group(g) in l0.paths && Filling(d0, l0, groupSize, g, i, loc, b) && Evolved(d0, l0, Put(d0, loc, b), l0, g)
    requires RecsAt(Put(d0, loc, b), l0, g) == recs
    requires Compacted(d0, l0, d, l, groupSize, g, i, loc, b, i', loc', b') && i' == |PathOf(l, Group(g))|
    ensures Ready(d0, l0, d, l, groupSize, g, loc', b', recs)
  {
    EvolvedTrans(d0, l0, Put(d0, loc, b), l0, Put(d, loc', b'), l, g);
  }

  /** One group has lost the record at one place. */
  ghost predicate Removed(d: Disk, l: Map, d': Disk, l': Map, groupSize: nat, g: nat, at: nat) {
    && Sound(d', l', groupSize, {}) && Evolved(d, l, d', l', g)
    && at < |RecsAt(d, l, g)| && RecsAt(d', l', g) == RemoveAt(RecsAt(d, l, g), at)
  }

  lemma OnlyRecord(d: Disk, l: Map, groupSize: nat, g: nat, i: nat, k: nat, b: Block)
    requires Sound(d, l, groupSize, {}) && Group(g) in l.paths && i <= |l.paths[Group(g)]|
    requires b == GroupBlocks(d, l.paths[Group(g)], g)[i] && b.DataBlock? && k < |b.recs|
    ensures b.used - Size(b.recs[k]) == BLOCK_HEADER_SIZE <==> |b.recs| == 1
  {
    BlockOfGroup(d, l, groupSize, g, i);
    BytesRemove(b.recs, k);
    NoBytesNoRecords(RemoveAt(b.recs, k));
  }

  /** A record below the large-record size fits an empty block, and so does the record that
      names a large-record chain. */
  lemma SizeFits(groupSize: nat, bigRecSize: int, id: Id, data: Data)
    requires groupSize >= 1024 && groupSize % 4 == 0 && bigRecSize <= groupSize - BLOCK_HEADER_SIZE && |id| <= MAX_KEY_LEN
    ensures forall head :: Size(Record(id, Large(head))) <= groupSize - BLOCK_HEADER_SIZE
    ensures RECORD_HEADER_SIZE + |id| + |data| < bigRecSize ==>
              Size(Record(id, Inline(data))) <= groupSize - BLOCK_HEADER_SIZE
  {
  }

  /** What a search of the group an id is hashed to says of the map. */
  lemma LookupFacts(d: Disk, l: Map, groupSize: nat, n: Naming, p: Params, mean: Meaning, id: Id, g: nat,
                    found: bool, i: nat, k: nat, b: Block)
    requires Standing(d, l, groupSize, n, p, mean, {}) && g == AddressOf(n, p, Key(n, id))
    requires Group(g) in l.paths && i <= |l.paths[Group(g)]| && b == GroupBlocks(d, l.paths[Group(g)], g)[i]
    requires found ==> b.DataBlock? && k < |b.recs| && Matches(n, id, b.recs[k].id)
    requires !found ==> forall r | r in RecsAt(d, l, g) :: !Matches(n, id, r.id)
    ensures found <==> Key(n, id) in mean.m
    ensures found ==> Key(n, b.recs[k].id) == Key(n, id) && b.recs[k].id in AllIds(AllGroups(d, l, p.modulus))
    ensures found && b.recs[k].body.Inline? ==> b.recs[k].body.data == mean.m[Key(n, id)]
    ensures found && b.recs[k].body.Large? ==>
              && Key(n, id) in mean.large
              && LargeIs(d, l, BigOf(Key(n, id)), b.recs[k].body.head, mean.m[Key(n, id)])
  {
    hide Sound, RootsAre, LargeIs, RecsAt, TotalBytes, TotalCount, AddressOf, GroupBlocks, AllIds;
    var at, groups := Address(n, p), AllGroups(d, l, p.modulus);
    InRange(n, at, groups, mean.m, mean.large, Key(n, id));
    assert HomeOf(at, Key(n, id)) == g && groups[g - 1] == RecsAt(d, l, g);
    if found {
      RecordAtPlace(d, l, groupSize, g, i, k);
      var j := PlaceOf(d, l, g, i, k);
      FoundIn(n, at, groups, mean.m, mean.large, g, j);
      MatchesIsSameKey(n, id, b.recs[k].id);
      InAllIds(groups, g - 1, j);
    } else {
      NotFound(n, at, groups, mean.m, mean.large, id);
    }
  }

  // ------------------------------------------------------------------------
  // An empty file

  /** The layout of a file with `count` groups and no overflow blocks. */
  ghost function EmptyLayout(count: nat): Map {
    Map(EmptyPaths(count), [])
  }

  ghost function EmptyPaths(count: nat): (paths: map<Root, seq<nat>>)
    ensures forall r :: r in paths <==> r == FreeList || (r.Group? && 1 <= r.g <= count)
    ensures forall r | r in paths :: paths[r] == []
  {
    if count == 0 then map[FreeList := []] else EmptyPaths(count - 1)[Group(count) := []]
  }

  lemma EmptySound(primary: seq<Block>, groupSize: nat, count: nat)
    requires |primary| == count && (forall i | 0 <= i < |primary| :: primary[i] == EmptyBlock)
    requires groupSize >= BLOCK_HEADER_SIZE
    ensures Sound(Disk(primary, [], 0), EmptyLayout(count), groupSize, {})
    ensures forall g | 1 <= g <= count :: RecsAt(Disk(primary, [], 0), EmptyLayout(count), g) == []
  {
    hide RecsOf;
    var d, l := Disk(primary, [], 0), EmptyLayout(count);
    EmptyRoots(count);
    forall g | 1 <= g <= count ensures GroupBlocks(d, [], g) == [EmptyBlock] && RecsAt(d, l, g) == [] {
      assert Group(g) in l.paths;
      assert GroupBlocks(d, [], g) == [EmptyBlock];
      RecsOfOne(EmptyBlock);
    }
    forall r | r in l.paths ensures RootOk(d, l, r, groupSize) {
      assert l.paths[r] == [];
    }
  }

  lemma EmptyStands(primary: seq<Block>, groupSize: nat, n: Naming, p: Params)
    requires p.Valid() && |primary| == p.modulus && (forall i | 0 <= i < |primary| :: primary[i] == EmptyBlock)
    requires groupSize >= BLOCK_HEADER_SIZE
    ensures Standing(Disk(primary, [], 0), EmptyLayout(p.modulus), groupSize, n, p, Meaning(map[], map[], 0, 0), {})
  {
    hide RecsAt, TotalBytes, TotalCount, IsPow2, Sound;
    var d, l := Disk(primary, [], 0), EmptyLayout(p.modulus);
    EmptySound(primary, groupSize, p.modulus);
    EmptyRoots(p.modulus);
    var groups := AllGroups(d, l, p.modulus);
    forall i | 0 <= i < p.modulus ensures groups[i] == [] {
      assert groups[i] == RecsAt(d, l, i + 1);
    }
    EmptyTable(n, p, groups);
    EmptyTotals(groups);
  }

  lemma EmptyRoots(count: nat)
    ensures var l := EmptyLayout(count);
            && Partition(l)
            && (forall g: nat :: Group(g) in l.paths <==> 1 <= g <= count)
            && (forall r | r in l.paths :: (r == FreeList || (r.Group? && 1 <= r.g <= count)) && l.paths[r] == [])
            && FreeList in l.paths
  {
  }

  lemma EmptyTable(n: Naming, p: Params, groups: seq<seq<Record>>)
    requires p.Valid() && |groups| == p.modulus && forall i | 0 <= i < |groups| :: groups[i] == []
    ensures TableOk(n, Address(n, p), groups, map[], map[])
  {
    hide IsPow2;
    forall k ensures 1 <= HomeOf(Address(n, p), k) <= |groups| {
      AddressInRange(n.hash(k), p);
    }
    forall g | 1 <= g <= |groups| ensures GroupTable(n, Address(n, p), groups, g, map[], map[]) {
    }
  }

  lemma {:induction false} EmptyTotals(groups: seq<seq<Record>>)
    requires forall i | 0 <= i < |groups| :: groups[i] == []
    ensures TotalBytes(groups) == 0 && TotalCount(groups) == 0
  {
    if groups != [] {
      EmptyTotals(groups[1..]);
    }
  }

  // ------------------------------------------------------------------------
  // Selects

  lemma GroupsLength(d: Disk, l: Map, count: nat)
    ensures |AllGroups(d, l, count)| == count
  {
  }

  /** Counts of the first groups are counts of the file exactly when the others have no record. */
  lemma CountsLeft(d: Disk, l: Map, groupSize: nat, n: Naming, p: Params, mean: Meaning, passed: nat)
    requires Standing(d, l, groupSize, n, p, mean, {}) && passed <= |AllGroups(d, l, p.modulus)|
    ensures var groups := AllGroups(d, l, p.modulus);
            && (TotalBytes(groups[..passed]) == mean.bytes <==> TotalCount(groups[passed..]) == 0)
            && (TotalCount(groups[..passed]) == mean.count <==> TotalCount(groups[passed..]) == 0)
  {
    hide Image, AllGroups;
    var groups := AllGroups(d, l, p.modulus);
    assert groups[..passed] + groups[passed..] == groups;
    TotalsConcat(groups[..passed], groups[passed..]);
    NothingLeft(groups[passed..]);
  }

  lemma CountsSum(d: Disk, l: Map, groupSize: nat, n: Naming, p: Params, mean: Meaning, passed: nat)
    requires Standing(d, l, groupSize, n, p, mean, {}) && passed <= |AllGroups(d, l, p.modulus)|
    ensures var groups := AllGroups(d, l, p.modulus);
            TotalCount(groups[..passed]) + TotalCount(groups[passed..]) == mean.count
  {
    hide Image, AllGroups;
    var groups := AllGroups(d, l, p.modulus);
    assert groups[..passed] + groups[passed..] == groups;
    TotalsConcat(groups[..passed], groups[passed..]);
  }

  lemma ListingFacts(d: Disk, l: Map, groupSize: nat, n: Naming, p: Params, mean: Meaning)
    requires Standing(d, l, groupSize, n, p, mean, {})
    ensures var groups := AllGroups(d, l, p.modulus);
            && |groups| == p.modulus
            && DifferentKeys(n, AllIds(groups)) && |AllIds(groups)| == |mean.m|
            && (forall k :: Lists(n, AllIds(groups), k) <==> k in mean.m)
  {
    hide Chains, TableOk, TotalBytes, TotalCount, AllIds;
    EveryIdOnce(n, Address(n, p), AllGroups(d, l, p.modulus), mean.m, mean.large);
  }
}
