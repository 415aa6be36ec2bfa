/** Steps on one group's chain: appending a record, deleting one, and closing up the space.
    Each is stated on the disk with the buffers in memory laid over it. */
module Groups {
  import opened Blocks
  import opened Layout
  import opened Disks
  import opened Sequences

  /** The records of a group in chain order. */
  function GroupRecs(d: Disk, path: seq<nat>, g: nat): seq<Record> {
    RecsOf(GroupBlocks(d, path, g))
  }

  /** A group whose chain is well formed but for one block that may be empty. */
  ghost predicate Opened(d: Disk, l: Map, g: nat, groupSize: nat, hole: nat) {
    && Group(g) in l.paths
    && 1 <= g <= |d.primary|
    && hole <= |l.paths[Group(g)]|
    && GroupShape(GroupBlocks(d, l.paths[Group(g)], g), l.paths[Group(g)], groupSize, hole)
  }

  /** Only this group and the free chain have changed. */
  ghost predicate Evolved(d: Disk, l: Map, d': Disk, l': Map, g: nat) {
    && SameRoots(d, l, d', l', {FreeList, Group(g)})
    && l'.paths.Keys == l.paths.Keys
    && |d'.primary| == |d.primary|
  }

  lemma EvolvedTrans(d: Disk, l: Map, d': Disk, l': Map, d'': Disk, l'': Map, g: nat)
    requires Evolved(d, l, d', l', g) && Evolved(d', l', d'', l'', g)
    ensures Evolved(d, l, d'', l'', g)
  {
    SameRootsTrans(d, l, d', l', d'', l'', {FreeList, Group(g)});
  }

  function Relink(b: Block, next: nat): Block
    requires b.DataBlock?
  {
    DataBlock(next, b.used, b.recs)
  }

  lemma LocWithin(d: Disk, l: Map, groupSize: nat, open: set<Root>, g: nat, i: nat)
    requires Sound(d, l, groupSize, open) && Group(g) in l.paths && 1 <= g <= |d.primary|
    requires i <= |l.paths[Group(g)]|
    ensures var loc := LocAt(l.paths[Group(g)], g, i);
            && Within(d, loc)
            && Get(d, loc) == GroupBlocks(d, l.paths[Group(g)], g)[i]
            && (loc.Over? ==> loc.n in l.paths[Group(g)])
  {
    assert PathOwned(l, Group(g));
    if i > 0 {
      assert l.paths[Group(g)][i - 1] in l.paths[Group(g)];
    }
  }

  /** Rewriting the i-th block of a group changes the i-th element of its block list. */
  lemma GroupPut(d: Disk, l: Map, groupSize: nat, open: set<Root>, g: nat, i: nat, b: Block)
    requires Sound(d, l, groupSize, open) && Group(g) in l.paths && 1 <= g <= |d.primary|
    requires i <= |l.paths[Group(g)]|
    ensures Within(d, LocAt(l.paths[Group(g)], g, i))
    ensures var d' := Put(d, LocAt(l.paths[Group(g)], g, i), b);
            && Sound(d', l, groupSize, open + {Group(g)})
            && Evolved(d, l, d', l, g)
            && GroupBlocks(d', l.paths[Group(g)], g) == GroupBlocks(d, l.paths[Group(g)], g)[i := b]
  {
    var path := l.paths[Group(g)];
    LocWithin(d, l, groupSize, open, g, i);
    PutSound(d, l, groupSize, open, Group(g), LocAt(path, g, i), b);
    assert PathOwned(l, Group(g));
    var bs', bs := GroupBlocks(Put(d, LocAt(path, g, i), b), path, g), GroupBlocks(d, path, g);
    forall j | 0 <= j < |bs| ensures bs'[j] == bs[i := b][j] {
      if j > 0 {
        assert path[j - 1] in path;
      }
    }
  }

  /** A chain with nothing left open is sound again. */
  lemma Reclose(d: Disk, l: Map, groupSize: nat, open: set<Root>, g: nat)
    requires Sound(d, l, groupSize, open) && Opened(d, l, g, groupSize, 0)
    ensures Sound(d, l, groupSize, open - {Group(g)})
  {
    forall r | r in l.paths && r !in open - {Group(g)} ensures RootOk(d, l, r, groupSize) {
    }
  }

  lemma Widen(d: Disk, l: Map, groupSize: nat, open: set<Root>, open': set<Root>)
    requires Sound(d, l, groupSize, open) && open <= open' && FreeList !in open'
    ensures Sound(d, l, groupSize, open')
  {
  }

  // ------------------------------------------------------------------------
  // Lists of blocks

  lemma RecsOfUpdate(bs: seq<Block>, i: nat, b: Block)
    requires i < |bs| && b.DataBlock?
    ensures RecsOf(bs[i := b]) == RecsOf(bs[..i]) + b.recs + RecsOf(bs[i + 1..])
  {
    var bs' := bs[i := b];
    RecsOfAround(bs', i);
    assert bs'[..i] == bs[..i] && bs'[i + 1..] == bs[i + 1..];
  }

  lemma ShapeUpdate(bs: seq<Block>, path: seq<nat>, groupSize: nat, hole: nat, i: nat, b: Block)
    requires GroupShape(bs, path, groupSize, hole) && i < |bs| && (hole == 0 || hole == i)
    requires Packed(b, groupSize) && b.next == bs[i].next
    ensures GroupShape(bs[i := b], path, groupSize, i)
    ensures b.recs != [] ==> GroupShape(bs[i := b], path, groupSize, 0)
  {
  }

  lemma MidRemove<T>(a: seq<T>, s: seq<T>, c: seq<T>, k: nat)
    requires k < |s|
    ensures (a + s + c)[|a| + k] == s[k]
    ensures RemoveAt(a + s + c, |a| + k) == a + RemoveAt(s, k) + c
  {
  }

  lemma MidUpdate<T>(a: seq<T>, s: seq<T>, c: seq<T>, k: nat, x: T)
    requires k < |s|
    ensures (a + s + c)[|a| + k] == s[k]
    ensures (a + s + c)[|a| + k := x] == a + s[k := x] + c
  {
  }

  // ------------------------------------------------------------------------
  // Appending

  /** Add a record to the last block of a chain, chaining on an overflow block if needed. */
  function Append(d: Disk, loc: Loc, rec: Record, groupSize: nat): (r: (Disk, Loc))
    requires Within(d, loc) && Get(d, loc).DataBlock? && Get(d, loc).used <= groupSize
    requires d.freeChain <= |d.overflow|
  {
    var b := Get(d, loc);
    if Size(rec) <= groupSize - b.used then
      (Put(d, loc, DataBlock(b.next, b.used + Size(rec), b.recs + [rec])), loc)
    else
      var (d1, n) := Alloc(d);
      (Put(Put(d1, loc, Relink(b, n)), Over(n), DataBlock(0, BLOCK_HEADER_SIZE + Size(rec), [rec])), Over(n))
  }

  lemma AppendInBlock(bs: seq<Block>, path: seq<nat>, groupSize: nat, rec: Record, b': Block)
    requires GroupShape(bs, path, groupSize, |path|)
    requires Size(rec) <= groupSize - bs[|path|].used
    requires b' == DataBlock(bs[|path|].next, bs[|path|].used + Size(rec), bs[|path|].recs + [rec])
    ensures GroupShape(bs[|path| := b'], path, groupSize, 0)
    ensures RecsOf(bs[|path| := b']) == RecsOf(bs) + [rec]
  {
    BytesAppend(bs[|path|].recs, rec);
    ShapeUpdate(bs, path, groupSize, |path|, |path|, b');
    RecsOfAround(bs, |path|);
    RecsOfUpdate(bs, |path|, b');
    assert bs[|path| + 1..] == [];
  }

  lemma AppendNewBlock(bs: seq<Block>, path: seq<nat>, groupSize: nat, rec: Record, n: nat, last: Block)
    requires GroupShape(bs, path, groupSize, |path|)
    requires groupSize - bs[|path|].used < Size(rec) <= groupSize - BLOCK_HEADER_SIZE
    requires last == DataBlock(0, BLOCK_HEADER_SIZE + Size(rec), [rec])
    ensures var bs' := bs[|path| := Relink(bs[|path|], n)] + [last];
            GroupShape(bs', path + [n], groupSize, 0) && RecsOf(bs') == RecsOf(bs) + [rec]
  {
    BytesOne(rec);
    NoBytesNoRecords(bs[|path|].recs);
    var b1 := Relink(bs[|path|], n);
    RecsOfAround(bs, |path|);
    RecsOfUpdate(bs, |path|, b1);
    RecsOfConcat(bs[|path| := b1], [last]);
    RecsOfOne(last);
  }

  /** What an append owes: one record more at the end of this group, all else as it was. */
  ghost predicate Appended(d: Disk, l: Map, d': Disk, l': Map, g: nat, groupSize: nat, open: set<Root>, rec: Record)
    requires Group(g) in l.paths
  {
    && Sound(d', l', groupSize, open - {Group(g)})
    && Evolved(d, l, d', l', g)
    && Opened(d', l', g, groupSize, 0)
    && GroupRecs(d', l'.paths[Group(g)], g) == GroupRecs(d, l.paths[Group(g)], g) + [rec]
  }

  lemma AppendFits(d: Disk, l: Map, groupSize: nat, open: set<Root>, g: nat, rec: Record, b': Block)
    requires Sound(d, l, groupSize, open) && Group(g) in open
    requires Group(g) in l.paths && Opened(d, l, g, groupSize, |l.paths[Group(g)]|)
    requires var path := l.paths[Group(g)]; var b := GroupBlocks(d, path, g)[|path|];
             Size(rec) <= groupSize - b.used && b' == DataBlock(b.next, b.used + Size(rec), b.recs + [rec])
    ensures Within(d, LocAt(l.paths[Group(g)], g, |l.paths[Group(g)]|))
    ensures Appended(d, l, Put(d, LocAt(l.paths[Group(g)], g, |l.paths[Group(g)]|), b'), l, g, groupSize, open, rec)
  {
    var path := l.paths[Group(g)];
    AppendInBlock(GroupBlocks(d, path, g), path, groupSize, rec, b');
    GroupPut(d, l, groupSize, open, g, |path|, b');
    assert open + {Group(g)} == open;
    Reclose(Put(d, LocAt(path, g, |path|), b'), l, groupSize, open, g);
  }

  /** The blocks of a chain that has been given one more block. */
  lemma BlocksOfLonger(d: Disk, d1: Disk, path: seq<nat>, n: nat, g: nat)
    requires BlocksOf(d1.overflow, path) == BlocksOf(d.overflow, path) && d1.primary == d.primary
    ensures GroupBlocks(d1, path + [n], g) == GroupBlocks(d, path, g) + [BlockAt(d1.overflow, n)]
  {
    var bs1, bs := GroupBlocks(d1, path + [n], g), GroupBlocks(d, path, g);
    forall j | 0 <= j < |bs| ensures bs1[j] == bs[j] {
      if j > 0 {
        assert bs1[j] == BlocksOf(d1.overflow, path)[j - 1];
      }
    }
  }

  lemma AppendChained(d: Disk, l: Map, groupSize: nat, open: set<Root>, g: nat, rec: Record,
                      d1: Disk, l1: Map, n: nat, last: Block)
    requires Group(g) in l.paths && Opened(d, l, g, groupSize, |l.paths[Group(g)]|)
    requires groupSize - GroupBlocks(d, l.paths[Group(g)], g)[|l.paths[Group(g)]|].used < Size(rec) <= groupSize - BLOCK_HEADER_SIZE
    requires last == DataBlock(0, BLOCK_HEADER_SIZE + Size(rec), [rec])
    requires Group(g) in open && Sound(d1, l1, groupSize, open) && Evolved(d, l, d1, l1, g)
    requires l1.paths[Group(g)] == l.paths[Group(g)] + [n] && d1.primary == d.primary
    requires BlocksOf(d1.overflow, l.paths[Group(g)]) == BlocksOf(d.overflow, l.paths[Group(g)])
    ensures var path := l.paths[Group(g)]; var loc := LocAt(path, g, |path|); var b := GroupBlocks(d, path, g)[|path|];
            && Within(d1, loc) && Within(Put(d1, loc, Relink(b, n)), Over(n))
            && Appended(d, l, Put(Put(d1, loc, Relink(b, n)), Over(n), last), l1, g, groupSize, open, rec)
  {
    var path := l.paths[Group(g)];
    var bs := GroupBlocks(d, path, g);
    var b := bs[|path|];
    assert open + {Group(g)} == open;
    AppendNewBlock(bs, path, groupSize, rec, n, last);
    BlocksOfLonger(d, d1, path, n, g);
    assert LocAt(path + [n], g, |path|) == LocAt(path, g, |path|);
    GroupPut(d1, l1, groupSize, open, g, |path|, Relink(b, n));
    var d2 := Put(d1, LocAt(path, g, |path|), Relink(b, n));
    GroupPut(d2, l1, groupSize, open, g, |path| + 1, last);
    var d3 := Put(d2, Over(n), last);
    EvolvedTrans(d, l, d1, l1, d2, l1, g);
    EvolvedTrans(d, l, d2, l1, d3, l1, g);
    assert GroupBlocks(d3, path + [n], g) == bs[|path| := Relink(b, n)] + [last];
    Reclose(d3, l1, groupSize, open, g);
  }

  lemma AppendOverflows(d: Disk, l: Map, groupSize: nat, open: set<Root>, g: nat, rec: Record, loc: Loc, b: Block)
    returns (l': Map)
    requires Sound(d, l, groupSize, open) && Group(g) in open
    requires Group(g) in l.paths && Opened(d, l, g, groupSize, |l.paths[Group(g)]|)
    requires loc == LocAt(l.paths[Group(g)], g, |l.paths[Group(g)]|)
    requires b == GroupBlocks(d, l.paths[Group(g)], g)[|l.paths[Group(g)]|]
    requires groupSize - b.used < Size(rec) <= groupSize - BLOCK_HEADER_SIZE
    ensures d.freeChain <= |d.overflow|
    ensures var (d1, n) := Alloc(d); var last := DataBlock(0, BLOCK_HEADER_SIZE + Size(rec), [rec]);
            && Within(d1, loc) && Within(Put(d1, loc, Relink(b, n)), Over(n))
            && Appended(d, l, Put(Put(d1, loc, Relink(b, n)), Over(n), last), l', g, groupSize, open, rec)
            && Over(n) == LocAt(l'.paths[Group(g)], g, |l'.paths[Group(g)]|)
    ensures Group(g) in l'.paths && |l'.paths[Group(g)]| == |l.paths[Group(g)]| + 1
  {
    assert open + {Group(g)} == open;
    l' := AllocSound(d, l, groupSize, open, Group(g));
    var (d1, n) := Alloc(d);
    AppendChained(d, l, groupSize, open, g, rec, d1, l', n, DataBlock(0, BLOCK_HEADER_SIZE + Size(rec), [rec]));
  }

  lemma AppendSound(d: Disk, l: Map, groupSize: nat, open: set<Root>, g: nat, rec: Record, loc: Loc)
    returns (l': Map)
    requires Sound(d, l, groupSize, open) && Group(g) in open
    requires Group(g) in l.paths && Opened(d, l, g, groupSize, |l.paths[Group(g)]|)
    requires loc == LocAt(l.paths[Group(g)], g, |l.paths[Group(g)]|)
    requires Size(rec) <= groupSize - BLOCK_HEADER_SIZE
    ensures Within(d, loc) && Get(d, loc).DataBlock? && Get(d, loc).used <= groupSize && d.freeChain <= |d.overflow|
    ensures var (d', loc') := Append(d, loc, rec, groupSize);
            && Appended(d, l, d', l', g, groupSize, open, rec)
            && loc' == LocAt(l'.paths[Group(g)], g, |l'.paths[Group(g)]|)
    ensures Group(g) in l'.paths
            && |l'.paths[Group(g)]| == |l.paths[Group(g)]| + if Size(rec) > groupSize - Get(d, loc).used then 1 else 0
  {
    hide RecsOf, Bytes, RootOk, Partition, Appended;
    var path := l.paths[Group(g)];
    LocWithin(d, l, groupSize, open, g, |path|);
    FreeHeadInRange(d, l, groupSize, open);
    var b := GroupBlocks(d, path, g)[|path|];
    assert Packed(b, groupSize);
    if Size(rec) <= groupSize - b.used {
      AppendFits(d, l, groupSize, open, g, rec, DataBlock(b.next, b.used + Size(rec), b.recs + [rec]));
      l' := l;
    } else {
      l' := AppendOverflows(d, l, groupSize, open, g, rec, loc, b);
    }
  }

  // ------------------------------------------------------------------------
  // Deleting and compacting

  /** Take the record at index `k` out of the i-th block. */
  lemma DeleteShape(bs: seq<Block>, path: seq<nat>, groupSize: nat, i: nat, k: nat, b': Block)
    requires GroupShape(bs, path, groupSize, 0) && i < |bs| && k < |bs[i].recs|
    requires Size(bs[i].recs[k]) <= bs[i].used
    requires b' == DataBlock(bs[i].next, bs[i].used - Size(bs[i].recs[k]), RemoveAt(bs[i].recs, k))
    ensures Packed(b', groupSize) && GroupShape(bs[i := b'], path, groupSize, i)
    ensures b'.recs != [] ==> GroupShape(bs[i := b'], path, groupSize, 0)
    ensures var at := |RecsOf(bs[..i])| + k;
            && at < |RecsOf(bs)| && RecsOf(bs)[at] == bs[i].recs[k]
            && RecsOf(bs[i := b']) == RemoveAt(RecsOf(bs), at)
  {
    BytesRemove(bs[i].recs, k);
    ShapeUpdate(bs, path, groupSize, 0, i, b');
    RecsOfAround(bs, i);
    RecsOfUpdate(bs, i, b');
    MidRemove(RecsOf(bs[..i]), bs[i].recs, RecsOf(bs[i + 1..]), k);
  }

  /** Replace the record at index `k` of the i-th block by one of the same size. */
  lemma ReplaceShape(bs: seq<Block>, path: seq<nat>, groupSize: nat, i: nat, k: nat, b': Block, rec: Record)
    requires GroupShape(bs, path, groupSize, 0) && i < |bs| && k < |bs[i].recs|
    requires Size(rec) == Size(bs[i].recs[k])
    requires b' == DataBlock(bs[i].next, bs[i].used, bs[i].recs[k := rec])
    ensures GroupShape(bs[i := b'], path, groupSize, 0)
    ensures var at := |RecsOf(bs[..i])| + k;
            && at < |RecsOf(bs)| && RecsOf(bs)[at] == bs[i].recs[k]
            && RecsOf(bs[i := b']) == RecsOf(bs)[at := rec]
  {
    BytesUpdate(bs[i].recs, k, rec);
    ShapeUpdate(bs, path, groupSize, 0, i, b');
    RecsOfAround(bs, i);
    RecsOfUpdate(bs, i, b');
    MidUpdate(RecsOf(bs[..i]), bs[i].recs, RecsOf(bs[i + 1..]), k, rec);
  }

  lemma RecsOfPair(bs: seq<Block>, i: nat)
    requires i + 1 < |bs| && bs[i].DataBlock? && bs[i + 1].DataBlock?
    ensures RecsOf(bs) == RecsOf(bs[..i]) + (bs[i].recs + bs[i + 1].recs) + RecsOf(bs[i + 2..])
  {
    RecsOfAround(bs, i);
    RecsOfHead(bs, i + 1);
    Regroup(RecsOf(bs[..i]), bs[i].recs, bs[i + 1].recs, RecsOf(bs[i + 2..]));
  }

  lemma RecsOfHead(bs: seq<Block>, i: nat)
    requires i < |bs| && bs[i].DataBlock?
    ensures RecsOf(bs[i..]) == bs[i].recs + RecsOf(bs[i + 1..])
  {
    assert bs[i..][1..] == bs[i + 1..];
  }

  lemma Regroup<T>(a: seq<T>, b: seq<T>, c: seq<T>, d: seq<T>)
    ensures a + b + (c + d) == a + (b + c) + d
  {
  }

  /** The records of the two blocks are split between them at another point. */
  lemma MoveRecs(bs: seq<Block>, i: nat, b: Block, o: Block)
    requires i + 1 < |bs| && bs[i].DataBlock? && bs[i + 1].DataBlock? && b.DataBlock? && o.DataBlock?
    requires b.recs + o.recs == bs[i].recs + bs[i + 1].recs
    ensures RecsOf(bs[i := b][i + 1 := o]) == RecsOf(bs)
  {
    var bs' := bs[i := b][i + 1 := o];
    RecsOfPair(bs, i);
    RecsOfPair(bs', i);
    assert bs'[..i] == bs[..i] && bs'[i + 2..] == bs[i + 2..];
  }

  lemma DropRecs(bs: seq<Block>, i: nat, b: Block)
    requires i + 1 < |bs| && bs[i].DataBlock? && bs[i + 1].DataBlock? && b.DataBlock?
    requires b.recs == bs[i].recs + bs[i + 1].recs
    ensures RecsOf(RemoveAt(bs, i + 1)[i := b]) == RecsOf(bs)
  {
    var bs1 := RemoveAt(bs, i + 1);
    RecsOfPair(bs, i);
    RecsOfUpdate(bs1, i, b);
    assert bs1[..i] == bs[..i] && bs1[i + 1..] == bs[i + 2..];
  }

  /** Moving the first `k` records of one block to another keeps both byte counts exact. */
  lemma MovePacked(b: Block, o: Block, groupSize: nat, k: nat)
    requires Packed(b, groupSize) && Packed(o, groupSize) && k <= |o.recs|
    requires b.used + Bytes(o.recs[..k]) <= groupSize
    ensures Bytes(o.recs[..k]) <= o.used
    ensures Packed(DataBlock(b.next, b.used + Bytes(o.recs[..k]), b.recs + o.recs[..k]), groupSize)
    ensures Packed(DataBlock(o.next, o.used - Bytes(o.recs[..k]), o.recs[k..]), groupSize)
  {
    assert o.recs == o.recs[..k] + o.recs[k..];
    BytesConcat(o.recs[..k], o.recs[k..]);
    BytesConcat(b.recs, o.recs[..k]);
  }

  /** The two buffers after `k` records have been moved from the second to the first. */
  ghost predicate Moved(b: Block, o: Block, k: nat, b': Block, o': Block)
    requires b.DataBlock? && o.DataBlock? && k <= |o.recs|
  {
    && b'.DataBlock? && o'.DataBlock?
    && b' == DataBlock(b.next, b.used + Bytes(o.recs[..k]), b.recs + o.recs[..k])
    && o'.next == o.next && o'.recs == o.recs[k..] && o'.used == o.used - Bytes(o.recs[..k])
  }

  /** After a move that leaves records behind, the next block becomes the one being filled. */
  lemma AdvanceSound(d: Disk, l: Map, groupSize: nat, open: set<Root>, g: nat, i: nat, k: nat, b: Block, o: Block)
    requires Sound(d, l, groupSize, open) && Group(g) in open && Opened(d, l, g, groupSize, i)
    requires i < |l.paths[Group(g)]|
    requires var bs := GroupBlocks(d, l.paths[Group(g)], g);
             && k < |bs[i + 1].recs| && Moved(bs[i], bs[i + 1], k, b, o)
             && b.used <= groupSize < b.used + Size(bs[i + 1].recs[k])
    ensures var path := l.paths[Group(g)];
            && Within(d, LocAt(path, g, i)) && Within(Put(d, LocAt(path, g, i), b), LocAt(path, g, i + 1))
            && var d' := Put(Put(d, LocAt(path, g, i), b), LocAt(path, g, i + 1), o);
            && Sound(d', l, groupSize, open)
            && Evolved(d, l, d', l, g)
            && Opened(d', l, g, groupSize, i + 1)
            && GroupRecs(d', path, g) == GroupRecs(d, path, g)
            && GroupBlocks(d', path, g) == GroupBlocks(d, path, g)[i := b][i + 1 := o]
    ensures o.recs != []
  {
    hide RecsOf, Bytes, RootOk, Partition;
    var path := l.paths[Group(g)];
    var bs := GroupBlocks(d, path, g);
    MovePacked(bs[i], bs[i + 1], groupSize, k);
    PackedRecordFits(bs[i + 1], groupSize, k);
    NoBytesNoRecords(b.recs);
    assert GroupShape(bs[i := b][i + 1 := o], path, groupSize, i + 1);
    MoveRecs(bs, i, b, o);
    assert open + {Group(g)} == open;
    GroupPut(d, l, groupSize, open, g, i, b);
    var d1 := Put(d, LocAt(path, g, i), b);
    GroupPut(d1, l, groupSize, open, g, i + 1, o);
    EvolvedTrans(d, l, d1, l, Put(d1, LocAt(path, g, i + 1), o), l, g);
  }

  lemma DropShape(bs: seq<Block>, path: seq<nat>, groupSize: nat, i: nat, hole: nat, b: Block)
    requires GroupShape(bs, path, groupSize, hole) && i + 1 < |bs| && (hole == i || hole == i + 1)
    requires Packed(b, groupSize) && b.next == bs[i + 1].next
    ensures GroupShape(RemoveAt(bs, i + 1)[i := b], RemoveAt(path, i), groupSize, i)
    ensures i > 0 && hole == i + 1 && b.recs == bs[i].recs
            ==> GroupShape(RemoveAt(bs, i + 1)[i := b], RemoveAt(path, i), groupSize, 0)
  {
  }

  /** The block after the i-th is emptied into it, dechained, and freed. */
  lemma DechainSound(d: Disk, l: Map, groupSize: nat, open: set<Root>, g: nat, i: nat, hole: nat, b: Block)
    requires Sound(d, l, groupSize, open) && Group(g) in open && Opened(d, l, g, groupSize, hole)
    requires i < |l.paths[Group(g)]| && (hole == i || hole == i + 1)
    requires var bs := GroupBlocks(d, l.paths[Group(g)], g);
             Packed(b, groupSize) && b.next == bs[i + 1].next && b.recs == bs[i].recs + bs[i + 1].recs
    ensures 1 <= l.paths[Group(g)][i] <= |d.overflow| && l.paths[Group(g)][i] <= |l.owner|
    ensures var path := l.paths[Group(g)]; var l' := Release(l, Group(g), i);
            && Within(Free(d, path[i]), LocAt(path, g, i))
            && var d' := Put(Free(d, path[i]), LocAt(path, g, i), b);
            && Sound(d', l', groupSize, open)
            && Evolved(d, l, d', l', g)
            && Opened(d', l', g, groupSize, i)
            && (hole == i + 1 && GroupBlocks(d, path, g)[i + 1].recs == [] ==> Opened(d', l', g, groupSize, 0))
            && GroupRecs(d', l'.paths[Group(g)], g) == GroupRecs(d, path, g)
            && GroupBlocks(d', l'.paths[Group(g)], g) == RemoveAt(GroupBlocks(d, path, g), i + 1)[i := b]
            && LocAt(l'.paths[Group(g)], g, i) == LocAt(path, g, i)
  {
    hide RecsOf, Bytes, RootOk, Partition;
    var path := l.paths[Group(g)];
    var bs := GroupBlocks(d, path, g);
    DropShape(bs, path, groupSize, i, hole, b);
    DropRecs(bs, i, b);
    FreeSound(d, l, groupSize, open, Group(g), i);
    var d1, l' := Free(d, path[i]), Release(l, Group(g), i);
    assert GroupBlocks(d1, l'.paths[Group(g)], g) == RemoveAt(bs, i + 1);
    assert open + {Group(g)} == open;
    GroupPut(d1, l', groupSize, open, g, i, b);
    assert Evolved(d, l, d1, l', g);
    EvolvedTrans(d, l, d1, l', Put(d1, LocAt(path, g, i), b), l', g);
  }
}
