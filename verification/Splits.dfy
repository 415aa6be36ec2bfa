/** Emptying one group's chain record by record into others, as a split and a merge do. The
    overflow blocks still to be emptied hang from the root Source. */
module Splits {
  import opened Addressing
  import opened Blocks
  import opened Layout
  import opened Disks
  import opened Groups
  import opened Tables
  import opened Images
  import opened Overlays
  import opened Updates
  import opened Steps
  import opened Sequences

  /** Since the disk was `d0` only the chains in `changed` have been touched, and `rest` are
      the blocks still to be emptied. */
  ghost predicate Draining(d0: Disk, l0: Map, v: Disk, l: Map, groupSize: nat, changed: set<Root>, keys: set<Root>,
                           rest: seq<Block>) {
    && Sound(v, l, groupSize, {})
    && SameRoots(d0, l0, v, l, changed) && Source in changed
    && l.paths.Keys == keys && Source in keys
    && BlocksOf(v.overflow, PathOf(l, Source)) == rest
  }

  lemma SameRootsWiden(d: Disk, l: Map, d': Disk, l': Map, changed: set<Root>, more: set<Root>)
    requires SameRoots(d, l, d', l', changed) && changed <= more
    ensures SameRoots(d, l, d', l', more)
  {
  }

  /** A record has been appended to one of the groups being filled. */
  lemma DrainAppend(d0: Disk, l0: Map, v: Disk, l: Map, v': Disk, l': Map, groupSize: nat, changed: set<Root>,
                    keys: set<Root>, rest: seq<Block>, g: nat, rec: Record)
    requires Draining(d0, l0, v, l, groupSize, changed, keys, rest) && Group(g) in changed && Group(g) in keys
    requires Group(g) in l.paths && Appended(v, l, v', l', g, groupSize, {Group(g)}, rec)
    ensures Draining(d0, l0, v', l', groupSize, changed, keys, rest)
    ensures RecsAt(v', l', g) == RecsAt(v, l, g) + [rec]
  {
    hide RecsOf;
    assert {Group(g)} - {Group(g)} == {};
    SameRootsWiden(v, l, v', l', {FreeList, Group(g)}, changed);
    SameRootsTrans(d0, l0, v, l, v', l', changed);
    assert SameRoot(v, l, v', l', Source);
  }

  /** The first block still to be emptied. */
  lemma DrainHead(v: Disk, l: Map, groupSize: nat)
    requires Sound(v, l, groupSize, {}) && Source in l.paths && l.paths[Source] != []
    ensures var b := l.paths[Source][0]; var bs := BlocksOf(v.overflow, l.paths[Source]);
            && 1 <= b <= |v.overflow| && b <= |l.owner| && v.overflow[b - 1] == bs[0]
            && Packed(bs[0], groupSize) && bs[0].next == Nth(l.paths[Source], 1)
            && (bs[0].next == 0 <==> |l.paths[Source]| == 1)
  {
    assert RootOk(v, l, Source, groupSize) && PathOwned(l, Source);
    assert l.paths[Source][0] in l.paths[Source];
    if |l.paths[Source]| > 1 {
      assert l.paths[Source][1] in l.paths[Source];
    }
  }

  /** The emptied block has been freed. */
  lemma DrainFree(d0: Disk, l0: Map, v: Disk, l: Map, groupSize: nat, changed: set<Root>, keys: set<Root>, rest: seq<Block>)
    requires Draining(d0, l0, v, l, groupSize, changed, keys, rest) && rest != []
    ensures Source in l.paths && l.paths[Source] != [] && FreeList in l.paths
    ensures 1 <= l.paths[Source][0] <= |v.overflow| && l.paths[Source][0] <= |l.owner|
    ensures var v', l' := Free(v, l.paths[Source][0]), Release(l, Source, 0);
            && Draining(d0, l0, v', l', groupSize, changed, keys, rest[1..])
            && l'.paths[Source] == l.paths[Source][1..]
            && SameRoots(v, l, v', l', {FreeList, Source})
            && |v'.primary| == |v.primary|
  {
    DrainHead(v, l, groupSize);
    FreeSound(v, l, groupSize, {}, Source, 0);
    var v', l' := Free(v, l.paths[Source][0]), Release(l, Source, 0);
    SourceTail(v, l, v', l', groupSize);
    SameRootsWiden(v, l, v', l', {FreeList, Source}, changed);
    SameRootsTrans(d0, l0, v, l, v', l', changed);
    assert l'.paths.Keys == keys;
  }

  lemma SourceTail(v: Disk, l: Map, v': Disk, l': Map, groupSize: nat)
    requires Sound(v, l, groupSize, {}) && Source in l.paths && l.paths[Source] != []
    requires Sound(v', l', groupSize, {} + {Source}) && Source in l'.paths
    requires l'.paths[Source] == RemoveAt(l.paths[Source], 0)
    requires BlocksOf(v'.overflow, l'.paths[Source]) == RemoveAt(BlocksOf(v.overflow, l.paths[Source]), 0)
    ensures Sound(v', l', groupSize, {}) && l'.paths[Source] == l.paths[Source][1..]
    ensures BlocksOf(v'.overflow, l'.paths[Source]) == BlocksOf(v.overflow, l.paths[Source])[1..]
  {
    hide Partition, GroupOk, BigChain;
    var bs, bs' := BlocksOf(v.overflow, l.paths[Source]), BlocksOf(v'.overflow, l'.paths[Source]);
    assert bs' == bs[1..];
    assert RootOk(v, l, Source, groupSize);
    assert RootOk(v', l', Source, groupSize) by {
      forall i | 0 <= i < |bs'| ensures bs'[i].next == Nth(l'.paths[Source], i + 1) && Packed(bs'[i], groupSize) {
        assert bs'[i] == bs[i + 1];
      }
    }
    forall r | r in l'.paths ensures RootOk(v', l', r, groupSize) {
    }
  }

  /** A group that was not touched has the records it had. */
  lemma UntouchedRecs(v: Disk, l: Map, v': Disk, l': Map, groupSize: nat, changed: set<Root>, g: nat)
    requires Sound(v, l, groupSize, {}) && SameRoots(v, l, v', l', changed)
    requires Group(g) in l.paths && Group(g) !in changed
    ensures RecsAt(v', l', g) == RecsAt(v, l, g) && Group(g) in l'.paths && l'.paths[Group(g)] == l.paths[Group(g)]
  {
    GroupExists(v, l, groupSize, {}, g);
    assert SameRoot(v, l, v', l', Group(g));
    RecsFrame(v, l, v', l', g);
  }

  // ------------------------------------------------------------------------
  // Starting and finishing

  /** All chains but one are as they were. */
  ghost predicate OthersSame(d: Disk, l: Map, d': Disk, l': Map, but: Root) {
    forall r | r in l.paths && r != but :: SameRoot(d, l, d', l', r)
  }

  /** The overflow blocks of a group are set aside to be emptied. */
  lemma Detach(d: Disk, l: Map, groupSize: nat, src: nat)
    requires Sound(d, l, groupSize, {}) && Group(src) in l.paths && Source !in l.paths
    ensures var l1 := Rename(l, Group(src), Source);
            && Sound(d, l1, groupSize, {}) && OthersSame(d, l, d, l1, Group(src))
            && l1.paths.Keys == l.paths.Keys - {Group(src)} + {Source}
            && l1.paths[Source] == l.paths[Group(src)]
            && BlocksOf(d.overflow, l1.paths[Source]) == GroupBlocks(d, l.paths[Group(src)], src)[1..]
  {
    var l1 := Rename(l, Group(src), Source);
    var path := l.paths[Group(src)];
    RenameKeepsPartition(l, Group(src), Source);
    var bs, all := BlocksOf(d.overflow, path), GroupBlocks(d, path, src);
    assert bs == all[1..];
    GroupExists(d, l, groupSize, {}, src);
    assert RootOk(d, l1, Source, groupSize) by {
      forall i | 0 <= i < |bs| ensures bs[i].next == Nth(path, i + 1) && Packed(bs[i], groupSize) {
        assert bs[i] == all[i + 1];
      }
    }
    forall r | r in l1.paths ensures RootOk(d, l1, r, groupSize) {
      if r != Source {
        assert RootOk(d, l, r, groupSize);
      }
    }
  }

  /** A primary block is made an empty group. */
  lemma Attach(d: Disk, l: Map, groupSize: nat, g: nat)
    requires Sound(d, l, groupSize, {}) && Group(g) !in l.paths && 1 <= g <= |d.primary| + 1
    requires groupSize >= BLOCK_HEADER_SIZE
    ensures var d', l' := Put(d, Prim(g), EmptyBlock), Open(l, Group(g));
            && Sound(d', l', groupSize, {}) && OthersSame(d, l, d', l', Group(g))
            && l'.paths.Keys == l.paths.Keys + {Group(g)} && l'.paths[Group(g)] == []
            && RecsAt(d', l', g) == [] && g <= |d'.primary|
            && |d'.primary| >= |d.primary|
  {
    var d', l' := Put(d, Prim(g), EmptyBlock), Open(l, Group(g));
    OpenKeepsPartition(l, Group(g));
    assert GroupBlocks(d', [], g) == [EmptyBlock];
    RecsOfOne(EmptyBlock);
    forall r | r in l'.paths ensures RootOk(d', l', r, groupSize) {
      if r != Group(g) {
        assert RootOk(d, l, r, groupSize);
      }
    }
  }

  /** The disk with both target buffers written. */
  function Both(d: Disk, loc0: Loc, t0: Block, loc1: Loc, t1: Block): Disk
    requires Within(d, loc0) && Writable(d, loc1)
  {
    Put(Put(d, loc0, t0), loc1, t1)
  }

  ghost function SplitKeys(l0: Map, last: nat): set<Root> {
    l0.paths.Keys + {Group(last), Source}
  }

  lemma OthersChain(d: Disk, l: Map, d1: Disk, l1: Map, d2: Disk, l2: Map, d3: Disk, l3: Map, src: nat, last: nat)
    requires OthersSame(d, l, d1, l1, Group(src)) && l1.paths.Keys == l.paths.Keys - {Group(src)} + {Source}
    requires OthersSame(d1, l1, d2, l2, Group(src)) && l2.paths.Keys == l1.paths.Keys + {Group(src)}
    requires OthersSame(d2, l2, d3, l3, Group(last)) && l3.paths.Keys == l2.paths.Keys + {Group(last)}
    requires Group(src) in l.paths && Group(last) !in l2.paths
    ensures SameRoots(d, l, d3, l3, {FreeList, Group(src), Group(last), Source})
    ensures l3.paths.Keys == SplitKeys(l, last)
  {
    hide BlocksOf, SameRoot;
    forall r | r in l.paths && r !in {FreeList, Group(src), Group(last), Source} ensures SameRoot(d, l, d3, l3, r) {
      RootTrans(d, l, d1, l1, d2, l2, r);
      RootTrans(d, l, d2, l2, d3, l3, r);
    }
  }

  lemma RootTrans(d: Disk, l: Map, d': Disk, l': Map, d'': Disk, l'': Map, r: Root)
    requires SameRoot(d, l, d', l', r) && SameRoot(d', l', d'', l'', r)
    ensures SameRoot(d, l, d'', l'', r)
  {
  }

  lemma SplitStart(d: Disk, l: Map, groupSize: nat, src: nat, last: nat) returns (l3: Map)
    requires Sound(d, l, groupSize, {}) && Group(src) in l.paths && Group(last) !in l.paths && Source !in l.paths
    requires src < last <= |d.primary| + 1 && groupSize >= BLOCK_HEADER_SIZE
    ensures 1 <= src <= |d.primary| && Packed(BlockAt(d.primary, src), groupSize)
    ensures BlockAt(d.primary, src).next == Nth(l.paths[Group(src)], 0)
    ensures l3.paths.Keys == SplitKeys(l, last) && l3.paths[Group(src)] == [] == l3.paths[Group(last)]
    ensures l3.paths[Source] == l.paths[Group(src)]
    ensures var v := Both(d, Prim(src), EmptyBlock, Prim(last), EmptyBlock);
            && Draining(d, l, v, l3, groupSize, {FreeList, Group(src), Group(last), Source}, SplitKeys(l, last),
                        GroupBlocks(d, l.paths[Group(src)], src)[1..])
            && RecsAt(v, l3, src) == [] && RecsAt(v, l3, last) == []
            && |v.primary| >= |d.primary|
  {
    hide RecsOf, SameRoot;
    GroupExists(d, l, groupSize, {}, src);
    assert GroupBlocks(d, l.paths[Group(src)], src)[0] == BlockAt(d.primary, src);
    Detach(d, l, groupSize, src);
    var l1 := Rename(l, Group(src), Source);
    Attach(d, l1, groupSize, src);
    var d2, l2 := Put(d, Prim(src), EmptyBlock), Open(l1, Group(src));
    Attach(d2, l2, groupSize, last);
    l3 := Open(l2, Group(last));
    var v := Put(d2, Prim(last), EmptyBlock);
    OthersChain(d, l, d, l1, d2, l2, v, l3, src, last);
    SplitStartRecs(d, l, d2, l2, v, l3, l1, groupSize, src, last);
  }

  lemma SplitStartRecs(d: Disk, l: Map, d2: Disk, l2: Map, v: Disk, l3: Map, l1: Map, groupSize: nat, src: nat, last: nat)
    requires Sound(d2, l2, groupSize, {}) && OthersSame(d2, l2, v, l3, Group(last)) && src != last
    requires Group(src) in l2.paths && l2.paths[Group(src)] == [] && RecsAt(d2, l2, src) == []
    requires OthersSame(d, l1, d2, l2, Group(src)) && Source in l1.paths
    ensures RecsAt(v, l3, src) == [] && Group(src) in l3.paths && l3.paths[Group(src)] == []
    ensures Source in l3.paths && l3.paths[Source] == l1.paths[Source]
    ensures BlocksOf(v.overflow, l3.paths[Source]) == BlocksOf(d.overflow, l1.paths[Source])
  {
    GroupExists(d2, l2, groupSize, {}, src);
    assert SameRoot(d2, l2, v, l3, Group(src));
    RecsFrame(d2, l2, v, l3, src);
    assert SameRoot(d, l1, d2, l2, Source);
    assert SameRoot(d2, l2, v, l3, Source);
  }

  /** Everything has been moved: the emptied root is forgotten. */
  lemma DrainEnd(d0: Disk, l0: Map, v: Disk, l: Map, groupSize: nat, changed: set<Root>, keys: set<Root>)
    requires Draining(d0, l0, v, l, groupSize, changed, keys, [])
    ensures var l' := Close(l, Source);
            && Sound(v, l', groupSize, {})
            && l'.paths.Keys == keys - {Source}
            && (forall r | r in l.paths && r != Source :: r in l'.paths && l'.paths[r] == l.paths[r])
            && (Source !in l0.paths ==> SameRoots(d0, l0, v, l', changed))
  {
    var l' := Close(l, Source);
    assert l.paths[Source] == [];
    CloseKeepsPartition(l, Source);
    forall r | r in l'.paths ensures RootOk(v, l', r, groupSize) {
      assert RootOk(v, l, r, groupSize);
    }
    if Source !in l0.paths {
      forall r | r in l0.paths && r !in changed ensures SameRoot(d0, l0, v, l', r) {
        assert SameRoot(d0, l0, v, l, r);
      }
    }
  }

  /** The groups once one has been divided and a new one filled. */
  lemma SplitGroupsAre(d0: Disk, l0: Map, v: Disk, l: Map, groupSize: nat, count: nat, src: nat, changed: set<Root>)
    requires Sound(d0, l0, groupSize, {}) && SameRoots(d0, l0, v, l, changed) && 1 <= src <= count
    requires changed == {FreeList, Group(src), Group(count + 1), Source}
    requires forall g: nat :: Group(g) in l0.paths <==> 1 <= g <= count
    ensures AllGroups(v, l, count + 1)
            == Divided(AllGroups(d0, l0, count), src, RecsAt(v, l, src), RecsAt(v, l, count + 1))
  {
    hide RecsOf, SameRoots, RecsAt;
    var gs, gs' := AllGroups(d0, l0, count), AllGroups(v, l, count + 1);
    var divided := Divided(gs, src, RecsAt(v, l, src), RecsAt(v, l, count + 1));
    forall i | 0 <= i < count + 1 ensures gs'[i] == divided[i] {
      assert gs'[i] == RecsAt(v, l, i + 1);
      if i + 1 != src && i < count {
        UntouchedRecs(d0, l0, v, l, groupSize, changed, i + 1);
        assert gs[i] == RecsAt(d0, l0, i + 1);
      }
    }
  }

  /** The roots and the large-record chains after a split or a merge. */
  lemma ResizedChains(d0: Disk, l0: Map, v: Disk, l: Map, groupSize: nat, p: Params, p': Params,
                      large: map<Id, (nat, Data)>, changed: set<Root>, keys: set<Root>)
    requires Chains(d0, l0, groupSize, p, large, {}) && p'.Valid() && Sound(v, l, groupSize, {})
    requires SameRoots(d0, l0, v, l, changed) && forall r | r in changed :: r.Group? || r == FreeList || r == Source
    requires l.paths.Keys == keys
    requires forall r :: r in keys <==> (if r.Group? then 1 <= r.g <= p'.modulus else r in l0.paths)
    ensures Chains(v, l, groupSize, p', large, {})
  {
    SameLarge(d0, l0, v, l, large, changed);
    SameKeys(l0, l, keys);
  }

  lemma SplitEnd(d0: Disk, l0: Map, v: Disk, l: Map, groupSize: nat, n: Naming, p: Params, large: map<Id, (nat, Data)>,
                 src: nat, last: nat)
    requires Chains(d0, l0, groupSize, p, large, {}) && last == p.modulus + 1 && src == Buddy(Grow(p))
    requires Draining(d0, l0, v, l, groupSize, {FreeList, Group(src), Group(last), Source}, SplitKeys(l0, last), [])
    requires var at', recs := Address(n, Grow(p)), RecsAt(d0, l0, src);
             RecsAt(v, l, src) == Addressed(n, at', recs, src) && RecsAt(v, l, last) == Addressed(n, at', recs, last)
    ensures 1 <= src <= p.modulus
    ensures Chains(v, Close(l, Source), groupSize, Grow(p), large, {})
    ensures AllGroups(v, Close(l, Source), last)
            == SplitGroups(n, Address(n, Grow(p)), AllGroups(d0, l0, p.modulus), src)
  {
    hide Chains, Addressed, Draining, RecsAt, GroupOf, IsPow2, Address, AllGroups, SplitKeys;
    ValidOf(d0, l0, groupSize, p, large);
    GrowingDivides(n, p);
    SplitEndChains(d0, l0, v, l, groupSize, p, large, src, last);
    ClosedRecs(v, l, src);
    ClosedRecs(v, l, last);
    SplitGroupsAre(d0, l0, v, Close(l, Source), groupSize, p.modulus, src, {FreeList, Group(src), Group(last), Source});
    assert AllGroups(d0, l0, p.modulus)[src - 1] == RecsAt(d0, l0, src);
  }

  lemma SplitEndChains(d0: Disk, l0: Map, v: Disk, l: Map, groupSize: nat, p: Params, large: map<Id, (nat, Data)>,
                       src: nat, last: nat)
    requires Chains(d0, l0, groupSize, p, large, {}) && last == p.modulus + 1 && 1 <= src <= p.modulus && Grow(p).Valid()
    requires Draining(d0, l0, v, l, groupSize, {FreeList, Group(src), Group(last), Source}, SplitKeys(l0, last), [])
    ensures Chains(v, Close(l, Source), groupSize, Grow(p), large, {})
    ensures SameRoots(d0, l0, v, Close(l, Source), {FreeList, Group(src), Group(last), Source})
    ensures Group(src) in l.paths && Group(last) in l.paths
  {
    hide Sound, LargeTied, SameRoots, RecsAt, IsPow2;
    var changed := {FreeList, Group(src), Group(last), Source};
    DrainEnd(d0, l0, v, l, groupSize, changed, SplitKeys(l0, last));
    ResizedChains(d0, l0, v, Close(l, Source), groupSize, p, Grow(p), large, changed, SplitKeys(l0, last) - {Source});
  }

  lemma SplitStands(d0: Disk, l0: Map, v: Disk, l: Map, groupSize: nat, n: Naming, p: Params, mean: Meaning,
                    src: nat, last: nat)
    requires Standing(d0, l0, groupSize, n, p, mean, {}) && last == p.modulus + 1 && src == Buddy(Grow(p))
    requires Draining(d0, l0, v, l, groupSize, {FreeList, Group(src), Group(last), Source}, SplitKeys(l0, last), [])
    requires var at', recs := Address(n, Grow(p)), RecsAt(d0, l0, src);
             RecsAt(v, l, src) == Addressed(n, at', recs, src) && RecsAt(v, l, last) == Addressed(n, at', recs, last)
    ensures 1 <= src <= p.modulus
    ensures Standing(v, Close(l, Source), groupSize, n, Grow(p), mean, {})
    ensures AllGroups(v, Close(l, Source), last)
            == SplitGroups(n, Address(n, Grow(p)), AllGroups(d0, l0, p.modulus), src)
  {
    hide Chains, Draining, Addressed, TotalBytes, TotalCount, TableOk, RecsAt, SplitGroups, AllGroups, Address, IsPow2;
    SplitEnd(d0, l0, v, l, groupSize, n, p, mean.large, src, last);
    ValidOf(d0, l0, groupSize, p, mean.large);
    GrowingDivides(n, p);
    SplitKeepsTable(n, Address(n, p), Address(n, Grow(p)), AllGroups(d0, l0, p.modulus), src, mean.m, mean.large);
    SplitConserves(n, Address(n, p), Address(n, Grow(p)), AllGroups(d0, l0, p.modulus), src, mean.m, mean.large);
  }

  lemma ValidOf(d: Disk, l: Map, groupSize: nat, p: Params, large: map<Id, (nat, Data)>)
    requires Chains(d, l, groupSize, p, large, {})
    ensures p.Valid() && Sound(d, l, groupSize, {}) && Source !in l.paths
    ensures forall g: nat :: Group(g) in l.paths <==> 1 <= g <= p.modulus
  {
  }

  lemma ClosedRecs(v: Disk, l: Map, g: nat)
    requires Group(g) in l.paths
    ensures RecsAt(v, Close(l, Source), g) == RecsAt(v, l, g)
  {
  }

  // ------------------------------------------------------------------------
  // Dividing a group

  /** A group being divided: the records in `stay` have gone back to it, those in `move` to
      the new group, each list ending in a buffer in memory. */
  ghost predicate Dividing(d0: Disk, l0: Map, d: Disk, l: Map, groupSize: nat, src: nat, last: nat,
                           loc0: Loc, t0: Block, loc1: Loc, t1: Block,
                           stay: seq<Record>, move: seq<Record>, rest: seq<Block>) {
    && Buffers(d, l, src, last, loc0, loc1)
    && var v := Both(d, loc0, t0, loc1, t1);
    && Draining(d0, l0, v, l, groupSize, {FreeList, Group(src), Group(last), Source}, SplitKeys(l0, last), rest)
    && Group(src) in l0.paths
    && RecsAt(v, l, src) == stay && RecsAt(v, l, last) == move
  }

  ghost predicate Buffers(d: Disk, l: Map, src: nat, last: nat, loc0: Loc, loc1: Loc) {
    && Within(d, loc0) && Writable(d, loc1) && loc0 != loc1 && src != last
    && Group(src) in l.paths && loc0 == LocAt(l.paths[Group(src)], src, |l.paths[Group(src)]|)
    && Group(last) in l.paths && loc1 == LocAt(l.paths[Group(last)], last, |l.paths[Group(last)]|)
  }

  lemma BothOrders(d: Disk, loc0: Loc, t0: Block, loc1: Loc, t1: Block)
    requires Within(d, loc0) && Writable(d, loc1) && loc0 != loc1
    ensures Writable(Put(d, loc0, t0), loc1) && Within(Put(d, loc1, t1), loc0)
    ensures Put(Put(d, loc1, t1), loc0, t0) == Both(d, loc0, t0, loc1, t1)
  {
    PutCommutes(d, loc0, t0, loc1, t1);
  }

  lemma SidesGood(d: Disk, l: Map, src: nat, last: nat, loc0: Loc, t0: Block, loc1: Loc, t1: Block)
    requires Buffers(d, l, src, last, loc0, loc1)
    ensures SideGood(d, l, Side(src, loc0, t0), loc1, last) && SideGood(d, l, Side(last, loc1, t1), loc0, src)
  {
    BothOrders(d, loc0, t0, loc1, t1);
  }

  /** Either buffer can take another record. */
  lemma DivideReady(d0: Disk, l0: Map, d: Disk, l: Map, groupSize: nat, src: nat, last: nat,
                    loc0: Loc, t0: Block, loc1: Loc, t1: Block, stay: seq<Record>, move: seq<Record>, rest: seq<Block>,
                    g: nat)
    requires Dividing(d0, l0, d, l, groupSize, src, last, loc0, t0, loc1, t1, stay, move, rest)
    requires g == src || g == last
    ensures Writable(Put(d, loc0, t0), loc1) && Within(Put(d, loc1, t1), loc0)
    ensures Put(Put(d, loc1, t1), loc0, t0) == Both(d, loc0, t0, loc1, t1)
    ensures SideGood(d, l, Side(src, loc0, t0), loc1, last) && SideGood(d, l, Side(last, loc1, t1), loc0, src)
    ensures Sound(Both(d, loc0, t0, loc1, t1), l, groupSize, {Group(g)})
    ensures Opened(Both(d, loc0, t0, loc1, t1), l, g, groupSize, |l.paths[Group(g)]|)
  {
    hide RecsOf, RecsAt, SameRoots;
    BothOrders(d, loc0, t0, loc1, t1);
    SidesGood(d, l, src, last, loc0, t0, loc1, t1);
    var v := Both(d, loc0, t0, loc1, t1);
    GroupExists(v, l, groupSize, {}, g);
    AnyHole(v, l, groupSize, g, |l.paths[Group(g)]|);
    Widen(v, l, groupSize, {}, {Group(g)});
  }

  /** A record has gone to the new group. */
  lemma DividedNew(d0: Disk, l0: Map, d: Disk, l: Map, groupSize: nat, src: nat, last: nat,
                   loc0: Loc, t0: Block, loc1: Loc, t1: Block, stay: seq<Record>, move: seq<Record>, rest: seq<Block>,
                   rec: Record, d': Disk, l': Map, loc1': Loc, t1': Block)
    requires Dividing(d0, l0, d, l, groupSize, src, last, loc0, t0, loc1, t1, stay, move, rest)
    requires SideGood(d', l', Side(src, loc0, t0), loc1', last) && |d'.primary| >= |d.primary|
    requires Appended(Both(d, loc0, t0, loc1, t1), l, Put(Laid(d', Side(src, loc0, t0)), loc1', t1'), l',
                      last, groupSize, {Group(last)}, rec)
    requires loc1' == LocAt(PathOf(l', Group(last)), last, |PathOf(l', Group(last))|)
    ensures Dividing(d0, l0, d', l', groupSize, src, last, loc0, t0, loc1', t1', stay, move + [rec], rest)
  {
    hide RecsOf, RecsAt, SameRoots, RootOk, Partition, Bytes, BlocksOf;
    var v, v' := Both(d, loc0, t0, loc1, t1), Put(Laid(d', Side(src, loc0, t0)), loc1', t1');
    assert Within(d', loc0);
    assert Writable(d', loc1');
    DrainAppend(d0, l0, v, l, v', l', groupSize, {FreeList, Group(src), Group(last), Source}, SplitKeys(l0, last),
                rest, last, rec);
    UntouchedRecs(v, l, v', l', groupSize, {FreeList, Group(last)}, src);
  }

  /** A record has gone back to the group it was in. */
  lemma DividedOld(d0: Disk, l0: Map, d: Disk, l: Map, groupSize: nat, src: nat, last: nat,
                   loc0: Loc, t0: Block, loc1: Loc, t1: Block, stay: seq<Record>, move: seq<Record>, rest: seq<Block>,
                   rec: Record, d': Disk, l': Map, loc0': Loc, t0': Block)
    requires Dividing(d0, l0, d, l, groupSize, src, last, loc0, t0, loc1, t1, stay, move, rest)
    requires SideGood(d', l', Side(last, loc1, t1), loc0', src) && Within(d', loc0')
    requires Appended(Both(d, loc0, t0, loc1, t1), l, Put(Laid(d', Side(last, loc1, t1)), loc0', t0'), l',
                      src, groupSize, {Group(src)}, rec)
    requires loc0' == LocAt(PathOf(l', Group(src)), src, |PathOf(l', Group(src))|)
    ensures Dividing(d0, l0, d', l', groupSize, src, last, loc0', t0', loc1, t1, stay + [rec], move, rest)
  {
    hide RecsOf, RecsAt, SameRoots;
    var v, v' := Both(d, loc0, t0, loc1, t1), Put(Laid(d', Side(last, loc1, t1)), loc0', t0');
    BothOrders(d', loc0', t0', loc1, t1);
    DrainAppend(d0, l0, v, l, v', l', groupSize, {FreeList, Group(src), Group(last), Source}, SplitKeys(l0, last),
                rest, src, rec);
    UntouchedRecs(v, l, v', l', groupSize, {FreeList, Group(src)}, last);
  }

  lemma SourceApart(l: Map, g: nat, loc: Loc)
    requires Partition(l) && Source in l.paths && Group(g) in l.paths && l.paths[Source] != []
    requires loc == LocAt(l.paths[Group(g)], g, |l.paths[Group(g)]|)
    ensures loc != Over(l.paths[Source][0])
  {
    assert l.paths[Source][0] in l.paths[Source];
    if |l.paths[Group(g)]| > 0 {
      OwnersDiffer(l, Source, l.paths[Source][0], Group(g));
    }
  }

  /** The next block to be emptied is on the disk as it was. */
  lemma DivideHead(d0: Disk, l0: Map, d: Disk, l: Map, groupSize: nat, src: nat, last: nat,
                   loc0: Loc, t0: Block, loc1: Loc, t1: Block, stay: seq<Record>, move: seq<Record>, rest: seq<Block>)
    requires Dividing(d0, l0, d, l, groupSize, src, last, loc0, t0, loc1, t1, stay, move, rest)
    ensures |rest| == |PathOf(l, Source)|
    ensures rest == [] <==> Nth(PathOf(l, Source), 0) == 0
    ensures rest != [] ==>
              var b := l.paths[Source][0];
              && loc0 != Over(b) && loc1 != Over(b) && Within(d, Over(b)) && Get(d, Over(b)) == rest[0]
              && Packed(rest[0], groupSize) && rest[0].next == Nth(l.paths[Source], 1)
  {
    hide RecsOf, RecsAt, SameRoots;
    if rest != [] {
      DrainHead(Both(d, loc0, t0, loc1, t1), l, groupSize);
      SourceApart(l, src, loc0);
      SourceApart(l, last, loc1);
    }
  }

  /** The emptied block has been freed. */
  lemma DivideFree(d0: Disk, l0: Map, d: Disk, l: Map, groupSize: nat, src: nat, last: nat,
                   loc0: Loc, t0: Block, loc1: Loc, t1: Block, stay: seq<Record>, move: seq<Record>, rest: seq<Block>)
    requires Dividing(d0, l0, d, l, groupSize, src, last, loc0, t0, loc1, t1, stay, move, rest) && rest != []
    ensures Source in l.paths && l.paths[Source] != [] && FreeList in l.paths && 1 <= l.paths[Source][0] <= |l.owner|
    ensures 1 <= l.paths[Source][0] <= |d.overflow|
    ensures Dividing(d0, l0, Free(d, l.paths[Source][0]), Release(l, Source, 0), groupSize, src, last,
                     loc0, t0, loc1, t1, stay, move, rest[1..])
    ensures PathOf(Release(l, Source, 0), Source) == l.paths[Source][1..]
  {
    hide RecsOf, RecsAt, SameRoots;
    var v, b := Both(d, loc0, t0, loc1, t1), l.paths[Source][0];
    DivideHead(d0, l0, d, l, groupSize, src, last, loc0, t0, loc1, t1, stay, move, rest);
    DrainFree(d0, l0, v, l, groupSize, {FreeList, Group(src), Group(last), Source}, SplitKeys(l0, last), rest);
    FreeCommutes(d, loc0, t0, b);
    FreeCommutes(Put(d, loc0, t0), loc1, t1, b);
    var v', l' := Free(v, b), Release(l, Source, 0);
    UntouchedRecs(v, l, v', l', groupSize, {FreeList, Source}, src);
    UntouchedRecs(v, l, v', l', groupSize, {FreeList, Source}, last);
  }

  lemma DivideStart(d: Disk, l: Map, groupSize: nat, src: nat, last: nat) returns (l': Map)
    requires Sound(d, l, groupSize, {}) && Group(src) in l.paths && Group(last) !in l.paths && Source !in l.paths
    requires src < last <= |d.primary| + 1 && groupSize >= BLOCK_HEADER_SIZE
    ensures 1 <= src <= |d.primary| && Packed(BlockAt(d.primary, src), groupSize)
    ensures BlockAt(d.primary, src).next == Nth(PathOf(l', Source), 0)
    ensures Dividing(d, l, d, l', groupSize, src, last, Prim(src), EmptyBlock, Prim(last), EmptyBlock, [], [],
                     GroupBlocks(d, l.paths[Group(src)], src)[1..])
  {
    hide RecsOf, RecsAt, SameRoots;
    l' := SplitStart(d, l, groupSize, src, last);
  }

  lemma SourceKept(v: Disk, l: Map, v': Disk, l': Map, groupSize: nat, g: nat, rec: Record)
    requires Group(g) in l.paths && Appended(v, l, v', l', g, groupSize, {Group(g)}, rec)
    ensures PathOf(l', Source) == PathOf(l, Source)
  {
    if Source in l.paths {
      assert SameRoot(v, l, v', l', Source);
    } else {
      assert Source !in l'.paths.Keys;
    }
  }

  /** Every record of the list is addressed to one of two groups. */
  ghost predicate OnlyTo(n: Naming, p: Params, recs: seq<Record>, src: nat, last: nat) {
    forall i | 0 <= i < |recs| :: AddressOf(n, p, KeyOf(n, recs[i])) == src || AddressOf(n, p, KeyOf(n, recs[i])) == last
  }

  /** A group being divided, `done` being its records moved so far. */
  ghost predicate DividedSoFar(d0: Disk, l0: Map, d: Disk, l: Map, groupSize: nat, n: Naming, p: Params, src: nat,
                               last: nat,
                           loc0: Loc, t0: Block, loc1: Loc, t1: Block, done: seq<Record>, rest: seq<Block>) {
    Dividing(d0, l0, d, l, groupSize, src, last, loc0, t0, loc1, t1,
             Addressed(n, Address(n, p), done, src), Addressed(n, Address(n, p), done, last), rest)
  }

  lemma AddressedOne(n: Naming, p: Params, recs: seq<Record>, rec: Record, src: nat, last: nat, g: nat)
    requires src != last && g == AddressOf(n, p, KeyOf(n, rec)) && (g == src || g == last)
    ensures var at := Address(n, p);
            && Addressed(n, at, recs + [rec], src)
               == (if g == last then Addressed(n, at, recs, src) else Addressed(n, at, recs, src) + [rec])
            && Addressed(n, at, recs + [rec], last)
               == (if g == last then Addressed(n, at, recs, last) + [rec] else Addressed(n, at, recs, last))
  {
    var at := Address(n, p);
    assert HomeOf(at, KeyOf(n, rec)) == g;
    AddressedAppend(n, at, recs, rec, src);
    AddressedAppend(n, at, recs, rec, last);
  }

  ghost predicate AllTo(n: Naming, p: Params, bs: seq<Block>, src: nat, last: nat) {
    forall i | 0 <= i < |bs| && bs[i].DataBlock? :: OnlyTo(n, p, bs[i].recs, src, last)
  }

  /** The records of a group that is to be divided go to one of the two groups. */
  lemma RecordsDivide(d: Disk, l: Map, groupSize: nat, n: Naming, p: Params, m: map<Id, Data>, large: map<Id, (nat, Data)>,
                      src: nat, last: nat)
    requires Image(d, l, groupSize, n, p, m, large, {}) && last == p.modulus + 1 && src == Buddy(Grow(p))
    ensures 1 <= src <= p.modulus && OnlyTo(n, Grow(p), RecsAt(d, l, src), src, last)
  {
    hide Chains, RecsAt, AddressOf, IsPow2;
    ValidOf(d, l, groupSize, p, large);
    GrowingDivides(n, p);
    var groups, recs := AllGroups(d, l, p.modulus), RecsAt(d, l, src);
    assert groups[src - 1] == recs;
    assert GroupTable(n, Address(n, p), groups, src, m, large);
    forall i | 0 <= i < |recs|
      ensures AddressOf(n, Grow(p), KeyOf(n, recs[i])) == src || AddressOf(n, Grow(p), KeyOf(n, recs[i])) == last
    {
      var k := KeyOf(n, recs[i]);
      assert Placed(n, Address(n, p), recs[i], src, m, large);
      assert HomeOf(Address(n, Grow(p)), k) == AddressOf(n, Grow(p), k);
    }
  }

  /** If the records of a chain go to two groups, so do those of each block. */
  lemma {:induction false} BlocksDivide(n: Naming, p: Params, bs: seq<Block>, src: nat, last: nat)
    requires OnlyTo(n, p, RecsOf(bs), src, last)
    ensures AllTo(n, p, bs, src, last)
  {
    hide AddressOf, Key;
    forall i | 0 <= i < |bs| && bs[i].DataBlock? ensures OnlyTo(n, p, bs[i].recs, src, last) {
      RecsOfAround(bs, i);
      forall j | 0 <= j < |bs[i].recs|
        ensures AddressOf(n, p, KeyOf(n, bs[i].recs[j])) == src || AddressOf(n, p, KeyOf(n, bs[i].recs[j])) == last
      {
        assert RecsOf(bs)[|RecsOf(bs[..i])| + j] == bs[i].recs[j];
      }
    }
  }

  lemma SplitFacts(d: Disk, l: Map, groupSize: nat, n: Naming, p: Params, mean: Meaning, src: nat, last: nat)
    requires Standing(d, l, groupSize, n, p, mean, {}) && last == p.modulus + 1 && src == Buddy(Grow(p))
    ensures Sound(d, l, groupSize, {}) && 1 <= src < last <= |d.primary| + 1 && Grow(p).Valid()
    ensures Group(src) in l.paths && Group(last) !in l.paths && Source !in l.paths
    ensures var bs := GroupBlocks(d, PathOf(l, Group(src)), src);
            && Within(d, Prim(src)) && Get(d, Prim(src)) == bs[0] && Packed(bs[0], groupSize)
            && RecsAt(d, l, src) == bs[0].recs + RecsOf(bs[1..])
            && AllTo(n, Grow(p), bs, src, last)
  {
    hide TotalBytes, TotalCount, TableOk, AddressOf, IsPow2, RecsOf, LargeTied;
    ValidOf(d, l, groupSize, p, mean.large);
    GrowingDivides(n, p);
    GroupExists(d, l, groupSize, {}, src);
    GroupExists(d, l, groupSize, {}, p.modulus);
    var bs := GroupBlocks(d, l.paths[Group(src)], src);
    assert Packed(bs[0], groupSize);
    FirstRecs(bs);
    RecordsDivide(d, l, groupSize, n, p, mean.m, mean.large, src, last);
    BlocksDivide(n, Grow(p), bs, src, last);
  }

  lemma FirstRecs(bs: seq<Block>)
    requires bs != [] && bs[0].DataBlock?
    ensures RecsOf(bs) == bs[0].recs + RecsOf(bs[1..])
  {
  }

  lemma SourceBegins(d: Disk, l: Map, groupSize: nat, n: Naming, p: Params, src: nat, last: nat)
    requires src != last && Group(src) in l.paths
    ensures Addressed(n, Address(n, Grow(p)), [], src) == [] == Addressed(n, Address(n, Grow(p)), [], last)
    ensures AllTo(n, Grow(p), GroupBlocks(d, PathOf(l, Group(src)), src), src, last)
            ==> AllTo(n, Grow(p), GroupBlocks(d, PathOf(l, Group(src)), src)[1..], src, last)
                && (Packed(GroupBlocks(d, PathOf(l, Group(src)), src)[0], groupSize)
                    ==> OnlyTo(n, Grow(p), GroupBlocks(d, PathOf(l, Group(src)), src)[0].recs, src, last))
  {
  }

  /** The next source block is on the disk, and its records go to the two groups. */
  lemma SourceNext(d0: Disk, l0: Map, d: Disk, l: Map, groupSize: nat, n: Naming, p: Params, src: nat, last: nat,
                   loc0: Loc, t0: Block, loc1: Loc, t1: Block, done: seq<Record>, rest: seq<Block>)
    requires DividedSoFar(d0, l0, d, l, groupSize, n, p, src, last, loc0, t0, loc1, t1, done, rest)
    requires Nth(PathOf(l, Source), 0) != 0 && AllTo(n, p, rest, src, last)
    ensures rest != [] && Within(d, Over(Nth(PathOf(l, Source), 0))) && Get(d, Over(Nth(PathOf(l, Source), 0))) == rest[0]
    ensures Packed(rest[0], groupSize) && OnlyTo(n, p, rest[0].recs, src, last) && AllTo(n, p, rest[1..], src, last)
    ensures rest[0].next == Nth(PathOf(l, Source), 1) && RecsOf(rest) == rest[0].recs + RecsOf(rest[1..])
  {
    hide Addressed, OnlyTo, Draining, RecsAt, Buffers;
    DivideHead(d0, l0, d, l, groupSize, src, last, loc0, t0, loc1, t1,
               Addressed(n, Address(n, p), done, src), Addressed(n, Address(n, p), done, last), rest);
  }

  /** The source block just emptied is freed. */
  lemma SourceDone(d0: Disk, l0: Map, d: Disk, l: Map, groupSize: nat, n: Naming, p: Params, src: nat, last: nat,
                   loc0: Loc, t0: Block, loc1: Loc, t1: Block, done: seq<Record>, rest: seq<Block>)
    requires DividedSoFar(d0, l0, d, l, groupSize, n, p, src, last, loc0, t0, loc1, t1, done, rest) && rest != []
    ensures Source in l.paths && l.paths[Source] != [] && FreeList in l.paths && 1 <= l.paths[Source][0] <= |l.owner|
    ensures var b := Nth(PathOf(l, Source), 0);
            && 1 <= b <= |d.overflow|
            && DividedSoFar(d0, l0, Free(d, b), Release(l, Source, 0), groupSize, n, p, src, last, loc0, t0, loc1, t1,
                            done, rest[1..])
    ensures Nth(PathOf(Release(l, Source, 0), Source), 0) == Nth(PathOf(l, Source), 1)
  {
    hide Addressed, Draining, RecsAt, Buffers;
    DivideFree(d0, l0, d, l, groupSize, src, last, loc0, t0, loc1, t1,
               Addressed(n, Address(n, p), done, src), Addressed(n, Address(n, p), done, last), rest);
  }

  /** All records have been moved: with the buffers written the file stands for the same map,
      under the new parameters. */
  lemma SourceEnds(d0: Disk, l0: Map, d: Disk, l: Map, groupSize: nat, n: Naming, p: Params, mean: Meaning,
                   src: nat, last: nat, loc0: Loc, t0: Block, loc1: Loc, t1: Block, done: seq<Record>, rest: seq<Block>)
    requires Standing(d0, l0, groupSize, n, p, mean, {}) && last == p.modulus + 1 && src == Buddy(Grow(p))
    requires DividedSoFar(d0, l0, d, l, groupSize, n, Grow(p), src, last, loc0, t0, loc1, t1, done, rest)
    requires Nth(PathOf(l, Source), 0) == 0 && done + RecsOf(rest) == RecsAt(d0, l0, src)
    ensures 1 <= src <= p.modulus && Writable(d, loc0) && Within(d, loc0) && Writable(d, loc1)
    ensures Writable(Put(d, loc0, t0), loc1)
    ensures Standing(Both(d, loc0, t0, loc1, t1), Close(l, Source), groupSize, n, Grow(p), mean, {})
    ensures AllGroups(Both(d, loc0, t0, loc1, t1), Close(l, Source), last)
            == SplitGroups(n, Address(n, Grow(p)), AllGroups(d0, l0, p.modulus), src)
  {
    hide Addressed, Draining, RecsAt, Standing, Address, SplitGroups, IsPow2;
    DivideHead(d0, l0, d, l, groupSize, src, last, loc0, t0, loc1, t1,
               Addressed(n, Address(n, Grow(p)), done, src), Addressed(n, Address(n, Grow(p)), done, last), rest);
    assert done + RecsOf(rest) == done;
    SplitStands(d0, l0, Both(d, loc0, t0, loc1, t1), l, groupSize, n, p, mean, src, last);
  }

  lemma FirstFacts(d: Disk, l: Map, groupSize: nat, n: Naming, p: Params, mean: Meaning, src: nat, last: nat)
    returns (l': Map, rest: seq<Block>)
    requires Standing(d, l, groupSize, n, p, mean, {}) && last == p.modulus + 1 && src == Buddy(Grow(p))
    requires groupSize >= BLOCK_HEADER_SIZE
    ensures Grow(p).Valid() && src != last && Within(d, Prim(src))
    ensures var b := Get(d, Prim(src));
            && Packed(b, groupSize) && OnlyTo(n, Grow(p), b.recs, src, last)
            && b.recs + RecsOf(rest) == RecsAt(d, l, src) && b.next == Nth(PathOf(l', Source), 0)
    ensures AllTo(n, Grow(p), rest, src, last)
    ensures DividedSoFar(d, l, d, l', groupSize, n, Grow(p), src, last, Prim(src), EmptyBlock, Prim(last), EmptyBlock, [], rest)
  {
    hide Standing, RecsAt, RecsOf, AllTo, OnlyTo, GroupBlocks, Sound, AddressOf, IsPow2, Dividing, Addressed;
    hide Address, GroupOf, Grow, Buddy;
    SplitFacts(d, l, groupSize, n, p, mean, src, last);
    l' := DivideStart(d, l, groupSize, src, last);
    rest := GroupBlocks(d, PathOf(l, Group(src)), src)[1..];
    SourceBegins(d, l, groupSize, n, p, src, last);
  }

  // ------------------------------------------------------------------------
  // Folding the last group into another

  ghost function MergeKeys(l0: Map, src: nat): set<Root> {
    l0.paths.Keys - {Group(src)} + {Source}
  }

  /** The records of group `src` are being added to group `tgt`, whose last block is in memory. */
  ghost predicate Folding(d0: Disk, l0: Map, d: Disk, l: Map, groupSize: nat, tgt: nat, src: nat, loc: Loc, t: Block,
                          recs: seq<Record>, rest: seq<Block>) {
    && Within(d, loc) && tgt != src && src <= |d.primary| && 1 <= src && Group(src) in l0.paths && Group(tgt) in l0.paths
    && Group(tgt) in l.paths && loc == LocAt(l.paths[Group(tgt)], tgt, |l.paths[Group(tgt)]|)
    && Draining(d0, l0, Put(d, loc, t), l, groupSize, {FreeList, Group(tgt), Group(src), Source}, MergeKeys(l0, src), rest)
    && RecsAt(Put(d, loc, t), l, tgt) == recs
  }

  lemma FoldStart(d: Disk, l: Map, groupSize: nat, tgt: nat, src: nat, loc: Loc, t: Block)
    requires Sound(d, l, groupSize, {}) && Group(src) in l.paths && Group(tgt) in l.paths && Source !in l.paths
             && tgt != src
    requires loc == LocAt(l.paths[Group(tgt)], tgt, |l.paths[Group(tgt)]|)
    requires t == GroupBlocks(d, l.paths[Group(tgt)], tgt)[|l.paths[Group(tgt)]|]
    ensures Folding(d, l, d, Rename(l, Group(src), Source), groupSize, tgt, src, loc, t, RecsAt(d, l, tgt),
                    GroupBlocks(d, l.paths[Group(src)], src)[1..])
    ensures PathOf(Rename(l, Group(src), Source), Source) == l.paths[Group(src)]
  {
    hide RecsOf;
    GroupExists(d, l, groupSize, {}, src);
    BlockOfGroup(d, l, groupSize, tgt, |l.paths[Group(tgt)]|);
    PutSame(d, loc);
    Detach(d, l, groupSize, src);
  }

  /** The target can take another record. */
  lemma FoldReady(d0: Disk, l0: Map, d: Disk, l: Map, groupSize: nat, tgt: nat, src: nat, loc: Loc, t: Block,
                  recs: seq<Record>, rest: seq<Block>)
    requires Folding(d0, l0, d, l, groupSize, tgt, src, loc, t, recs, rest)
    ensures Sound(Put(d, loc, t), l, groupSize, {Group(tgt)})
    ensures Opened(Put(d, loc, t), l, tgt, groupSize, |l.paths[Group(tgt)]|)
    ensures Writable(d, loc)
  {
    hide RecsOf, RecsAt, SameRoots;
    var v := Put(d, loc, t);
    GroupExists(v, l, groupSize, {}, tgt);
    AnyHole(v, l, groupSize, tgt, |l.paths[Group(tgt)]|);
    Widen(v, l, groupSize, {}, {Group(tgt)});
  }

  lemma Folded1(d0: Disk, l0: Map, d: Disk, l: Map, groupSize: nat, tgt: nat, src: nat, loc: Loc, t: Block,
                recs: seq<Record>, rest: seq<Block>, rec: Record, d': Disk, l': Map, loc': Loc, t': Block)
    requires Folding(d0, l0, d, l, groupSize, tgt, src, loc, t, recs, rest)
    requires Within(d', loc') && |d'.primary| >= |d.primary|
    requires Appended(Put(d, loc, t), l, Put(d', loc', t'), l', tgt, groupSize, {Group(tgt)}, rec)
    requires loc' == LocAt(PathOf(l', Group(tgt)), tgt, |PathOf(l', Group(tgt))|)
    ensures Folding(d0, l0, d', l', groupSize, tgt, src, loc', t', recs + [rec], rest)
    ensures PathOf(l', Source) == PathOf(l, Source)
  {
    hide RecsOf, RecsAt, SameRoots;
    DrainAppend(d0, l0, Put(d, loc, t), l, Put(d', loc', t'), l', groupSize, {FreeList, Group(tgt), Group(src), Source},
                MergeKeys(l0, src), rest, tgt, rec);
    SourceKept(Put(d, loc, t), l, Put(d', loc', t'), l', groupSize, tgt, rec);
  }

  lemma FoldHead(d0: Disk, l0: Map, d: Disk, l: Map, groupSize: nat, tgt: nat, src: nat, loc: Loc, t: Block,
                 recs: seq<Record>, rest: seq<Block>)
    requires Folding(d0, l0, d, l, groupSize, tgt, src, loc, t, recs, rest)
    ensures rest == [] <==> Nth(PathOf(l, Source), 0) == 0
    ensures rest != [] ==>
              var b := Nth(PathOf(l, Source), 0);
              && loc != Over(b) && Within(d, Over(b)) && Get(d, Over(b)) == rest[0]
              && Packed(rest[0], groupSize) && rest[0].next == Nth(PathOf(l, Source), 1)
              && RecsOf(rest) == rest[0].recs + RecsOf(rest[1..])
  {
    hide RecsAt, SameRoots;
    assert |rest| == |PathOf(l, Source)|;
    if rest != [] {
      DrainHead(Put(d, loc, t), l, groupSize);
      SourceApart(l, tgt, loc);
      FirstRecs(rest);
    }
  }

  lemma FoldFree(d0: Disk, l0: Map, d: Disk, l: Map, groupSize: nat, tgt: nat, src: nat, loc: Loc, t: Block,
                 recs: seq<Record>, rest: seq<Block>)
    requires Folding(d0, l0, d, l, groupSize, tgt, src, loc, t, recs, rest) && rest != []
    ensures Source in l.paths && l.paths[Source] != [] && FreeList in l.paths && 1 <= l.paths[Source][0] <= |l.owner|
    ensures var b := Nth(PathOf(l, Source), 0);
            && 1 <= b <= |d.overflow|
            && Folding(d0, l0, Free(d, b), Release(l, Source, 0), groupSize, tgt, src, loc, t, recs, rest[1..])
    ensures Nth(PathOf(Release(l, Source, 0), Source), 0) == Nth(PathOf(l, Source), 1)
  {
    hide RecsOf, RecsAt, SameRoots;
    var v, b := Put(d, loc, t), l.paths[Source][0];
    FoldHead(d0, l0, d, l, groupSize, tgt, src, loc, t, recs, rest);
    DrainFree(d0, l0, v, l, groupSize, {FreeList, Group(tgt), Group(src), Source}, MergeKeys(l0, src), rest);
    FreeCommutes(d, loc, t, b);
    UntouchedRecs(v, l, Free(v, b), Release(l, Source, 0), groupSize, {FreeList, Source}, tgt);
  }

  /** The primary block of a group that is no longer one can be overwritten. */
  lemma Abandon(d: Disk, l: Map, groupSize: nat, g: nat, b: Block)
    requires Sound(d, l, groupSize, {}) && Group(g) !in l.paths && 1 <= g <= |d.primary|
    ensures var d' := Put(d, Prim(g), b);
            && Sound(d', l, groupSize, {}) && forall r | r in l.paths :: SameRoot(d, l, d', l, r)
  {
    var d' := Put(d, Prim(g), b);
    forall r | r in l.paths ensures SameRoot(d, l, d', l, r) && RootOk(d', l, r, groupSize) {
      assert RootOk(d, l, r, groupSize);
    }
  }

  /** The groups once the last one has been folded into another. */
  lemma MergeGroupsAre(d0: Disk, l0: Map, v: Disk, l: Map, groupSize: nat, count: nat, tgt: nat)
    requires Sound(d0, l0, groupSize, {}) && SameRoots(d0, l0, v, l, {FreeList, Group(tgt), Group(count), Source})
    requires 1 <= tgt < count && RecsAt(v, l, tgt) == RecsAt(d0, l0, tgt) + RecsAt(d0, l0, count)
    requires forall g: nat :: Group(g) in l0.paths <==> 1 <= g <= count
    ensures AllGroups(v, l, count - 1) == MergeGroups(AllGroups(d0, l0, count), tgt)
  {
    hide RecsOf, SameRoots, RecsAt, RootOk, Partition;
    var gs, gs' := AllGroups(d0, l0, count), AllGroups(v, l, count - 1);
    var merged := MergeGroups(gs, tgt);
    assert gs[count - 1] == RecsAt(d0, l0, count) && gs[tgt - 1] == RecsAt(d0, l0, tgt);
    forall i | 0 <= i < count - 1 ensures gs'[i] == merged[i] {
      assert gs'[i] == RecsAt(v, l, i + 1) && gs[i] == RecsAt(d0, l0, i + 1);
      if i + 1 != tgt {
        UntouchedRecs(d0, l0, v, l, groupSize, {FreeList, Group(tgt), Group(count), Source}, i + 1);
      }
    }
  }

  lemma MergeEndChains(d0: Disk, l0: Map, v: Disk, l: Map, groupSize: nat, p: Params, large: map<Id, (nat, Data)>,
                       tgt: nat, src: nat)
    requires Chains(d0, l0, groupSize, p, large, {}) && src == p.modulus && 1 <= tgt < src && Shrink(p).Valid()
    requires Draining(d0, l0, v, l, groupSize, {FreeList, Group(tgt), Group(src), Source}, MergeKeys(l0, src), [])
    requires src <= |v.primary| && Group(tgt) in l.paths
    ensures var v', l' := Put(v, Prim(src), FreeBlock(0)), Close(l, Source);
            && Chains(v', l', groupSize, Shrink(p), large, {})
            && SameRoots(d0, l0, v', l', {FreeList, Group(tgt), Group(src), Source})
            && RecsAt(v', l', tgt) == RecsAt(v, l, tgt)
  {
    hide LargeTied, RecsAt, IsPow2, RootOk, Partition, SameRoot;
    var changed := {FreeList, Group(tgt), Group(src), Source};
    DrainEnd(d0, l0, v, l, groupSize, changed, MergeKeys(l0, src));
    var l' := Close(l, Source);
    assert Group(src) !in l'.paths.Keys;
    Abandon(v, l', groupSize, src, FreeBlock(0));
    var v' := Put(v, Prim(src), FreeBlock(0));
    AbandonedRoots(d0, l0, v, l', v', changed);
    ClosedRecs(v, l, tgt);
    GroupExists(v, l', groupSize, {}, tgt);
    RecsFrame(v, l', v', l', tgt);
    ResizedChains(d0, l0, v', l', groupSize, p, Shrink(p), large, changed, MergeKeys(l0, src) - {Source});
  }

  lemma AbandonedRoots(d0: Disk, l0: Map, v: Disk, l: Map, v': Disk, changed: set<Root>)
    requires SameRoots(d0, l0, v, l, changed) && forall r | r in l.paths :: SameRoot(v, l, v', l, r)
    ensures SameRoots(d0, l0, v', l, changed)
  {
    hide SameRoot;
    forall r | r in l0.paths && r !in changed ensures SameRoot(d0, l0, v', l, r) {
      assert SameRoot(d0, l0, v, l, r);
      InBoth(d0, l0, v, l, r);
      RootTrans(d0, l0, v, l, v', l, r);
    }
  }

  lemma InBoth(d: Disk, l: Map, d': Disk, l': Map, r: Root)
    requires SameRoot(d, l, d', l', r)
    ensures r in l.paths && r in l'.paths
  {
  }

  lemma NoRest(recs: seq<Record>, rest: seq<Block>)
    requires rest == []
    ensures recs + RecsOf(rest) == recs
  {
  }

  /** The chains when the last record has been folded in. */
  lemma FoldCloses(d0: Disk, l0: Map, d: Disk, l: Map, groupSize: nat, n: Naming, p: Params, mean: Meaning,
                   tgt: nat, src: nat, loc: Loc, t: Block, recs: seq<Record>, rest: seq<Block>)
    requires Standing(d0, l0, groupSize, n, p, mean, {}) && src == p.modulus && tgt == Buddy(p) && p.modulus >= 2
    requires Folding(d0, l0, d, l, groupSize, tgt, src, loc, t, recs, rest) && 1 <= tgt < p.modulus
    requires Nth(PathOf(l, Source), 0) == 0 && recs + RecsOf(rest) == RecsAt(d0, l0, tgt) + RecsAt(d0, l0, src)
    ensures Within(d, loc) && Writable(Put(d, loc, t), Prim(src))
    ensures var v', l' := Put(Put(d, loc, t), Prim(src), FreeBlock(0)), Close(l, Source);
            && Chains(v', l', groupSize, Shrink(p), mean.large, {})
            && AllGroups(v', l', p.modulus - 1) == MergeGroups(AllGroups(d0, l0, p.modulus), tgt)
  {
    hide Draining, RecsAt, Chains, TableOk, TotalBytes, TotalCount, AllGroups, IsPow2, GroupOf, Address;
    hide MergeGroups, SameRoots, RecsOf, RootOk, LargeTied;
    FoldHead(d0, l0, d, l, groupSize, tgt, src, loc, t, recs, rest);
    NoRest(recs, rest);
    ValidOf(d0, l0, groupSize, p, mean.large);
    ShrinkingFolds(n, p);
    MergeEndChains(d0, l0, Put(d, loc, t), l, groupSize, p, mean.large, tgt, src);
    MergeGroupsAre(d0, l0, Put(Put(d, loc, t), Prim(src), FreeBlock(0)), Close(l, Source), groupSize, p.modulus, tgt);
  }

  /** What the folded groups stand for. */
  lemma FoldMeans(d0: Disk, l0: Map, v: Disk, l: Map, groupSize: nat, n: Naming, p: Params, mean: Meaning, tgt: nat)
    requires Standing(d0, l0, groupSize, n, p, mean, {}) && tgt == Buddy(p) && 1 <= tgt < p.modulus
    requires Chains(v, l, groupSize, Shrink(p), mean.large, {})
    requires AllGroups(v, l, p.modulus - 1) == MergeGroups(AllGroups(d0, l0, p.modulus), tgt)
    ensures Standing(v, l, groupSize, n, Shrink(p), mean, {})
  {
    hide Chains, TableOk, TotalBytes, TotalCount, AllGroups, IsPow2, GroupOf, Address, MergeGroups;
    ValidOf(d0, l0, groupSize, p, mean.large);
    ShrinkingFolds(n, p);
    MergeKeepsTable(n, Address(n, p), Address(n, Shrink(p)), AllGroups(d0, l0, p.modulus), tgt, mean.m, mean.large);
    MergeConserves(AllGroups(d0, l0, p.modulus), tgt);
  }

  lemma FoldEnds(d0: Disk, l0: Map, d: Disk, l: Map, groupSize: nat, n: Naming, p: Params, mean: Meaning,
                 tgt: nat, src: nat, loc: Loc, t: Block, recs: seq<Record>, rest: seq<Block>)
    requires Standing(d0, l0, groupSize, n, p, mean, {}) && src == p.modulus && tgt == Buddy(p) && p.modulus >= 2
    requires Folding(d0, l0, d, l, groupSize, tgt, src, loc, t, recs, rest) && 1 <= tgt < p.modulus
    requires Nth(PathOf(l, Source), 0) == 0 && recs + RecsOf(rest) == RecsAt(d0, l0, tgt) + RecsAt(d0, l0, src)
    ensures Within(d, loc) && Writable(Put(d, loc, t), Prim(src))
    ensures var v', l' := Put(Put(d, loc, t), Prim(src), FreeBlock(0)), Close(l, Source);
            && Standing(v', l', groupSize, n, Shrink(p), mean, {})
            && AllGroups(v', l', p.modulus - 1) == MergeGroups(AllGroups(d0, l0, p.modulus), tgt)
  {
    hide Folding, Standing, AllGroups, MergeGroups, Chains, RecsOf, RecsAt, PathOf, Nth;
    FoldCloses(d0, l0, d, l, groupSize, n, p, mean, tgt, src, loc, t, recs, rest);
    FoldMeans(d0, l0, Put(Put(d, loc, t), Prim(src), FreeBlock(0)), Close(l, Source), groupSize, n, p, mean, tgt);
  }

  lemma StandsFacts(d: Disk, l: Map, groupSize: nat, n: Naming, p: Params, mean: Meaning)
    requires Standing(d, l, groupSize, n, p, mean, {})
    ensures p.Valid() && mean.bytes >= 0 && Sound(d, l, groupSize, {})
    ensures forall g: nat :: Group(g) in l.paths <==> 1 <= g <= p.modulus
  {
  }

  lemma MergeFacts(d: Disk, l: Map, groupSize: nat, n: Naming, p: Params, mean: Meaning, tgt: nat, src: nat)
    requires Standing(d, l, groupSize, n, p, mean, {}) && 1 <= tgt < src <= p.modulus
    ensures Sound(d, l, groupSize, {}) && Group(tgt) in l.paths && Group(src) in l.paths && Source !in l.paths
    ensures var bs := GroupBlocks(d, PathOf(l, Group(src)), src);
            && Within(d, Prim(src)) && Get(d, Prim(src)) == bs[0] && Packed(bs[0], groupSize)
            && RecsAt(d, l, src) == bs[0].recs + RecsOf(bs[1..])
            && bs[0].next == Nth(PathOf(l, Group(src)), 0)
  {
    hide TotalBytes, TotalCount, TableOk, IsPow2, RecsOf, LargeTied, RootOk, Partition, Opened;
    ValidOf(d, l, groupSize, p, mean.large);
    GroupExists(d, l, groupSize, {}, src);
    BlockOfGroup(d, l, groupSize, src, 0);
    NextOfGroup(d, l, groupSize, src, 0);
    FirstRecs(GroupBlocks(d, l.paths[Group(src)], src));
  }
}
