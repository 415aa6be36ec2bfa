/** What a disk as a whole represents: its chains are sound, its groups represent a map, and
    every large-record chain belongs to the one record that names it. */
module Images {
  import opened Addressing
  import opened Blocks
  import opened Layout
  import opened Disks
  import opened Groups
  import opened Tables
  import opened Sequences

  function PathOf(l: Map, r: Root): seq<nat> {
    if r in l.paths then l.paths[r] else []
  }

  function RecsAt(d: Disk, l: Map, g: nat): seq<Record> {
    GroupRecs(d, PathOf(l, Group(g)), g)
  }

  /** The records of groups 1 to `count`. */
  ghost function AllGroups(d: Disk, l: Map, count: nat): (gs: seq<seq<Record>>)
    ensures |gs| == count
    ensures forall g | 1 <= g <= count :: gs[g - 1] == RecsAt(d, l, g)
  {
    seq(count, i requires 0 <= i < count => RecsAt(d, l, i + 1))
  }

  /** The chains there are: the free chain, one for each group, one for each large record,
      and those of an operation under way. */
  ghost predicate RootsAre(l: Map, count: nat, large: map<Id, (nat, Data)>, temps: set<Root>) {
    && FreeList in l.paths
    && (forall g: nat :: Group(g) in l.paths <==> 1 <= g <= count)
    && (forall k :: BigOf(k) in l.paths <==> k in large)
    && (forall r :: r == Source || r == Incoming || r == Outgoing ==> (r in l.paths <==> r in temps))
  }

  ghost predicate LargeIs(d: Disk, l: Map, r: Root, head: nat, data: Data) {
    && r in l.paths
    && Nth(l.paths[r], 0) == head
    && BigDataOf(BlocksOf(d.overflow, l.paths[r])) == data
  }

  ghost predicate LargeTied(d: Disk, l: Map, large: map<Id, (nat, Data)>) {
    forall k | k in large :: LargeIs(d, l, BigOf(k), large[k].0, large[k].1)
  }

  /** Every chain is sound and belongs where it should, whatever the records say. */
  ghost predicate Chains(d: Disk, l: Map, groupSize: nat, p: Params, large: map<Id, (nat, Data)>, temps: set<Root>) {
    && p.Valid()
    && Sound(d, l, groupSize, {})
    && RootsAre(l, p.modulus, large, temps)
    && LargeTied(d, l, large)
  }

  ghost predicate Image(d: Disk, l: Map, groupSize: nat, n: Naming, p: Params,
                        m: map<Id, Data>, large: map<Id, (nat, Data)>, temps: set<Root>) {
    && Chains(d, l, groupSize, p, large, temps)
    && TableOk(n, Address(n, p), AllGroups(d, l, p.modulus), m, large)
  }

  lemma LargeFrame(d: Disk, l: Map, d': Disk, l': Map, r: Root, head: nat, data: Data)
    requires LargeIs(d, l, r, head, data) && SameRoot(d, l, d', l', r)
    ensures LargeIs(d', l', r, head, data)
  {
  }

  lemma RecsFrame(d: Disk, l: Map, d': Disk, l': Map, g: nat)
    requires SameRoot(d, l, d', l', Group(g)) && 1 <= g <= |d.primary|
    ensures RecsAt(d', l', g) == RecsAt(d, l, g)
  {
    assert GroupBlocks(d', l'.paths[Group(g)], g) == GroupBlocks(d, l.paths[Group(g)], g);
  }

  lemma GroupExists(d: Disk, l: Map, groupSize: nat, open: set<Root>, g: nat)
    requires Sound(d, l, groupSize, open) && Group(g) in l.paths && Group(g) !in open
    ensures 1 <= g <= |d.primary| && Opened(d, l, g, groupSize, 0)
  {
    assert RootOk(d, l, Group(g), groupSize);
  }

  /** When one group has changed, so has one element of the list of groups. */
  lemma OneGroupChanged(d: Disk, l: Map, d': Disk, l': Map, groupSize: nat, count: nat, g: nat)
    requires Sound(d, l, groupSize, {}) && Evolved(d, l, d', l', g) && 1 <= g <= count
    requires forall h | 1 <= h <= count :: Group(h) in l.paths
    ensures AllGroups(d', l', count) == AllGroups(d, l, count)[g - 1 := RecsAt(d', l', g)]
  {
    hide RecsAt, Sound, BlocksOf;
    var gs, gs' := AllGroups(d, l, count), AllGroups(d', l', count);
    forall i | 0 <= i < count && i != g - 1 ensures gs'[i] == gs[i] {
      GroupExists(d, l, groupSize, {}, i + 1);
      assert SameRoot(d, l, d', l', Group(i + 1));
      RecsFrame(d, l, d', l', i + 1);
      assert gs'[i] == RecsAt(d', l', i + 1) && gs[i] == RecsAt(d, l, i + 1);
    }
    assert gs'[g - 1] == RecsAt(d', l', g);
  }

  lemma NoGroupChanged(d: Disk, l: Map, d': Disk, l': Map, groupSize: nat, count: nat, changed: set<Root>)
    requires Sound(d, l, groupSize, {}) && SameRoots(d, l, d', l', changed)
    requires forall h | 1 <= h <= count :: Group(h) in l.paths && Group(h) !in changed
    ensures AllGroups(d', l', count) == AllGroups(d, l, count)
  {
    hide RecsAt, Sound, BlocksOf;
    var gs, gs' := AllGroups(d, l, count), AllGroups(d', l', count);
    forall i | 0 <= i < count ensures gs'[i] == gs[i] {
      GroupExists(d, l, groupSize, {}, i + 1);
      assert SameRoot(d, l, d', l', Group(i + 1));
      RecsFrame(d, l, d', l', i + 1);
      assert gs'[i] == RecsAt(d', l', i + 1) && gs[i] == RecsAt(d, l, i + 1);
    }
  }

  // ------------------------------------------------------------------------
  // Large-record chains changing hands

  /** A chain that is neither the free chain nor a group's. */
  predicate OffGroup(r: Root) {
    r.BigOf? || r == Incoming || r == Outgoing
  }

  lemma RenameSound(d: Disk, l: Map, groupSize: nat, from: Root, to: Root)
    requires Sound(d, l, groupSize, {}) && from in l.paths && to !in l.paths
    requires OffGroup(from) && OffGroup(to)
    ensures Sound(d, Rename(l, from, to), groupSize, {})
    ensures forall r | r in l.paths && r != from :: SameRoot(d, l, d, Rename(l, from, to), r)
    ensures Rename(l, from, to).paths.Keys == l.paths.Keys - {from} + {to}
  {
    var l' := Rename(l, from, to);
    RenameKeepsPartition(l, from, to);
    forall r | r in l'.paths ensures RootOk(d, l', r, groupSize) {
      assert RootOk(d, l, if r == to then from else r, groupSize);
    }
  }

  lemma RenameRoots(l: Map, count: nat, large: map<Id, (nat, Data)>, large': map<Id, (nat, Data)>,
                    temps: set<Root>, temps': set<Root>, from: Root, to: Root)
    requires RootsAre(l, count, large, temps) && from in l.paths && to !in l.paths && OffGroup(from) && OffGroup(to)
    requires forall k | k in large && BigOf(k) != from :: k in large'
    requires forall k | k in large' :: (k in large && BigOf(k) != from) || BigOf(k) == to
    requires from.BigOf? ==> from.key !in large'
    requires to.BigOf? ==> to.key in large'
    requires temps' == temps - {from} + (if to.BigOf? then {} else {to})
    ensures RootsAre(Rename(l, from, to), count, large', temps')
  {
  }

  lemma RenameChains(d: Disk, l: Map, groupSize: nat, p: Params, large: map<Id, (nat, Data)>,
                     large': map<Id, (nat, Data)>, temps: set<Root>, temps': set<Root>, from: Root, to: Root)
    requires Chains(d, l, groupSize, p, large, temps) && from in l.paths && to !in l.paths && OffGroup(from) && OffGroup(to)
    requires forall k | k in large && BigOf(k) != from :: k in large' && large'[k] == large[k]
    requires forall k | k in large' :: (k in large && BigOf(k) != from) || BigOf(k) == to
    requires from.BigOf? ==> from.key !in large'
    requires to.BigOf? ==> to.key in large' && LargeIs(d, l, from, large'[to.key].0, large'[to.key].1)
    requires temps' == temps - {from} + (if to.BigOf? then {} else {to})
    ensures Chains(d, Rename(l, from, to), groupSize, p, large', temps')
    ensures AllGroups(d, Rename(l, from, to), p.modulus) == AllGroups(d, l, p.modulus)
    ensures Rename(l, from, to).paths[to] == l.paths[from]
    ensures forall r | r in l.paths && r != from :: SameRoot(d, l, d, Rename(l, from, to), r)
  {
    hide Sound, SameRoot, IsPow2, AllGroups, BlocksOf, RootsAre;
    var l' := Rename(l, from, to);
    RenameSound(d, l, groupSize, from, to);
    RenameRoots(l, p.modulus, large, large', temps, temps', from, to);
    forall k | k in large' ensures LargeIs(d, l', BigOf(k), large'[k].0, large'[k].1) {
      if BigOf(k) != to {
        assert LargeIs(d, l, BigOf(k), large[k].0, large[k].1);
        LargeFrame(d, l, d, l', BigOf(k), large[k].0, large[k].1);
      }
    }
    RenameGroups(d, l, groupSize, p.modulus, large, temps, from, to);
  }

  lemma RenameGroups(d: Disk, l: Map, groupSize: nat, count: nat, large: map<Id, (nat, Data)>, temps: set<Root>,
                     from: Root, to: Root)
    requires Sound(d, l, groupSize, {}) && RootsAre(l, count, large, temps) && from in l.paths && to !in l.paths
    requires OffGroup(from) && OffGroup(to)
    ensures AllGroups(d, Rename(l, from, to), count) == AllGroups(d, l, count)
  {
    hide Sound, SameRoot, AllGroups, BlocksOf;
    RenameSound(d, l, groupSize, from, to);
    NoGroupChanged(d, l, d, Rename(l, from, to), groupSize, count, {FreeList, from, to});
  }
}
