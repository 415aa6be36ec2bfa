/** How writing and deleting one record changes what a file represents. */
module Updates {
  import opened Addressing
  import opened Blocks
  import opened Layout
  import opened Disks
  import opened Groups
  import opened Tables
  import opened Images
  import opened Sequences

  /** The large-record chains once a key has been given a new body. */
  function Introduced(large: map<Id, (nat, Data)>, k: Id, body: Body, data: Data): map<Id, (nat, Data)> {
    match body
    case Inline(_) => large - {k}
    case Large(head) => large[k := (head, data)]
  }

  /** A group's records after a record has been written: a version of the same size takes the
      place of the old one and keeps its id; any other goes to the end. */
  function Written(recs: seq<Record>, found: bool, at: nat, rec: Record): seq<Record>
    requires found ==> at < |recs|
  {
    if !found then recs + [rec]
    else if Size(recs[at]) == Size(rec) then recs[at := Record(recs[at].id, rec.body)]
    else RemoveAt(recs, at) + [rec]
  }

  // ------------------------------------------------------------------------
  // The table

  lemma WrittenTable(n: Naming, at: Addresses, groups: seq<seq<Record>>, m: map<Id, Data>, large: map<Id, (nat, Data)>,
                     found: bool, i: nat, rec: Record, data: Data)
    requires TableOk(n, at, groups, m, large)
    requires var recs := groups[HomeOf(at, KeyOf(n, rec)) - 1];
             && (found ==> i < |recs| && Matches(n, rec.id, recs[i].id))
             && (!found ==> forall r | r in recs :: !Matches(n, rec.id, r.id))
    requires rec.body.Inline? ==> rec.body.data == data
    ensures var k := KeyOf(n, rec); var g := HomeOf(at, k);
            && TableOk(n, at, groups[g - 1 := Written(groups[g - 1], found, i, rec)], m[k := data],
                       Introduced(large, k, rec.body, data))
            && (found <==> k in m)
  {
    var k := KeyOf(n, rec);
    var g := HomeOf(at, k);
    var recs := groups[g - 1];
    if !found {
      NotFound(n, at, groups, m, large, rec.id);
      InsertKeepsTable(n, at, groups, m, large, rec, data, Introduced(large, k, rec.body, data));
    } else {
      MatchesIsSameKey(n, rec.id, recs[i].id);
      FoundIn(n, at, groups, m, large, g, i);
      if Size(recs[i]) == Size(rec) {
        ReplaceKeepsTable(n, at, groups, m, large, g, i, Record(recs[i].id, rec.body), data,
                          Introduced(large, k, rec.body, data));
      } else {
        MovedTable(n, at, groups, m, large, i, rec, data);
      }
    }
  }

  lemma InRange(n: Naming, at: Addresses, groups: seq<seq<Record>>, m: map<Id, Data>, large: map<Id, (nat, Data)>, k: Id)
    requires TableOk(n, at, groups, m, large)
    ensures 1 <= HomeOf(at, k) <= |groups|
  {
  }

  lemma NotFound(n: Naming, at: Addresses, groups: seq<seq<Record>>, m: map<Id, Data>, large: map<Id, (nat, Data)>, id: Id)
    requires TableOk(n, at, groups, m, large)
    requires forall r | r in groups[HomeOf(at, Key(n, id)) - 1] :: !Matches(n, id, r.id)
    ensures Key(n, id) !in m
  {
    LookupDecides(n, at, groups, m, large, Key(n, id));
    forall r | r in groups[HomeOf(at, Key(n, id)) - 1] ensures KeyOf(n, r) != Key(n, id) {
      MatchesIsSameKey(n, id, r.id);
    }
  }

  /** What a record that is in a group says of the map. */
  lemma FoundIn(n: Naming, at: Addresses, groups: seq<seq<Record>>, m: map<Id, Data>, large: map<Id, (nat, Data)>,
                g: nat, i: nat)
    requires TableOk(n, at, groups, m, large) && 1 <= g <= |groups| && i < |groups[g - 1]|
    ensures Placed(n, at, groups[g - 1][i], g, m, large)
  {
    assert GroupTable(n, at, groups, g, m, large);
  }

  lemma MovedTable(n: Naming, at: Addresses, groups: seq<seq<Record>>, m: map<Id, Data>, large: map<Id, (nat, Data)>,
                   i: nat, rec: Record, data: Data)
    requires TableOk(n, at, groups, m, large)
    requires var recs := groups[HomeOf(at, KeyOf(n, rec)) - 1]; i < |recs| && KeyOf(n, recs[i]) == KeyOf(n, rec)
    requires rec.body.Inline? ==> rec.body.data == data
    ensures var k := KeyOf(n, rec); var g := HomeOf(at, k);
            TableOk(n, at, groups[g - 1 := RemoveAt(groups[g - 1], i) + [rec]], m[k := data],
                    Introduced(large, k, rec.body, data))
  {
    hide Size, Key, GroupTable, Has;
    var k := KeyOf(n, rec);
    var g := HomeOf(at, k);
    var rest := RemoveAt(groups[g - 1], i);
    RemoveKeepsTable(n, at, groups, m, large, g, i);
    var groups1 := groups[g - 1 := rest];
    var large' := Introduced(large - {k}, k, rec.body, data);
    InsertKeepsTable(n, at, groups1, m - {k}, large - {k}, rec, data, large');
    assert groups1[g - 1 := groups1[g - 1] + [rec]] == groups[g - 1 := rest + [rec]];
    assert (m - {k})[k := data] == m[k := data];
    assert large' == Introduced(large, k, rec.body, data);
  }

  // ------------------------------------------------------------------------
  // The chains

  /** A large record has been written, but no record names it yet. */
  lemma IncomingChains(d: Disk, l: Map, d': Disk, l': Map, groupSize: nat, p: Params, large: map<Id, (nat, Data)>)
    requires Chains(d, l, groupSize, p, large, {}) && Sound(d', l', groupSize, {})
    requires SameRoots(d, l, d', l', {FreeList, Incoming}) && l'.paths.Keys == l.paths.Keys + {Incoming}
    ensures Chains(d', l', groupSize, p, large, {Incoming})
    ensures AllGroups(d', l', p.modulus) == AllGroups(d, l, p.modulus)
  {
    hide RootOk, Partition, BigDataOf;
    NoGroupChanged(d, l, d', l', groupSize, p.modulus, {FreeList, Incoming});
    SameLarge(d, l, d', l', large, {FreeList, Incoming});
    SameKeys(l, l', l'.paths.Keys);
  }

  lemma SameLarge(d: Disk, l: Map, d': Disk, l': Map, large: map<Id, (nat, Data)>, changed: set<Root>)
    requires LargeTied(d, l, large) && SameRoots(d, l, d', l', changed)
    requires forall k | k in large :: BigOf(k) !in changed
    ensures LargeTied(d', l', large)
  {
    forall k | k in large ensures LargeIs(d', l', BigOf(k), large[k].0, large[k].1) {
      assert LargeIs(d, l, BigOf(k), large[k].0, large[k].1);
      assert SameRoot(d, l, d', l', BigOf(k));
    }
  }

  lemma SameKeys(l: Map, l': Map, keys: set<Root>)
    requires l'.paths.Keys == keys
    ensures forall r :: r in l'.paths <==> r in keys
  {
  }

  /** One group has been rewritten. */
  lemma GroupChains(d: Disk, l: Map, d': Disk, l': Map, groupSize: nat, p: Params, large: map<Id, (nat, Data)>,
                    temps: set<Root>, g: nat)
    requires Chains(d, l, groupSize, p, large, temps) && Sound(d', l', groupSize, {})
    requires Evolved(d, l, d', l', g) && 1 <= g <= p.modulus
    ensures Chains(d', l', groupSize, p, large, temps)
    ensures AllGroups(d', l', p.modulus) == AllGroups(d, l, p.modulus)[g - 1 := RecsAt(d', l', g)]
  {
    OneGroupChanged(d, l, d', l', groupSize, p.modulus, g);
    SameLarge(d, l, d', l', large, {FreeList, Group(g)});
    SameKeys(l, l', l.paths.Keys);
  }

  /** The chain a record was written to, and the chain its old version had. */
  ghost function Handed(l: Map, had: bool, big: bool, k: Id): Map
    requires had ==> BigOf(k) in l.paths && Outgoing !in l.paths
    requires big ==> Incoming in l.paths && (had || BigOf(k) !in l.paths)
  {
    var l1 := if had then Rename(l, BigOf(k), Outgoing) else l;
    if big then Rename(l1, Incoming, BigOf(k)) else l1
  }

  lemma HandOver(d: Disk, l: Map, groupSize: nat, p: Params, large: map<Id, (nat, Data)>, k: Id, body: Body, data: Data)
    requires Chains(d, l, groupSize, p, large, if body.Large? then {Incoming} else {})
    requires body.Large? ==> LargeIs(d, l, Incoming, body.head, data)
    ensures k in large ==> BigOf(k) in l.paths && Outgoing !in l.paths
    ensures body.Large? ==> Incoming in l.paths && (k in large || BigOf(k) !in l.paths)
    ensures var l' := Handed(l, k in large, body.Large?, k);
            && Chains(d, l', groupSize, p, Introduced(large, k, body, data), if k in large then {Outgoing} else {})
            && AllGroups(d, l', p.modulus) == AllGroups(d, l, p.modulus)
            && (k in large ==> Outgoing in l'.paths && Nth(l'.paths[Outgoing], 0) == large[k].0)
  {
    hide Sound, LargeTied, AllGroups, RecsOf, BigDataOf, LargeIs, Chains;
    if body.Large? {
      HandOverLarge(d, l, groupSize, p, large, k, body.head, data);
    } else if k in large {
      GiveUp(d, l, groupSize, p, large, {}, k);
      assert {} + {Outgoing} == {Outgoing};
    } else {
      assert large - {k} == large;
    }
  }

  lemma HandOverLarge(d: Disk, l: Map, groupSize: nat, p: Params, large: map<Id, (nat, Data)>, k: Id, head: nat, data: Data)
    requires Chains(d, l, groupSize, p, large, {Incoming}) && LargeIs(d, l, Incoming, head, data)
    ensures k in large ==> BigOf(k) in l.paths && Outgoing !in l.paths
    ensures Incoming in l.paths && (k in large || BigOf(k) !in l.paths)
    ensures var l' := Handed(l, k in large, true, k);
            && Chains(d, l', groupSize, p, large[k := (head, data)], if k in large then {Outgoing} else {})
            && AllGroups(d, l', p.modulus) == AllGroups(d, l, p.modulus)
            && (k in large ==> Outgoing in l'.paths && Nth(l'.paths[Outgoing], 0) == large[k].0)
  {
    hide Sound, LargeTied, AllGroups, RecsOf, BigDataOf;
    if k in large {
      GiveUp(d, l, groupSize, p, large, {Incoming}, k);
      TakeOver(d, l, Rename(l, BigOf(k), Outgoing), groupSize, p, large - {k}, k, head, data, true);
      assert (large - {k})[k := (head, data)] == large[k := (head, data)];
    } else {
      TakeOver(d, l, l, groupSize, p, large, k, head, data, false);
    }
  }

  lemma GiveUp(d: Disk, l: Map, groupSize: nat, p: Params, large: map<Id, (nat, Data)>, temps: set<Root>, k: Id)
    requires Chains(d, l, groupSize, p, large, temps) && k in large && temps <= {Incoming}
    ensures BigOf(k) in l.paths && Outgoing !in l.paths
    ensures var l1 := Rename(l, BigOf(k), Outgoing);
            && Chains(d, l1, groupSize, p, large - {k}, temps + {Outgoing})
            && AllGroups(d, l1, p.modulus) == AllGroups(d, l, p.modulus)
            && Outgoing in l1.paths && Nth(l1.paths[Outgoing], 0) == large[k].0
            && (Incoming in l.paths ==> SameRoot(d, l, d, l1, Incoming))
  {
    assert LargeIs(d, l, BigOf(k), large[k].0, large[k].1);
    assert temps - {BigOf(k)} + {Outgoing} == temps + {Outgoing};
    RenameChains(d, l, groupSize, p, large, large - {k}, temps, temps + {Outgoing}, BigOf(k), Outgoing);
  }

  lemma TakeOver(d: Disk, l: Map, l1: Map, groupSize: nat, p: Params, large1: map<Id, (nat, Data)>, k: Id,
                 head: nat, data: Data, had: bool)
    requires Chains(d, l1, groupSize, p, large1, if had then {Incoming} + {Outgoing} else {Incoming}) && k !in large1
    requires LargeIs(d, l, Incoming, head, data) && (l1 == l || SameRoot(d, l, d, l1, Incoming))
    ensures Incoming in l1.paths && BigOf(k) !in l1.paths
    ensures var l' := Rename(l1, Incoming, BigOf(k));
            && Chains(d, l', groupSize, p, large1[k := (head, data)], if had then {Outgoing} else {})
            && AllGroups(d, l', p.modulus) == AllGroups(d, l1, p.modulus)
            && (had ==> Outgoing in l'.paths && Outgoing in l1.paths && l'.paths[Outgoing] == l1.paths[Outgoing])
  {
    var temps := if had then {Incoming} + {Outgoing} else {Incoming};
    assert LargeIs(d, l1, Incoming, head, data);
    RenameChains(d, l1, groupSize, p, large1, large1[k := (head, data)], temps, if had then {Outgoing} else {},
                 Incoming, BigOf(k));
  }

  /** The old chain has been released. */
  lemma ReleasedChains(d: Disk, l: Map, d': Disk, l': Map, groupSize: nat, p: Params, large: map<Id, (nat, Data)>)
    requires Chains(d, l, groupSize, p, large, {Outgoing}) && Sound(d', l', groupSize, {})
    requires SameRoots(d, l, d', l', {FreeList, Outgoing}) && l'.paths.Keys == l.paths.Keys - {Outgoing}
    ensures Chains(d', l', groupSize, p, large, {})
    ensures AllGroups(d', l', p.modulus) == AllGroups(d, l, p.modulus)
  {
    NoGroupChanged(d, l, d', l', groupSize, p.modulus, {FreeList, Outgoing});
    SameLarge(d, l, d', l', large, {FreeList, Outgoing});
    SameKeys(l, l', l'.paths.Keys);
  }

  // ------------------------------------------------------------------------
  // Both together

  lemma WrittenTotals(groups: seq<seq<Record>>, g: nat, found: bool, i: nat, rec: Record)
    requires 1 <= g <= |groups| && (found ==> i < |groups[g - 1]|)
    requires found ==> |groups[g - 1][i].id| == |rec.id|
    ensures var groups' := groups[g - 1 := Written(groups[g - 1], found, i, rec)];
            && TotalBytes(groups') == TotalBytes(groups) + Size(rec) - (if found then Size(groups[g - 1][i]) else 0)
            && TotalCount(groups') == TotalCount(groups) + (if found then 0 else 1)
  {
    hide Size, Bytes, TotalBytes, TotalCount;
    var recs := groups[g - 1];
    TotalsUpdate(groups, g - 1, Written(recs, found, i, rec));
    if !found {
      BytesAppend(recs, rec);
    } else if Size(recs[i]) == Size(rec) {
      SameSize(rec, recs[i].id);
      BytesUpdate(recs, i, Record(recs[i].id, rec.body));
    } else {
      BytesRemove(recs, i);
      BytesAppend(RemoveAt(recs, i), rec);
    }
  }

  lemma SameSize(rec: Record, id: Id)
    requires |id| == |rec.id|
    ensures Size(Record(id, rec.body)) == Size(rec)
  {
  }

  /** What finding an old version tells about its chain. */
  lemma OldVersion(n: Naming, at: Addresses, groups: seq<seq<Record>>, m: map<Id, Data>, large: map<Id, (nat, Data)>,
                   id: Id, found: bool, i: nat)
    requires TableOk(n, at, groups, m, large)
    requires var recs := groups[HomeOf(at, Key(n, id)) - 1];
             && (found ==> i < |recs| && Matches(n, id, recs[i].id))
             && (!found ==> forall r | r in recs :: !Matches(n, id, r.id))
    ensures var k := Key(n, id);
            && (found <==> k in m)
            && (k in large <==> found && groups[HomeOf(at, k) - 1][i].body.Large?)
            && (k in large ==> groups[HomeOf(at, k) - 1][i].body.head == large[k].0)
  {
    var k := Key(n, id);
    if found {
      MatchesIsSameKey(n, id, groups[HomeOf(at, k) - 1][i].id);
      FoundIn(n, at, groups, m, large, HomeOf(at, k), i);
    } else {
      NotFound(n, at, groups, m, large, id);
    }
  }

  /** The chain of an old version waits to be released. */
  ghost predicate Waiting(l: Map, found: bool, oldBody: Body) {
    found && oldBody.Large? ==> oldBody.head == Nth(PathOf(l, Outgoing), 0)
  }

  /** A record has been written to its group: the map, the chains and the totals. */
  lemma StoreStep(d: Disk, l: Map, d': Disk, l': Map, groupSize: nat, n: Naming, p: Params,
                  m: map<Id, Data>, large: map<Id, (nat, Data)>, g: nat, found: bool, i: nat, rec: Record, data: Data)
    requires Image(d, l, groupSize, n, p, m, large, if rec.body.Large? then {Incoming} else {})
    requires if rec.body.Large? then LargeIs(d, l, Incoming, rec.body.head, data) else data == rec.body.data
    requires g == AddressOf(n, p, KeyOf(n, rec)) && Sound(d', l', groupSize, {}) && Evolved(d, l, d', l', g)
    requires found ==> i < |RecsAt(d, l, g)| && Matches(n, rec.id, RecsAt(d, l, g)[i].id)
    requires !found ==> forall r | r in RecsAt(d, l, g) :: !Matches(n, rec.id, r.id)
    requires RecsAt(d', l', g) == Written(RecsAt(d, l, g), found, i, rec)
    ensures var k := KeyOf(n, rec);
            && (found <==> k in m)
            && (k in large <==> found && RecsAt(d, l, g)[i].body.Large?)
            && (k in large ==> RecsAt(d, l, g)[i].body.head == large[k].0)
            && (k in large ==> BigOf(k) in l'.paths && Outgoing !in l'.paths)
            && (rec.body.Large? ==> Incoming in l'.paths && (k in large || BigOf(k) !in l'.paths))
            && var l2 := Handed(l', k in large, rec.body.Large?, k);
            && Image(d', l2, groupSize, n, p, m[k := data], Introduced(large, k, rec.body, data),
                     if k in large then {Outgoing} else {})
            && (k in large ==> Outgoing in l2.paths && Nth(l2.paths[Outgoing], 0) == large[k].0)
            && AllGroups(d', l2, p.modulus) == AllGroups(d, l, p.modulus)[g - 1 := Written(RecsAt(d, l, g), found, i, rec)]
  {
    hide Sound, RootsAre, LargeTied, TableOk, RecsOf, BigDataOf;
    var k, groups, at := KeyOf(n, rec), AllGroups(d, l, p.modulus), Address(n, p);
    InRange(n, at, groups, m, large, k);
    assert HomeOf(at, k) == g && groups[g - 1] == RecsAt(d, l, g);
    OldVersion(n, at, groups, m, large, rec.id, found, i);
    WrittenTable(n, at, groups, m, large, found, i, rec, data);
    GroupChains(d, l, d', l', groupSize, p, large, if rec.body.Large? then {Incoming} else {}, g);
    if rec.body.Large? {
      assert SameRoot(d, l, d', l', Incoming);
    }
    HandOver(d', l', groupSize, p, large, k, rec.body, data);
  }

  /** One record has been written to group `g`: what became of the group, and what it told
      about an old version. */
  ghost predicate Stored(d: Disk, l: Map, d': Disk, l': Map, groupSize: nat, n: Naming, g: nat,
                         found: bool, i: nat, oldSize: nat, oldBody: Body, rec: Record) {
    && Sound(d', l', groupSize, {}) && Evolved(d, l, d', l', g)
    && (found ==> i < |RecsAt(d, l, g)| && Matches(n, rec.id, RecsAt(d, l, g)[i].id)
                  && oldSize == Size(RecsAt(d, l, g)[i]) && oldBody == RecsAt(d, l, g)[i].body)
    && (!found ==> forall r | r in RecsAt(d, l, g) :: !Matches(n, rec.id, r.id))
    && RecsAt(d', l', g) == Written(RecsAt(d, l, g), found, i, rec)
  }

  /** One record has been taken out of group `g`, or none was found. */
  ghost predicate Erased(d: Disk, l: Map, d': Disk, l': Map, groupSize: nat, n: Naming, g: nat, id: Id,
                         found: bool, i: nat, oldSize: nat, oldBody: Body) {
    && Sound(d', l', groupSize, {}) && Evolved(d, l, d', l', g)
    && (found ==> i < |RecsAt(d, l, g)| && Matches(n, id, RecsAt(d, l, g)[i].id)
                  && oldSize == Size(RecsAt(d, l, g)[i]) && oldBody == RecsAt(d, l, g)[i].body
                  && RecsAt(d', l', g) == RemoveAt(RecsAt(d, l, g), i))
    && (!found ==> (forall r | r in RecsAt(d, l, g) :: !Matches(n, id, r.id)) && d' == d && l' == l)
  }

  /** The same, with the chains handed over. */
  lemma StoreOutcome(d: Disk, l: Map, d': Disk, l': Map, groupSize: nat, n: Naming, p: Params,
                     m: map<Id, Data>, large: map<Id, (nat, Data)>, g: nat, found: bool, i: nat,
                     oldSize: nat, oldBody: Body, rec: Record, data: Data)
    returns (l2: Map, large2: map<Id, (nat, Data)>)
    requires Image(d, l, groupSize, n, p, m, large, if rec.body.Large? then {Incoming} else {})
    requires if rec.body.Large? then LargeIs(d, l, Incoming, rec.body.head, data) else data == rec.body.data
    requires g == AddressOf(n, p, KeyOf(n, rec))
    requires Stored(d, l, d', l', groupSize, n, g, found, i, oldSize, oldBody, rec)
    ensures Image(d', l2, groupSize, n, p, m[KeyOf(n, rec) := data], large2, if found
            && oldBody.Large? then {Outgoing} else {})
    ensures Waiting(l2, found, oldBody)
    ensures found <==> KeyOf(n, rec) in m
    ensures TotalBytes(AllGroups(d', l2, p.modulus))
            == TotalBytes(AllGroups(d, l, p.modulus)) + Size(rec) - (if found then oldSize else 0)
    ensures TotalCount(AllGroups(d', l2, p.modulus)) == TotalCount(AllGroups(d, l, p.modulus)) + (if found then 0 else 1)
  {
    hide Sound, LargeTied, RecsOf, BigDataOf, TotalBytes, TotalCount;
    var k := KeyOf(n, rec);
    StoreStep(d, l, d', l', groupSize, n, p, m, large, g, found, i, rec, data);
    WrittenTotals(AllGroups(d, l, p.modulus), g, found, i, rec);
    l2, large2 := Handed(l', k in large, rec.body.Large?, k), Introduced(large, k, rec.body, data);
  }

  /** A record has been removed from its group: the map, the chains and the totals. */
  lemma EraseStep(d: Disk, l: Map, d': Disk, l': Map, groupSize: nat, n: Naming, p: Params,
                  m: map<Id, Data>, large: map<Id, (nat, Data)>, g: nat, id: Id, i: nat)
    requires Image(d, l, groupSize, n, p, m, large, {})
    requires g == AddressOf(n, p, Key(n, id)) && Sound(d', l', groupSize, {}) && Evolved(d, l, d', l', g)
    requires i < |RecsAt(d, l, g)| && Matches(n, id, RecsAt(d, l, g)[i].id)
    requires RecsAt(d', l', g) == RemoveAt(RecsAt(d, l, g), i)
    ensures var k := Key(n, id);
            && k in m
            && (k in large <==> RecsAt(d, l, g)[i].body.Large?)
            && (k in large ==> RecsAt(d, l, g)[i].body.head == large[k].0)
            && (k in large ==> BigOf(k) in l'.paths && Outgoing !in l'.paths)
            && var l2 := Handed(l', k in large, false, k);
            && Image(d', l2, groupSize, n, p, m - {k}, large - {k}, if k in large then {Outgoing} else {})
            && (k in large ==> Outgoing in l2.paths && Nth(l2.paths[Outgoing], 0) == large[k].0)
            && AllGroups(d', l2, p.modulus) == AllGroups(d, l, p.modulus)[g - 1 := RemoveAt(RecsAt(d, l, g), i)]
  {
    hide Sound, Partition, RecsAt, LargeTied, RootsAre, AddressOf, Matches, RootOk, Key;
    var k, groups, at := Key(n, id), AllGroups(d, l, p.modulus), Address(n, p);
    assert HomeOf(at, k) == g && groups[g - 1] == RecsAt(d, l, g);
    OldVersion(n, at, groups, m, large, id, true, i);
    MatchesIsSameKey(n, id, groups[g - 1][i].id);
    RemoveKeepsTable(n, at, groups, m, large, g, i);
    GroupChains(d, l, d', l', groupSize, p, large, {}, g);
    HandOver(d', l', groupSize, p, large, k, Inline([]), []);
  }

  lemma EraseOutcome(d: Disk, l: Map, d': Disk, l': Map, groupSize: nat, n: Naming, p: Params,
                     m: map<Id, Data>, large: map<Id, (nat, Data)>, g: nat, id: Id, found: bool, i: nat,
                     oldSize: nat, oldBody: Body)
    returns (l2: Map, large2: map<Id, (nat, Data)>)
    requires Image(d, l, groupSize, n, p, m, large, {})
    requires g == AddressOf(n, p, Key(n, id)) && Erased(d, l, d', l', groupSize, n, g, id, found, i, oldSize, oldBody)
    ensures Image(d', l2, groupSize, n, p, m - {Key(n, id)}, large2, if found && oldBody.Large? then {Outgoing} else {})
    ensures Waiting(l2, found, oldBody)
    ensures found <==> Key(n, id) in m
    ensures TotalBytes(AllGroups(d', l2, p.modulus))
            == TotalBytes(AllGroups(d, l, p.modulus)) - (if found then oldSize else 0)
    ensures TotalCount(AllGroups(d', l2, p.modulus)) == TotalCount(AllGroups(d, l, p.modulus)) - (if found then 1 else 0)
  {
    var k := Key(n, id);
    if found {
      EraseStep(d, l, d', l', groupSize, n, p, m, large, g, id, i);
      ErasedTotals(AllGroups(d, l, p.modulus), g, i);
      l2, large2 := Handed(l', k in large, false, k), large - {k};
    } else {
      NothingErased(d, l, n, p, m, large, g, id);
      l2, large2 := l', large;
    }
  }

  lemma NothingErased(d: Disk, l: Map, n: Naming, p: Params, m: map<Id, Data>, large: map<Id, (nat, Data)>, g: nat, id: Id)
    requires TableOk(n, Address(n, p), AllGroups(d, l, p.modulus), m, large) && g == AddressOf(n, p, Key(n, id))
    requires forall r | r in RecsAt(d, l, g) :: !Matches(n, id, r.id)
    ensures Key(n, id) !in m && m - {Key(n, id)} == m
  {
    assert HomeOf(Address(n, p), Key(n, id)) == g;
    NotFound(n, Address(n, p), AllGroups(d, l, p.modulus), m, large, id);
  }

  lemma ErasedTotals(groups: seq<seq<Record>>, g: nat, i: nat)
    requires 1 <= g <= |groups| && i < |groups[g - 1]|
    ensures var groups' := groups[g - 1 := RemoveAt(groups[g - 1], i)];
            && TotalBytes(groups') == TotalBytes(groups) - Size(groups[g - 1][i])
            && TotalCount(groups') == TotalCount(groups) - 1
  {
    TotalsUpdate(groups, g - 1, RemoveAt(groups[g - 1], i));
    BytesRemove(groups[g - 1], i);
  }

  // ------------------------------------------------------------------------
  // What a file stands for

  /** The map, the large-record chains, and the bytes and number of the records. */
  datatype Meaning = Meaning(m: map<Id, Data>, large: map<Id, (nat, Data)>, bytes: int, count: int)

  ghost predicate Standing(d: Disk, l: Map, groupSize: nat, n: Naming, p: Params, mean: Meaning, temps: set<Root>) {
    && Image(d, l, groupSize, n, p, mean.m, mean.large, temps)
    && mean.bytes == TotalBytes(AllGroups(d, l, p.modulus))
    && mean.count == TotalCount(AllGroups(d, l, p.modulus)) == |mean.m|
  }

  /** What is needed to go to a group of the file. */
  lemma GroupsStand(d: Disk, l: Map, groupSize: nat, n: Naming, p: Params, mean: Meaning, temps: set<Root>)
    requires Standing(d, l, groupSize, n, p, mean, temps)
    ensures p.Valid() && Sound(d, l, groupSize, {}) && forall g: nat | 1 <= g <= p.modulus :: Group(g) in l.paths
  {
  }

  /** The chain of a large record is as long as its data needs. */
  lemma LargeStands(d: Disk, l: Map, groupSize: nat, n: Naming, p: Params, mean: Meaning, temps: set<Root>, k: Id)
    requires Standing(d, l, groupSize, n, p, mean, temps) && k in mean.large
    ensures BigOf(k) in l.paths
    ensures var n, blocks := |mean.large[k].1|, |l.paths[BigOf(k)]|;
            blocks >= 1 && (blocks - 1) * (groupSize - 12) < n <= blocks * (groupSize - 12)
  {
    hide Partition, IsPow2, TableOk, TotalBytes, TotalCount, Bytes, BigFilled, BigDataOf, RootsAre, GroupOk, Linked;
    assert LargeIs(d, l, BigOf(k), mean.large[k].0, mean.large[k].1);
    assert RootOk(d, l, BigOf(k), groupSize);
    ChainLength(BlocksOf(d.overflow, l.paths[BigOf(k)]), groupSize);
  }

  lemma NotNegative(d: Disk, l: Map, groupSize: nat, n: Naming, p: Params, mean: Meaning, temps: set<Root>)
    requires Standing(d, l, groupSize, n, p, mean, temps)
    ensures mean.bytes >= 0 && mean.count == |mean.m|
  {
  }

  lemma MapSizes(m: map<Id, Data>, k: Id, v: Data)
    ensures |m[k := v]| == |m| + (if k in m then 0 else 1)
    ensures |m - {k}| == |m| - (if k in m then 1 else 0)
  {
    assert m[k := v].Keys == m.Keys + {k};
    assert (m - {k}).Keys == m.Keys - {k};
    assert |m[k := v]| == |m[k := v].Keys| && |m - {k}| == |(m - {k}).Keys| && |m| == |m.Keys|;
  }

  lemma IncomingStands(d: Disk, l: Map, d': Disk, l': Map, groupSize: nat, n: Naming, p: Params, mean: Meaning)
    requires Standing(d, l, groupSize, n, p, mean, {}) && Sound(d', l', groupSize, {})
    requires SameRoots(d, l, d', l', {FreeList, Incoming}) && l'.paths.Keys == l.paths.Keys + {Incoming}
    ensures Standing(d', l', groupSize, n, p, mean, {Incoming})
  {
    IncomingChains(d, l, d', l', groupSize, p, mean.large);
  }

  lemma ReleasedStands(d: Disk, l: Map, d': Disk, l': Map, groupSize: nat, n: Naming, p: Params, mean: Meaning)
    requires Standing(d, l, groupSize, n, p, mean, {Outgoing}) && Sound(d', l', groupSize, {})
    requires SameRoots(d, l, d', l', {FreeList, Outgoing}) && l'.paths.Keys == l.paths.Keys - {Outgoing}
    ensures Standing(d', l', groupSize, n, p, mean, {})
  {
    ReleasedChains(d, l, d', l', groupSize, p, mean.large);
  }

  /** A write: the key has the new data, and the totals follow the record's size. */
  ghost predicate Wrote(mean: Meaning, mean': Meaning, k: Id, data: Data, found: bool, oldSize: nat, newSize: nat) {
    && mean'.m == mean.m[k := data]
    && (found <==> k in mean.m)
    && mean'.bytes == mean.bytes + newSize - (if found then oldSize else 0)
    && mean'.count == mean.count + (if found then 0 else 1)
  }

  /** A delete: the key is gone, and the totals follow. */
  ghost predicate Deleted(mean: Meaning, mean': Meaning, k: Id, found: bool, oldSize: nat) {
    && mean'.m == mean.m - {k}
    && (found <==> k in mean.m)
    && mean'.bytes == mean.bytes - (if found then oldSize else 0)
    && mean'.count == mean.count - (if found then 1 else 0)
  }

  lemma StoreStands(d: Disk, l: Map, d': Disk, l': Map, groupSize: nat, n: Naming, p: Params, mean: Meaning,
                    g: nat, found: bool, i: nat, oldSize: nat, oldBody: Body, rec: Record, data: Data)
    returns (l2: Map, mean2: Meaning)
    requires Standing(d, l, groupSize, n, p, mean, if rec.body.Large? then {Incoming} else {})
    requires if rec.body.Large? then LargeIs(d, l, Incoming, rec.body.head, data) else data == rec.body.data
    requires g == AddressOf(n, p, KeyOf(n, rec))
    requires Stored(d, l, d', l', groupSize, n, g, found, i, oldSize, oldBody, rec)
    ensures Standing(d', l2, groupSize, n, p, mean2, if found && oldBody.Large? then {Outgoing} else {})
    ensures Waiting(l2, found, oldBody)
    ensures Wrote(mean, mean2, KeyOf(n, rec), data, found, oldSize, Size(rec))
  {
    hide Image, AllGroups, TotalBytes, TotalCount, LargeIs, Stored, Erased, Written, Size, Key, Sound, TableOk;
    hide PathOf, AddressOf, KeyOf, Nth, Waiting, Chains, LargeTied;
    var large2;
    l2, large2 := StoreOutcome(d, l, d', l', groupSize, n, p, mean.m, mean.large, g, found, i, oldSize, oldBody, rec, data);
    MapSizes(mean.m, KeyOf(n, rec), data);
    mean2 := Meaning(mean.m[KeyOf(n, rec) := data], large2,
                     mean.bytes + Size(rec) - (if found then oldSize else 0), mean.count + (if found then 0 else 1));
  }

  lemma EraseStands(d: Disk, l: Map, d': Disk, l': Map, groupSize: nat, n: Naming, p: Params, mean: Meaning,
                    g: nat, id: Id, found: bool, i: nat, oldSize: nat, oldBody: Body)
    returns (l2: Map, mean2: Meaning)
    requires Standing(d, l, groupSize, n, p, mean, {})
    requires g == AddressOf(n, p, Key(n, id)) && Erased(d, l, d', l', groupSize, n, g, id, found, i, oldSize, oldBody)
    ensures Standing(d', l2, groupSize, n, p, mean2, if found && oldBody.Large? then {Outgoing} else {})
    ensures Waiting(l2, found, oldBody)
    ensures Deleted(mean, mean2, Key(n, id), found, oldSize)
  {
    hide Image, AllGroups, TotalBytes, TotalCount, LargeIs, Stored, Erased, Written, Size, Key, Sound, TableOk;
    hide PathOf, AddressOf, Nth, Waiting;
    var large2;
    l2, large2 := EraseOutcome(d, l, d', l', groupSize, n, p, mean.m, mean.large, g, id, found, i, oldSize, oldBody);
    MapSizes(mean.m, Key(n, id), []);
    mean2 := Meaning(mean.m - {Key(n, id)}, large2,
                     mean.bytes - (if found then oldSize else 0), mean.count - (if found then 1 else 0));
  }
}
