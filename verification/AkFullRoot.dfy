/** An index that is written to with ever greater keys comes to the point at which its root must be
    split; and the key that splits it is lost. */
module AkFullRoots {
  import opened Blocks
  import opened AkOrder
  import opened AkNodes
  import opened AkChanges
  import opened AkSearches
  import opened AkBigs
  import opened AkIndexes
  import opened AkRootSplits
  import C = Chunks

  /** More records than an index of two levels can hold. */
  const CAPACITY := MAX_CHILD * DH_AK_NODE_SIZE

  lemma {:induction false} LeafBound(leaf: seq<Record>)
    ensures |leaf| <= Bytes(leaf)
  {
    if leaf != [] {
      LeafBound(leaf[1..]);
    }
  }

  lemma {:induction false} FlatBound(leaves: seq<seq<Record>>)
    requires forall i | 0 <= i < |leaves| :: Fits(leaves[i])
    ensures |Flat(leaves)| <= DH_AK_NODE_SIZE * |leaves|
  {
    hide Bytes;
    if leaves != [] {
      LeafBound(leaves[0]);
      forall i | 0 <= i < |leaves[1..]| ensures Fits(leaves[1..][i]) {
        assert leaves[1..][i] == leaves[i + 1];
      }
      FlatBound(leaves[1..]);
    }
  }

  /** A list has as many records at least as there are keys in its map. */
  lemma {:induction false} KeysBound(noCase: bool, recs: seq<Record>, keys: set<Rank>)
    requires forall k | k in keys :: HasRank(noCase, recs, k)
    ensures |keys| <= |recs|
  {
    hide RankOf;
    if recs == [] {
      assert keys == {};
    } else {
      var rest := keys - {KeyRank(noCase, recs[0])};
      forall k | k in rest ensures HasRank(noCase, recs[1..], k) {
        assert HasRank(noCase, recs, k);
        var r :| r in recs && KeyRank(noCase, r) == k;
        assert r in recs[1..];
      }
      KeysBound(noCase, recs[1..], rest);
    }
  }

  lemma Bounded(t: Ak, noCase: bool, path: seq<nat>, leaves: seq<seq<Record>>, fp: seq<nat>, kept: set<nat>,
                m: map<Rank, Body>)
    requires TreeOk(t, noCase, path, leaves, fp, kept) && Maps(noCase, Flat(leaves), m)
    ensures |m.Keys| <= CAPACITY
  {
    hide RankOf, Bytes, Flat, Owned, FreeOk, Sorted, HasRank;
    forall i | 0 <= i < |leaves| ensures Fits(leaves[i]) {
      assert LeafAt(t, path, leaves, i);
    }
    FlatBound(leaves);
    KeysBound(noCase, Flat(leaves), m.Keys);
  }

  /** Writes of records without data. */
  function Puts(ids: seq<Id>): (ops: seq<AkOp>)
    ensures |ops| == |ids| && forall i | 0 <= i < |ids| :: ops[i] == PutKey(ids[i], [])
  {
    seq(|ids|, i requires 0 <= i < |ids| => PutKey(ids[i], []))
  }

  function Ranks(noCase: bool, ids: seq<Id>): set<Rank> {
    set i | 0 <= i < |ids| :: RankOf(noCase, ids[i])
  }

  lemma {:induction false} RanksApart(noCase: bool, ids: seq<Id>)
    requires Ascending(noCase, ids)
    ensures |Ranks(noCase, ids)| == |ids|
  {
    hide RankOf, Less;
    if ids == [] {
      assert Ranks(noCase, ids) == {};
    } else {
      var rest, r := ids[..|ids| - 1], RankOf(noCase, ids[|ids| - 1]);
      RanksApart(noCase, rest);
      OneMore(noCase, rest, ids[|ids| - 1]);
      assert rest + [ids[|ids| - 1]] == ids;
      forall i | 0 <= i < |rest| ensures RankOf(noCase, rest[i]) != r {
        assert Less(RankOf(noCase, ids[i]), r);
        LessIrreflexive(r);
      }
    }
  }

  lemma OneMore(noCase: bool, ids: seq<Id>, id: Id)
    ensures Ranks(noCase, ids + [id]) == Ranks(noCase, ids) + {RankOf(noCase, id)}
  {
    hide RankOf;
    forall k | k in Ranks(noCase, ids) + {RankOf(noCase, id)} ensures k in Ranks(noCase, ids + [id]) {
      if k == RankOf(noCase, id) {
        assert (ids + [id])[|ids|] == id;
      } else {
        var i :| 0 <= i < |ids| && RankOf(noCase, ids[i]) == k;
        assert (ids + [id])[i] == ids[i];
      }
    }
  }

  /** The writes put exactly their keys into an index that had none. */
  lemma {:induction false} AllPut(noCase: bool, ids: seq<Id>, k: nat)
    requires k <= |ids|
    ensures AfterChanges(noCase, map[], Puts(ids)[..k]).Keys == Ranks(noCase, ids[..k])
  {
    hide RankOf, AfterChanges;
    if k == 0 {
      NoneDone(noCase, map[], Puts(ids));
    } else {
      AllPut(noCase, ids, k - 1);
      NextDone(noCase, map[], Puts(ids), k - 1);
      OneMore(noCase, ids[..k - 1], ids[k - 1]);
      assert ids[..k - 1] + [ids[k - 1]] == ids[..k];
    }
  }

  // ------------------------------------------------------------------------
  // A key beyond all others

  /** No key of the map is as great. */
  ghost predicate BeyondAll(m: map<Rank, Body>, k: Rank) {
    forall j | j in m :: Less(j, k)
  }

  /** Such a key belongs at the end of the last leaf. */
  lemma BelongsLast(noCase: bool, leaves: seq<seq<Record>>, m: map<Rank, Body>, k: Rank, i: nat, pos: nat)
    requires Maps(noCase, Flat(leaves), m) && BeyondAll(m, k) && Spot(noCase, leaves, k, i, pos)
    ensures i == |leaves| - 1 && pos == |leaves[i]| && !Hit(noCase, leaves[i], k, pos)
  {
    hide Less, RankOf, Flat;
    forall p: nat | p < |leaves[i]| ensures Less(KeyRank(noCase, leaves[i][p]), k) {
      GlobalAt(leaves, i, p);
      assert leaves[i][p] in Flat(leaves);
    }
  }

  /** The keys of a root ascend. */
  lemma KeysAscend(noCase: bool, keys: seq<Id>, leaves: seq<seq<Record>>)
    requires KeysOk(noCase, keys, leaves) && Sorted(noCase, Flat(leaves))
    ensures Ascending(noCase, keys)
  {
    hide Less, RankOf, Flat;
    forall i, j | 0 <= i < j < |keys| ensures Less(RankOf(noCase, keys[i]), RankOf(noCase, keys[j])) {
      assert KeyAt(noCase, keys, leaves, i) && KeyAt(noCase, keys, leaves, j);
      GlobalAt(leaves, i, |leaves[i]| - 1);
      GlobalAt(leaves, j, |leaves[j]| - 1);
      LaterLeaf(leaves, i, j);
    }
  }

  /** What a leaf holds comes before what a later one ends with. */
  lemma LaterLeaf(leaves: seq<seq<Record>>, i: nat, j: nat)
    requires i < j < |leaves| && leaves[i] != [] && leaves[j] != []
    ensures Global(leaves, i, |leaves[i]| - 1) < Global(leaves, j, |leaves[j]| - 1)
  {
    hide Flat;
    GlobalEnd(leaves, i);
    assert leaves[..j] == leaves[..i + 1] + leaves[i + 1..j];
    FlatConcat(leaves[..i + 1], leaves[i + 1..j]);
  }

  /** The parts end with the record that was put at the end. */
  lemma EndsWith(parts: seq<seq<Record>>, leaf: seq<Record>, r: Record)
    requires parts != [] && parts[|parts| - 1] != [] && Flat(parts) == leaf + [r]
    ensures Last(parts[|parts| - 1]) == r
  {
    hide Flat;
    var n := |parts| - 1;
    GlobalAt(parts, n, |parts[n]| - 1);
    GlobalEnd(parts, n);
  }

  /** What takes the place of the last leaf when a record is put at its end. */
  lemma EndParts(leaf: seq<Record>, r: Record)
    requires Fits(leaf) && LeafSized(r)
    ensures var parts := NewParts(leaf, |leaf|, false, r);
            && parts != [] && Flat(parts) == PutAt(leaf, |leaf|, false, r) == leaf + [r]
            && (forall j | 0 <= j < |parts| :: parts[j] != [])
            && LastKey(LastIds(parts)) == r.id
  {
    hide Flat, Bytes, SplitOf;
    var parts := NewParts(leaf, |leaf|, false, r);
    assert PutAt(leaf, |leaf|, false, r) == leaf + [r];
    if Fits(PutAt(leaf, |leaf|, false, r)) {
      FlatOne(leaf + [r]);
    } else {
      SplitGood(leaf, |leaf|, false, r);
    }
    EndsWith(parts, leaf, r);
  }

  /** When a key beyond all others has no room, there is a root to be split, and the entry that it
      changes is the last. */
  lemma LastEntryGrows(t: Ak, noCase: bool, path: seq<nat>, leaves: seq<seq<Record>>, fp: seq<nat>, kept: set<nat>,
                       m: map<Rank, Body>, r: Record)
    requires TreeOk(t, noCase, path, leaves, fp, kept) && Maps(noCase, Flat(leaves), m) && LeafSized(r)
    requires BeyondAll(m, KeyRank(noCase, r)) && !WriteRoom(t, noCase, leaves, r)
    ensures var root := At(t, 1);
            && root.IntNode? && 2 <= |root.keys| == |root.children| == |leaves|
            && var ids := LastIds(NewParts(leaves[|leaves| - 1], |leaves[|leaves| - 1]|, false, r));
            && ids != [] && LastKey(ids) == r.id
            && !InternalFits(root, |leaves| - 1, ids)
            && Ascending(noCase, root.keys) && Ascending(noCase, Rejoin(root.keys, |leaves| - 1, ids))
            && Less(RankOf(noCase, LastKey(root.keys)), KeyRank(noCase, r))
  {
    hide Less, RankOf, Flat, Bytes, Owned, FreeOk, Sorted, SplitOf, LastIds, InternalFits, KeyBytes;
    var root, k := At(t, 1), KeyRank(noCase, r);
    var i: nat, pos: nat :| Spot(noCase, leaves, k, i, pos) && !RoomAt(t, noCase, leaves, r, i, pos);
    BelongsLast(noCase, leaves, m, k, i, pos);
    assert LeafAt(t, path, leaves, i);
    assert path != [1];
    EndParts(leaves[i], r);
    var parts := NewParts(leaves[i], |leaves[i]|, false, r);
    LeavesPut(noCase, leaves, m, r, i, pos, parts);
    LastIdsOk(noCase, parts);
    KeysRejoin(noCase, root.keys, leaves, i, LastIds(parts), parts);
    KeysAscend(noCase, root.keys, leaves);
    KeysAscend(noCase, Rejoin(root.keys, i, LastIds(parts)), Rejoin(leaves, i, parts));
    assert KeyAt(noCase, root.keys, leaves, i);
    GlobalAt(leaves, i, |leaves[i]| - 1);
    assert Last(leaves[i]) in Flat(leaves);
  }

  /** However the nodes of that split are chosen, no search from the new root comes to the leaf of the
      record: the write that first needs a third level loses its record when its key is the greatest. */
  lemma FullRootLoses(t: Ak, noCase: bool, path: seq<nat>, leaves: seq<seq<Record>>, fp: seq<nat>, kept: set<nat>,
                      m: map<Rank, Body>, r: Record, mid: seq<nat>, a: nat, b: nat, top: Node, left: Node, right: Node)
    requires TreeOk(t, noCase, path, leaves, fp, kept) && Maps(noCase, Flat(leaves), m) && LeafSized(r)
    requires BeyondAll(m, KeyRank(noCase, r)) && !WriteRoom(t, noCase, leaves, r) && leaves != []
    requires var ids := LastIds(NewParts(leaves[|leaves| - 1], |leaves[|leaves| - 1]|, false, r));
             && Replaceable(At(t, 1), |leaves| - 1, ids, mid)
             && SplitInto(At(t, 1), |leaves| - 1, ids, mid, a, b, top, left, right)
    ensures SoughtBelow(noCase, top, left, right, KeyRank(noCase, r)) == Beyond
    ensures Sought(noCase, left.keys + right.keys, left.children + right.children, KeyRank(noCase, r)) == Under(mid[|mid| - 1])
  {
    hide Less, RankOf, Flat, Bytes, TreeOk, Maps, WriteRoom, NewParts, LastIds, Ascending, Sought, SoughtBelow;
    LastEntryGrows(t, noCase, path, leaves, fp, kept, m, r);
    var ids := LastIds(NewParts(leaves[|leaves| - 1], |leaves[|leaves| - 1]|, false, r));
    GreatestLost(noCase, At(t, 1), ids, mid, a, b, top, left, right);
  }

  // ------------------------------------------------------------------------
  // Coming to a full root

  /** Ascending keys that an empty index is to be given: more of them than it can hold. */
  predicate TooMany(noCase: bool, ids: seq<Id>) {
    Ascending(noCase, ids) && |ids| > CAPACITY && forall i | 0 <= i < |ids| :: |ids[i]| <= MAX_KEY_LEN
  }

  /** The number in three digits to base 96, none of them a lower-case letter. */
  function Count(i: nat): Id
    requires i < 96 * 96 * 96
  {
    [(i / 9216) as byte, (i % 9216 / 96) as byte, (i % 96) as byte]
  }

  /** There are such keys. */
  lemma CountsAscend(noCase: bool)
    ensures TooMany(noCase, seq(CAPACITY + 1, i requires 0 <= i < CAPACITY + 1 => Count(i)))
  {
    hide Less, RankOf, Count;
    var ids := seq(CAPACITY + 1, i requires 0 <= i < CAPACITY + 1 => Count(i));
    forall i, j | 0 <= i < j < |ids| ensures Less(RankOf(noCase, ids[i]), RankOf(noCase, ids[j])) {
      CountLess(noCase, i, j);
    }
    forall i | 0 <= i < |ids| ensures |ids[i]| <= MAX_KEY_LEN {
      CountRank(noCase, i);
    }
  }

  lemma CountRank(noCase: bool, i: nat)
    requires i < 96 * 96 * 96
    ensures |Count(i)| == 3 && RankOf(noCase, Count(i)) == [i / 9216, i % 9216 / 96, i % 96]
  {
  }

  lemma CountLess(noCase: bool, i: nat, j: nat)
    requires i < j < 96 * 96 * 96
    ensures Less(RankOf(noCase, Count(i)), RankOf(noCase, Count(j)))
  {
    hide RankOf, Count, Less;
    CountRank(noCase, i);
    CountRank(noCase, j);
    var a, b := i % 9216, j % 9216;
    assert i % 96 == a % 96 && j % 96 == b % 96;
    ThreeLess(i / 9216, a / 96, a % 96, j / 9216, b / 96, b % 96);
  }

  lemma ThreeLess(x: int, y: int, z: int, x': int, y': int, z': int)
    requires x < x' || (x == x' && (y < y' || (y == y' && z < z')))
    ensures Less([x, y, z], [x', y', z'])
  {
    assert [x, y, z][1..] == [y, z] && [x', y', z'][1..] == [y', z'];
    assert [y, z][1..] == [z] && [y', z'][1..] == [z'];
  }

  /** Writing them one after another comes to one whose key is greater than all in the index and for
      which the root must be split. */
  method FillUp(index: AkIndex, ids: seq<Id>) returns (done: nat)
    requires index.Valid() && index.contents == map[] && TooMany(index.noCase, ids)
    modifies index
    ensures index.Valid() && done < |ids| && index.contents.Keys == Ranks(index.noCase, ids[..done])
    ensures BeyondAll(index.bodies, RankOf(index.noCase, ids[done]))
    ensures !WriteRoom(index.T(), index.noCase, index.leaves, RecordOf(ids[done], [], 0))
  {
    hide RankOf, Less, AfterChanges, TreeOk, Maps, WriteRoom, Big, CAPACITY, Room;
    var noCase := index.noCase;
    done := index.Run(Puts(ids));
    AllPut(noCase, ids, done);
    index.KeysAgree();
    Bounded(index.T(), noCase, index.path, index.leaves, index.fp, index.outer, index.bodies);
    RanksApart(noCase, ids[..done]);
    EarlierLess(noCase, ids, done);
    NoRoomToPut(index.T(), noCase, index.leaves, ids[done]);
  }

  lemma EarlierLess(noCase: bool, ids: seq<Id>, done: nat)
    requires Ascending(noCase, ids) && done < |ids|
    ensures forall k | k in Ranks(noCase, ids[..done]) :: Less(k, RankOf(noCase, ids[done]))
  {
    hide RankOf, Less;
  }

  lemma NoRoomToPut(t: Ak, noCase: bool, leaves: seq<seq<Record>>, id: Id)
    ensures Room(t, noCase, leaves, PutKey(id, [])) <==> WriteRoom(t, noCase, leaves, RecordOf(id, [], 0))
  {
    assert C.Flat([]) == [];
  }
}
