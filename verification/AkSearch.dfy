/** What a search of an index has found, and the facts its operations start from. */
module AkSearches {
  import opened Blocks
  import opened AkOrder
  import opened AkNodes
  import opened AkChanges
  import opened Sequences

  /** What a search reports: whether the key was found, and whether it lies left or right of
      every key there is; and where in the leaves it stopped. */
  datatype Look = Look(found: bool, left: bool, right: bool, node: nat, pos: nat)

  /** The leaf a search of the root leads to. */
  ghost predicate Under(noCase: bool, leaves: seq<seq<Record>>, k: Rank, i: nat, beyond: bool) {
    && i < |leaves|
    && (i > 0 ==> leaves[i - 1] != [] && Less(KeyRank(noCase, Last(leaves[i - 1])), k))
    && (i + 1 < |leaves| ==> !beyond && leaves[i] != [] && !Less(KeyRank(noCase, Last(leaves[i])), k))
    && (beyond ==> leaves[i] != [] && Less(KeyRank(noCase, Last(leaves[i])), k))
    && (|leaves| >= 2 && !beyond ==> leaves[i] != [] && !Less(KeyRank(noCase, Last(leaves[i])), k))
  }

  lemma RootFacts(t: Ak, noCase: bool, path: seq<nat>, leaves: seq<seq<Record>>, fp: seq<nat>, kept: set<nat>)
    requires TreeOk(t, noCase, path, leaves, fp, kept)
    ensures InFile(t, 1) && |path| == |leaves| >= 1
    ensures At(t, 1).TermNode? <==> path == [1]
    ensures path == [1] ==> |leaves| == 1 && At(t, 1).TermNode? && At(t, 1).recs == leaves[0]
    ensures path != [1]
            ==> At(t, 1).IntNode? && At(t, 1).children == path && |path| >= 2 && KeysOk(noCase, At(t, 1).keys, leaves)
  {
    assert LeafAt(t, path, leaves, 0);
  }

  lemma ChildFacts(t: Ak, noCase: bool, path: seq<nat>, leaves: seq<seq<Record>>, fp: seq<nat>, kept: set<nat>, i: nat)
    requires TreeOk(t, noCase, path, leaves, fp, kept) && path != [1] && i < |path|
    ensures At(t, 1).IntNode? && |At(t, 1).keys| == |path| == |leaves|
    ensures InFile(t, path[i]) && At(t, path[i]).TermNode? && At(t, path[i]).recs == leaves[i]
    ensures leaves[i] != [] && RankOf(noCase, At(t, 1).keys[i]) == KeyRank(noCase, Last(leaves[i]))
    ensures i > 0 ==> leaves[i - 1] != [] && RankOf(noCase, At(t, 1).keys[i - 1]) == KeyRank(noCase, Last(leaves[i - 1]))
  {
    assert LeafAt(t, path, leaves, i);
    assert KeyAt(noCase, At(t, 1).keys, leaves, i);
    if i > 0 {
      assert KeyAt(noCase, At(t, 1).keys, leaves, i - 1);
    }
  }

  /** What a search found, in terms of the whole sorted list. */
  ghost predicate Located(noCase: bool, path: seq<nat>, leaves: seq<seq<Record>>, k: Rank, r: Look, i: nat) {
    && i < |path| == |leaves| && r.node == path[i] && r.pos <= |leaves[i]|
    && var p := Global(leaves, i, r.pos); var all := Flat(leaves);
    && Position(noCase, all, k, p)
    && (r.found <==> Hit(noCase, all, k, p))
    && (r.right <==> p == |all|)
    && (r.left <==> all == [] || (p == 0 && !r.found))
    && (p == |all| ==> r.pos == |leaves[i]| && i + 1 == |leaves|)
    && (p < |all| ==> r.pos < |leaves[i]|)
  }

  lemma LocateFacts(t: Ak, noCase: bool, path: seq<nat>, leaves: seq<seq<Record>>, fp: seq<nat>, kept: set<nat>,
                    m: map<Rank, Body>,
                    k: Rank, i: nat, pos: nat, beyond: bool)
    requires TreeOk(t, noCase, path, leaves, fp, kept) && Maps(noCase, Flat(leaves), m)
    requires Under(noCase, leaves, k, i, beyond) && pos <= |leaves[i]|
    requires forall j | 0 <= j < pos :: Less(KeyRank(noCase, leaves[i][j]), k)
    requires pos < |leaves[i]| ==> !Less(KeyRank(noCase, leaves[i][pos]), k)
    ensures Spot(noCase, leaves, k, i, pos)
    ensures var p := Global(leaves, i, pos); var all := Flat(leaves);
            && Position(noCase, all, k, p)
            && (Hit(noCase, all, k, p) <==> Hit(noCase, leaves[i], k, pos))
            && (Hit(noCase, leaves[i], k, pos) <==> k in m)
            && (Hit(noCase, leaves[i], k, pos) ==> leaves[i][pos].body == m[k])
            && (p == |all| <==> pos == |leaves[i]|)
            && (pos == |leaves[i]| ==> i + 1 == |leaves|)
            && (all == [] <==> leaves[i] == [])
            && (p == 0 <==> pos == 0 && i == 0)
            && (i == 0 <==> At(t, path[i]).TermNode? && At(t, path[i]).left == 0)
    ensures beyond ==> pos == |leaves[i]|
    ensures |path| == |leaves|
  {
    hide Less, RankOf, Maps, RootIs, FreeOk, Owned, Bytes;
    SpotIsPosition(noCase, leaves, k, i, pos);
    HitDecides(noCase, Flat(leaves), m, k, Global(leaves, i, pos));
    GlobalEnd(leaves, i);
    if pos < |leaves[i]| {
      GlobalAt(leaves, i, pos);
    }
    if beyond {
      GlobalAt(leaves, i, |leaves[i]| - 1);
    }
    BeforeLeaf(leaves, i);
    LeftLink(t, path, leaves, i);
    LeftOwned(t, noCase, path, leaves, fp, kept, i);
  }

  lemma LeftLink(t: Ak, path: seq<nat>, leaves: seq<seq<Record>>, i: nat)
    requires ChainOk(t, path, leaves) && i < |path|
    ensures At(t, path[i]).TermNode? && At(t, path[i]).left == Prev(path, i) && At(t, path[i]).right == Nth(path, i + 1)
    ensures At(t, path[i]).recs == leaves[i] && At(t, path[i]).used == TERM_NODE_HEADER_SIZE + Bytes(leaves[i])
    ensures Fits(leaves[i]) && InFile(t, path[i])
  {
    assert LeafAt(t, path, leaves, i);
  }

  lemma LeftOwned(t: Ak, noCase: bool, path: seq<nat>, leaves: seq<seq<Record>>, fp: seq<nat>, kept: set<nat>, i: nat)
    requires TreeOk(t, noCase, path, leaves, fp, kept) && i < |path|
    ensures Prev(path, i) == 0 <==> i == 0
    ensures Nth(path, i + 1) == 0 <==> i + 1 == |path|
  {
    if i > 0 {
      assert path[i - 1] in path;
    }
    if i + 1 < |path| {
      assert path[i + 1] in path;
    }
  }

  /** There are records before a leaf exactly when it is not the first. */
  lemma BeforeLeaf(leaves: seq<seq<Record>>, i: nat)
    requires i < |leaves| && (i > 0 ==> leaves[i - 1] != [])
    ensures Global(leaves, i, 0) == 0 <==> i == 0
    ensures Global(leaves, i, |leaves[i]|) == Global(leaves, i, 0) + |leaves[i]|
    ensures i + 1 == |leaves| && leaves[i] == [] && i == 0 ==> Flat(leaves) == []
    ensures Flat(leaves) == [] ==> leaves[i] == []
  {
    if i > 0 {
      GlobalEnd(leaves, i - 1);
    } else {
      NoneBefore(leaves);
    }
    FlatAround(leaves, i);
    GlobalEnd(leaves, i);
  }

  /** The chains are in order, apart from the nodes in hand. */
  ghost predicate Holding(t: Ak, path: seq<nat>, leaves: seq<seq<Record>>, fp: seq<nat>, hand: set<nat>) {
    ChainOk(t, path, leaves) && FreeOk(t, fp) && Owned(t, path, fp, hand) && t.free <= |t.nodes|
  }

  /** What a write knows when it has found the place of the record. */
  lemma WriteFacts(t: Ak, noCase: bool, path: seq<nat>, leaves: seq<seq<Record>>, fp: seq<nat>, kept: set<nat>,
                   m: map<Rank, Body>,
                   r: Record, i: nat, pos: nat, hit: bool, beyond: bool)
    requires TreeOk(t, noCase, path, leaves, fp, kept) && Maps(noCase, Flat(leaves), m)
    requires Under(noCase, leaves, KeyRank(noCase, r), i, beyond) && pos <= |leaves[i]|
    requires forall j | 0 <= j < pos :: Less(KeyRank(noCase, leaves[i][j]), KeyRank(noCase, r))
    requires pos < |leaves[i]| ==> !Less(KeyRank(noCase, leaves[i][pos]), KeyRank(noCase, r))
    requires hit <==> Hit(noCase, leaves[i], KeyRank(noCase, r), pos)
    ensures |path| == |leaves| && Spot(noCase, leaves, KeyRank(noCase, r), i, pos)
    ensures (hit <==> KeyRank(noCase, r) in m) && (hit ==> leaves[i][pos].body == m[KeyRank(noCase, r)])
    ensures Bytes(PutAt(leaves[i], pos, hit, r))
            == Bytes(leaves[i]) + Size(r) - if hit then Size(leaves[i][pos]) else 0
    ensures InFile(t, 1) && InFile(t, path[i]) && Fits(leaves[i])
    ensures At(t, path[i]) == TermNode(Prev(path, i), Nth(path, i + 1), TERM_NODE_HEADER_SIZE + Bytes(leaves[i]), leaves[i])
    ensures path != [1] ==> At(t, 1).IntNode? && At(t, 1).children == path && |At(t, 1).keys| == |path| >= 2 && 1 !in path
                            && |At(t, 1).keys[i]| <= At(t, 1).used
    ensures (At(t, 1).TermNode? <==> path == [1]) && path[i] !in kept && 1 !in kept
  {
    hide Less, RankOf, Maps, Size, Flat, Sorted, Owned, RootIs, FreeOk;
    OuterApart(t, path, fp, kept, i);
    LocateFacts(t, noCase, path, leaves, fp, kept, m, KeyRank(noCase, r), i, pos, beyond);
    BytesParts(leaves[i], pos, hit, r);
    LeftLink(t, path, leaves, i);
    RootFacts(t, noCase, path, leaves, fp, kept);
    if path != [1] {
      RootSize(t, noCase, path, leaves, i);
      NotOne(t, noCase, path, leaves, fp, kept);
    }
  }

  lemma NotOne(t: Ak, noCase: bool, path: seq<nat>, leaves: seq<seq<Record>>, fp: seq<nat>, kept: set<nat>)
    requires TreeOk(t, noCase, path, leaves, fp, kept) && path != [1]
    ensures 1 !in path && NoDup(path)
  {
  }

  /** The j-th of the leaves that replace one. */
  function NewLeaf(left: nat, right: nat, mid: seq<nat>, parts: seq<seq<Record>>, j: nat): Node
    requires j < |mid| == |parts|
  {
    TermNode(if j == 0 then left else mid[j - 1], if j + 1 == |mid| then right else mid[j + 1],
             TERM_NODE_HEADER_SIZE + Bytes(parts[j]), parts[j])
  }

  lemma LeafSplitFacts(t: Ak, noCase: bool, path: seq<nat>, leaves: seq<seq<Record>>, fp: seq<nat>, kept: set<nat>,
                       r: Record,
                   i: nat, pos: nat, hit: bool)
    requires TreeOk(t, noCase, path, leaves, fp, kept) && LeafSized(r) && WriteRoom(t, noCase, leaves, r)
    requires |path| == |leaves| && i < |path| && Spot(noCase, leaves, KeyRank(noCase, r), i, pos)
    requires hit <==> Hit(noCase, leaves[i], KeyRank(noCase, r), pos)
    requires Fits(leaves[i]) && !Fits(PutAt(leaves[i], pos, hit, r))
    ensures Holding(t, path, leaves, fp, kept)
    ensures var parts := SplitOf(leaves[i], pos, hit, r);
            && 2 <= |parts| <= 3
            && Flat(parts) == PutAt(leaves[i], pos, hit, r)
            && (forall j | 0 <= j < |parts| :: parts[j] != [] && Fits(parts[j]))
            && (At(t, 1).IntNode? ==> InternalFits(At(t, 1), i, LastIds(parts)))
  {
    hide Less, RankOf, Maps, Sorted, Bytes, Flat, ChainOk, RootIs, IdsFit, InternalFits, Size, SplitOf, Fits, LastIds;
    SplitGood(leaves[i], pos, hit, r);
    FreeHead(t, path, fp, kept);
    if At(t, 1).IntNode? {
      assert RoomAt(t, noCase, leaves, r, i, pos);
    }
  }

  lemma FreeHead(t: Ak, path: seq<nat>, fp: seq<nat>, hand: set<nat>)
    requires FreeOk(t, fp) && Owned(t, path, fp, hand)
    ensures t.free <= |t.nodes|
  {
    if fp != [] {
      assert fp[0] in fp;
    }
  }

  /** The neighbours of a leaf are two other nodes of the file, not in hand. */
  lemma SidesFacts(t: Ak, t1: Ak, path: seq<nat>, leaves: seq<seq<Record>>, fp: seq<nat>, hand: set<nat>, i: nat,
                   mid: seq<nat>)
    requires Holding(t, path, leaves, fp, hand) && i < |path| && |t1.nodes| == |t.nodes|
    requires forall x | x in mid :: x in hand
    ensures var left, right := Prev(path, i), Nth(path, i + 1);
            (left != 0 ==> InFile(t1, left) && left != right) && (right != 0 ==> InFile(t1, right))
  {
    if i > 0 {
      assert path[i - 1] in path;
    }
    if i + 1 < |path| {
      assert path[i + 1] in path;
    }
  }

  lemma InstalledFacts(t: Ak, t1: Ak, t': Ak, path: seq<nat>, leaves: seq<seq<Record>>, fp: seq<nat>, hand: set<nat>,
                       i: nat, mid: seq<nat>, parts: seq<seq<Record>>)
    requires Holding(t, path, leaves, fp, hand) && i < |path| && NoDup(mid) && |mid| == |parts| >= 2
    requires (forall x | x in mid :: x in hand) && forall j | 0 <= j < |parts| :: Fits(parts[j])
    requires |t1.nodes| == |t'.nodes| == |t.nodes| && t'.free == t1.free == t.free
    requires forall j | 0 <= j < |mid| :: At(t1, mid[j]) == NewLeaf(Prev(path, i), Nth(path, i + 1), mid, parts, j)
    requires forall x | x !in mid :: At(t1, x) == At(t, x)
    requires var left, right := Prev(path, i), Nth(path, i + 1);
             && (left != 0 ==> At(t', left) == LinkRight(At(t1, left), mid[0]))
             && (right != 0 ==> At(t', right) == LinkLeft(At(t1, right), mid[|mid| - 1]))
             && (forall x | x != left && x != right :: At(t', x) == At(t1, x))
    ensures Installed(t, t', path, fp, i, mid, parts)
  {
    hide Bytes, Fits, ChainOk, FreeOk;
    var left, right := Prev(path, i), Nth(path, i + 1);
    assert i > 0 ==> left in path;
    assert i + 1 < |path| ==> right in path;
    forall x | x in mid ensures x !in path && x != left && x != right && x != 0 && InFile(t', x) {
    }
    forall j | 0 <= j < |mid| ensures PartAt(t', path, i, mid, parts, j) {
      assert mid[j] in mid;
    }
    forall x | x in path && x != left && x != right ensures At(t', x) == At(t, x) {
    }
    forall j | 0 <= j < |path| && j != i && j != i - 1 && j != i + 1 ensures At(t', path[j]) == At(t, path[j]) {
      assert path[j] in path;
    }
    forall x | x in fp ensures At(t', x) == At(t, x) {
      assert x !in hand && x !in path;
    }
    assert 1 !in mid;
    if path != [1] {
      assert 1 !in path;
    }
  }

  lemma RootSame(t: Ak, t': Ak, noCase: bool, path: seq<nat>, leaves: seq<seq<Record>>)
    requires RootIs(t, noCase, path, leaves) && At(t', 1) == At(t, 1)
    ensures RootIs(t', noCase, path, leaves)
  {
  }

  lemma FitRoom(t: Ak, noCase: bool, leaves: seq<seq<Record>>, r: Record, i: nat, pos: nat)
    requires WriteRoom(t, noCase, leaves, r) && Spot(noCase, leaves, KeyRank(noCase, r), i, pos) && At(t, 1).IntNode?
    requires pos == |leaves[i]| && Fits(PutAt(leaves[i], pos, false, r))
    ensures InternalFits(At(t, 1), i, [r.id])
  {
    hide Less, RankOf, Bytes, InternalFits;
    assert RoomAt(t, noCase, leaves, r, i, pos);
    assert LastIds([PutAt(leaves[i], pos, false, r)]) == [r.id];
  }

  lemma RootInFile(t: Ak, path: seq<nat>, fp: seq<nat>, hand: set<nat>)
    requires Owned(t, path, fp, hand)
    ensures InFile(t, 1)
  {
  }

  /** What a delete knows when it has looked for the record. */
  lemma DeleteFacts(t: Ak, noCase: bool, path: seq<nat>, leaves: seq<seq<Record>>, fp: seq<nat>, kept: set<nat>,
                    m: map<Rank, Body>,
                    k: Rank, i: nat, pos: nat, hit: bool, beyond: bool)
    requires TreeOk(t, noCase, path, leaves, fp, kept) && Maps(noCase, Flat(leaves), m)
    requires Under(noCase, leaves, k, i, beyond) && pos <= |leaves[i]|
    requires forall j | 0 <= j < pos :: Less(KeyRank(noCase, leaves[i][j]), k)
    requires pos < |leaves[i]| ==> !Less(KeyRank(noCase, leaves[i][pos]), k)
    requires hit <==> Hit(noCase, leaves[i], k, pos)
    ensures |path| == |leaves| && Spot(noCase, leaves, k, i, pos)
    ensures (hit <==> k in m) && (hit ==> leaves[i][pos].body == m[k]) && (beyond ==> !hit)
    ensures hit ==> Bytes(RemoveAt(leaves[i], pos)) == Bytes(leaves[i]) - Size(leaves[i][pos])
                    && Size(leaves[i][pos]) <= Bytes(leaves[i])
    ensures InFile(t, 1) && InFile(t, path[i])
    ensures At(t, path[i]) == TermNode(Prev(path, i), Nth(path, i + 1), TERM_NODE_HEADER_SIZE + Bytes(leaves[i]), leaves[i])
    ensures path != [1] ==> At(t, 1).IntNode? && At(t, 1).children == path && |At(t, 1).keys| == |path| >= 2 && 1 !in path
                            && |At(t, 1).keys[i]| <= At(t, 1).used
    ensures (At(t, 1).TermNode? <==> path == [1]) && path[i] !in kept && 1 !in kept
  {
    hide Less, RankOf, Maps, Size, Flat, Sorted, Owned, RootIs, FreeOk;
    OuterApart(t, path, fp, kept, i);
    LocateFacts(t, noCase, path, leaves, fp, kept, m, k, i, pos, beyond);
    LeftLink(t, path, leaves, i);
    RootFacts(t, noCase, path, leaves, fp, kept);
    if hit {
      LeafShrinks(t, path, leaves, i, pos);
    }
    if path != [1] {
      RootSize(t, noCase, path, leaves, i);
      NotOne(t, noCase, path, leaves, fp, kept);
    }
  }

  lemma ShrinkRoom(t: Ak, noCase: bool, leaves: seq<seq<Record>>, k: Rank, i: nat, pos: nat)
    requires DeleteRoom(t, noCase, leaves, k) && Spot(noCase, leaves, k, i, pos) && At(t, 1).IntNode?
    requires Hit(noCase, leaves[i], k, pos) && pos + 1 == |leaves[i]| && pos > 0
    ensures InternalFits(At(t, 1), i, [leaves[i][pos - 1].id])
  {
    hide Less, RankOf, InternalFits;
    assert ShrinkAt(t, leaves, i, pos);
  }

  lemma DropFacts(t: Ak, noCase: bool, path: seq<nat>, leaves: seq<seq<Record>>, fp: seq<nat>, kept: set<nat>, i: nat)
    requires TreeOk(t, noCase, path, leaves, fp, kept) && i < |path| == |leaves| && |path| >= 2
    ensures InFile(t, 1) && NoDup(path) && InternalFits(At(t, 1), i, []) && 1 !in kept
    ensures forall x | x in path :: InFile(t, x) && x !in kept
    ensures var left, right := Prev(path, i), Nth(path, i + 1);
            (left != 0 ==> InFile(t, left) && left != right) && (right != 0 ==> InFile(t, right))
  {
    hide Bytes, KeysOk;
    RootSize(t, noCase, path, leaves, i);
    assert KeyBytes([]) == 0;
    if i > 0 {
      assert path[i - 1] in path;
    }
    if i + 1 < |path| {
      assert path[i + 1] in path;
    }
  }

  lemma UnlinkedFacts(t: Ak, t': Ak, path: seq<nat>, leaves: seq<seq<Record>>, fp: seq<nat>, kept: set<nat>, i: nat)
    requires Owned(t, path, fp, kept) && i < |path| && |path| >= 2 && |t'.nodes| == |t.nodes|
    requires var left, right := Prev(path, i), Nth(path, i + 1);
             && (left != 0 ==> At(t', left) == LinkRight(At(t, left), right))
             && (right != 0 ==> At(t', right) == LinkLeft(At(t, right), left))
             && (forall x | x != left && x != right :: At(t', x) == At(t, x))
    ensures Relinked(t, t', path, i, []) && (forall x | x in fp :: At(t', x) == At(t, x)) && At(t', 1) == At(t, 1)
  {
    assert i > 0 ==> path[i - 1] in path;
    assert i + 1 < |path| ==> path[i + 1] in path;
  }

  function KeyIds(recs: seq<Record>): (ids: seq<Id>)
    ensures |ids| == |recs|
  {
    seq(|recs|, i requires 0 <= i < |recs| => recs[i].id)
  }

  lemma ListedStart(leaves: seq<seq<Record>>)
    ensures KeyIds(Flat(leaves[..0])) == []
  {
    assert leaves[..0] == [];
  }

  lemma ListedLeaf(leaves: seq<seq<Record>>, i: nat)
    requires i < |leaves|
    ensures KeyIds(Flat(leaves[..i + 1])) == KeyIds(Flat(leaves[..i])) + KeyIds(leaves[i])
  {
    assert leaves[..i + 1] == leaves[..i] + [leaves[i]];
    FlatConcat(leaves[..i], [leaves[i]]);
    FlatOne(leaves[i]);
  }

  /** The ids of a sorted list, in its order, are the keys of its map, each once. */
  lemma ListedAll(noCase: bool, recs: seq<Record>, m: map<Rank, Body>)
    requires Sorted(noCase, recs) && Maps(noCase, recs, m)
    ensures var ids := KeyIds(recs);
            && (forall i, j | 0 <= i < j < |ids| :: Less(RankOf(noCase, ids[i]), RankOf(noCase, ids[j])))
            && (forall k :: k in m <==> exists i :: 0 <= i < |ids| && RankOf(noCase, ids[i]) == k)
  {
    hide Less, RankOf;
    var ids := KeyIds(recs);
    forall i, j | 0 <= i < j < |ids| ensures Less(RankOf(noCase, ids[i]), RankOf(noCase, ids[j])) {
      assert Less(KeyRank(noCase, recs[i]), KeyRank(noCase, recs[j]));
    }
    forall k ensures k in m <==> exists i :: 0 <= i < |ids| && RankOf(noCase, ids[i]) == k {
      if k in m {
        assert HasRank(noCase, recs, k);
        var r :| r in recs && KeyRank(noCase, r) == k;
        var i :| 0 <= i < |recs| && recs[i] == r;
        assert RankOf(noCase, ids[i]) == k;
      }
      if i :| 0 <= i < |ids| && RankOf(noCase, ids[i]) == k {
        assert recs[i] in recs && KeyRank(noCase, recs[i]) == k;
      }
    }
  }

  lemma HoldingNow(t: Ak, noCase: bool, path: seq<nat>, leaves: seq<seq<Record>>, fp: seq<nat>, kept: set<nat>)
    requires TreeOk(t, noCase, path, leaves, fp, kept)
    ensures Holding(t, path, leaves, fp, kept) && 1 !in kept && InFile(t, 1) && (forall x | x in kept :: InFile(t, x))
  {
    FreeHead(t, path, fp, kept);
  }

  /** Nodes in hand are neither leaves nor the root. */
  lemma OuterApart(t: Ak, path: seq<nat>, fp: seq<nat>, hand: set<nat>, i: nat)
    requires Owned(t, path, fp, hand) && i < |path|
    ensures 1 !in hand && path[i] !in hand
    ensures i > 0 ==> path[i - 1] !in hand
    ensures i + 1 < |path| ==> path[i + 1] !in hand
  {
    assert path[i] in path;
    assert i > 0 ==> path[i - 1] in path;
    assert i + 1 < |path| ==> path[i + 1] in path;
  }
}
