/** What writing and deleting do to the leaves of an index and to its root. */
module AkChanges {
  import opened Blocks
  import opened AkOrder
  import opened AkNodes
  import opened Sequences
  import C = Chunks

  // ------------------------------------------------------------------------
  // Dividing a leaf

  /** How many records from the front still fit after `used` bytes. */
  function FitCount(used: nat, recs: seq<Record>): (n: nat)
    ensures n <= |recs|
    decreases |recs|
  {
    if recs == [] || used + Size(recs[0]) > DH_AK_NODE_SIZE then 0 else 1 + FitCount(used + Size(recs[0]), recs[1..])
  }

  lemma {:induction false} FitCountFits(used: nat, recs: seq<Record>)
    requires used <= DH_AK_NODE_SIZE
    ensures used + Bytes(recs[..FitCount(used, recs)]) <= DH_AK_NODE_SIZE
    ensures used + Bytes(recs) <= DH_AK_NODE_SIZE ==> FitCount(used, recs) == |recs|
    ensures FitCount(used, recs) < |recs| ==> used + Bytes(recs[..FitCount(used, recs) + 1]) > 4096
    decreases |recs|
  {
    if recs != [] {
      var n := FitCount(used, recs);
      if used + Size(recs[0]) <= DH_AK_NODE_SIZE {
        FitCountFits(used + Size(recs[0]), recs[1..]);
        assert n > 0 && recs[..n][1..] == recs[1..][..n - 1];
        assert n < |recs| ==> recs[..n + 1][1..] == recs[1..][..n];
      } else {
        assert recs[..1][1..] == [];
      }
    }
  }

  /** The leaves that replace a leaf in which the record no longer fits: what comes before the
      record, with the record if there is room; then the record, if it is not placed yet, and as
      much as fits of what comes after; then whatever is left. */
  function SplitOf(leaf: seq<Record>, pos: nat, hit: bool, r: Record): seq<seq<Record>>
    requires pos <= |leaf| && (hit ==> pos < |leaf|)
  {
    var before, after := leaf[..pos], leaf[if hit then pos + 1 else pos..];
    if Fits(before + [r]) then [before + [r], after]
    else
      var n := FitCount(TERM_NODE_HEADER_SIZE + Size(r), after);
      if n == |after| then [before, [r] + after]
      else [before, [r] + after[..n], after[n..]]
  }

  lemma BytesParts(leaf: seq<Record>, pos: nat, hit: bool, r: Record)
    requires pos <= |leaf| && (hit ==> pos < |leaf|)
    ensures var before, after := leaf[..pos], leaf[if hit then pos + 1 else pos..];
            && Bytes(before + [r]) == Bytes(before) + Size(r)
            && Bytes(PutAt(leaf, pos, hit, r)) == Bytes(before) + Size(r) + Bytes(after)
            && Bytes(leaf) == Bytes(before) + (if hit then Size(leaf[pos]) else 0) + Bytes(after)
  {
    var before, after := leaf[..pos], leaf[if hit then pos + 1 else pos..];
    BytesOne(r);
    BytesConcat(before, [r]);
    BytesConcat(before + [r], after);
    if hit {
      assert leaf == before + [leaf[pos]] + after;
      BytesOne(leaf[pos]);
      BytesConcat(before, [leaf[pos]]);
      BytesConcat(before + [leaf[pos]], after);
    } else {
      assert leaf == before + after;
      BytesConcat(before, after);
    }
  }

  /** The new leaves hold the old records with the new one in place, in order; each fits its
      node, and none is empty. */
  lemma SplitGood(leaf: seq<Record>, pos: nat, hit: bool, r: Record)
    requires pos <= |leaf| && (hit ==> pos < |leaf|) && Fits(leaf) && LeafSized(r)
    requires !Fits(PutAt(leaf, pos, hit, r))
    ensures var parts := SplitOf(leaf, pos, hit, r);
            && 2 <= |parts| <= 3
            && Flat(parts) == PutAt(leaf, pos, hit, r)
            && forall j | 0 <= j < |parts| :: parts[j] != [] && Fits(parts[j])
  {
    hide Size, Bytes, Flat, FitCount, LastIds;
    var before, after := leaf[..pos], leaf[if hit then pos + 1 else pos..];
    BytesParts(leaf, pos, hit, r);
    SizeLimit(r);
    if Fits(before + [r]) {
      NoBytesNoRecords(after);
      FlatTwo(before + [r], after);
    } else {
      NoBytesNoRecords(before);
      RestParts(before, after, r);
    }
  }

  lemma FlatTwo(a: seq<Record>, b: seq<Record>)
    ensures Flat([a, b]) == a + b
  {
    assert [a, b] == [a] + [b];
    FlatConcat([a], [b]);
    FlatOne(a);
    FlatOne(b);
  }

  lemma RestParts(before: seq<Record>, after: seq<Record>, r: Record)
    requires Fits(before) && Fits(after) && before != [] && TERM_NODE_HEADER_SIZE + Size(r) <= DH_AK_NODE_SIZE
    ensures var n := FitCount(TERM_NODE_HEADER_SIZE + Size(r), after);
            && Fits([r] + after[..n]) && Fits(after[n..])
            && (n == |after| ==> Fits([r] + after) && Flat([before, [r] + after]) == before + [r] + after)
            && Flat([before, [r] + after[..n], after[n..]]) == before + [r] + after
  {
    var n := FitCount(TERM_NODE_HEADER_SIZE + Size(r), after);
    RestFits(after, r, n);
    RestFlat(before, after, r, n);
  }

  lemma RestFits(after: seq<Record>, r: Record, n: nat)
    requires Fits(after) && TERM_NODE_HEADER_SIZE + Size(r) <= DH_AK_NODE_SIZE
    requires n == FitCount(TERM_NODE_HEADER_SIZE + Size(r), after)
    ensures Fits([r] + after[..n]) && Fits(after[n..]) && (n == |after| ==> Fits([r] + after))
  {
    hide Size, Bytes, FitCount;
    FitCountFits(TERM_NODE_HEADER_SIZE + Size(r), after);
    BytesOne(r);
    BytesConcat([r], after[..n]);
    CutBytes(after, n);
  }

  lemma CutBytes(recs: seq<Record>, n: nat)
    requires n <= |recs|
    ensures Bytes(recs[..n]) + Bytes(recs[n..]) == Bytes(recs)
    ensures n == |recs| ==> recs[..n] == recs
  {
    assert recs == recs[..n] + recs[n..];
    BytesConcat(recs[..n], recs[n..]);
  }

  lemma RestFlat(before: seq<Record>, after: seq<Record>, r: Record, n: nat)
    requires n <= |after|
    ensures Flat([before, [r] + after]) == before + [r] + after
    ensures Flat([before, [r] + after[..n], after[n..]]) == before + [r] + after
  {
    hide Flat;
    FlatTwo(before, [r] + after);
    AddAssoc(before, [r], after);
    FlatThreeParts(before, [r] + after[..n], after[n..]);
    assert after[..n] + after[n..] == after;
    AddAssoc([r], after[..n], after[n..]);
    AddAssoc(before, [r] + after[..n], after[n..]);
  }

  lemma FlatThreeParts(a: seq<Record>, b: seq<Record>, c: seq<Record>)
    ensures Flat([a, b, c]) == a + b + c
  {
    assert [a, b, c] == [a, b] + [c];
    FlatConcat([a, b], [c]);
    FlatTwo(a, b);
    FlatOne(c);
  }

  /** What takes the place of a leaf when a record is put in it. */
  function NewParts(leaf: seq<Record>, pos: nat, hit: bool, r: Record): seq<seq<Record>>
    requires pos <= |leaf| && (hit ==> pos < |leaf|)
  {
    if Fits(PutAt(leaf, pos, hit, r)) then [PutAt(leaf, pos, hit, r)] else SplitOf(leaf, pos, hit, r)
  }

  /** The largest keys of leaves. */
  function LastIds(parts: seq<seq<Record>>): (ids: seq<Id>)
    ensures |ids| == |parts|
  {
    seq(|parts|, j requires 0 <= j < |parts| => if parts[j] == [] then [] else Last(parts[j]).id)
  }

  lemma LastIdsOk(noCase: bool, parts: seq<seq<Record>>)
    requires forall j | 0 <= j < |parts| :: parts[j] != []
    ensures KeysOk(noCase, LastIds(parts), parts)
  {
  }

  // ------------------------------------------------------------------------
  // The root

  /** The root can take these keys for one of its own without being split. */
  predicate InternalFits(root: Node, i: nat, newKeys: seq<Id>) {
    root.IntNode? && i < |root.keys|
    && |root.keys| + |newKeys| - 1 <= MAX_CHILD
    && root.used + KeyBytes(newKeys) - |root.keys[i]| <= DH_AK_NODE_SIZE
  }

  /** There is room for 200 keys, and for 4096 bytes with a header of 1004. */
  lemma InternalRoom(root: Node, i: nat, newKeys: seq<Id>)
    requires root.IntNode? && i < |root.keys| && root.used == INT_NODE_HEADER_SIZE + KeyBytes(root.keys)
    ensures InternalFits(root, i, newKeys)
            <==> |Rejoin(root.keys, i, newKeys)| <= 200 && 1004 + KeyBytes(Rejoin(root.keys, i, newKeys)) <= 4096
  {
    hide KeyBytes, Rejoin;
    KeyBytesRejoin(root.keys, i, newKeys);
  }

  /** The root with one key and child replaced. */
  function NewRoot(root: Node, i: nat, newKeys: seq<Id>, mid: seq<nat>): Node
    requires root.IntNode? && i < |root.keys| == |root.children| && |root.keys[i]| <= root.used
  {
    IntNode(root.used - |root.keys[i]| + KeyBytes(newKeys), Rejoin(root.children, i, mid), Rejoin(root.keys, i, newKeys))
  }

  /** A record as it is held, with this node at the head of its chain if it is large. */
  function RecordOf(id: Id, data: Data, head: nat): Record {
    Record(id, if RECORD_HEADER_SIZE + |id| + |data| >= AK_BIG_REC_SIZE then Large(head) else Inline(data))
  }

  /** A record of 3300 bytes or more, header and id among them, is a large one. */
  lemma LargeFrom(id: Id, data: Data, head: nat)
    ensures RecordOf(id, data, head).body.Large? <==> 8 + |id| + |data| >= 3300
  {
  }

  /** The write stays in a tree of at most two levels: the test for splitting the root fails,
      whenever it is made. */
  ghost predicate WriteRoom(t: Ak, noCase: bool, leaves: seq<seq<Record>>, r: Record) {
    At(t, 1).IntNode? ==>
      forall i: nat, pos: nat | Spot(noCase, leaves, KeyRank(noCase, r), i, pos) :: RoomAt(t, noCase, leaves, r, i, pos)
  }

  ghost predicate RoomAt(t: Ak, noCase: bool, leaves: seq<seq<Record>>, r: Record, i: nat, pos: nat)
    requires i < |leaves| && pos <= |leaves[i]|
  {
    var hit := Hit(noCase, leaves[i], KeyRank(noCase, r), pos);
    || (Fits(PutAt(leaves[i], pos, hit, r)) && pos < |leaves[i]|)
    || InternalFits(At(t, 1), i, LastIds(NewParts(leaves[i], pos, hit, r)))
  }

  /** Room does not depend on where a large record's chain is. */
  lemma RoomSame(t: Ak, t': Ak, noCase: bool, leaves: seq<seq<Record>>, r: Record, r': Record)
    requires WriteRoom(t, noCase, leaves, r) && At(t', 1) == At(t, 1) && r'.id == r.id && Size(r') == Size(r)
    ensures WriteRoom(t', noCase, leaves, r')
  {
    hide Less, RankOf, Size, NewParts, InternalFits;
    forall i: nat, pos: nat | At(t', 1).IntNode? && Spot(noCase, leaves, KeyRank(noCase, r'), i, pos)
      ensures i < |leaves| && pos <= |leaves[i]| && RoomAt(t', noCase, leaves, r', i, pos)
    {
      assert KeyRank(noCase, r') == KeyRank(noCase, r);
      assert RoomAt(t, noCase, leaves, r, i, pos);
      SameParts(leaves[i], pos, Hit(noCase, leaves[i], KeyRank(noCase, r), pos), r, r');
    }
  }

  lemma SameParts(leaf: seq<Record>, pos: nat, hit: bool, r: Record, r': Record)
    requires pos <= |leaf| && (hit ==> pos < |leaf|) && r'.id == r.id && Size(r') == Size(r)
    ensures Fits(PutAt(leaf, pos, hit, r')) <==> Fits(PutAt(leaf, pos, hit, r))
    ensures LastIds(NewParts(leaf, pos, hit, r')) == LastIds(NewParts(leaf, pos, hit, r))
  {
    hide Size, FitCount, Bytes;
    BytesParts(leaf, pos, hit, r);
    BytesParts(leaf, pos, hit, r');
  }

  lemma RootSize(t: Ak, noCase: bool, path: seq<nat>, leaves: seq<seq<Record>>, i: nat)
    requires RootIs(t, noCase, path, leaves) && path != [1] && i < |path| == |leaves|
    ensures At(t, 1).IntNode? && |At(t, 1).keys| == |leaves| == |path| && At(t, 1).children == path
    ensures |At(t, 1).keys[i]| <= At(t, 1).used
  {
    KeyBytesRejoin(At(t, 1).keys, i, []);
  }

  /** The root after one leaf has been replaced by one or more. */
  lemma RootReplaced(t: Ak, t': Ak, noCase: bool, path: seq<nat>, leaves: seq<seq<Record>>, i: nat,
                     newKeys: seq<Id>, mid: seq<nat>, parts: seq<seq<Record>>)
    requires RootIs(t, noCase, path, leaves) && path != [1] && i < |path|
    requires |newKeys| == |mid| == |parts| >= 1 && KeysOk(noCase, newKeys, parts) && 1 !in mid
    requires At(t, 1).IntNode? && |At(t, 1).keys| == |path| == |leaves| && At(t, 1).children == path
    requires |At(t, 1).keys[i]| <= At(t, 1).used
    requires InternalFits(At(t, 1), i, newKeys)
    requires At(t', 1) == NewRoot(At(t, 1), i, newKeys, mid)
    ensures RootIs(t', noCase, Rejoin(path, i, mid), Rejoin(leaves, i, parts))
  {
    KeyBytesRejoin(At(t, 1).keys, i, newKeys);
    KeysRejoin(noCase, At(t, 1).keys, leaves, i, newKeys, parts);
    assert 1 !in Rejoin(path, i, mid);
  }

  /** The root is left alone, because the largest key of the leaf is the same. */
  lemma RootKept(t: Ak, t': Ak, noCase: bool, path: seq<nat>, leaves: seq<seq<Record>>, i: nat, leaf: seq<Record>)
    requires RootIs(t, noCase, path, leaves) && i < |path| == |leaves| && At(t', 1) == At(t, 1)
    requires path != [1]
             ==> leaf != [] && leaves[i] != [] && KeyRank(noCase, Last(leaf)) == KeyRank(noCase, Last(leaves[i]))
    ensures RootIs(t', noCase, path, leaves[i := leaf])
  {
    hide RankOf;
    if path != [1] {
      var keys, leaves' := At(t, 1).keys, leaves[i := leaf];
      forall j | 0 <= j < |keys| ensures KeyAt(noCase, keys, leaves', j) {
        assert KeyAt(noCase, keys, leaves, j);
      }
    }
  }

  // ------------------------------------------------------------------------
  // The records

  /** The list and the map after a record has been put, however its leaf was divided. */
  lemma LeavesPut(noCase: bool, leaves: seq<seq<Record>>, m: map<Rank, Body>, r: Record, i: nat, pos: nat,
                  parts: seq<seq<Record>>)
    requires Sorted(noCase, Flat(leaves)) && Maps(noCase, Flat(leaves), m) && IdsFit(leaves) && |r.id| <= MAX_KEY_LEN
    requires Spot(noCase, leaves, KeyRank(noCase, r), i, pos)
    requires Flat(parts) == PutAt(leaves[i], pos, Hit(noCase, leaves[i], KeyRank(noCase, r), pos), r)
    ensures Sorted(noCase, Flat(Rejoin(leaves, i, parts)))
    ensures Maps(noCase, Flat(Rejoin(leaves, i, parts)), m[KeyRank(noCase, r) := r.body])
    ensures IdsFit(Rejoin(leaves, i, parts))
  {
    hide Less, RankOf, Flat, Maps, Sorted, Position;
    var k := KeyRank(noCase, r);
    var hit, p := Hit(noCase, leaves[i], k, pos), Global(leaves, i, pos);
    SpotIsPosition(noCase, leaves, k, i, pos);
    PutFlat(leaves, i, pos, hit, r, parts);
    PutSorted(noCase, Flat(leaves), p, r);
    PutMaps(noCase, Flat(leaves), m, p, r);
    PutMembers(Flat(leaves), p, hit, r);
  }

  lemma LeavesRemove(noCase: bool, leaves: seq<seq<Record>>, m: map<Rank, Body>, i: nat, pos: nat, parts: seq<seq<Record>>)
    requires Sorted(noCase, Flat(leaves)) && Maps(noCase, Flat(leaves), m) && IdsFit(leaves)
    requires i < |leaves| && pos < |leaves[i]| && Flat(parts) == RemoveAt(leaves[i], pos)
    ensures Sorted(noCase, Flat(Rejoin(leaves, i, parts)))
    ensures Maps(noCase, Flat(Rejoin(leaves, i, parts)), m - {KeyRank(noCase, leaves[i][pos])})
    ensures IdsFit(Rejoin(leaves, i, parts))
  {
    hide Less, RankOf, Flat, Maps, Sorted;
    var p := Global(leaves, i, pos);
    GlobalAt(leaves, i, pos);
    RemoveFlat(leaves, i, pos, parts);
    RemoveSorted(noCase, Flat(leaves), p);
    RemoveMaps(noCase, Flat(leaves), m, p);
  }

  lemma RejoinOne(leaves: seq<seq<Record>>, i: nat, leaf: seq<Record>)
    requires i < |leaves|
    ensures Rejoin(leaves, i, [leaf]) == leaves[i := leaf]
  {
  }

  /** Nodes that are on no chain of the old layout may be rewritten without disturbing who owns
      what. */
  lemma OwnedSame(t: Ak, t': Ak, path: seq<nat>, fp: seq<nat>, hand: set<nat>)
    requires Owned(t, path, fp, hand) && |t'.nodes| == |t.nodes|
    ensures Owned(t', path, fp, hand)
  {
  }

  // ------------------------------------------------------------------------
  // Outcomes of a write

  /** The record fits its leaf. The root's key follows when the record is the leaf's last. */
  lemma FitOutcome(t: Ak, t': Ak, noCase: bool, path: seq<nat>, leaves: seq<seq<Record>>, fp: seq<nat>, kept: set<nat>,
                   m: map<Rank, Body>, r: Record, i: nat, pos: nat, leaf: seq<Record>)
    requires TreeOk(t, noCase, path, leaves, fp, kept) && Maps(noCase, Flat(leaves), m) && |r.id| <= MAX_KEY_LEN
    requires Spot(noCase, leaves, KeyRank(noCase, r), i, pos) && |path| == |leaves|
    requires leaf == PutAt(leaves[i], pos, Hit(noCase, leaves[i], KeyRank(noCase, r), pos), r) && Fits(leaf)
    requires |t'.nodes| == |t.nodes| && t'.free == t.free && At(t, path[i]).TermNode?
    requires At(t', path[i]) == TermNode(At(t, path[i]).left, At(t, path[i]).right, TERM_NODE_HEADER_SIZE + Bytes(leaf), leaf)
    requires forall x | x != path[i] && x != 1 :: At(t', x) == At(t, x)
    requires path != [1] ==>
               At(t, 1).IntNode? && |At(t, 1).keys| == |path| == |leaves| && At(t, 1).children == path
               && |At(t, 1).keys[i]| <= At(t, 1).used
    requires path != [1] ==>
               if pos == |leaves[i]| then InternalFits(At(t, 1), i, [r.id]) && At(t', 1) == NewRoot(At(t, 1), i, [r.id], [path[i]])
               else At(t', 1) == At(t, 1)
    ensures TreeOk(t', noCase, path, leaves[i := leaf], fp, kept)
    ensures Maps(noCase, Flat(leaves[i := leaf]), m[KeyRank(noCase, r) := r.body])
  {
    hide Less, RankOf, Maps, Sorted, KeysOk, Bytes, Flat;
    FlatOne(leaf);
    RejoinOne(leaves, i, leaf);
    LeavesPut(noCase, leaves, m, r, i, pos, [leaf]);
    RewriteLeaf(t, t', path, leaves, i, leaf);
    OwnedSame(t, t', path, fp, kept);
    FreeFrame(t, t', fp);
    if path != [1] {
      if pos == |leaves[i]| {
        OneKey(noCase, r, leaf);
        RootReplaced(t, t', noCase, path, leaves, i, [r.id], [path[i]], [leaf]);
        assert Rejoin(path, i, [path[i]]) == path;
      } else {
        assert leaf != [] && leaves[i] != [] && KeyRank(noCase, Last(leaf)) == KeyRank(noCase, Last(leaves[i]));
        RootKept(t, t', noCase, path, leaves, i, leaf);
      }
    }
  }

  lemma OneKey(noCase: bool, r: Record, leaf: seq<Record>)
    requires leaf != [] && Last(leaf) == r
    ensures KeysOk(noCase, [r.id], [leaf])
  {
    assert KeyAt(noCase, [r.id], [leaf], 0);
  }

  // ------------------------------------------------------------------------
  // Outcomes of a split

  /** The new leaves are written and linked in; the old leaf is no longer on the chain. */
  ghost predicate Installed(t: Ak, t': Ak, path: seq<nat>, fp: seq<nat>, i: nat, mid: seq<nat>, parts: seq<seq<Record>>)
    requires i < |path| && |mid| == |parts|
  {
    && |t'.nodes| == |t.nodes| && t'.free == t.free
    && (forall j | 0 <= j < |mid| :: PartAt(t', path, i, mid, parts, j))
    && Relinked(t, t', path, i, mid)
    && (forall x | x in fp :: At(t', x) == At(t, x))
    && (path != [1] ==> At(t', 1) == At(t, 1))
  }

  ghost predicate InHand(hand: set<nat>, kept: set<nat>, mid: seq<nat>) {
    (forall x :: x in hand <==> x in kept || x in mid) && forall x | x in mid :: x !in kept
  }

  lemma SplitChain(t: Ak, t': Ak, path: seq<nat>, leaves: seq<seq<Record>>, fp: seq<nat>, hand: set<nat>,
                   kept: set<nat>, i: nat, mid: seq<nat>, parts: seq<seq<Record>>)
    requires ChainOk(t, path, leaves) && FreeOk(t, fp) && Owned(t, path, fp, hand) && i < |path|
    requires NoDup(mid) && InHand(hand, kept, mid) && |mid| == |parts| >= 1
    requires Installed(t, t', path, fp, i, mid, parts)
    ensures ChainOk(t', Rejoin(path, i, mid), Rejoin(leaves, i, parts)) && FreeOk(t', fp)
    ensures Owned(t', Rejoin(path, i, mid), fp, if path == [1] then kept else kept + {path[i]})
  {
    hide LeafAt, PartAt, Relinked;
    ReplaceInChain(t, t', path, leaves, i, mid, parts);
    FreeFrame(t, t', fp);
    assert forall x | x in mid :: x !in path;
    RejoinNoDup(path, i, mid);
    assert path[i] in path;
  }

  /** Splitting the root leaf: node 1 becomes a root over the new leaves. */
  lemma RootSplitOutcome(t: Ak, noCase: bool, leaves: seq<seq<Record>>, fp: seq<nat>, kept: set<nat>,
                         m: map<Rank, Body>, r: Record,
                         pos: nat, mid: seq<nat>, parts: seq<seq<Record>>)
    requires |leaves| == 1 && 2 <= |mid| == |parts| <= 3
    requires ChainOk(t, Rejoin([1], 0, mid), Rejoin(leaves, 0, parts)) && FreeOk(t, fp)
    requires Owned(t, Rejoin([1], 0, mid), fp, kept)
    requires Sorted(noCase, Flat(leaves)) && Maps(noCase, Flat(leaves), m) && IdsFit(leaves) && |r.id| <= MAX_KEY_LEN
    requires Spot(noCase, leaves, KeyRank(noCase, r), 0, pos)
    requires Flat(parts) == PutAt(leaves[0], pos, Hit(noCase, leaves[0], KeyRank(noCase, r), pos), r)
    requires forall j | 0 <= j < |parts| :: parts[j] != []
    ensures InFile(t, 1)
    ensures var ids := LastIds(parts); var t' := Set(t, 1, IntNode(INT_NODE_HEADER_SIZE + KeyBytes(ids), mid, ids));
            && TreeOk(t', noCase, mid, parts, fp, kept)
            && Maps(noCase, Flat(parts), m[KeyRank(noCase, r) := r.body])
  {
    hide Less, RankOf, Flat, Maps, Sorted, LeafAt, ChainOk, FreeOk, Owned, RootIs, KeysOk, KeyBytes, IdsFit, Spot;
    hide LastIds, PutAt, Hit, Fits, At, Bytes, Set, InFile;
    var ids := LastIds(parts);
    assert Rejoin([1], 0, mid) == mid && Rejoin(leaves, 0, parts) == parts;
    LeavesPut(noCase, leaves, m, r, 0, pos, parts);
    LastIdsOk(noCase, parts);
    LastIdsSmall(parts);
    NewRootSound(t, noCase, mid, parts, fp, kept, ids);
  }

  /** Node 1 belongs to no chain yet and becomes the root over the leaves. */
  lemma NewRootSound(t: Ak, noCase: bool, path: seq<nat>, leaves: seq<seq<Record>>, fp: seq<nat>, kept: set<nat>,
                     ids: seq<Id>)
    requires ChainOk(t, path, leaves) && FreeOk(t, fp) && Owned(t, path, fp, kept) && 2 <= |path| <= 3
    requires KeysOk(noCase, ids, leaves) && KeyBytes(ids) <= 3 * MAX_KEY_LEN
    ensures InFile(t, 1)
    ensures var t' := Set(t, 1, IntNode(INT_NODE_HEADER_SIZE + KeyBytes(ids), path, ids));
            ChainOk(t', path, leaves) && FreeOk(t', fp) && Owned(t', path, fp, kept) && RootIs(t', noCase, path, leaves)
  {
    hide LeafAt, KeysOk, FreeAt, KeyBytes;
    var t' := Set(t, 1, IntNode(INT_NODE_HEADER_SIZE + KeyBytes(ids), path, ids));
    NotRoot(t, path, fp, kept);
    ChainFrame(t, t', path, leaves);
    FreeFrame(t, t', fp);
    OwnedSame(t, t', path, fp, kept);
  }

  lemma NotRoot(t: Ak, path: seq<nat>, fp: seq<nat>, kept: set<nat>)
    requires Owned(t, path, fp, kept) && |path| >= 2
    ensures 1 !in path && 1 !in fp
  {
  }

  /** Two or three keys always fit a new root. */
  lemma LastIdsSmall(parts: seq<seq<Record>>)
    requires 2 <= |parts| <= 3 && IdsFit(parts) && forall j | 0 <= j < |parts| :: parts[j] != []
    ensures KeyBytes(LastIds(parts)) <= 3 * MAX_KEY_LEN
  {
    var ids := LastIds(parts);
    forall j | 0 <= j < |parts| ensures |ids[j]| <= MAX_KEY_LEN {
      GlobalAt(parts, j, |parts[j]| - 1);
    }
    assert ids == [ids[0]] + ids[1..];
    KeyBytesOne(ids[0]);
    if |ids| == 2 {
      assert ids[1..] == [ids[1]];
      KeyBytesOne(ids[1]);
    } else {
      assert ids[1..] == [ids[1]] + ids[2..] && ids[2..] == [ids[2]];
      KeyBytesConcat([ids[1]], ids[2..]);
      KeyBytesOne(ids[1]);
      KeyBytesOne(ids[2]);
    }
    KeyBytesConcat([ids[0]], ids[1..]);
  }

  /** Splitting a leaf under the root: the old leaf is freed and the root's entry replaced. */
  lemma LeafSplitOutcome(t: Ak, noCase: bool, path: seq<nat>, leaves: seq<seq<Record>>, fp: seq<nat>, kept: set<nat>,
                         m: map<Rank, Body>,
                         r: Record, i: nat, pos: nat, mid: seq<nat>, parts: seq<seq<Record>>)
    requires path != [1] && i < |path| == |leaves| && 2 <= |mid| == |parts|
    requires RootIs(t, noCase, path, leaves) && 1 !in mid && 1 !in path
    requires ChainOk(t, Rejoin(path, i, mid), Rejoin(leaves, i, parts)) && FreeOk(t, fp)
    requires Owned(t, Rejoin(path, i, mid), fp, kept + {path[i]}) && path[i] !in kept
    requires Sorted(noCase, Flat(leaves)) && Maps(noCase, Flat(leaves), m) && IdsFit(leaves) && |r.id| <= MAX_KEY_LEN
    requires Spot(noCase, leaves, KeyRank(noCase, r), i, pos)
    requires Flat(parts) == PutAt(leaves[i], pos, Hit(noCase, leaves[i], KeyRank(noCase, r), pos), r)
    requires forall j | 0 <= j < |parts| :: parts[j] != []
    requires At(t, 1).IntNode? && |At(t, 1).keys| == |path| && At(t, 1).children == path
             && |At(t, 1).keys[i]| <= At(t, 1).used
    requires InternalFits(At(t, 1), i, LastIds(parts))
    ensures InFile(t, path[i]) && InFile(Give(t, path[i]), 1)
    ensures var t' := Set(Give(t, path[i]), 1, NewRoot(At(t, 1), i, LastIds(parts), mid));
            && TreeOk(t', noCase, Rejoin(path, i, mid), Rejoin(leaves, i, parts), [path[i]] + fp, kept)
            && Maps(noCase, Flat(Rejoin(leaves, i, parts)), m[KeyRank(noCase, r) := r.body])
  {
    hide Less, RankOf, Flat, Maps, Sorted, LeafAt, KeysOk;
    var path', leaves', fp' := Rejoin(path, i, mid), Rejoin(leaves, i, parts), [path[i]] + fp;
    GiveSound(t, path', leaves', fp, kept + {path[i]}, path[i]);
    var t1 := Give(t, path[i]);
    var t' := Set(t1, 1, NewRoot(At(t, 1), i, LastIds(parts), mid));
    assert kept + {path[i]} - {path[i]} == kept;
    assert path[i] in path;
    LeavesPut(noCase, leaves, m, r, i, pos, parts);
    LastIdsOk(noCase, parts);
    RootReplaced(t, t', noCase, path, leaves, i, LastIds(parts), mid, parts);
    NotRoot(t1, path', fp', kept);
    ChainFrame(t1, t', path', leaves');
    FreeFrame(t1, t', fp');
    OwnedSame(t1, t', path', fp', kept);
  }

  // ------------------------------------------------------------------------
  // Outcomes of a delete

  /** The key the root must be given when the last of several records of a leaf is deleted has
      room. */
  ghost predicate DeleteRoom(t: Ak, noCase: bool, leaves: seq<seq<Record>>, k: Rank) {
    At(t, 1).IntNode? ==>
      forall i: nat, pos: nat | Spot(noCase, leaves, k, i, pos) && Hit(noCase, leaves[i], k, pos) ::
        ShrinkAt(t, leaves, i, pos)
  }

  ghost predicate ShrinkAt(t: Ak, leaves: seq<seq<Record>>, i: nat, pos: nat)
    requires i < |leaves| && pos < |leaves[i]|
  {
    pos + 1 == |leaves[i]| && pos > 0 ==> InternalFits(At(t, 1), i, [leaves[i][pos - 1].id])
  }

  /** A record is deleted and its leaf keeps others, or is the root. */
  lemma DeleteOutcome(t: Ak, t': Ak, noCase: bool, path: seq<nat>, leaves: seq<seq<Record>>, fp: seq<nat>, kept: set<nat>,
                      m: map<Rank, Body>, i: nat, pos: nat, leaf: seq<Record>)
    requires TreeOk(t, noCase, path, leaves, fp, kept) && Maps(noCase, Flat(leaves), m) && i < |path| == |leaves|
    requires pos < |leaves[i]| && leaf == RemoveAt(leaves[i], pos) && (path == [1] || leaf != [])
    requires |t'.nodes| == |t.nodes| && t'.free == t.free && At(t, path[i]).TermNode?
    requires At(t', path[i]) == TermNode(At(t, path[i]).left, At(t, path[i]).right, TERM_NODE_HEADER_SIZE + Bytes(leaf), leaf)
    requires forall x | x != path[i] && x != 1 :: At(t', x) == At(t, x)
    requires path != [1] ==>
               At(t, 1).IntNode? && |At(t, 1).keys| == |path| && At(t, 1).children == path && |At(t, 1).keys[i]| <= At(t, 1).used
    requires path != [1] ==>
               if pos + 1 == |leaves[i]|
               then InternalFits(At(t, 1), i, [Last(leaf).id]) && At(t', 1) == NewRoot(At(t, 1), i, [Last(leaf).id], [path[i]])
               else At(t', 1) == At(t, 1)
    ensures TreeOk(t', noCase, path, leaves[i := leaf], fp, kept)
    ensures Maps(noCase, Flat(leaves[i := leaf]), m - {KeyRank(noCase, leaves[i][pos])})
  {
    hide Less, RankOf, Maps, Sorted, KeysOk, Bytes, Flat;
    FlatOne(leaf);
    RejoinOne(leaves, i, leaf);
    LeavesRemove(noCase, leaves, m, i, pos, [leaf]);
    LeafShrinks(t, path, leaves, i, pos);
    RewriteLeaf(t, t', path, leaves, i, leaf);
    OwnedSame(t, t', path, fp, kept);
    FreeFrame(t, t', fp);
    if path != [1] {
      if pos + 1 == |leaves[i]| {
        OneKey(noCase, Last(leaf), leaf);
        RootReplaced(t, t', noCase, path, leaves, i, [Last(leaf).id], [path[i]], [leaf]);
        assert Rejoin(path, i, [path[i]]) == path;
      } else {
        assert Last(leaf) == Last(leaves[i]);
        RootKept(t, t', noCase, path, leaves, i, leaf);
      }
    }
  }

  lemma LeafShrinks(t: Ak, path: seq<nat>, leaves: seq<seq<Record>>, i: nat, pos: nat)
    requires ChainOk(t, path, leaves) && i < |path| && pos < |leaves[i]|
    ensures Fits(RemoveAt(leaves[i], pos))
    ensures Bytes(RemoveAt(leaves[i], pos)) == Bytes(leaves[i]) - Size(leaves[i][pos])
    ensures Size(leaves[i][pos]) <= Bytes(leaves[i])
  {
    hide Size;
    assert LeafAt(t, path, leaves, i);
    var leaf := leaves[i];
    assert leaf == leaf[..pos] + ([leaf[pos]] + leaf[pos + 1..]);
    BytesConcat(leaf[..pos], [leaf[pos]] + leaf[pos + 1..]);
    BytesConcat([leaf[pos]], leaf[pos + 1..]);
    BytesOne(leaf[pos]);
    BytesConcat(leaf[..pos], leaf[pos + 1..]);
  }

  /** The emptied leaf has been unlinked: what is left of the chain. */
  lemma UnlinkChain(t: Ak, t': Ak, path: seq<nat>, leaves: seq<seq<Record>>, fp: seq<nat>, kept: set<nat>, i: nat)
    requires ChainOk(t, path, leaves) && FreeOk(t, fp) && Owned(t, path, fp, kept) && i < |path| && |path| >= 2
    requires |t'.nodes| == |t.nodes| && t'.free == t.free
    requires Relinked(t, t', path, i, []) && forall x | x in fp :: At(t', x) == At(t, x)
    ensures ChainOk(t', Rejoin(path, i, []), Rejoin(leaves, i, [])) && FreeOk(t', fp)
    ensures Owned(t', Rejoin(path, i, []), fp, kept + {path[i]}) && path[i] !in kept
  {
    hide LeafAt, Relinked;
    ReplaceInChain(t, t', path, leaves, i, [], []);
    FreeFrame(t, t', fp);
    RejoinNoDup(path, i, []);
    assert path[i] in path;
  }

  /** The root over the leaves that remain, when there are still two. */
  lemma DropOutcome(t: Ak, noCase: bool, path: seq<nat>, leaves: seq<seq<Record>>, fp: seq<nat>, kept: set<nat>,
                    m: map<Rank, Body>,
                    i: nat)
    requires i < |path| == |leaves| && |path| >= 3 && RootIs(t, noCase, path, leaves) && |leaves[i]| == 1 && 1 !in path
    requires ChainOk(t, Rejoin(path, i, []), Rejoin(leaves, i, [])) && FreeOk(t, fp)
    requires Owned(t, Rejoin(path, i, []), fp, kept + {path[i]}) && path[i] !in kept
    requires Sorted(noCase, Flat(leaves)) && Maps(noCase, Flat(leaves), m) && IdsFit(leaves)
    requires At(t, 1).IntNode? && |At(t, 1).keys| == |path| && At(t, 1).children == path
             && |At(t, 1).keys[i]| <= At(t, 1).used
    ensures InFile(t, path[i]) && InFile(Give(t, path[i]), 1)
    ensures var t' := Set(Give(t, path[i]), 1, NewRoot(At(t, 1), i, [], []));
            && TreeOk(t', noCase, Rejoin(path, i, []), Rejoin(leaves, i, []), [path[i]] + fp, kept)
            && Maps(noCase, Flat(Rejoin(leaves, i, [])), m - {KeyRank(noCase, leaves[i][0])})
  {
    hide Less, RankOf, Flat, Maps, Sorted, LeafAt, KeysOk;
    var path', leaves', fp' := Rejoin(path, i, []), Rejoin(leaves, i, []), [path[i]] + fp;
    GiveSound(t, path', leaves', fp, kept + {path[i]}, path[i]);
    var t1 := Give(t, path[i]);
    var t' := Set(t1, 1, NewRoot(At(t, 1), i, [], []));
    assert kept + {path[i]} - {path[i]} == kept;
    assert path[i] in path;
    NothingFlat();
    LeavesRemove(noCase, leaves, m, i, 0, []);
    RootDropped(t, t', noCase, path, leaves, i);
    NotRoot(t1, path', fp', kept);
    ChainFrame(t1, t', path', leaves');
    FreeFrame(t1, t', fp');
    OwnedSame(t1, t', path', fp', kept);
  }

  lemma NothingFlat()
    ensures Flat([]) == []
  {
  }

  lemma RootDropped(t: Ak, t': Ak, noCase: bool, path: seq<nat>, leaves: seq<seq<Record>>, i: nat)
    requires RootIs(t, noCase, path, leaves) && path != [1] && i < |path| == |leaves| && |path| >= 3
    requires At(t, 1).IntNode? && |At(t, 1).keys| == |path| && At(t, 1).children == path
             && |At(t, 1).keys[i]| <= At(t, 1).used
    requires At(t', 1) == NewRoot(At(t, 1), i, [], [])
    ensures RootIs(t', noCase, Rejoin(path, i, []), Rejoin(leaves, i, []))
  {
    KeyBytesRejoin(At(t, 1).keys, i, []);
    KeysRejoin(noCase, At(t, 1).keys, leaves, i, [], []);
    assert 1 !in Rejoin(path, i, []);
  }

  /** One leaf is left: it is copied over the root and its node freed. */
  lemma CollapseOutcome(t: Ak, noCase: bool, path: seq<nat>, leaves: seq<seq<Record>>, fp: seq<nat>, kept: set<nat>,
                        m: map<Rank, Body>,
                        i: nat, keep: nat)
    requires |path| == |leaves| == 2 && i < 2 && keep == 1 - i && |leaves[i]| == 1 && 1 !in path && path[0] != path[1]
    requires ChainOk(t, Rejoin(path, i, []), Rejoin(leaves, i, [])) && FreeOk(t, fp)
    requires Owned(t, Rejoin(path, i, []), fp, kept + {path[i]}) && path[i] !in kept
    requires Sorted(noCase, Flat(leaves)) && Maps(noCase, Flat(leaves), m) && IdsFit(leaves)
    ensures InFile(t, path[i]) && InFile(Give(t, path[i]), path[keep])
    ensures var t1 := Give(t, path[i]); var t2 := Give(t1, path[keep]);
            && InFile(t2, 1)
            && At(t1, path[keep]).TermNode?
            && TreeOk(Set(t2, 1, At(t1, path[keep])), noCase, [1], [leaves[keep]], [path[keep], path[i]] + fp, kept)
            && Maps(noCase, Flat([leaves[keep]]), m - {KeyRank(noCase, leaves[i][0])})
  {
    hide Less, RankOf, Flat, Maps, Sorted, Owned, Bytes, NoDup;
    var rest := [path[keep]];
    assert Rejoin(path, i, []) == rest && Rejoin(leaves, i, []) == [leaves[keep]];
    GiveSound(t, rest, [leaves[keep]], fp, kept + {path[i]}, path[i]);
    var t1 := Give(t, path[i]);
    assert kept + {path[i]} - {path[i]} == kept;
    NothingFlat();
    LeavesRemove(noCase, leaves, m, i, 0, []);
    assert LeafAt(t1, rest, [leaves[keep]], 0);
    var t2 := Give(t1, path[keep]);
    var t' := Set(t2, 1, At(t1, path[keep]));
    CollapsedFree(t1, t', path[keep], [path[i]] + fp, kept);
    assert [path[keep], path[i]] + fp == [path[keep]] + ([path[i]] + fp);
    assert LeafAt(t', [1], [leaves[keep]], 0);
  }

  lemma CollapsedFree(t1: Ak, t': Ak, n: nat, fp: seq<nat>, kept: set<nat>)
    requires FreeOk(t1, fp) && Owned(t1, [n], fp, kept) && n != 1 && InFile(t1, n) && InFile(Give(t1, n), 1)
    requires t' == Set(Give(t1, n), 1, At(t1, n))
    ensures FreeOk(t', [n] + fp) && Owned(t', [1], [n] + fp, kept)
  {
    assert n in [n];
    NoDupConcat([n], fp);
    forall j | 0 <= j < |[n] + fp| ensures FreeAt(t', [n] + fp, j) {
      if j > 0 {
        assert FreeAt(t1, fp, j - 1) && fp[j - 1] in fp;
      }
    }
    forall x | InFile(t', x) ensures x == 1 || x in [1] || x in [n] + fp || x in kept {
      assert InFile(t1, x);
    }
  }

  // ------------------------------------------------------------------------
  // When there is room

  /** A change to an index. */
  datatype AkOp = PutKey(id: Id, chunks: seq<Data>) | RemoveKey(id: Id)

  /** The root need not be split for this change: the test for it is false, if it is made at all. */
  ghost predicate Room(t: Ak, noCase: bool, leaves: seq<seq<Record>>, op: AkOp) {
    match op
    case PutKey(id, chunks) => WriteRoom(t, noCase, leaves, RecordOf(id, C.Flat(chunks), 0))
    case RemoveKey(id) => DeleteRoom(t, noCase, leaves, RankOf(noCase, id))
  }

  /** The one place of the key decides whether there is room. */
  lemma RoomDecided(t: Ak, noCase: bool, leaves: seq<seq<Record>>, op: AkOp, i: nat, pos: nat)
    requires Sorted(noCase, Flat(leaves)) && At(t, 1).IntNode? && Spot(noCase, leaves, RankOf(noCase, op.id), i, pos)
    ensures op.PutKey? ==>
              (Room(t, noCase, leaves, op) <==> RoomAt(t, noCase, leaves, RecordOf(op.id, C.Flat(op.chunks), 0), i, pos))
    ensures op.RemoveKey? ==>
              (Room(t, noCase, leaves, op) <==> (Hit(noCase, leaves[i], RankOf(noCase, op.id), pos) ==> ShrinkAt(t, leaves, i, pos)))
  {
    hide Less, RankOf, RoomAt, ShrinkAt, Sorted, Flat, C.Flat;
    var k := RankOf(noCase, op.id);
    forall i': nat, pos': nat | Spot(noCase, leaves, k, i', pos') ensures i' == i && pos' == pos {
      SpotUnique(noCase, leaves, k, i, pos, i', pos');
    }
  }

  /** A root that is a leaf, or could take three keys of the greatest length for one of its own. */
  predicate Roomy(root: Node) {
    root.IntNode? ==> |root.keys| + 2 <= MAX_CHILD && root.used + 3 * MAX_KEY_LEN <= DH_AK_NODE_SIZE
  }

  /** Such a root has room for every change. */
  lemma RoomSuffices(t: Ak, noCase: bool, path: seq<nat>, leaves: seq<seq<Record>>, fp: seq<nat>, kept: set<nat>, op: AkOp)
    requires TreeOk(t, noCase, path, leaves, fp, kept) && |op.id| <= MAX_KEY_LEN && Roomy(At(t, 1))
    ensures Room(t, noCase, leaves, op)
  {
    hide Less, RankOf, Bytes, Fits, Sorted, FreeOk, Owned, KeyBytes, KeyAt, NewParts, PutAt, C.Flat;
    if At(t, 1).IntNode? {
      RootStands(t, noCase, path, leaves, fp, kept);
      match op {
        case PutKey(id, chunks) =>
          var r := RecordOf(id, C.Flat(chunks), 0);
          forall i: nat, pos: nat | Spot(noCase, leaves, KeyRank(noCase, r), i, pos) ensures RoomAt(t, noCase, leaves, r, i, pos) {
            PartsSmall(t, path, leaves, r, i, pos, Hit(noCase, leaves[i], KeyRank(noCase, r), pos));
          }
        case RemoveKey(id) =>
          forall i: nat, pos: nat | Spot(noCase, leaves, RankOf(noCase, id), i, pos) && Hit(noCase, leaves[i], RankOf(noCase, id), pos)
            ensures ShrinkAt(t, leaves, i, pos)
          {
            if pos + 1 == |leaves[i]| && pos > 0 {
              GlobalAt(leaves, i, pos - 1);
              KeyBytesOne(leaves[i][pos - 1].id);
            }
          }
      }
    }
  }

  lemma RootStands(t: Ak, noCase: bool, path: seq<nat>, leaves: seq<seq<Record>>, fp: seq<nat>, kept: set<nat>)
    requires TreeOk(t, noCase, path, leaves, fp, kept) && At(t, 1).IntNode?
    ensures |path| == |leaves| == |At(t, 1).keys|
  {
    assert LeafAt(t, path, leaves, 0);
  }

  lemma PartsSmall(t: Ak, path: seq<nat>, leaves: seq<seq<Record>>, r: Record, i: nat, pos: nat, hit: bool)
    requires ChainOk(t, path, leaves) && IdsFit(leaves) && LeafSized(r) && i < |leaves|
    requires pos <= |leaves[i]| && (hit ==> pos < |leaves[i]|)
    ensures var ids := LastIds(NewParts(leaves[i], pos, hit, r));
            1 <= |ids| <= 3 && KeyBytes(ids) <= 3 * MAX_KEY_LEN
  {
    hide Bytes, Fits, SplitOf, KeyBytes, PutAt;
    var leaf, parts := leaves[i], NewParts(leaves[i], pos, hit, r);
    assert LeafAt(t, path, leaves, i);
    if Fits(PutAt(leaf, pos, hit, r)) {
      FlatOne(PutAt(leaf, pos, hit, r));
    } else {
      SplitGood(leaf, pos, hit, r);
    }
    PutMembers(leaf, pos, hit, r);
    var ids := LastIds(parts);
    forall j | 0 <= j < |ids| ensures |ids[j]| <= MAX_KEY_LEN {
      if parts[j] != [] {
        GlobalAt(parts, j, |parts[j]| - 1);
        assert Last(parts[j]) in Flat(parts);
        LeafMember(leaves, i, Last(parts[j]), r);
      }
    }
    KeyBytesBound(ids);
  }

  lemma LeafMember(leaves: seq<seq<Record>>, i: nat, x: Record, r: Record)
    requires IdsFit(leaves) && i < |leaves| && |r.id| <= MAX_KEY_LEN
    requires x == r || exists j :: 0 <= j < |leaves[i]| && leaves[i][j] == x
    ensures |x.id| <= MAX_KEY_LEN
  {
    if x != r {
      var j :| 0 <= j < |leaves[i]| && leaves[i][j] == x;
      GlobalAt(leaves, i, j);
    }
  }

  lemma {:induction false} KeyBytesBound(ids: seq<Id>)
    requires forall j | 0 <= j < |ids| :: |ids[j]| <= MAX_KEY_LEN
    ensures KeyBytes(ids) <= |ids| * MAX_KEY_LEN
  {
    if ids != [] {
      KeyBytesBound(ids[1..]);
    }
  }
}
