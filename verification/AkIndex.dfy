/** An alternate-key index: a sorted map kept in a root and its leaves, with the data of its large
    records in chains of nodes of their own. */
module AkIndexes {
  import opened Blocks
  import opened AkOrder
  import opened AkNodes
  import opened AkChanges
  import opened AkSearches
  import opened AkBigs
  import C = Chunks
  import Tables
  import opened Sequences

  class AkIndex {
    const noCase: bool

    var nodes: seq<Node>
    var free: nat

    /** How many writes and deletes there have been. */
    var akUpd: nat

    /** Where the leaves are, what they hold, and the free chain. */
    ghost var path: seq<nat>
    ghost var leaves: seq<seq<Record>>
    ghost var fp: seq<nat>

    /** What the leaves hold for each key, and the nodes that are not part of the tree. */
    ghost var bodies: map<Rank, Body>
    ghost var outer: set<nat>

    /** The chains of the large records. */
    ghost var chains: map<Rank, seq<nat>>

    /** The index as a map. */
    ghost var contents: map<Rank, Data>

    ghost function T(): Ak
      reads `nodes, `free
    {
      Ak(nodes, free)
    }

    /** The records in leaf order. */
    ghost function All(): seq<Record>
      reads `leaves
    {
      Flat(leaves)
    }

    /** The tree is sound and its leaves hold the bodies. */
    ghost predicate Tree()
      reads this
    {
      TreeOk(T(), noCase, path, leaves, fp, outer) && Maps(noCase, All(), bodies)
    }

    /** Every node is the root, a leaf, free, or on the chain of one large record, and the bodies
        with their chains hold the data of the map. */
    ghost predicate Valid()
      reads this
    {
      Tree() && outer == Kept(chains) && Big(T(), chains, bodies, contents)
    }

    /** The leaves have a record for every key of the map and no other. */
    lemma KeysAgree()
      requires Valid()
      ensures bodies.Keys == contents.Keys
      ensures TreeOk(T(), noCase, path, leaves, fp, outer) && Maps(noCase, Flat(leaves), bodies)
    {
    }

    function R(id: Id): Rank {
      RankOf(noCase, id)
    }

    constructor (noCase: bool)
      ensures Valid() && contents == map[] && this.noCase == noCase && akUpd == 1
    {
      this.noCase := noCase;
      nodes, free, akUpd := [TermNode(0, 0, TERM_NODE_HEADER_SIZE, [])], 0, 1;
      path, leaves, fp, contents := [1], [[]], [], map[];
      bodies, outer, chains := map[], {}, map[];
      new;
      FlatOne([]);
      assert LeafAt(T(), path, leaves, 0);
    }

    method ReadNode(n: nat) returns (b: Node)
      requires InFile(T(), n)
      ensures b == At(T(), n)
    {
      b := nodes[n - 1];
    }

    // ----------------------------------------------------------------------
    // Searching

    /** The first record of a leaf whose key is not less, and whether it is equal. */
    method FindSlot(recs: seq<Record>, id: Id) returns (pos: nat, hit: bool)
      ensures pos <= |recs| && (hit <==> Hit(noCase, recs, R(id), pos))
      ensures forall j | 0 <= j < pos :: Less(KeyRank(noCase, recs[j]), R(id))
      ensures pos < |recs| ==> !Less(KeyRank(noCase, recs[pos]), R(id))
    {
      hide Less, RankOf;
      pos, hit := 0, false;
      while pos < |recs|
        invariant pos <= |recs| && !hit
        invariant forall j | 0 <= j < pos :: Less(KeyRank(noCase, recs[j]), R(id))
      {
        var x := Compare(id, recs[pos].id, noCase);
        if x <= 0 {
          NotLess(KeyRank(noCase, recs[pos]), R(id));
          hit := x == 0;
          return;
        }
        NotLess(R(id), KeyRank(noCase, recs[pos]));
        pos := pos + 1;
      }
    }

    /** The first key of the root that is not less; or the last child, when all are less. */
    method FindChild(keys: seq<Id>, id: Id) returns (ci: nat, beyond: bool)
      requires keys != []
      ensures ci < |keys| && (beyond ==> ci == |keys| - 1)
      ensures beyond <==> Less(R(keys[ci]), R(id))
      ensures ci > 0 ==> Less(R(keys[ci - 1]), R(id))
    {
      hide Less, RankOf;
      ci := 0;
      while ci < |keys|
        invariant ci <= |keys| && forall j | 0 <= j < ci :: Less(R(keys[j]), R(id))
      {
        var x := Compare(id, keys[ci], noCase);
        if x <= 0 {
          NotLess(R(keys[ci]), R(id));
          beyond := false;
          return;
        }
        NotLess(R(id), R(keys[ci]));
        ci := ci + 1;
      }
      ci, beyond := |keys| - 1, true;
    }

    /** Go down from the root to the leaf an id belongs in. */
    method Descend(id: Id) returns (n: nat, leaf: Node, root: Node, i: nat, beyond: bool)
      requires TreeOk(T(), noCase, path, leaves, fp, outer)
      ensures root == At(T(), 1) && i < |path| == |leaves| && n == path[i] && leaf == At(T(), n) && leaf.TermNode?
      ensures InFile(T(), n) && leaf.recs == leaves[i] && (root.TermNode? <==> path == [1])
      ensures Under(noCase, leaves, R(id), i, beyond)
      ensures root.TermNode? ==> !beyond
    {
      RootFacts(T(), noCase, path, leaves, fp, outer);
      root := ReadNode(1);
      if root.TermNode? {
        n, leaf, i, beyond := 1, root, 0, false;
      } else {
        i, beyond := FindChild(root.keys, id);
        ChildFacts(T(), noCase, path, leaves, fp, outer, i);
        n := root.children[i];
        leaf := ReadNode(n);
      }
    }

    /** Look for an id: where it is or belongs, and what its leaf holds. */
    method Search(id: Id) returns (r: Look, body: Body, ghost i: nat)
      requires Tree()
      ensures r.found <==> R(id) in bodies
      ensures r.found ==> body == bodies[R(id)]
      ensures Located(noCase, path, leaves, R(id), r, i)
    {
      var n, leaf, root, beyond;
      var ci;
      n, leaf, root, ci, beyond := Descend(id);
      i, body := ci, Inline([]);
      var pos, hit := FindSlot(leaf.recs, id);
      LocateFacts(T(), noCase, path, leaves, fp, outer, bodies, R(id), i, pos, beyond);
      if beyond {
        r := Look(false, false, true, n, |leaf.recs|);
      } else if leaf.recs == [] {
        r := Look(false, true, true, n, 0);
      } else if pos == |leaf.recs| {
        r := Look(false, false, true, n, pos);
      } else {
        r := Look(hit, !hit && pos == 0 && leaf.left == 0, false, n, pos);
        if hit {
          body := leaf.recs[pos].body;
        }
      }
    }

    /** Look an id up and fetch its data. */
    method Read(id: Id) returns (r: Look, data: Data, ghost i: nat)
      requires Valid()
      ensures r.found <==> R(id) in contents
      ensures r.found ==> data == contents[R(id)]
      ensures Indexed(noCase, contents, id) == if r.found then Tables.HasData(data) else Tables.NoData
      ensures Located(noCase, path, leaves, R(id), r, i)
    {
      hide BigHolds, TreeOk, Maps, Located, RankOf, BodyOk;
      OldChain(T(), chains, bodies, contents, R(id));
      var body;
      r, body, i := Search(id);
      data := [];
      if r.found {
        data := ReadBody(body, R(id));
      }
    }

    /** The data of a record: from its leaf, or from its chain. */
    method ReadBody(body: Body, ghost k: Rank) returns (data: Data)
      requires Valid() && k in bodies && bodies[k] == body
      ensures k in contents && data == contents[k]
    {
      hide TreeOk, Maps, BigHolds;
      OldChain(T(), chains, bodies, contents, k);
      if body.Inline? {
        return body.data;
      }
      data := ReadBig(body.head, chains[k], contents[k]);
    }

    /** Collect the bytes of a chain: from each node as many as can be left. */
    method ReadBig(head: nat, ghost bp: seq<nat>, ghost all: Data) returns (data: Data)
      requires BigHolds(T(), bp, head, all)
      ensures data == all
    {
      hide BigHolds;
      ghost var i := 0;
      data := [];
      var n, left := head, 0;
      BigStart(T(), bp, head, all);
      while n != 0
        invariant i <= |bp| && n == Nth(bp, i) && (n == 0 <==> i == |bp|)
        invariant data == BigBytes(T(), bp[..i]) && (data == [] <==> i == 0)
        invariant i > 0 ==> left == |all| - |data|
        decreases |bp| - i
      {
        BigNext(T(), bp, head, all, i);
        var b := ReadNode(n);
        if data == [] {
          left := b.dataLen;
        }
        var take := if BIG_NODE_DATA < left then BIG_NODE_DATA else left;
        assert b.data[..take] == b.data;
        data, left := data + b.data[..take], left - take;
        n, i := b.next, i + 1;
      }
      assert bp[..i] == bp;
    }

    /** List every id: down to the leftmost leaf, then along the chain to the right. */
    method SelectIndex() returns (ids: seq<Id>)
      requires Valid()
      ensures ids == KeyIds(All())
      ensures forall i, j | 0 <= i < j < |ids| :: Less(R(ids[i]), R(ids[j]))
      ensures forall k :: k in contents <==> exists i :: 0 <= i < |ids| && R(ids[i]) == k
      ensures forall i, j | 0 <= i < j < |ids| :: Precedes(noCase, ids[i], ids[j])
    {
      hide Less, RankOf, Maps, Sorted, Bytes, Fits, Owned, RootIs, FreeOk, IdsFit, Flat, Global, Precedes;
      RootFacts(T(), noCase, path, leaves, fp, outer);
      var n := 1;
      var b := ReadNode(n);
      if b.IntNode? {
        n := b.children[0];
        LeftLink(T(), path, leaves, 0);
        b := ReadNode(n);
      }
      ids := [];
      ghost var i := 0;
      ListedStart(leaves);
      while true
        invariant i < |path| == |leaves| && n == path[i] && b == At(T(), n)
        invariant ids == KeyIds(Flat(leaves[..i]))
        decreases |path| - i
      {
        LeftLink(T(), path, leaves, i);
        LeftOwned(T(), noCase, path, leaves, fp, outer, i);
        ListedLeaf(leaves, i);
        var pos := 0;
        while pos < |b.recs|
          invariant pos <= |b.recs| && ids == KeyIds(Flat(leaves[..i])) + KeyIds(b.recs[..pos])
        {
          assert KeyIds(b.recs[..pos + 1]) == KeyIds(b.recs[..pos]) + [b.recs[pos].id];
          ids := ids + [b.recs[pos].id];
          pos := pos + 1;
        }
        assert b.recs[..pos] == b.recs;
        n := b.right;
        if n == 0 {
          break;
        }
        LeftLink(T(), path, leaves, i + 1);
        b := ReadNode(n);
        i := i + 1;
      }
      assert leaves[..i + 1] == leaves;
      ListedAll(noCase, All(), bodies);
      forall j, k | 0 <= j < k < |ids| ensures Precedes(noCase, ids[j], ids[k]) {
        LessIsBefore(noCase, ids[j], ids[k]);
      }
    }

    // ----------------------------------------------------------------------
    // Nodes

    method WriteNode(n: nat, b: Node)
      requires InFile(T(), n)
      modifies `nodes
      ensures T() == Set(old(T()), n, b)
    {
      nodes := nodes[n - 1 := b];
    }

    /** Take the first free node, or add one to the file. */
    method GetNode() returns (n: nat)
      requires free <= |nodes|
      modifies `nodes, `free
      ensures (T(), n) == TakeNode(old(T()))
    {
      if free == 0 {
        nodes := nodes + [FreeNode(0)];
        n := |nodes|;
      } else {
        n := free;
        var b := ReadNode(n);
        free := if b.FreeNode? then b.next else 0;
      }
    }

    /** Put a node at the head of the free chain. */
    method GiveNode(n: nat)
      requires InFile(T(), n)
      modifies `nodes, `free
      ensures T() == Give(old(T()), n)
    {
      WriteNode(n, FreeNode(free));
      free := n;
    }

    /** A node in hand, which no chain holds any longer. */
    method NewNode(ghost hand: set<nat>, ghost fp0: seq<nat>) returns (n: nat, ghost fp1: seq<nat>)
      requires Holding(T(), path, leaves, fp0, hand)
      modifies `nodes, `free
      ensures Holding(T(), path, leaves, fp1, hand + {n})
      ensures InFile(T(), n) && n !in hand && n !in path && n != 1
      ensures |nodes| >= |old(nodes)| && forall x | InFile(old(T()), x) :: At(T(), x) == At(old(T()), x)
    {
      hide ChainOk;
      fp1 := TakeSound(T(), path, leaves, fp0, hand);
      n := GetNode();
      FreeHead(T(), path, fp1, hand + {n});
    }

    /** Record what the leaves now hold. */
    ghost method Adopt(path': seq<nat>, leaves': seq<seq<Record>>, fp': seq<nat>, bodies': map<Rank, Body>)
      requires TreeOk(T(), noCase, path', leaves', fp', outer) && Maps(noCase, Flat(leaves'), bodies')
      modifies `path, `leaves, `fp, `bodies
      ensures Tree() && bodies == bodies'
    {
      path, leaves, fp, bodies := path', leaves', fp', bodies';
    }

    // ----------------------------------------------------------------------
    // Large records

    /** Write a full node of a chain, linked to a node for what follows. */
    method LinkBig(n: nat, headerLen: nat, piece: Data, ghost bp: seq<nat>, ghost fp0: seq<nat>, ghost total: nat,
                   ghost done: Data)
      returns (next: nat, ghost fp1: seq<nat>)
      requires Holding(T(), path, leaves, fp0, outer + Members(bp)) && BigPart(T(), bp, total, done) && n == bp[|bp| - 1]
      requires |piece| == BIG_NODE_DATA && (|bp| == 1 ==> headerLen == total) && forall x | x in bp :: x !in outer && x != 1
      modifies `nodes, `free
      ensures next !in bp && next !in outer && next != 1
      ensures Holding(T(), path, leaves, fp1, outer + Members(bp + [next]))
              && BigPart(T(), bp + [next], total, done + piece)
      ensures Unmoved(old(T()), T(), outer + {1})
    {
      hide ChainOk, FreeOk, Owned, BigBytes, Holding;
      ghost var t, hand := T(), outer + Members(bp);
      assert n in hand;
      InHandInFile(t, path, leaves, fp0, hand, t);
      next, fp1 := NewNode(hand, fp0);
      ghost var t1 := T();
      WriteInHand(t1, path, leaves, fp1, hand + {next}, n, BigNode(next, headerLen, piece));
      WriteNode(n, BigNode(next, headerLen, piece));
      PartMore(t, T(), bp, next, total, done, piece, headerLen);
      assert hand + {next} == outer + Members(bp + [next]);
    }

    /** Write data, held in chunks, to a chain of nodes of its own. */
    method WriteBig(chunks: seq<Data>) returns (head: nat, ghost bp: seq<nat>)
      requires Tree() && C.Flat(chunks) != []
      modifies `nodes, `free, `fp, `outer
      ensures Tree() && BigHolds(T(), bp, head, C.Flat(chunks))
      ensures outer == old(outer) + Members(bp) && forall x | x in bp :: x !in old(outer)
      ensures Unmoved(old(T()), T(), old(outer)) && At(T(), 1) == At(old(T()), 1)
    {
      hide TreeOk, Holding, Maps, BigPart, BigHolds, Members, C.Flat;
      ghost var t0 := T();
      HoldingNow(t0, noCase, path, leaves, fp, outer);
      ghost var fp0, fp1;
      head, fp0 := NewNode(outer, fp);
      bp, fp1 := FillBig(chunks, head, fp0);
      SoundAgain(t0, T(), noCase, path, leaves, fp, outer, fp1, outer + Members(bp));
      fp, outer := fp1, outer + Members(bp);
    }

    /** Fill a chain from its first node on, taking more nodes as they are needed. */
    method FillBig(chunks: seq<Data>, head: nat, ghost fp0: seq<nat>) returns (ghost bp: seq<nat>, ghost fp1: seq<nat>)
      requires Holding(T(), path, leaves, fp0, outer + {head}) && InFile(T(), head) && head !in outer && head != 1
      requires C.Flat(chunks) != []
      modifies `nodes, `free
      ensures Holding(T(), path, leaves, fp1, outer + Members(bp)) && BigHolds(T(), bp, head, C.Flat(chunks))
      ensures Unmoved(old(T()), T(), outer + {1}) && forall x | x in bp :: x !in outer
    {
      hide Holding, C.Copied, BigPart, BigHolds, Members, C.Flat;
      ghost var t0, total := T(), |C.Flat(chunks)|;
      var left := |C.Flat(chunks)|;
      bp, fp1 := [head], fp0;
      var n, headerLen: nat := head, left;
      var c: nat, off: nat := 0, 0;
      ghost var done: Data := [];
      C.CopiedStart(chunks);
      PartStart(T(), head, total);
      assert outer + {head} == outer + Members(bp);
      while left > BIG_NODE_DATA
        invariant 0 < left && |done| + left == total && C.Copied(chunks, c, off, done)
        invariant Holding(T(), path, leaves, fp1, outer + Members(bp)) && BigPart(T(), bp, total, done)
        invariant bp != [] && bp[0] == head && n == bp[|bp| - 1] && (|bp| == 1 ==> headerLen == total)
        invariant (forall x | x in bp :: x !in outer && x != 1) && Unmoved(t0, T(), outer + {1})
      {
        var piece;
        piece, c, off := C.CopyPiece(chunks, c, off, BIG_NODE_DATA, done);
        var next;
        next, fp1 := LinkBig(n, headerLen, piece, bp, fp1, total, done);
        bp, done := bp + [next], done + piece;
        n, headerLen, left := next, 0, left - BIG_NODE_DATA;
      }
      var piece;
      piece, c, off := C.CopyPiece(chunks, c, off, left, done);
      C.CopiedBound(chunks, c, off, done + piece);
      EndBig(n, headerLen, piece, bp, fp1, total, done);
    }

    /** Write the last node of a chain. */
    method EndBig(n: nat, headerLen: nat, piece: Data, ghost bp: seq<nat>, ghost fp1: seq<nat>, ghost total: nat,
                  ghost done: Data)
      requires Holding(T(), path, leaves, fp1, outer + Members(bp)) && BigPart(T(), bp, total, done) && n == bp[|bp| - 1]
      requires 0 < |piece| <= BIG_NODE_DATA && total == |done + piece| && (|bp| == 1 ==> headerLen == total)
      requires forall x | x in bp :: x !in outer && x != 1
      modifies `nodes
      ensures Holding(T(), path, leaves, fp1, outer + Members(bp)) && BigHolds(T(), bp, bp[0], done + piece)
      ensures Unmoved(old(T()), T(), outer + {1})
    {
      hide ChainOk, FreeOk, Owned, BigBytes, Holding;
      ghost var t := T();
      assert n in outer + Members(bp);
      InHandInFile(t, path, leaves, fp1, outer + Members(bp), t);
      WriteInHand(t, path, leaves, fp1, outer + Members(bp), n, BigNode(0, headerLen, piece));
      WriteNode(n, BigNode(0, headerLen, piece));
      PartDone(t, T(), bp, total, done, piece, headerLen);
    }

    /** Give the nodes of a chain back, one by one. */
    method FreeBig(head: nat, ghost bp: seq<nat>, ghost data: Data)
      requires Tree() && BigHolds(T(), bp, head, data) && forall x | x in bp :: x in outer
      modifies `nodes, `free, `fp, `outer
      ensures Tree() && outer == old(outer) - Members(bp) && Unmoved(old(T()), T(), outer)
    {
      hide ChainOk, FreeOk, Owned, RootIs, Sorted, Maps, IdsFit, BigHolds, Flat, BigBytes;
      ghost var t0, f0, o0, fp1, i := T(), fp, outer, fp, 0;
      HoldingNow(t0, noCase, path, leaves, fp, outer);
      BigStart(t0, bp, head, data);
      var n, next := head, head;
      assert outer - Members(bp[..0]) == outer;
      while true
        invariant fp == f0 && outer == o0 && i < |bp| && next == bp[i]
        invariant Holding(T(), path, leaves, fp1, outer - Members(bp[..i]))
        invariant Unmoved(t0, T(), outer - Members(bp[..i]) + {1})
        decreases |bp| - i
      {
        n := next;
        NextReleased(bp, i);
        BigNext(t0, bp, head, data, i);
        var b := ReadNode(n);
        next := b.next;
        GiveSound(T(), path, leaves, fp1, outer - Members(bp[..i]), n);
        GiveNode(n);
        assert outer - Members(bp[..i]) - {n} == outer - Members(bp[..i + 1]);
        fp1, i := [n] + fp1, i + 1;
        if next == 0 {
          break;
        }
      }
      assert bp[..i] == bp;
      SoundAgain(t0, T(), noCase, path, leaves, fp, outer, fp1, outer - Members(bp));
      fp, outer := fp1, outer - Members(bp);
    }

    // ----------------------------------------------------------------------
    // The root

    /** Replace one key and child of the root; a single child left is copied over the root. */
    method UpdateRoot(root: Node, ci: nat, ids: seq<Id>, mid: seq<nat>)
      requires InFile(T(), 1) && root.IntNode? && ci < |root.keys| == |root.children| && |root.keys[ci]| <= root.used
      requires |ids| == |mid| && InternalFits(root, ci, ids)
      requires |root.children| - 1 + |mid| >= 1
      requires |root.children| - 1 + |mid| == 1 ==> InFile(T(), Rejoin(root.children, ci, mid)[0])
      modifies `nodes, `free
      ensures |root.children| - 1 + |mid| > 1 ==> T() == Set(old(T()), 1, NewRoot(root, ci, ids, mid))
      ensures |root.children| - 1 + |mid| == 1 ==>
                var only := Rejoin(root.children, ci, mid)[0];
                T() == Set(Give(old(T()), only), 1, At(old(T()), only))
    {
      var b := NewRoot(root, ci, ids, mid);
      if |b.children| == 1 {
        var only := b.children[0];
        b := ReadNode(only);
        GiveNode(only);
      }
      WriteNode(1, b);
    }

    // ----------------------------------------------------------------------
    // Writing

    /** Write a record, its data held in chunks: over the one of the same key, or where its key
        belongs. The chain of a large record is written first, and that of the old version
        released last. */
    method Write(id: Id, chunks: seq<Data>)
      requires Valid() && |id| <= MAX_KEY_LEN && WriteRoom(T(), noCase, leaves, RecordOf(id, C.Flat(chunks), 0))
      modifies this
      ensures Valid() && contents == old(contents)[R(id) := C.Flat(chunks)] && akUpd == old(akUpd) + 1
      ensures forall x: Id :: Indexed(noCase, contents, x)
                == if Tables.SameId(noCase, x, id) then Tables.HasData(C.Flat(chunks)) else Indexed(noCase, old(contents), x)
    {
      hide TreeOk, Maps, BigHolds, WriteRoom, RankOf, LeafSized, Tables.SameId, Indexed;
      forall x: Id {
        PutIndexed(noCase, contents, id, C.Flat(chunks), x);
      }
      akUpd := akUpd + 1;
      ghost var k, data, was, m := R(id), C.Flat(chunks), bodies, contents;
      var r;
      ghost var bp;
      r, bp := PrepareRecord(id, chunks);
      ghost var t, old1 := T(), ChainOf(chains, k);
      OldChain(t, chains, was, m, k);
      var hit, oldBody := PutRecord(r);
      BigFrame(t, T(), chains, was, m);
      if r.body.Large? {
        BigHoldsFrame(t, T(), bp, r.body.head, data);
      }
      BigPut(T(), chains, was, m, k, r.body, bp, data);
      chains, contents := Chained(chains, k, r.body.Large?, bp), m[k := data];
      ReleaseOld(hit, oldBody, t, k, old1, m);
    }

    /** Choose how the record is held, and write a large record's data to a chain. */
    method PrepareRecord(id: Id, chunks: seq<Data>) returns (r: Record, ghost bp: seq<nat>)
      requires Valid() && |id| <= MAX_KEY_LEN && WriteRoom(T(), noCase, leaves, RecordOf(id, C.Flat(chunks), 0))
      modifies `nodes, `free, `fp, `outer
      ensures Tree() && Big(T(), chains, bodies, contents)
      ensures outer == Kept(chains) + Members(bp) && forall x | x in bp :: x !in Kept(chains)
      ensures r.id == id && LeafSized(r) && WriteRoom(T(), noCase, leaves, r)
      ensures if r.body.Large? then BigHolds(T(), bp, r.body.head, C.Flat(chunks))
              else bp == [] && r.body.data == C.Flat(chunks)
    {
      hide TreeOk, Maps, BigHolds, WriteRoom, RankOf, BodyOk;
      ghost var t := T();
      r, bp := RecordOf(id, C.Flat(chunks), 0), [];
      if r.body.Large? {
        var head;
        head, bp := WriteBig(chunks);
        r := RecordOf(id, C.Flat(chunks), head);
        BigFrame(t, T(), chains, bodies, contents);
        RoomSame(t, T(), noCase, leaves, RecordOf(id, C.Flat(chunks), 0), r);
      }
      assert Kept(chains) + Members([]) == Kept(chains);
    }

    /** Release the chain of an old version, if it had one. */
    method ReleaseOld(hit: bool, oldBody: Body, ghost t: Ak, ghost k: Rank, ghost bp: seq<nat>, ghost m: map<Rank, Data>)
      requires Tree() && Big(T(), chains, bodies, contents) && Unmoved(t, T(), outer)
      requires Kept(chains) == outer - Members(bp) && forall x | x in bp :: x in outer
      requires if hit && oldBody.Large? then k in m && BigHolds(t, bp, oldBody.head, m[k]) else bp == []
      modifies `nodes, `free, `fp, `outer
      ensures Valid()
    {
      hide TreeOk, Maps, BigHolds, RankOf, BodyOk;
      if hit {
        if oldBody.Large? {
          BigHoldsFrame(t, T(), bp, oldBody.head, m[k]);
          ghost var t1 := T();
          FreeBig(oldBody.head, bp, m[k]);
          BigFrame(t1, T(), chains, bodies, contents);
        }
      }
    }

    /** Put a record in its leaf. */
    method PutRecord(r: Record) returns (hit: bool, oldBody: Body)
      requires Tree() && LeafSized(r) && WriteRoom(T(), noCase, leaves, r)
      modifies `nodes, `free, `path, `leaves, `fp, `bodies
      ensures Tree() && bodies == old(bodies)[R(r.id) := r.body] && Unmoved(old(T()), T(), outer)
      ensures hit <==> R(r.id) in old(bodies)
      ensures hit ==> oldBody == old(bodies)[R(r.id)]
    {
      hide Less, RankOf, Maps, Sorted, Bytes, Flat, Owned, ChainOk, FreeOk, RootIs, IdsFit, Spot, WriteRoom;
      hide InternalFits, Size, Prev, Nth, KeyBytes;
      var n, leaf, root, i, beyond := Descend(r.id);
      var pos;
      pos, hit := FindSlot(leaf.recs, r.id);
      oldBody := if hit then leaf.recs[pos].body else Inline([]);
      WriteFacts(T(), noCase, path, leaves, fp, outer, bodies, r, i, pos, hit, beyond);
      var gap := Size(r) - if hit then Size(leaf.recs[pos]) else 0;
      if gap <= 0 || leaf.used + gap <= DH_AK_NODE_SIZE {
        ghost var t := T();
        if gap > 0 && pos == |leaf.recs| && root.IntNode? {
          FitRoom(t, noCase, leaves, r, i, pos);
          UpdateRoot(root, i, [r.id], [n]);
        }
        WriteNode(n, TermNode(leaf.left, leaf.right, leaf.used + gap, PutAt(leaf.recs, pos, hit, r)));
        FitOutcome(t, T(), noCase, path, leaves, fp, outer, bodies, r, i, pos, PutAt(leaf.recs, pos, hit, r));
        Adopt(path, leaves[i := PutAt(leaf.recs, pos, hit, r)], fp, bodies[R(r.id) := r.body]);
      } else {
        SplitLeaf(n, leaf, root, i, pos, hit, r);
      }
    }

    /** Put a record in a leaf that cannot hold it: new leaves take the place of the old one. */
    method SplitLeaf(n: nat, leaf: Node, root: Node, i: nat, pos: nat, hit: bool, r: Record)
      requires Tree() && LeafSized(r) && |path| == |leaves| && i < |path| && n == path[i] && root == At(T(), 1)
      requires WriteRoom(T(), noCase, leaves, r) && Spot(noCase, leaves, R(r.id), i, pos)
      requires pos <= |leaves[i]| && (hit <==> Hit(noCase, leaves[i], R(r.id), pos))
      requires leaf == At(T(), n) && leaf.TermNode? && leaf.recs == leaves[i]
      requires leaf.left == Prev(path, i) && leaf.right == Nth(path, i + 1)
      requires Fits(leaves[i]) && !Fits(PutAt(leaves[i], pos, hit, r))
      requires root.TermNode? <==> path == [1]
      requires path != [1] ==> root.IntNode? && root.children == path && |root.keys| == |path| >= 2 && 1 !in path
                               && |root.keys[i]| <= root.used
      requires n !in outer && 1 !in outer
      modifies `nodes, `free, `path, `leaves, `fp, `bodies
      ensures Tree() && bodies == old(bodies)[R(r.id) := r.body] && Unmoved(old(T()), T(), outer)
    {
      hide Less, RankOf, Maps, Sorted, Bytes, Flat, Owned, ChainOk, FreeOk, RootIs, IdsFit, Spot, InternalFits;
      hide Size, SplitOf, Fits;
      hide LastIds, PutAt, WriteRoom;
      ghost var was := T();
      LeafSplitFacts(was, noCase, path, leaves, fp, outer, r, i, pos, hit);
      var mid, parts;
      ghost var fp1;
      mid, parts, fp1 := InstallLeaves(leaf, i, pos, hit, r);
      if root.TermNode? {
        RootSplitOutcome(T(), noCase, leaves, fp1, outer, bodies, r, pos, mid, parts);
        WriteNode(1, IntNode(INT_NODE_HEADER_SIZE + KeyBytes(LastIds(parts)), mid, LastIds(parts)));
        Adopt(mid, parts, fp1, bodies[R(r.id) := r.body]);
      } else {
        RootSame(was, T(), noCase, path, leaves);
        LeafSplitOutcome(T(), noCase, path, leaves, fp1, outer, bodies, r, i, pos, mid, parts);
        GiveNode(n);
        UpdateRoot(root, i, LastIds(parts), mid);
        Adopt(Rejoin(path, i, mid), Rejoin(leaves, i, parts), [n] + fp1, bodies[R(r.id) := r.body]);
      }
    }

    /** Take new nodes, fill them from the old leaf, and link them in where it stood. */
    method InstallLeaves(leaf: Node, i: nat, pos: nat, hit: bool, r: Record)
      returns (mid: seq<nat>, parts: seq<seq<Record>>, ghost fp1: seq<nat>)
      requires Holding(T(), path, leaves, fp, outer) && i < |path| == |leaves|
      requires leaf.TermNode? && leaf.recs == leaves[i] && leaf.left == Prev(path, i) && leaf.right == Nth(path, i + 1)
      requires pos <= |leaf.recs| && (hit ==> pos < |leaf.recs|)
      requires var parts := SplitOf(leaf.recs, pos, hit, r);
               2 <= |parts| <= 3 && forall j | 0 <= j < |parts| :: Fits(parts[j])
      modifies `nodes, `free
      ensures parts == SplitOf(leaf.recs, pos, hit, r) && |mid| == |parts| && 1 !in mid
      ensures ChainOk(T(), Rejoin(path, i, mid), Rejoin(leaves, i, parts)) && FreeOk(T(), fp1)
      ensures Owned(T(), Rejoin(path, i, mid), fp1, if path == [1] then outer else outer + {path[i]})
      ensures Unmoved(old(T()), T(), outer)
      ensures InFile(T(), 1) && (path != [1] ==> At(T(), 1) == At(old(T()), 1))
    {
      hide Bytes, Owned, ChainOk, FreeOk, Size, SplitOf, Fits, PutAt, Relinked, PartAt;
      ghost var fp0;
      var n1, n2;
      ghost var hand := outer;
      RootInFile(T(), path, fp, hand);
      InHandInFile(T(), path, leaves, fp, outer, T());
      n1, fp0 := NewNode(hand, fp);
      hand := hand + {n1};
      n2, fp1 := NewNode(hand, fp0);
      hand := hand + {n2};
      parts := Divide(leaf.recs, pos, hit, r);
      mid := [n1, n2];
      if |parts| == 3 {
        var n3;
        n3, fp1 := NewNode(hand, fp1);
        mid := [n1, n2, n3];
        hand := hand + {n3};
      }
      LinkLeaves(mid, parts, leaf.left, leaf.right, i, fp1, hand);
    }

    method LinkLeaves(mid: seq<nat>, parts: seq<seq<Record>>, left: nat, right: nat, ghost i: nat, ghost fp1: seq<nat>,
                      ghost hand: set<nat>)
      requires Holding(T(), path, leaves, fp1, hand) && i < |path| == |leaves| && left == Prev(path, i)
               && right == Nth(path, i + 1)
      requires 2 <= |mid| == |parts| <= 3 && NoDup(mid) && InHand(hand, outer, mid)
      requires forall j | 0 <= j < |parts| :: Fits(parts[j])
      requires forall x | x in mid :: InFile(T(), x)
      modifies `nodes
      ensures ChainOk(T(), Rejoin(path, i, mid), Rejoin(leaves, i, parts)) && FreeOk(T(), fp1)
      ensures Owned(T(), Rejoin(path, i, mid), fp1, if path == [1] then outer else outer + {path[i]})
      ensures Unmoved(old(T()), T(), outer)
      ensures |nodes| == |old(nodes)| && (path != [1] ==> At(T(), 1) == At(old(T()), 1))
    {
      hide Bytes, Owned, ChainOk, FreeOk, Size, Fits, Relinked, PartAt;
      ghost var t := T();
      PlaceParts(mid, parts, left, right);
      ghost var t1 := T();
      SidesFacts(t, t1, path, leaves, fp1, hand, i, mid);
      LinkSides(left, right, mid[0], mid[|mid| - 1]);
      InstalledFacts(t, t1, T(), path, leaves, fp1, hand, i, mid, parts);
      SplitChain(t, T(), path, leaves, fp1, hand, outer, i, mid, parts);
      OuterApart(t, path, fp1, hand, i);
    }

    /** Divide a leaf's records, with the new one in place, over two or three new leaves. */
    method Divide(recs: seq<Record>, pos: nat, hit: bool, r: Record) returns (parts: seq<seq<Record>>)
      requires pos <= |recs| && (hit ==> pos < |recs|)
      ensures parts == SplitOf(recs, pos, hit, r)
    {
      hide Size, Bytes;
      var before, after := recs[..pos], recs[if hit then pos + 1 else pos..];
      BytesConcat(before, [r]);
      BytesOne(r);
      if TERM_NODE_HEADER_SIZE + Bytes(before) + Size(r) <= DH_AK_NODE_SIZE {
        return [before + [r], after];
      }
      var used: nat, k := TERM_NODE_HEADER_SIZE + Size(r), 0;
      while k < |after| && used + Size(after[k]) <= DH_AK_NODE_SIZE
        invariant k <= |after|
        invariant FitCount(TERM_NODE_HEADER_SIZE + Size(r), after) == k + FitCount(used, after[k..])
      {
        assert after[k..][1..] == after[k + 1..];
        used := used + Size(after[k]);
        k := k + 1;
      }
      if k == |after| {
        parts := [before, [r] + after];
      } else {
        parts := [before, [r] + after[..k], after[k..]];
      }
    }

    /** Write new leaves, linked to one another and to the neighbours of the leaf they replace. */
    method PlaceParts(mid: seq<nat>, parts: seq<seq<Record>>, left: nat, right: nat)
      requires 2 <= |mid| == |parts| <= 3 && NoDup(mid) && forall x | x in mid :: InFile(T(), x)
      modifies `nodes
      ensures |nodes| == |old(nodes)| && free == old(free)
      ensures forall j | 0 <= j < |mid| :: At(T(), mid[j]) == NewLeaf(left, right, mid, parts, j)
      ensures forall x | x !in mid :: At(T(), x) == At(old(T()), x)
    {
      hide Bytes;
      assert mid[0] in mid && mid[1] in mid && (|mid| == 3 ==> mid[2] in mid);
      WriteNode(mid[0], NewLeaf(left, right, mid, parts, 0));
      WriteNode(mid[1], NewLeaf(left, right, mid, parts, 1));
      if |mid| == 3 {
        WriteNode(mid[2], NewLeaf(left, right, mid, parts, 2));
      }
    }

    /** Link the neighbours of a leaf that has gone to what is now next to them. */
    method LinkSides(left: nat, right: nat, first: nat, last: nat)
      requires (left != 0 ==> InFile(T(), left) && left != right) && (right != 0 ==> InFile(T(), right))
      modifies `nodes
      ensures |nodes| == |old(nodes)| && free == old(free)
      ensures left != 0 ==> At(T(), left) == LinkRight(At(old(T()), left), first)
      ensures right != 0 ==> At(T(), right) == LinkLeft(At(old(T()), right), last)
      ensures forall x | x != left && x != right :: At(T(), x) == At(old(T()), x)
    {
      if left != 0 {
        var link := ReadNode(left);
        WriteNode(left, LinkRight(link, first));
      }
      if right != 0 {
        var link := ReadNode(right);
        WriteNode(right, LinkLeft(link, last));
      }
    }

    // ----------------------------------------------------------------------
    // Deleting

    /** Delete a record, and release its chain if it is a large one. */
    method Delete(id: Id)
      requires Valid() && DeleteRoom(T(), noCase, leaves, R(id))
      modifies this
      ensures Valid() && contents == old(contents) - {R(id)} && akUpd == old(akUpd) + 1
      ensures forall x: Id :: Indexed(noCase, contents, x)
                == if Tables.SameId(noCase, x, id) then Tables.NoData else Indexed(noCase, old(contents), x)
    {
      hide TreeOk, Maps, BigHolds, DeleteRoom, RankOf, Tables.SameId, Indexed;
      forall x: Id {
        PutIndexed(noCase, contents, id, [], x);
      }
      akUpd := akUpd + 1;
      ghost var k, was, m, t := R(id), bodies, contents, T();
      ghost var bp := ChainOf(chains, k);
      OldChain(t, chains, was, m, k);
      var hit, oldBody := TakeRecord(id);
      BigFrame(t, T(), chains, was, m);
      BigRemove(T(), chains, was, m, k);
      chains, contents := chains - {k}, m - {k};
      ReleaseOld(hit, oldBody, t, k, bp, m);
    }

    /** Take a record out of its leaf. A leaf that becomes empty goes, unless it is the root. */
    method TakeRecord(id: Id) returns (hit: bool, oldBody: Body)
      requires Tree() && DeleteRoom(T(), noCase, leaves, R(id))
      modifies `nodes, `free, `path, `leaves, `fp, `bodies
      ensures Tree() && bodies == old(bodies) - {R(id)} && Unmoved(old(T()), T(), outer)
      ensures hit <==> R(id) in old(bodies)
      ensures hit ==> oldBody == old(bodies)[R(id)]
    {
      hide Less, RankOf, Maps, Sorted, Bytes, Flat, Owned, ChainOk, FreeOk, RootIs, IdsFit, Spot, DeleteRoom;
      hide InternalFits, Size, Under, Nth;
      var n, leaf, root, i, beyond := Descend(id);
      var pos;
      pos, hit := FindSlot(leaf.recs, id);
      oldBody := if hit then leaf.recs[pos].body else Inline([]);
      DeleteFacts(T(), noCase, path, leaves, fp, outer, bodies, R(id), i, pos, hit, beyond);
      if beyond {
        assert bodies - {R(id)} == bodies;
        return;
      }
      if !hit {
        WriteNode(n, leaf);
        assert T() == old(T()) && bodies - {R(id)} == bodies;
        return;
      }
      var last := pos + 1 == |leaf.recs|;
      if last && root.IntNode? && pos == 0 {
        DropLeaf(n, leaf, root, i);
      } else {
        if last && root.IntNode? {
          ShrinkRoom(T(), noCase, leaves, R(id), i, pos);
        }
        ShrinkLeaf(n, leaf, root, i, pos);
      }
    }

    /** A record of a leaf goes; when it was the last under its key in the root, the key before it
        takes that place. */
    method ShrinkLeaf(n: nat, leaf: Node, root: Node, i: nat, pos: nat)
      requires Tree() && i < |path| == |leaves| && n == path[i] && n !in outer && 1 !in outer && InFile(T(), 1)
               && InFile(T(), n)
      requires root == At(T(), 1) && leaf == At(T(), n) && leaf.TermNode? && leaf.recs == leaves[i] && pos < |leaf.recs|
      requires leaf.used == TERM_NODE_HEADER_SIZE + Bytes(leaf.recs) && Size(leaf.recs[pos]) <= Bytes(leaf.recs)
      requires Bytes(RemoveAt(leaf.recs, pos)) == Bytes(leaf.recs) - Size(leaf.recs[pos])
      requires if root.TermNode? then path == [1]
               else
                 && root.IntNode? && 1 !in path && root.children == path && |root.keys| == |path| >= 2 && |root.keys[i]| <= root.used
                 && |leaf.recs| > 1
                 && (pos + 1 == |leaf.recs| ==> InternalFits(root, i, [leaf.recs[pos - 1].id]))
      modifies `nodes, `free, `path, `leaves, `fp, `bodies
      ensures Tree() && bodies == old(bodies) - {KeyRank(noCase, old(leaves)[i][pos])} && Unmoved(old(T()), T(), outer)
    {
      hide Less, RankOf, Maps, Sorted, Bytes, Flat, Owned, ChainOk, FreeOk, RootIs, IdsFit, InternalFits, Size;
      ghost var t := T();
      if pos + 1 == |leaf.recs| && root.IntNode? {
        UpdateRoot(root, i, [leaf.recs[pos - 1].id], [n]);
      }
      WriteNode(n, TermNode(leaf.left, leaf.right, leaf.used - Size(leaf.recs[pos]), RemoveAt(leaf.recs, pos)));
      DeleteOutcome(t, T(), noCase, path, leaves, fp, outer, bodies, i, pos, RemoveAt(leaf.recs, pos));
      Adopt(path, leaves[i := RemoveAt(leaf.recs, pos)], fp, bodies - {KeyRank(noCase, leaf.recs[pos])});
    }

    /** Link the neighbours of a leaf to one another. */
    method UnlinkLeaf(leaf: Node, i: nat)
      requires Tree() && |path| == |leaves| >= 2 && i < |path|
      requires leaf.TermNode? && leaf.left == Prev(path, i) && leaf.right == Nth(path, i + 1)
      modifies `nodes
      ensures ChainOk(T(), Rejoin(path, i, []), Rejoin(leaves, i, [])) && FreeOk(T(), fp)
      ensures Owned(T(), Rejoin(path, i, []), fp, outer + {path[i]}) && path[i] !in outer
      ensures RootIs(T(), noCase, path, leaves) && At(T(), 1) == At(old(T()), 1) && Unmoved(old(T()), T(), outer)
    {
      hide Less, RankOf, Maps, Sorted, Bytes, Flat, Owned, ChainOk, FreeOk, RootIs, IdsFit, InternalFits, Size, Relinked;
      ghost var was := T();
      DropFacts(was, noCase, path, leaves, fp, outer, i);
      LinkSides(leaf.left, leaf.right, leaf.right, leaf.left);
      UnlinkedFacts(was, T(), path, leaves, fp, outer, i);
      UnlinkChain(was, T(), path, leaves, fp, outer, i);
      RootSame(was, T(), noCase, path, leaves);
      assert i > 0 ==> leaf.left in path;
      assert i + 1 < |path| ==> leaf.right in path;
    }

    /** The only record of a leaf under the root goes, and the leaf with it. */
    method DropLeaf(n: nat, leaf: Node, root: Node, i: nat)
      requires Tree() && n !in outer && 1 !in outer && |path| == |leaves| >= 2 && i < |path| && n == path[i]
      requires root == At(T(), 1) && |leaves[i]| == 1
      requires leaf.TermNode? && leaf.left == Prev(path, i) && leaf.right == Nth(path, i + 1)
      requires path != [1] && 1 !in path && root.IntNode? && root.children == path && |root.keys| == |path|
               && |root.keys[i]| <= root.used
      modifies `nodes, `free, `path, `leaves, `fp, `bodies
      ensures Tree() && Unmoved(old(T()), T(), outer) && bodies == old(bodies) - {KeyRank(noCase, old(leaves[i][0]))}
    {
      hide Less, RankOf, Maps, Sorted, Bytes, Flat, Owned, ChainOk, FreeOk, RootIs, IdsFit, InternalFits, Size;
      hide Unmoved, KeyBytes, Nth;
      ghost var was := T();
      DropFacts(was, noCase, path, leaves, fp, outer, i);
      UnlinkLeaf(leaf, i);
      ghost var t := T();
      ghost var m := bodies - {KeyRank(noCase, leaves[i][0])};
      if |root.children| == 2 {
        CollapseOutcome(t, noCase, path, leaves, fp, outer, bodies, i, 1 - i);
        assert Rejoin(path, i, []) == [path[1 - i]];
        GiveNode(n);
        UpdateRoot(root, i, [], []);
        DropUnmoved(was, t, T(), outer, n, path[1 - i]);
        Adopt([1], [leaves[1 - i]], [path[1 - i], n] + fp, m);
      } else {
        DropOutcome(t, noCase, path, leaves, fp, outer, bodies, i);
        GiveNode(n);
        UpdateRoot(root, i, [], []);
        DropUnmoved(was, t, T(), outer, n, n);
        Adopt(Rejoin(path, i, []), Rejoin(leaves, i, []), [n] + fp, m);
      }
    }

    // ----------------------------------------------------------------------
    // Runs

    /** Whether a change can be made without splitting the root. */
    method HasRoom(op: AkOp) returns (room: bool)
      requires Tree()
      ensures room <==> Room(T(), noCase, leaves, op)
    {
      hide Less, RankOf, Maps, Sorted, Bytes, Flat, Owned, ChainOk, FreeOk, RootIs, IdsFit, Spot, InternalFits;
      hide Size, C.Flat;
      var n, leaf, root, i, beyond := Descend(op.id);
      if root.TermNode? {
        return true;
      }
      var pos, hit := FindSlot(leaf.recs, op.id);
      DeleteFacts(T(), noCase, path, leaves, fp, outer, bodies, R(op.id), i, pos, hit, beyond);
      RoomDecided(T(), noCase, leaves, op, i, pos);
      match op {
        case PutKey(id, chunks) =>
          var r := RecordOf(id, C.Flat(chunks), 0);
          room := (Fits(PutAt(leaf.recs, pos, hit, r)) && pos < |leaf.recs|)
                  || InternalFits(root, i, LastIds(NewParts(leaf.recs, pos, hit, r)));
        case RemoveKey(_) =>
          room := !hit || pos + 1 != |leaf.recs| || pos == 0 || InternalFits(root, i, [leaf.recs[pos - 1].id]);
      }
    }

    /** Perform writes and deletes until one would split the root: the index ends up standing for
        the map that the same changes make of the map it stood for. */
    method Run(ops: seq<AkOp>) returns (done: nat)
      requires Valid() && forall i | 0 <= i < |ops| :: |ops[i].id| <= MAX_KEY_LEN
      modifies this
      ensures Valid() && done <= |ops| && contents == AfterChanges(noCase, old(contents), ops[..done])
      ensures done == |ops| || !Room(T(), noCase, leaves, ops[done])
      ensures akUpd == old(akUpd) + done
    {
      hide RankOf, Maps, TreeOk, WriteRoom, DeleteRoom, AfterChanges, Big, C.Flat;
      done := 0;
      NoneDone(noCase, contents, ops);
      while done < |ops|
        invariant Valid() && done <= |ops| && contents == AfterChanges(noCase, old(contents), ops[..done])
        invariant akUpd == old(akUpd) + done
      {
        var op := ops[done];
        var room := HasRoom(op);
        if !room {
          return;
        }
        NextDone(noCase, old(contents), ops, done);
        match op {
          case PutKey(id, chunks) => Write(id, chunks);
          case RemoveKey(id) => Delete(id);
        }
        done := done + 1;
      }
    }
  }

  function AfterChange(noCase: bool, m: map<Rank, Data>, op: AkOp): map<Rank, Data> {
    match op
    case PutKey(id, chunks) => m[RankOf(noCase, id) := C.Flat(chunks)]
    case RemoveKey(id) => m - {RankOf(noCase, id)}
  }

  function AfterChanges(noCase: bool, m: map<Rank, Data>, ops: seq<AkOp>): map<Rank, Data> {
    if ops == [] then m else AfterChange(noCase, AfterChanges(noCase, m, ops[..|ops| - 1]), ops[|ops| - 1])
  }

  lemma NextDone(noCase: bool, m: map<Rank, Data>, ops: seq<AkOp>, i: nat)
    requires i < |ops|
    ensures AfterChanges(noCase, m, ops[..i + 1]) == AfterChange(noCase, AfterChanges(noCase, m, ops[..i]), ops[i])
  {
    assert ops[..i + 1][..i] == ops[..i];
  }

  lemma NoneDone(noCase: bool, m: map<Rank, Data>, ops: seq<AkOp>)
    ensures AfterChanges(noCase, m, ops[..0]) == m
  {
  }
}
