/** The large records of an index: each has its data in a chain of nodes of its own, taken from
    and given back to the same free chain as the leaves. */
module AkBigs {
  import opened Blocks
  import opened AkOrder
  import opened AkNodes
  import opened AkChanges
  import opened AkSearches
  import opened Sequences

  const DH_AK_BIG_NODE_SIZE := 12
  const BIG_NODE_DATA := DH_AK_NODE_SIZE - DH_AK_BIG_NODE_SIZE

  function NodeData(b: Node): Data {
    if b.BigNode? then b.data else []
  }

  /** The bytes of a chain of nodes, in chain order. */
  function BigBytes(t: Ak, bp: seq<nat>): Data {
    if bp == [] then [] else NodeData(At(t, bp[0])) + BigBytes(t, bp[1..])
  }

  lemma {:induction false} BigBytesAppend(t: Ak, bp: seq<nat>, n: nat)
    ensures BigBytes(t, bp + [n]) == BigBytes(t, bp) + NodeData(At(t, n))
  {
    if bp == [] {
      assert [n][1..] == [];
    } else {
      assert (bp + [n])[1..] == bp[1..] + [n];
      BigBytesAppend(t, bp[1..], n);
      AddAssoc(NodeData(At(t, bp[0])), BigBytes(t, bp[1..]), NodeData(At(t, n)));
    }
  }

  lemma {:induction false} BigBytesFrame(t: Ak, t': Ak, bp: seq<nat>)
    requires forall x | x in bp :: At(t', x) == At(t, x)
    ensures BigBytes(t', bp) == BigBytes(t, bp)
  {
    if bp != [] {
      assert bp[0] in bp;
      BigBytesFrame(t, t', bp[1..]);
    }
  }

  /** The i-th node of a chain: linked to the next, and full unless it is the last. */
  ghost predicate BigAt(t: Ak, bp: seq<nat>, i: nat, total: nat)
    requires i < |bp|
  {
    && InFile(t, bp[i]) && At(t, bp[i]).BigNode?
    && At(t, bp[i]).next == Nth(bp, i + 1)
    && 0 < |At(t, bp[i]).data| <= BIG_NODE_DATA
    && (i + 1 < |bp| ==> |At(t, bp[i]).data| == BIG_NODE_DATA)
    && (i == 0 ==> At(t, bp[i]).dataLen == total)
  }

  /** A complete chain that holds this data. */
  ghost predicate BigHolds(t: Ak, bp: seq<nat>, head: nat, data: Data) {
    && bp != [] && bp[0] == head && NoDup(bp)
    && (forall i | 0 <= i < |bp| :: BigAt(t, bp, i, |data|))
    && BigBytes(t, bp) == data
  }

  /** These nodes are as they were. */
  ghost predicate Unmoved(t: Ak, t': Ak, s: set<nat>) {
    |t'.nodes| >= |t.nodes| && forall x | x in s :: At(t', x) == At(t, x)
  }

  function Members(bp: seq<nat>): (s: set<nat>)
    ensures forall x :: x in s <==> x in bp
  {
    set x | x in bp
  }

  /** Freed nodes and the root are not among those that are kept. */
  lemma DropUnmoved(was: Ak, t: Ak, t': Ak, kept: set<nat>, n: nat, only: nat)
    requires Unmoved(was, t, kept) && |t'.nodes| == |t.nodes| && n !in kept && only !in kept && 1 !in kept
    requires forall x | x != n && x != only && x != 1 :: At(t', x) == At(t, x)
    ensures Unmoved(was, t', kept)
  {
  }

  lemma BigHoldsFrame(t: Ak, t': Ak, bp: seq<nat>, head: nat, data: Data)
    requires BigHolds(t, bp, head, data) && Unmoved(t, t', Members(bp))
    ensures BigHolds(t', bp, head, data)
  {
    BigBytesFrame(t, t', bp);
    forall i | 0 <= i < |bp| ensures BigAt(t', bp, i, |data|) {
      assert BigAt(t, bp, i, |data|) && bp[i] in bp;
    }
  }

  // ------------------------------------------------------------------------
  // Building a chain

  /** A chain being written: all nodes but the last are written, full and linked. */
  ghost predicate BigPart(t: Ak, bp: seq<nat>, total: nat, done: Data) {
    && bp != [] && NoDup(bp) && InFile(t, bp[|bp| - 1])
    && (forall i | 0 <= i < |bp| - 1 :: FullAt(t, bp, i, total))
    && BigBytes(t, bp[..|bp| - 1]) == done
  }

  ghost predicate FullAt(t: Ak, bp: seq<nat>, i: nat, total: nat)
    requires i + 1 < |bp|
  {
    && InFile(t, bp[i]) && At(t, bp[i]).BigNode? && At(t, bp[i]).next == bp[i + 1]
    && |At(t, bp[i]).data| == BIG_NODE_DATA && (i == 0 ==> At(t, bp[i]).dataLen == total)
  }

  lemma PartMore(t: Ak, t': Ak, bp: seq<nat>, next: nat, total: nat, done: Data, piece: Data, headerLen: nat)
    requires BigPart(t, bp, total, done) && next !in bp && InFile(t', next) && |t'.nodes| >= |t.nodes|
    requires |piece| == BIG_NODE_DATA && (|bp| == 1 ==> headerLen == total)
    requires At(t', bp[|bp| - 1]) == BigNode(next, headerLen, piece)
    requires forall x | x in bp && x != bp[|bp| - 1] :: At(t', x) == At(t, x)
    ensures BigPart(t', bp + [next], total, done + piece)
  {
    var last, bp' := |bp| - 1, bp + [next];
    NoDupConcat(bp, [next]);
    forall i | 0 <= i < |bp'| - 1 ensures FullAt(t', bp', i, total) {
      if i < last {
        assert FullAt(t, bp, i, total) && bp[i] in bp;
      }
    }
    assert bp'[..|bp'| - 1] == bp[..last] + [bp[last]];
    BigBytesAppend(t', bp[..last], bp[last]);
    BigBytesFrame(t, t', bp[..last]);
  }

  lemma PartDone(t: Ak, t': Ak, bp: seq<nat>, total: nat, done: Data, piece: Data, headerLen: nat)
    requires BigPart(t, bp, total, done) && |t'.nodes| >= |t.nodes| && (|bp| == 1 ==> headerLen == total)
    requires 0 < |piece| <= BIG_NODE_DATA && total == |done + piece|
    requires At(t', bp[|bp| - 1]) == BigNode(0, headerLen, piece)
    requires forall x | x in bp && x != bp[|bp| - 1] :: At(t', x) == At(t, x)
    ensures BigHolds(t', bp, bp[0], done + piece)
  {
    var last := |bp| - 1;
    forall i | 0 <= i < |bp| ensures BigAt(t', bp, i, total) {
      if i < last {
        assert FullAt(t, bp, i, total) && bp[i] in bp;
      }
    }
    assert bp == bp[..last] + [bp[last]];
    BigBytesAppend(t', bp[..last], bp[last]);
    BigBytesFrame(t, t', bp[..last]);
  }

  // ------------------------------------------------------------------------
  // Reading and releasing

  /** The nodes from place `i` on have no more of the data than they must: 4084 bytes each but the last. */
  lemma {:induction false} NodesFrom(t: Ak, bp: seq<nat>, total: nat, i: nat)
    requires i < |bp| && forall j | 0 <= j < |bp| :: BigAt(t, bp, j, total)
    ensures (|bp| - i - 1) * 4084 < |BigBytes(t, bp[i..])| <= (|bp| - i) * 4084
    decreases |bp| - i
  {
    assert BigAt(t, bp, i, total);
    assert bp[i..][1..] == bp[i + 1..];
    if i + 1 < |bp| {
      NodesFrom(t, bp, total, i + 1);
    } else {
      assert bp[i + 1..] == [];
    }
  }

  /** So a large record takes as many nodes as its data needs. */
  lemma NodesTaken(t: Ak, bp: seq<nat>, head: nat, data: Data)
    requires BigHolds(t, bp, head, data)
    ensures bp != [] && (|bp| - 1) * 4084 < |data| <= |bp| * 4084
  {
    NodesFrom(t, bp, |data|, 0);
    assert bp[0..] == bp;
  }

  lemma {:induction false} BigLength(t: Ak, bp: seq<nat>, total: nat, i: nat)
    requires i <= |bp| && forall j | 0 <= j < |bp| :: BigAt(t, bp, j, total)
    ensures |BigBytes(t, bp)| == |BigBytes(t, bp[..i])| + |BigBytes(t, bp[i..])|
    ensures BigBytes(t, bp[i..]) == [] <==> i == |bp|
    decreases |bp| - i
  {
    if i == |bp| {
      assert bp[..i] == bp && bp[i..] == [];
    } else {
      BigLength(t, bp, total, i + 1);
      assert BigAt(t, bp, i, total);
      assert bp[..i + 1] == bp[..i] + [bp[i]];
      BigBytesAppend(t, bp[..i], bp[i]);
      assert bp[i..][1..] == bp[i + 1..];
    }
  }

  /** What is read from the i-th node when the rest of the record is still to come. */
  lemma BigNext(t: Ak, bp: seq<nat>, head: nat, data: Data, i: nat)
    requires BigHolds(t, bp, head, data) && i < |bp|
    ensures InFile(t, bp[i]) && At(t, bp[i]).BigNode? && At(t, bp[i]).next == Nth(bp, i + 1)
    ensures Nth(bp, i + 1) == 0 <==> i + 1 == |bp|
    ensures i == 0 ==> At(t, bp[i]).dataLen == |data|
    ensures BigBytes(t, bp[..i + 1]) == BigBytes(t, bp[..i]) + At(t, bp[i]).data
    ensures var left := |data| - |BigBytes(t, bp[..i])|;
            |At(t, bp[i]).data| == if BIG_NODE_DATA < left then BIG_NODE_DATA else left
    ensures At(t, bp[i]).data != []
  {
    assert BigAt(t, bp, i, |data|);
    if i + 1 < |bp| {
      assert BigAt(t, bp, i + 1, |data|);
    }
    BigLength(t, bp, |data|, i);
    BigLength(t, bp, |data|, i + 1);
    assert bp[..i + 1] == bp[..i] + [bp[i]];
    BigBytesAppend(t, bp[..i], bp[i]);
  }

  lemma BigStart(t: Ak, bp: seq<nat>, head: nat, data: Data)
    requires BigHolds(t, bp, head, data)
    ensures bp != [] && bp[0] == head && head != 0 && NoDup(bp) && BigBytes(t, bp[..0]) == [] && BigBytes(t, bp) == data
  {
    assert BigAt(t, bp, 0, |data|);
  }

  lemma PartStart(t: Ak, head: nat, total: nat)
    requires InFile(t, head)
    ensures BigPart(t, [head], total, [])
  {
    assert [head][..0] == [];
  }

  /** The node that is released next. */
  lemma NextReleased(bp: seq<nat>, i: nat)
    requires NoDup(bp) && i < |bp|
    ensures bp[i] !in Members(bp[..i]) && Members(bp[..i + 1]) == Members(bp[..i]) + {bp[i]}
  {
    assert bp[..i + 1] == bp[..i] + [bp[i]];
  }

  lemma InHandInFile(t: Ak, path: seq<nat>, leaves: seq<seq<Record>>, fp: seq<nat>, hand: set<nat>, t': Ak)
    requires Holding(t, path, leaves, fp, hand) && |t'.nodes| >= |t.nodes|
    ensures forall x | x in hand :: InFile(t, x) && InFile(t', x)
    ensures InFile(t, 1) && 1 !in hand
  {
  }

  /** Rewriting a node in hand disturbs no chain. */
  lemma WriteInHand(t: Ak, path: seq<nat>, leaves: seq<seq<Record>>, fp: seq<nat>, hand: set<nat>, n: nat, b: Node)
    requires Holding(t, path, leaves, fp, hand) && n in hand
    ensures InFile(t, n) && Holding(Set(t, n, b), path, leaves, fp, hand)
  {
    hide Bytes, Fits, LeafAt;
    var t' := Set(t, n, b);
    ChainFrame(t, t', path, leaves);
    FreeFrame(t, t', fp);
    OwnedSame(t, t', path, fp, hand);
  }

  /** Whoever holds on to other nodes, the tree is as it was. */
  lemma SoundAgain(t: Ak, t': Ak, noCase: bool, path: seq<nat>, leaves: seq<seq<Record>>, fp: seq<nat>, kept: set<nat>,
                   fp': seq<nat>, kept': set<nat>)
    requires TreeOk(t, noCase, path, leaves, fp, kept) && Holding(t', path, leaves, fp', kept') && At(t', 1) == At(t, 1)
    ensures TreeOk(t', noCase, path, leaves, fp', kept')
  {
  }

  // ------------------------------------------------------------------------
  // All large records

  /** The nodes of all the chains. */
  ghost function Kept(chains: map<Rank, seq<nat>>): (s: set<nat>)
    ensures forall x :: x in s <==> exists k :: k in chains && x in chains[k]
  {
    set k, x | k in chains && x in chains[k] :: x
  }

  /** What one body says of the data of its key. */
  ghost predicate BodyOk(t: Ak, chains: map<Rank, seq<nat>>, k: Rank, body: Body, data: Data) {
    match body
    case Inline(d) => k !in chains && d == data
    case Large(head) => k in chains && BigHolds(t, chains[k], head, data)
  }

  ghost predicate ChainsApart(chains: map<Rank, seq<nat>>, j: Rank, k: Rank)
    requires j in chains && k in chains
  {
    forall x | x in chains[j] :: x !in chains[k]
  }

  /** The bodies in the leaves, with the chains of the large ones, hold the data of the map. Every
      chain belongs to one key, and no two chains share a node. */
  ghost predicate Big(t: Ak, chains: map<Rank, seq<nat>>, bodies: map<Rank, Body>, m: map<Rank, Data>) {
    && bodies.Keys == m.Keys && chains.Keys <= m.Keys
    && (forall k | k in m :: BodyOk(t, chains, k, bodies[k], m[k]))
    && (forall j, k | j in chains && k in chains && j != k :: ChainsApart(chains, j, k))
  }

  lemma BigFrame(t: Ak, t': Ak, chains: map<Rank, seq<nat>>, bodies: map<Rank, Body>, m: map<Rank, Data>)
    requires Big(t, chains, bodies, m) && Unmoved(t, t', Kept(chains))
    ensures Big(t', chains, bodies, m)
  {
    hide BigHolds;
    forall k | k in m ensures BodyOk(t', chains, k, bodies[k], m[k]) {
      assert BodyOk(t, chains, k, bodies[k], m[k]);
      if bodies[k].Large? {
        BigHoldsFrame(t, t', chains[k], bodies[k].head, m[k]);
      }
    }
  }

  /** The chains once a key has a body, or none. */
  ghost function Chained(chains: map<Rank, seq<nat>>, k: Rank, large: bool, bp: seq<nat>): map<Rank, seq<nat>> {
    if large then chains[k := bp] else chains - {k}
  }

  /** The nodes of the chain a key has, if it has one. */
  function ChainOf(chains: map<Rank, seq<nat>>, k: Rank): seq<nat> {
    if k in chains then chains[k] else []
  }

  lemma BigPut(t: Ak, chains: map<Rank, seq<nat>>, bodies: map<Rank, Body>, m: map<Rank, Data>, k: Rank, body: Body,
               bp: seq<nat>, data: Data)
    requires Big(t, chains, bodies, m) && (forall x | x in bp :: x !in Kept(chains))
    requires if body.Large? then BigHolds(t, bp, body.head, data) else bp == [] && body.data == data
    ensures var chains' := Chained(chains, k, body.Large?, bp);
            && Big(t, chains', bodies[k := body], m[k := data])
            && Kept(chains') == Kept(chains) + Members(bp) - Members(ChainOf(chains, k))
  {
    hide BigHolds;
    var chains' := Chained(chains, k, body.Large?, bp);
    var bodies', m' := bodies[k := body], m[k := data];
    forall j | j in m' ensures BodyOk(t, chains', j, bodies'[j], m'[j]) {
      if j != k {
        assert BodyOk(t, chains, j, bodies[j], m[j]);
      }
    }
    forall i, j | i in chains' && j in chains' && i != j ensures ChainsApart(chains', i, j) {
      if i != k && j != k {
        assert ChainsApart(chains, i, j);
      }
    }
    KeptChained(chains, k, body.Large?, bp);
  }

  lemma BigRemove(t: Ak, chains: map<Rank, seq<nat>>, bodies: map<Rank, Body>, m: map<Rank, Data>, k: Rank)
    requires Big(t, chains, bodies, m)
    ensures Big(t, chains - {k}, bodies - {k}, m - {k})
    ensures Kept(chains - {k}) == Kept(chains) - Members(ChainOf(chains, k))
  {
    hide BigHolds;
    var bodies', m' := bodies - {k}, m - {k};
    forall j | j in m' ensures BodyOk(t, chains - {k}, j, bodies'[j], m'[j]) {
      assert BodyOk(t, chains, j, bodies[j], m[j]);
    }
    forall i, j | i in chains - {k} && j in chains - {k} && i != j ensures ChainsApart(chains - {k}, i, j) {
      assert ChainsApart(chains, i, j);
    }
    KeptChained(chains, k, false, []);
    assert Kept(chains) + Members([]) == Kept(chains);
  }

  lemma KeptChained(chains: map<Rank, seq<nat>>, k: Rank, large: bool, bp: seq<nat>)
    requires forall i, j | i in chains && j in chains && i != j :: ChainsApart(chains, i, j)
    requires (forall x | x in bp :: x !in Kept(chains)) && (large || bp == [])
    ensures Kept(Chained(chains, k, large, bp)) == Kept(chains) + Members(bp) - Members(ChainOf(chains, k))
  {
    var chains' := Chained(chains, k, large, bp);
    forall x ensures x in Kept(chains') <==> x in Kept(chains) + Members(bp) - Members(ChainOf(chains, k)) {
      if x in Kept(chains') {
        var j :| j in chains' && x in chains'[j];
        if j != k && k in chains {
          assert ChainsApart(chains, j, k);
        }
      }
      if x in Kept(chains) && x !in ChainOf(chains, k) {
        var j :| j in chains && x in chains[j];
        assert j in chains' && x in chains'[j];
      }
      if x in bp {
        assert k in chains' && x in chains'[k];
      }
    }
  }

  /** The old body of a key tells where its chain begins. */
  lemma OldChain(t: Ak, chains: map<Rank, seq<nat>>, bodies: map<Rank, Body>, m: map<Rank, Data>, k: Rank)
    requires Big(t, chains, bodies, m)
    ensures k in m <==> k in bodies
    ensures k in bodies && bodies[k].Large? ==> k in chains && BigHolds(t, chains[k], bodies[k].head, m[k])
    ensures !(k in bodies && bodies[k].Large?) ==> ChainOf(chains, k) == []
    ensures k in bodies && bodies[k].Inline? ==> bodies[k].data == m[k]
    ensures forall x | x in ChainOf(chains, k) :: x in Kept(chains)
  {
    if k in m {
      assert BodyOk(t, chains, k, bodies[k], m[k]);
    }
  }
}
