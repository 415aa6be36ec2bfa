/** The nodes of an index: a root that is a leaf or stands over the leaves, the doubly linked
    chain of leaves, and the chain of free nodes. Node 1 is always the root. */
module AkNodes {
  import opened Blocks
  import opened AkOrder
  import opened Sequences

  datatype Node =
    | TermNode(left: nat, right: nat, used: nat, recs: seq<Record>)
    | IntNode(used: nat, children: seq<nat>, keys: seq<Id>)
    | BigNode(next: nat, dataLen: nat, data: Data)
    | FreeNode(next: nat)

  /** The nodes, numbered from 1, and the head of the free chain. */
  datatype Ak = Ak(nodes: seq<Node>, free: nat)

  predicate InFile(t: Ak, n: nat) {
    1 <= n <= |t.nodes|
  }

  function At(t: Ak, n: nat): Node {
    if InFile(t, n) then t.nodes[n - 1] else FreeNode(0)
  }

  function Set(t: Ak, n: nat, b: Node): Ak
    requires InFile(t, n)
  {
    Ak(t.nodes[n - 1 := b], t.free)
  }

  // ------------------------------------------------------------------------
  // Sequences

  function Prev(s: seq<nat>, i: nat): nat {
    if 0 < i <= |s| then s[i - 1] else 0
  }

  /** A sequence with one element replaced by several, or by none. */
  function Rejoin<T>(s: seq<T>, i: nat, mid: seq<T>): (r: seq<T>)
    requires i < |s|
    ensures |r| == |s| - 1 + |mid|
  {
    s[..i] + mid + s[i + 1..]
  }

  lemma RejoinAt<T>(s: seq<T>, i: nat, mid: seq<T>, j: nat)
    requires i < |s| && j < |s| - 1 + |mid|
    ensures Rejoin(s, i, mid)[j]
            == if j < i then s[j] else if j < i + |mid| then mid[j - i] else s[j - |mid| + 1]
  {
  }

  function Flat(leaves: seq<seq<Record>>): seq<Record> {
    if leaves == [] then [] else leaves[0] + Flat(leaves[1..])
  }

  lemma {:induction false} FlatConcat(a: seq<seq<Record>>, b: seq<seq<Record>>)
    ensures Flat(a + b) == Flat(a) + Flat(b)
  {
    if a == [] {
      assert a + b == b;
    } else {
      assert (a + b)[1..] == a[1..] + b;
      FlatConcat(a[1..], b);
      AddAssoc(a[0], Flat(a[1..]), Flat(b));
    }
  }

  lemma FlatOne(leaf: seq<Record>)
    ensures Flat([leaf]) == leaf
  {
    assert [leaf][1..] == [];
    assert leaf + [] == leaf;
  }

  /** The records seen from one leaf. */
  lemma FlatAround(leaves: seq<seq<Record>>, i: nat)
    requires i < |leaves|
    ensures Flat(leaves) == Flat(leaves[..i]) + leaves[i] + Flat(leaves[i + 1..])
  {
    hide Flat;
    var pre, leaf, post := leaves[..i], leaves[i], leaves[i + 1..];
    assert leaves == pre + ([leaf] + post);
    FlatThree(pre, leaf, post);
  }

  lemma FlatThree(pre: seq<seq<Record>>, leaf: seq<Record>, post: seq<seq<Record>>)
    ensures Flat(pre + ([leaf] + post)) == Flat(pre) + leaf + Flat(post)
  {
    hide Flat;
    FlatConcat(pre, [leaf] + post);
    FlatConcat([leaf], post);
    FlatOne(leaf);
    AddAssoc(Flat(pre), leaf, Flat(post));
  }

  lemma FlatRejoin(leaves: seq<seq<Record>>, i: nat, parts: seq<seq<Record>>)
    requires i < |leaves|
    ensures Flat(Rejoin(leaves, i, parts)) == Flat(leaves[..i]) + Flat(parts) + Flat(leaves[i + 1..])
  {
    FlatConcat(leaves[..i] + parts, leaves[i + 1..]);
    FlatConcat(leaves[..i], parts);
  }

  function KeyBytes(keys: seq<Id>): nat {
    if keys == [] then 0 else |keys[0]| + KeyBytes(keys[1..])
  }

  lemma {:induction false} KeyBytesConcat(a: seq<Id>, b: seq<Id>)
    ensures KeyBytes(a + b) == KeyBytes(a) + KeyBytes(b)
  {
    if a == [] {
      assert a + b == b;
    } else {
      assert (a + b)[1..] == a[1..] + b;
      KeyBytesConcat(a[1..], b);
    }
  }

  lemma KeyBytesOne(k: Id)
    ensures KeyBytes([k]) == |k|
  {
    assert [k][1..] == [];
  }

  lemma KeyBytesRejoin(keys: seq<Id>, i: nat, mid: seq<Id>)
    requires i < |keys|
    ensures KeyBytes(Rejoin(keys, i, mid)) == KeyBytes(keys) - |keys[i]| + KeyBytes(mid)
    ensures |keys[i]| <= KeyBytes(keys)
  {
    assert keys == keys[..i] + ([keys[i]] + keys[i + 1..]);
    KeyBytesConcat(keys[..i], [keys[i]] + keys[i + 1..]);
    KeyBytesConcat([keys[i]], keys[i + 1..]);
    KeyBytesOne(keys[i]);
    KeyBytesConcat(keys[..i] + mid, keys[i + 1..]);
    KeyBytesConcat(keys[..i], mid);
  }

  // ------------------------------------------------------------------------
  // The chains

  /** The i-th leaf: where it is, what it holds, and its links. */
  ghost predicate LeafAt(t: Ak, path: seq<nat>, leaves: seq<seq<Record>>, i: nat)
    requires i < |path| == |leaves|
  {
    && InFile(t, path[i])
    && Fits(leaves[i])
    && At(t, path[i]) == TermNode(Prev(path, i), Nth(path, i + 1), TERM_NODE_HEADER_SIZE + Bytes(leaves[i]), leaves[i])
  }

  /** The leaves are a consistent doubly linked list. */
  ghost predicate ChainOk(t: Ak, path: seq<nat>, leaves: seq<seq<Record>>) {
    |path| == |leaves| >= 1 && forall i | 0 <= i < |path| :: LeafAt(t, path, leaves, i)
  }

  ghost predicate FreeAt(t: Ak, fp: seq<nat>, i: nat)
    requires i < |fp|
  {
    InFile(t, fp[i]) && At(t, fp[i]) == FreeNode(Nth(fp, i + 1))
  }

  ghost predicate FreeOk(t: Ak, fp: seq<nat>) {
    t.free == Nth(fp, 0) && forall i | 0 <= i < |fp| :: FreeAt(t, fp, i)
  }

  /** Every node is the root, a leaf, free, or one of those in hand; none is two of these. */
  ghost predicate Owned(t: Ak, path: seq<nat>, fp: seq<nat>, hand: set<nat>) {
    && InFile(t, 1)
    && NoDup(path) && NoDup(fp)
    && 1 !in fp && 1 !in hand
    && (forall x | x in path :: InFile(t, x)) && (forall x | x in fp :: InFile(t, x)) && (forall x | x in hand :: InFile(t, x))
    && (1 in path ==> path == [1])
    && (forall x | x in path :: x !in fp && x !in hand)
    && (forall x | x in fp :: x !in hand)
    && forall n | InFile(t, n) :: n == 1 || n in path || n in fp || n in hand
  }

  lemma RejoinNoDup(s: seq<nat>, i: nat, mid: seq<nat>)
    requires NoDup(s) && NoDup(mid) && i < |s| && forall x | x in mid :: x !in s
    ensures NoDup(Rejoin(s, i, mid))
    ensures forall x :: x in Rejoin(s, i, mid) <==> x in mid || (x in s && x != s[i])
  {
    var r := Rejoin(s, i, mid);
    forall a, b | 0 <= a < b < |r| ensures r[a] != r[b] {
      RejoinAt(s, i, mid, a);
      RejoinAt(s, i, mid, b);
      var inA, inB := i <= a < i + |mid|, i <= b < i + |mid|;
      if inA && !inB {
        assert r[a] in mid && r[b] in s;
      } else if inB && !inA {
        assert r[b] in mid && r[a] in s;
      }
    }
    forall x ensures x in r <==> x in mid || (x in s && x != s[i]) {
      if x in s && x != s[i] {
        var j :| 0 <= j < |s| && s[j] == x;
        assert x in (if j < i then s[..i] else s[i + 1..]);
      }
    }
  }

  /** Rewriting a node that is not on a chain leaves the chain alone. */
  lemma ChainFrame(t: Ak, t': Ak, path: seq<nat>, leaves: seq<seq<Record>>)
    requires ChainOk(t, path, leaves) && |t'.nodes| >= |t.nodes|
    requires forall x | x in path :: At(t', x) == At(t, x)
    ensures ChainOk(t', path, leaves)
  {
    hide Bytes, Fits;
    forall i | 0 <= i < |path| ensures LeafAt(t', path, leaves, i) {
      assert LeafAt(t, path, leaves, i) && path[i] in path;
    }
  }

  lemma FreeFrame(t: Ak, t': Ak, fp: seq<nat>)
    requires FreeOk(t, fp) && |t'.nodes| >= |t.nodes| && t'.free == t.free
    requires forall x | x in fp :: At(t', x) == At(t, x)
    ensures FreeOk(t', fp)
  {
    forall i | 0 <= i < |fp| ensures FreeAt(t', fp, i) {
      assert FreeAt(t, fp, i) && fp[i] in fp;
    }
  }

  // ------------------------------------------------------------------------
  // Taking and giving back nodes

  /** The head of the free chain, or a node added to the file. */
  function TakeNode(t: Ak): (r: (Ak, nat))
    requires t.free <= |t.nodes|
  {
    if t.free == 0 then (Ak(t.nodes + [FreeNode(0)], 0), |t.nodes| + 1)
    else (Ak(t.nodes, if t.nodes[t.free - 1].FreeNode? then t.nodes[t.free - 1].next else 0), t.free)
  }

  function Give(t: Ak, n: nat): Ak
    requires InFile(t, n)
  {
    Ak(t.nodes[n - 1 := FreeNode(t.free)], n)
  }

  lemma TakeSound(t: Ak, path: seq<nat>, leaves: seq<seq<Record>>, fp: seq<nat>, hand: set<nat>) returns (fp': seq<nat>)
    requires ChainOk(t, path, leaves) && FreeOk(t, fp) && Owned(t, path, fp, hand)
    ensures t.free <= |t.nodes|
    ensures var (t', n) := TakeNode(t);
            && ChainOk(t', path, leaves) && FreeOk(t', fp') && Owned(t', path, fp', hand + {n})
            && InFile(t', n) && n !in hand && n !in path && n != 1
            && |t'.nodes| >= |t.nodes| && (forall x | InFile(t, x) :: At(t', x) == At(t, x))
  {
    hide Bytes, Fits, LeafAt;
    if fp == [] {
      fp' := fp;
    } else {
      assert FreeAt(t, fp, 0) && fp[0] in fp;
      fp' := fp[1..];
    }
    var (t', n) := TakeNode(t);
    TakeOwned(t, path, fp, hand, fp');
    ChainFrame(t, t', path, leaves);
    forall i | 0 <= i < |fp'| ensures FreeAt(t', fp', i) {
      assert FreeAt(t, fp, i + 1);
    }
  }

  lemma TakeOwned(t: Ak, path: seq<nat>, fp: seq<nat>, hand: set<nat>, fp': seq<nat>)
    requires FreeOk(t, fp) && Owned(t, path, fp, hand) && t.free <= |t.nodes|
    requires fp' == if fp == [] then fp else fp[1..]
    ensures var (t', n) := TakeNode(t);
            Owned(t', path, fp', hand + {n}) && n !in hand && n !in path && n != 1
  {
    var (t', n) := TakeNode(t);
    if fp != [] {
      assert FreeAt(t, fp, 0) && fp[0] in fp;
      assert fp == [fp[0]] + fp[1..];
    }
    forall x | InFile(t', x) ensures x == 1 || x in path || x in fp' || x in hand + {n} {
      assert InFile(t, x) || x == n;
    }
  }

  lemma GiveSound(t: Ak, path: seq<nat>, leaves: seq<seq<Record>>, fp: seq<nat>, hand: set<nat>, n: nat)
    requires ChainOk(t, path, leaves) && FreeOk(t, fp) && Owned(t, path, fp, hand) && n in hand
    ensures InFile(t, n)
    ensures var t' := Give(t, n);
            && ChainOk(t', path, leaves) && FreeOk(t', [n] + fp) && Owned(t', path, [n] + fp, hand - {n})
            && (forall x | x != n :: At(t', x) == At(t, x)) && |t'.nodes| == |t.nodes|
  {
    hide Bytes, Fits, LeafAt;
    var t' := Give(t, n);
    NoDupConcat([n], fp);
    ChainFrame(t, t', path, leaves);
    forall i | 0 <= i < |[n] + fp| ensures FreeAt(t', [n] + fp, i) {
      if i > 0 {
        assert FreeAt(t, fp, i - 1) && fp[i - 1] in fp;
      }
    }
  }

  // ------------------------------------------------------------------------
  // Changing the chain of leaves

  /** The links into the gap left by the i-th leaf when other leaves take its place. */
  function FirstOf(path: seq<nat>, i: nat, mid: seq<nat>): nat
    requires i < |path|
  {
    if mid == [] then Nth(path, i + 1) else mid[0]
  }

  function LastOf(path: seq<nat>, i: nat, mid: seq<nat>): nat
    requires i < |path|
  {
    if mid == [] then Prev(path, i) else mid[|mid| - 1]
  }

  /** One of the leaves that take the place of the i-th leaf. */
  ghost predicate PartAt(t: Ak, path: seq<nat>, i: nat, mid: seq<nat>, parts: seq<seq<Record>>, j: nat)
    requires i < |path| && j < |mid| == |parts|
  {
    && InFile(t, mid[j]) && Fits(parts[j])
    && At(t, mid[j]) == TermNode(if j == 0 then Prev(path, i) else mid[j - 1],
                                 if j + 1 == |mid| then Nth(path, i + 1) else mid[j + 1],
                                 TERM_NODE_HEADER_SIZE + Bytes(parts[j]), parts[j])
  }

  /** The neighbours of the replaced leaf have been linked to what took its place. */
  ghost predicate Relinked(t: Ak, t': Ak, path: seq<nat>, i: nat, mid: seq<nat>)
    requires i < |path|
  {
    && (i > 0 ==> At(t', path[i - 1]) == LinkRight(At(t, path[i - 1]), FirstOf(path, i, mid)))
    && (i + 1 < |path| ==> At(t', path[i + 1]) == LinkLeft(At(t, path[i + 1]), LastOf(path, i, mid)))
    && (forall j | 0 <= j < |path| && j != i && j != i - 1 && j != i + 1 :: At(t', path[j]) == At(t, path[j]))
  }

  function LinkRight(b: Node, n: nat): Node {
    if b.TermNode? then TermNode(b.left, n, b.used, b.recs) else b
  }

  function LinkLeft(b: Node, n: nat): Node {
    if b.TermNode? then TermNode(n, b.right, b.used, b.recs) else b
  }

  lemma ReplaceInChain(t: Ak, t': Ak, path: seq<nat>, leaves: seq<seq<Record>>, i: nat, mid: seq<nat>,
                       parts: seq<seq<Record>>)
    requires ChainOk(t, path, leaves) && |t'.nodes| >= |t.nodes| && i < |path| && |mid| == |parts|
             && |path| - 1 + |mid| >= 1
    requires forall j | 0 <= j < |mid| :: PartAt(t', path, i, mid, parts, j)
    requires Relinked(t, t', path, i, mid)
    ensures ChainOk(t', Rejoin(path, i, mid), Rejoin(leaves, i, parts))
  {
    hide Bytes, Fits;
    var path', leaves' := Rejoin(path, i, mid), Rejoin(leaves, i, parts);
    forall j | 0 <= j < |path'| ensures LeafAt(t', path', leaves', j) {
      RejoinAt(path, i, mid, j);
      RejoinAt(leaves, i, parts, j);
      if j > 0 {
        RejoinAt(path, i, mid, j - 1);
      }
      if j + 1 < |path'| {
        RejoinAt(path, i, mid, j + 1);
      }
      if i <= j < i + |mid| {
        assert PartAt(t', path, i, mid, parts, j - i);
      } else {
        var k := if j < i then j else j - |mid| + 1;
        assert LeafAt(t, path, leaves, k);
      }
    }
  }

  /** Rewriting one leaf in its place. */
  lemma RewriteLeaf(t: Ak, t': Ak, path: seq<nat>, leaves: seq<seq<Record>>, i: nat, leaf: seq<Record>)
    requires ChainOk(t, path, leaves) && i < |path| && NoDup(path) && Fits(leaf) && |t'.nodes| >= |t.nodes|
    requires At(t, path[i]).TermNode?
    requires At(t', path[i]) == TermNode(At(t, path[i]).left, At(t, path[i]).right, TERM_NODE_HEADER_SIZE + Bytes(leaf), leaf)
    requires forall x | x in path && x != path[i] :: At(t', x) == At(t, x)
    ensures ChainOk(t', path, leaves[i := leaf])
  {
    hide Bytes, Fits;
    var leaves' := leaves[i := leaf];
    forall j | 0 <= j < |path| ensures LeafAt(t', path, leaves', j) {
      assert LeafAt(t, path, leaves, j) && path[j] in path;
    }
  }

  // ------------------------------------------------------------------------
  // The root over the leaves

  function Last(leaf: seq<Record>): Record
    requires leaf != []
  {
    leaf[|leaf| - 1]
  }

  /** Each key of the root equals the largest key of its leaf. */
  ghost predicate KeyAt(noCase: bool, keys: seq<Id>, leaves: seq<seq<Record>>, i: nat)
    requires i < |keys| == |leaves|
  {
    leaves[i] != [] && RankOf(noCase, keys[i]) == KeyRank(noCase, Last(leaves[i]))
  }

  ghost predicate KeysOk(noCase: bool, keys: seq<Id>, leaves: seq<seq<Record>>) {
    |keys| == |leaves| && forall i | 0 <= i < |keys| :: KeyAt(noCase, keys, leaves, i)
  }

  /** The root is itself the only leaf, or stands over two leaves or more. */
  ghost predicate RootIs(t: Ak, noCase: bool, path: seq<nat>, leaves: seq<seq<Record>>) {
    path == [1]
    || (&& |path| >= 2 && 1 !in path && At(t, 1).IntNode?
        && At(t, 1).children == path && |path| <= MAX_CHILD
        && At(t, 1).used == INT_NODE_HEADER_SIZE + KeyBytes(At(t, 1).keys) <= DH_AK_NODE_SIZE
        && KeysOk(noCase, At(t, 1).keys, leaves))
  }

  lemma KeysRejoin(noCase: bool, keys: seq<Id>, leaves: seq<seq<Record>>, i: nat, mid: seq<Id>, parts: seq<seq<Record>>)
    requires KeysOk(noCase, keys, leaves) && i < |keys| && KeysOk(noCase, mid, parts)
    ensures KeysOk(noCase, Rejoin(keys, i, mid), Rejoin(leaves, i, parts))
  {
    hide RankOf;
    var keys', leaves' := Rejoin(keys, i, mid), Rejoin(leaves, i, parts);
    forall j | 0 <= j < |keys'| ensures KeyAt(noCase, keys', leaves', j) {
      RejoinAt(keys, i, mid, j);
      RejoinAt(leaves, i, parts, j);
      if i <= j < i + |mid| {
        assert KeyAt(noCase, mid, parts, j - i);
      } else {
        assert KeyAt(noCase, keys, leaves, if j < i then j else j - |mid| + 1);
      }
    }
  }

  ghost predicate IdsFit(leaves: seq<seq<Record>>) {
    forall r | r in Flat(leaves) :: |r.id| <= MAX_KEY_LEN
  }

  /** An index: its nodes, apart from those of large records, and how they hold the sorted records. */
  ghost predicate TreeOk(t: Ak, noCase: bool, path: seq<nat>, leaves: seq<seq<Record>>, fp: seq<nat>, kept: set<nat>) {
    && Owned(t, path, fp, kept)
    && ChainOk(t, path, leaves)
    && FreeOk(t, fp)
    && RootIs(t, noCase, path, leaves)
    && Sorted(noCase, Flat(leaves))
    && IdsFit(leaves)
  }

  // ------------------------------------------------------------------------
  // Places in the leaves

  ghost function Global(leaves: seq<seq<Record>>, i: nat, pos: nat): nat
    requires i <= |leaves|
  {
    |Flat(leaves[..i])| + pos
  }

  /** A place found by searching the root and then one leaf. */
  ghost predicate Spot(noCase: bool, leaves: seq<seq<Record>>, k: Rank, i: nat, pos: nat) {
    && i < |leaves| && pos <= |leaves[i]|
    && (pos > 0 ==> Less(KeyRank(noCase, leaves[i][pos - 1]), k))
    && (pos < |leaves[i]| ==> !Less(KeyRank(noCase, leaves[i][pos]), k))
    && (i > 0 ==> leaves[i - 1] != [] && Less(KeyRank(noCase, Last(leaves[i - 1])), k))
    && (i + 1 < |leaves| ==> pos < |leaves[i]|)
  }

  /** The record at a place in a leaf is the record at the place in the whole list. */
  lemma GlobalAt(leaves: seq<seq<Record>>, i: nat, pos: nat)
    requires i < |leaves| && pos < |leaves[i]|
    ensures Global(leaves, i, pos) < |Flat(leaves)| && Flat(leaves)[Global(leaves, i, pos)] == leaves[i][pos]
  {
    FlatAround(leaves, i);
  }

  lemma GlobalEnd(leaves: seq<seq<Record>>, i: nat)
    requires i < |leaves|
    ensures Global(leaves, i, |leaves[i]|) == Global(leaves, i + 1, 0)
    ensures i + 1 == |leaves| ==> Global(leaves, i, |leaves[i]|) == |Flat(leaves)|
    ensures Global(leaves, i, |leaves[i]|) <= |Flat(leaves)|
  {
    assert leaves[..i + 1] == leaves[..i] + [leaves[i]];
    FlatConcat(leaves[..i], [leaves[i]]);
    FlatOne(leaves[i]);
    FlatAround(leaves, i);
    if i + 1 == |leaves| {
      assert leaves[..i + 1] == leaves;
    }
  }

  lemma SpotIsPosition(noCase: bool, leaves: seq<seq<Record>>, k: Rank, i: nat, pos: nat)
    requires Sorted(noCase, Flat(leaves)) && Spot(noCase, leaves, k, i, pos)
    ensures Position(noCase, Flat(leaves), k, Global(leaves, i, pos))
    ensures Hit(noCase, Flat(leaves), k, Global(leaves, i, pos)) <==> Hit(noCase, leaves[i], k, pos)
  {
    hide Less, RankOf, Flat;
    var p := Global(leaves, i, pos);
    GlobalEnd(leaves, i);
    if pos > 0 {
      GlobalAt(leaves, i, pos - 1);
    } else if i > 0 {
      GlobalEnd(leaves, i - 1);
      GlobalAt(leaves, i - 1, |leaves[i - 1]| - 1);
    } else {
      NoneBefore(leaves);
    }
    if pos < |leaves[i]| {
      GlobalAt(leaves, i, pos);
    }
    PositionAt(noCase, Flat(leaves), k, p);
  }

  lemma {:induction false} GlobalGrows(leaves: seq<seq<Record>>, i: nat, j: nat)
    requires i <= j <= |leaves|
    ensures Global(leaves, i, 0) <= Global(leaves, j, 0)
    decreases j - i
  {
    if i < j {
      GlobalGrows(leaves, i, j - 1);
      GlobalEnd(leaves, j - 1);
    }
  }

  /** A key has one place. */
  lemma SpotUnique(noCase: bool, leaves: seq<seq<Record>>, k: Rank, i: nat, pos: nat, i': nat, pos': nat)
    requires Sorted(noCase, Flat(leaves)) && Spot(noCase, leaves, k, i, pos) && Spot(noCase, leaves, k, i', pos')
    ensures i == i' && pos == pos'
  {
    hide Less, RankOf, Flat, Sorted;
    var p, p' := Global(leaves, i, pos), Global(leaves, i', pos');
    SpotIsPosition(noCase, leaves, k, i, pos);
    SpotIsPosition(noCase, leaves, k, i', pos');
    assert p == p';
    if i < i' {
      SpotBefore(noCase, leaves, k, i, pos, i', pos');
    } else if i' < i {
      SpotBefore(noCase, leaves, k, i', pos', i, pos);
    }
  }

  lemma SpotBefore(noCase: bool, leaves: seq<seq<Record>>, k: Rank, i: nat, pos: nat, i': nat, pos': nat)
    requires Spot(noCase, leaves, k, i, pos) && i < i' < |leaves| && pos' <= |leaves[i']|
    ensures Global(leaves, i, pos) < Global(leaves, i', pos')
  {
    hide Less, RankOf, Flat;
    GlobalEnd(leaves, i);
    GlobalGrows(leaves, i + 1, i');
  }

  lemma NoneBefore(leaves: seq<seq<Record>>)
    ensures Global(leaves, 0, 0) == 0
  {
    assert leaves[..0] == [];
  }

  /** Putting a record in its leaf, however the leaf is then divided, puts it in the list. */
  lemma PutFlat(leaves: seq<seq<Record>>, i: nat, pos: nat, hit: bool, r: Record, parts: seq<seq<Record>>)
    requires i < |leaves| && pos <= |leaves[i]| && (hit ==> pos < |leaves[i]|)
    requires Flat(parts) == PutAt(leaves[i], pos, hit, r)
    ensures Global(leaves, i, pos) <= |Flat(leaves)| && (hit ==> Global(leaves, i, pos) < |Flat(leaves)|)
    ensures Flat(Rejoin(leaves, i, parts)) == PutAt(Flat(leaves), Global(leaves, i, pos), hit, r)
  {
    hide Flat;
    FlatAround(leaves, i);
    FlatRejoin(leaves, i, parts);
    PutMiddle(Flat(leaves[..i]), leaves[i], Flat(leaves[i + 1..]), pos, hit, r);
  }

  lemma PutMiddle(a: seq<Record>, s: seq<Record>, c: seq<Record>, pos: nat, hit: bool, r: Record)
    requires pos <= |s| && (hit ==> pos < |s|)
    ensures PutAt(a + s + c, |a| + pos, hit, r) == a + PutAt(s, pos, hit, r) + c
  {
  }

  lemma RemoveFlat(leaves: seq<seq<Record>>, i: nat, pos: nat, parts: seq<seq<Record>>)
    requires i < |leaves| && pos < |leaves[i]| && Flat(parts) == RemoveAt(leaves[i], pos)
    ensures Global(leaves, i, pos) < |Flat(leaves)|
    ensures Flat(Rejoin(leaves, i, parts)) == RemoveAt(Flat(leaves), Global(leaves, i, pos))
  {
    hide Flat;
    FlatAround(leaves, i);
    FlatRejoin(leaves, i, parts);
    RemoveMiddle(Flat(leaves[..i]), leaves[i], Flat(leaves[i + 1..]), pos);
  }

  lemma RemoveMiddle(a: seq<Record>, s: seq<Record>, c: seq<Record>, pos: nat)
    requires pos < |s|
    ensures RemoveAt(a + s + c, |a| + pos) == a + RemoveAt(s, pos) + c
  {
  }
}
