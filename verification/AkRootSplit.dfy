/** Splitting the root of an index, when an entry of it is to be replaced by more or longer keys than
    it can take. The old root is divided into two halves and a new root put above them, the only
    change that gives an index a third level. Modelled are the three nodes that this writes, and where
    a search that starts at the new root comes to. */
module AkRootSplits {
  import opened Blocks
  import opened AkOrder
  import opened AkNodes
  import opened AkChanges

  /** Some successive entries of an internal node, as a node. */
  function Part(root: Node, from: nat, to: nat): (b: Node)
    requires root.IntNode? && from <= to <= |root.keys| == |root.children|
    ensures b.IntNode? && |b.keys| == |b.children| == to - from
  {
    IntNode(INT_NODE_HEADER_SIZE + KeyBytes(root.keys[from..to]), root.children[from..to], root.keys[from..to])
  }

  /** A root that an entry can be replaced in. */
  ghost predicate Replaceable(root: Node, ci: nat, ids: seq<Id>, mid: seq<nat>) {
    root.IntNode? && 2 <= |root.keys| == |root.children| && ci < |root.keys| && 1 <= |ids| == |mid|
  }

  function LastKey(ids: seq<Id>): Id
    requires ids != []
  {
    ids[|ids| - 1]
  }

  /** The halves have the entries of the old root with the one replaced. The keys of the new root are
      still those that its halves had before. */
  ghost predicate SplitInto(root: Node, ci: nat, ids: seq<Id>, mid: seq<nat>, a: nat, b: nat, top: Node, left: Node,
                            right: Node)
    requires Replaceable(root, ci, ids, mid)
  {
    var n, half := |root.keys|, |root.keys| / 2;
    && top.IntNode? && top.children == [a, b] && top.keys == [root.keys[half - 1], root.keys[n - 1]]
    && left.IntNode? && right.IntNode?
    && |left.keys| == |left.children| == half + (if ci < half then |ids| - 1 else 0)
    && |right.keys| == |right.children|
    && left.keys + right.keys == Rejoin(root.keys, ci, ids)
    && left.children + right.children == Rejoin(root.children, ci, mid)
  }

  /** Give an entry of an internal node a new key and child. An entry past those in use is written
      too, and counted as used space, but it is not in use. */
  method PutEntry(node: Node, place: nat, key: Id, child: nat) returns (b: Node)
    requires node.IntNode? && |node.keys| == |node.children|
    requires place < |node.keys| ==> |node.keys[place]| <= node.used
    ensures place < |node.keys| ==> b == NewRoot(node, place, [key], [child])
    ensures place >= |node.keys| ==> b == IntNode(node.used + |key|, node.children, node.keys)
  {
    if place < |node.keys| {
      b := NewRoot(node, place, [key], [child]);
    } else {
      b := IntNode(node.used + |key|, node.children, node.keys);
    }
  }

  /** Divide the root, put a new root above its halves, and replace the entry in its half. The place
      in the new root, at which its key would be brought up to date, is set and then advanced. */
  method SplitRoot(root: Node, ci: nat, ids: seq<Id>, mid: seq<nat>, a: nat, b: nat)
    returns (top: Node, left: Node, right: Node)
    requires Replaceable(root, ci, ids, mid)
    ensures SplitInto(root, ci, ids, mid, a, b, top, left, right)
    ensures top.used == INT_NODE_HEADER_SIZE + KeyBytes(top.keys) + (if ci == |root.keys| - 1 then |LastKey(ids)| else 0)
  {
    hide KeyBytes, Rejoin;
    var n := |root.keys|;
    var remaining := n / 2;
    var moved := n - remaining;
    left, right := Part(root, 0, remaining), Part(root, remaining, n);
    var leftKey, rightKey := LastKey(left.keys), LastKey(right.keys);
    top := IntNode(INT_NODE_HEADER_SIZE + |leftKey| + |rightKey|, [a, b], [leftKey, rightKey]);
    TwoKeys(leftKey, rightKey);
    RejoinHalves(root.keys, remaining, ci, ids);
    RejoinHalves(root.children, remaining, ci, mid);
    var place := if ci >= moved then 1 else 0;
    if ci >= remaining {
      KeyWithin(right.keys, ci - remaining);
      right := NewRoot(right, ci - remaining, ids, mid);
      place := place + 1;
    } else {
      KeyWithin(left.keys, ci);
      left := NewRoot(left, ci, ids, mid);
    }
    if ci == n - 1 {
      top := PutEntry(top, place, LastKey(ids), b);
    }
  }

  lemma TwoKeys(x: Id, y: Id)
    ensures KeyBytes([x, y]) == |x| + |y|
  {
    assert [x, y] == [x] + [y];
    KeyBytesConcat([x], [y]);
    KeyBytesOne(x);
    KeyBytesOne(y);
  }

  lemma RejoinHalves<T>(s: seq<T>, half: nat, i: nat, mid: seq<T>)
    requires half <= |s| && i < |s|
    ensures i < half ==> Rejoin(s[0..half], i, mid) + s[half..|s|] == Rejoin(s, i, mid)
    ensures i >= half ==> s[0..half] + Rejoin(s[half..|s|], i - half, mid) == Rejoin(s, i, mid)
  {
    if i < half {
      assert s[0..half][..i] == s[..i] && s[0..half][i + 1..] + s[half..|s|] == s[i + 1..];
    } else {
      assert s[0..half] + s[half..|s|][..i - half] == s[..i] && s[half..|s|][i - half + 1..] == s[i + 1..];
    }
  }

  lemma {:induction false} KeyWithin(keys: seq<Id>, i: nat)
    requires i < |keys|
    ensures |keys[i]| <= KeyBytes(keys)
  {
    if i > 0 {
      KeyWithin(keys[1..], i - 1);
    }
  }

  // ------------------------------------------------------------------------
  // Searching from the new root

  predicate Ascending(noCase: bool, keys: seq<Id>) {
    forall i, j | 0 <= i < j < |keys| :: Less(RankOf(noCase, keys[i]), RankOf(noCase, keys[j]))
  }

  /** The first of some keys that is not less, or their number when all are less. */
  function FirstNotLess(noCase: bool, keys: seq<Id>, k: Rank): (i: nat)
    ensures i <= |keys| && forall j | 0 <= j < i :: Less(RankOf(noCase, keys[j]), k)
    ensures i < |keys| ==> !Less(RankOf(noCase, keys[i]), k)
  {
    if keys == [] || !Less(RankOf(noCase, keys[0]), k) then 0 else 1 + FirstNotLess(noCase, keys[1..], k)
  }

  /** Where a search comes to: a child, or beyond the last key. */
  datatype Landing = Beyond | Under(child: nat)

  function Sought(noCase: bool, keys: seq<Id>, children: seq<nat>, k: Rank): Landing
    requires |keys| == |children|
  {
    var i := FirstNotLess(noCase, keys, k);
    if i < |keys| then Under(children[i]) else Beyond
  }

  function SoughtBelow(noCase: bool, top: Node, left: Node, right: Node, k: Rank): Landing
    requires top.IntNode? && |top.keys| == 2 && left.IntNode? && right.IntNode?
    requires |left.keys| == |left.children| && |right.keys| == |right.children|
  {
    var i := FirstNotLess(noCase, top.keys, k);
    if i == 0 then Sought(noCase, left.keys, left.children, k)
    else if i == 1 then Sought(noCase, right.keys, right.children, k)
    else Beyond
  }

  lemma {:induction false} FirstInJoin(noCase: bool, a: seq<Id>, b: seq<Id>, k: Rank)
    ensures FirstNotLess(noCase, a + b, k)
            == if FirstNotLess(noCase, a, k) < |a| then FirstNotLess(noCase, a, k) else |a| + FirstNotLess(noCase, b, k)
  {
    hide Less, RankOf;
    if a == [] {
      assert a + b == b;
    } else {
      assert (a + b)[1..] == a[1..] + b;
      FirstInJoin(noCase, a[1..], b, k);
    }
  }

  /** Ascending keys are all less exactly when the last is. */
  lemma LastDecides(noCase: bool, keys: seq<Id>, k: Rank)
    requires keys != [] && Ascending(noCase, keys)
    ensures FirstNotLess(noCase, keys, k) == |keys| <==> Less(RankOf(noCase, LastKey(keys)), k)
  {
    hide Less, RankOf;
    var i := FirstNotLess(noCase, keys, k);
    if i < |keys| - 1 && Less(RankOf(noCase, LastKey(keys)), k) {
      LessTransitive(RankOf(noCase, keys[i]), RankOf(noCase, LastKey(keys)), k);
    }
  }

  /** After the root has been split, a search comes to the right leaf exactly as far as the greatest key
      of the old root goes: whatever lies beyond that is not found. Between the old and the new key of
      the entry that ends the left half, where a delete has left nothing to be found, it comes to none.
      A write leaves every entry but the last with a key of the same rank, and a delete gives the entry
      the key before it. */
  lemma SearchAfterSplit(noCase: bool, root: Node, ci: nat, ids: seq<Id>, mid: seq<nat>, a: nat, b: nat,
                         top: Node, left: Node, right: Node, k: Rank)
    requires Replaceable(root, ci, ids, mid) && SplitInto(root, ci, ids, mid, a, b, top, left, right)
    requires Ascending(noCase, root.keys) && Ascending(noCase, Rejoin(root.keys, ci, ids))
    requires ci < |root.keys| - 1 ==> !Less(RankOf(noCase, root.keys[ci]), RankOf(noCase, LastKey(ids)))
    ensures SoughtBelow(noCase, top, left, right, k)
            == if Less(RankOf(noCase, LastKey(root.keys)), k) || InGap(noCase, root, ci, ids, k) then Beyond
               else Sought(noCase, Rejoin(root.keys, ci, ids), Rejoin(root.children, ci, mid), k)
  {
    hide Less, RankOf, FirstNotLess, Ascending, Rejoin;
    var middle := root.keys[|root.keys| / 2 - 1];
    MiddleFirst(noCase, root);
    LeftEnd(root, ci, ids, mid, a, b, top, left, right);
    Separated(noCase, left.keys, right.keys, k);
    TopSearch(noCase, middle, LastKey(root.keys), k);
    if !Less(RankOf(noCase, middle), k) && Less(RankOf(noCase, LastKey(root.keys)), k) {
      LessTransitive(RankOf(noCase, middle), RankOf(noCase, LastKey(root.keys)), k);
    }
    if Less(RankOf(noCase, middle), k) && !Less(RankOf(noCase, LastKey(left.keys)), k) {
      Between(RankOf(noCase, LastKey(left.keys)), RankOf(noCase, middle), k);
    }
    JoinedChildren(noCase, left, right, k);
  }

  lemma MiddleFirst(noCase: bool, root: Node)
    requires root.IntNode? && 2 <= |root.keys| && Ascending(noCase, root.keys)
    ensures Less(RankOf(noCase, root.keys[|root.keys| / 2 - 1]), RankOf(noCase, LastKey(root.keys)))
  {
  }

  /** Greater than the key that an entry at the end of the left half now has, and not greater than the
      one it had. */
  predicate InGap(noCase: bool, root: Node, ci: nat, ids: seq<Id>, k: Rank)
    requires root.IntNode? && 2 <= |root.keys| && ids != []
  {
    && ci == |root.keys| / 2 - 1
    && Less(RankOf(noCase, LastKey(ids)), k) && !Less(RankOf(noCase, root.keys[ci]), k)
  }

  lemma Between(x: Rank, y: Rank, k: Rank)
    requires !Less(y, x)
    ensures Less(y, k) ==> Less(x, k)
  {
    hide Less;
    NotLess(y, x);
    if Less(x, y) && Less(y, k) {
      LessTransitive(x, y, k);
    }
  }

  /** The left half ends with the key that the new root has for it, unless that entry was replaced. */
  lemma LeftEnd(root: Node, ci: nat, ids: seq<Id>, mid: seq<nat>, a: nat, b: nat, top: Node, left: Node, right: Node)
    requires Replaceable(root, ci, ids, mid) && SplitInto(root, ci, ids, mid, a, b, top, left, right)
    ensures left.keys != []
    ensures LastKey(left.keys) == if ci == |root.keys| / 2 - 1 then LastKey(ids) else root.keys[|root.keys| / 2 - 1]
  {
    var keys := Rejoin(root.keys, ci, ids);
    assert LastKey(left.keys) == (left.keys + right.keys)[|left.keys| - 1];
  }

  lemma Separated(noCase: bool, a: seq<Id>, b: seq<Id>, k: Rank)
    requires a != [] && Ascending(noCase, a + b)
    ensures FirstNotLess(noCase, a, k) == |a| <==> Less(RankOf(noCase, LastKey(a)), k)
  {
    hide Less, RankOf;
    forall i, j | 0 <= i < j < |a| ensures Less(RankOf(noCase, a[i]), RankOf(noCase, a[j])) {
      assert (a + b)[i] == a[i] && (a + b)[j] == a[j];
    }
    LastDecides(noCase, a, k);
  }

  lemma TopSearch(noCase: bool, x: Id, y: Id, k: Rank)
    ensures FirstNotLess(noCase, [x, y], k)
            == if !Less(RankOf(noCase, x), k) then 0 else if !Less(RankOf(noCase, y), k) then 1 else 2
  {
    hide Less, RankOf;
    assert [x, y][1..] == [y] && [y][1..] == [];
  }

  lemma JoinedChildren(noCase: bool, left: Node, right: Node, k: Rank)
    requires left.IntNode? && right.IntNode? && |left.keys| == |left.children| && |right.keys| == |right.children|
    ensures Sought(noCase, left.keys + right.keys, left.children + right.children, k)
            == if FirstNotLess(noCase, left.keys, k) < |left.keys| then Sought(noCase, left.keys, left.children, k)
               else Sought(noCase, right.keys, right.children, k)
  {
    hide Less, RankOf;
    FirstInJoin(noCase, left.keys, right.keys, k);
  }

  /** So a record with a key beyond all others that splits the root is lost to every search, though
      its leaf is in the tree. */
  lemma GreatestLost(noCase: bool, root: Node, ids: seq<Id>, mid: seq<nat>, a: nat, b: nat, top: Node, left: Node,
                     right: Node)
    requires root.IntNode? && 2 <= |root.keys| == |root.children| && 1 <= |ids| == |mid|
    requires var ci := |root.keys| - 1;
             && SplitInto(root, ci, ids, mid, a, b, top, left, right)
             && Ascending(noCase, root.keys) && Ascending(noCase, Rejoin(root.keys, ci, ids))
    requires Less(RankOf(noCase, LastKey(root.keys)), RankOf(noCase, LastKey(ids)))
    ensures var ci, k := |root.keys| - 1, RankOf(noCase, LastKey(ids));
            && Sought(noCase, Rejoin(root.keys, ci, ids), Rejoin(root.children, ci, mid), k) == Under(mid[|mid| - 1])
            && SoughtBelow(noCase, top, left, right, k) == Beyond
  {
    hide Less, RankOf;
    var ci, k := |root.keys| - 1, RankOf(noCase, LastKey(ids));
    var keys := Rejoin(root.keys, ci, ids);
    SearchAfterSplit(noCase, root, ci, ids, mid, a, b, top, left, right, k);
    assert LastKey(keys) == LastKey(ids);
    LessIrreflexive(k);
    LastDecides(noCase, keys, k);
    var i := FirstNotLess(noCase, keys, k);
    assert i == |keys| - 1;
  }
}
