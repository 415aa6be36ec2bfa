/** The scan position of an index: it is set to an edge or to a key, moves one record at a time,
    and survives whatever is written and deleted in between. */
module AkScans {
  import opened Blocks
  import opened AkOrder
  import opened AkNodes
  import opened AkSearches
  import opened AkBigs
  import opened AkIndexes
  import opened Sequences

  // ------------------------------------------------------------------------
  // Where a scan goes

  /** Whether the scan last stood at the left or right edge. */
  datatype Edges = Edges(left: bool, right: bool)

  /** The place in a list of n records that a scan goes to from a key: `lo` records are less than
      the key, and `present` says whether the key itself is next. Negative when the scan stops. */
  function Target(n: nat, lo: nat, present: bool, e: Edges, right: bool): int {
    if right then
      if lo == n then -1
      else
        var to := if e.right || (present && !e.left) then lo + 1 else lo;
        if to < n then to else -1
    else if n == 0 || (lo == 0 && !present) then -1
    else if !e.right then lo - 1
    else if lo == n then n - 1
    else lo
  }

  /** The least of some keys above a key, or from it on. */
  ghost predicate LeastAbove(keys: set<Rank>, k: Rank, orAt: bool, x: Rank) {
    && x in keys && (Less(k, x) || (orAt && x == k))
    && forall y | y in keys && (Less(k, y) || (orAt && y == k)) :: !Less(y, x)
  }

  ghost predicate NoneAbove(keys: set<Rank>, k: Rank, orAt: bool) {
    forall y | y in keys :: !(Less(k, y) || (orAt && y == k))
  }

  /** The greatest of some keys below a key, or up to it. */
  ghost predicate GreatestBelow(keys: set<Rank>, k: Rank, orAt: bool, x: Rank) {
    && x in keys && (Less(x, k) || (orAt && x == k))
    && forall y | y in keys && (Less(y, k) || (orAt && y == k)) :: !Less(x, y)
  }

  ghost predicate NoneBelow(keys: set<Rank>, k: Rank, orAt: bool) {
    forall y | y in keys :: !(Less(y, k) || (orAt && y == k))
  }

  /** What a scan to the right ought to bring: the next key, or nothing. */
  ghost predicate NextKey(noCase: bool, all: seq<Record>, keys: set<Rank>, k: Rank, orAt: bool, to: int) {
    if 0 <= to < |all| then LeastAbove(keys, k, orAt, KeyRank(noCase, all[to])) else NoneAbove(keys, k, orAt)
  }

  ghost predicate PriorKey(noCase: bool, all: seq<Record>, keys: set<Rank>, k: Rank, orAt: bool, to: int) {
    if 0 <= to < |all| then GreatestBelow(keys, k, orAt, KeyRank(noCase, all[to])) else NoneBelow(keys, k, orAt)
  }

  /** The sorted list, its map, and the place of a key in it. */
  ghost predicate KeyPlace(noCase: bool, all: seq<Record>, m: map<Rank, Body>, k: Rank, lo: nat) {
    Sorted(noCase, all) && Maps(noCase, all, m) && Position(noCase, all, k, lo)
  }

  /** Every key of the map is somewhere in the list. */
  lemma KeyIndex(noCase: bool, all: seq<Record>, m: map<Rank, Body>, y: Rank) returns (i: nat)
    requires Maps(noCase, all, m) && y in m
    ensures i < |all| && KeyRank(noCase, all[i]) == y
  {
    hide Less, RankOf;
    assert HasRank(noCase, all, y);
    var r :| r in all && KeyRank(noCase, r) == y;
    i :| 0 <= i < |all| && all[i] == r;
  }

  /** Every key from a place on is above the key, apart from the key itself. */
  lemma AboveFrom(noCase: bool, all: seq<Record>, m: map<Rank, Body>, k: Rank, lo: nat, i: nat)
    requires KeyPlace(noCase, all, m, k, lo) && i < |all|
    ensures i < lo <==> Less(KeyRank(noCase, all[i]), k)
    ensures i > lo ==> Less(k, KeyRank(noCase, all[i]))
    ensures i == lo ==> (Less(k, KeyRank(noCase, all[i])) <==> KeyRank(noCase, all[i]) != k)
    ensures Less(k, KeyRank(noCase, all[i])) ==> i >= lo
  {
    hide Less, RankOf, Maps;
    LessTotal(KeyRank(noCase, all[i]), k);
    LessIrreflexive(k);
    if i > lo {
      NotLess(KeyRank(noCase, all[lo]), k);
      assert Less(KeyRank(noCase, all[lo]), KeyRank(noCase, all[i]));
      if k != KeyRank(noCase, all[lo]) {
        LessTransitive(k, KeyRank(noCase, all[lo]), KeyRank(noCase, all[i]));
      }
    }
  }

  /** The record at the place of a key, or after the key itself, has the least key above. */
  lemma NextAt(noCase: bool, all: seq<Record>, m: map<Rank, Body>, k: Rank, lo: nat, orAt: bool, to: nat)
    requires KeyPlace(noCase, all, m, k, lo) && to <= |all|
    requires to == if Hit(noCase, all, k, lo) && !orAt then lo + 1 else lo
    ensures NextKey(noCase, all, m.Keys, k, orAt, to)
  {
    hide Less, RankOf, Maps, Sorted, Position;
    forall y | y in m && (Less(k, y) || (orAt && y == k)) ensures to < |all| && !Less(y, KeyRank(noCase, all[to])) {
      var i := KeyIndex(noCase, all, m, y);
      AboveFrom(noCase, all, m, k, lo, i);
      LessIrreflexive(k);
      assert i >= to;
      InOrder(noCase, all, to, i);
    }
    if to < |all| {
      AboveFrom(noCase, all, m, k, lo, to);
      InMap(noCase, all, m, to);
    }
  }

  lemma InMap(noCase: bool, all: seq<Record>, m: map<Rank, Body>, i: nat)
    requires Maps(noCase, all, m) && i < |all|
    ensures KeyRank(noCase, all[i]) in m && m[KeyRank(noCase, all[i])] == all[i].body
  {
    assert all[i] in all;
  }

  lemma InOrder(noCase: bool, all: seq<Record>, i: nat, j: nat)
    requires Sorted(noCase, all) && i <= j < |all|
    ensures !Less(KeyRank(noCase, all[j]), KeyRank(noCase, all[i]))
  {
    hide Less, RankOf;
    LessIrreflexive(KeyRank(noCase, all[i]));
    if i < j {
      LessTotal(KeyRank(noCase, all[i]), KeyRank(noCase, all[j]));
    }
  }

  /** The record before the place of a key has the greatest key below; the key itself counts when
      it may. */
  lemma PriorAt(noCase: bool, all: seq<Record>, m: map<Rank, Body>, k: Rank, lo: nat, orAt: bool, to: int)
    requires KeyPlace(noCase, all, m, k, lo)
    requires to == if Hit(noCase, all, k, lo) && orAt then lo else lo - 1
    ensures PriorKey(noCase, all, m.Keys, k, orAt, to)
  {
    hide Less, RankOf, Maps, Sorted, Position;
    assert lo <= |all| by { PositionWithin(noCase, all, k, lo); }
    forall y | y in m && (Less(y, k) || (orAt && y == k)) ensures 0 <= to < |all| && !Less(KeyRank(noCase, all[to]), y) {
      var i := KeyIndex(noCase, all, m, y);
      AboveFrom(noCase, all, m, k, lo, i);
      LessIrreflexive(k);
      assert i <= to;
      InOrder(noCase, all, i, to);
    }
    if 0 <= to {
      AboveFrom(noCase, all, m, k, lo, to);
      InMap(noCase, all, m, to);
    }
  }

  lemma PositionWithin(noCase: bool, all: seq<Record>, k: Rank, lo: nat)
    requires Position(noCase, all, k, lo)
    ensures lo <= |all|
  {
  }

  // ------------------------------------------------------------------------
  // What a scan brings

  /** After a key has been returned, the scan brings the nearest key on either side of it, whether
      or not the key itself is still there. */
  lemma FromAKey(noCase: bool, all: seq<Record>, m: map<Rank, Body>, k: Rank, lo: nat)
    requires KeyPlace(noCase, all, m, k, lo)
    ensures NextKey(noCase, all, m.Keys, k, false, Target(|all|, lo, Hit(noCase, all, k, lo), Edges(false, false), true))
    ensures PriorKey(noCase, all, m.Keys, k, false, Target(|all|, lo, Hit(noCase, all, k, lo), Edges(false, false), false))
  {
    hide Less, RankOf, Maps, Sorted;
    var present := Hit(noCase, all, k, lo);
    NextAt(noCase, all, m, k, lo, false, if present then lo + 1 else lo);
    PriorAt(noCase, all, m, k, lo, false, lo - 1);
  }

  /** From the left edge, the key itself is the first that a scan to the right brings. */
  lemma FromTheLeft(noCase: bool, all: seq<Record>, m: map<Rank, Body>, k: Rank, lo: nat)
    requires KeyPlace(noCase, all, m, k, lo)
    ensures NextKey(noCase, all, m.Keys, k, true, Target(|all|, lo, Hit(noCase, all, k, lo), Edges(true, false), true))
    ensures PriorKey(noCase, all, m.Keys, k, false, Target(|all|, lo, Hit(noCase, all, k, lo), Edges(true, false), false))
  {
    hide Less, RankOf, Maps, Sorted;
    NextAt(noCase, all, m, k, lo, true, lo);
    PriorAt(noCase, all, m, k, lo, false, lo - 1);
  }

  /** From the right edge, when the key it stood at has gone and others lie beyond, a scan to the right brings
      the key after the next one, if there is one, and a scan to the left the next one, unless nothing
      lies before it either. */
  lemma BeyondTheRight(noCase: bool, all: seq<Record>, m: map<Rank, Body>, k: Rank, lo: nat, left: bool)
    requires KeyPlace(noCase, all, m, k, lo) && k !in m && lo < |all|
    ensures NextKey(noCase, all, m.Keys, k, false, lo)
    ensures NextKey(noCase, all, m.Keys, KeyRank(noCase, all[lo]), false, Target(|all|, lo, false, Edges(left, true), true))
    ensures Target(|all|, lo, false, Edges(left, true), false) == if NoneBelow(m.Keys, k, false) then -1 else lo
  {
    hide Less, RankOf, Maps, Sorted;
    HitDecides(noCase, all, m, k, lo);
    NextAt(noCase, all, m, k, lo, false, lo);
    PriorAt(noCase, all, m, k, lo, false, lo - 1);
    PlaceOfRecord(noCase, all, m, lo);
    NextAt(noCase, all, m, KeyRank(noCase, all[lo]), lo, false, lo + 1);
  }

  lemma PlaceOfRecord(noCase: bool, all: seq<Record>, m: map<Rank, Body>, i: nat)
    requires Sorted(noCase, all) && Maps(noCase, all, m) && i < |all|
    ensures KeyPlace(noCase, all, m, KeyRank(noCase, all[i]), i)
  {
    hide Less, RankOf, Maps;
    forall j | i <= j < |all| ensures !Less(KeyRank(noCase, all[j]), KeyRank(noCase, all[i])) {
      InOrder(noCase, all, i, j);
    }
  }

  /** From the right edge a scan is right just when the key it stood at is still there or nothing
      lies beyond it; to the left it is also right when nothing lies before it. */
  lemma FromTheRight(noCase: bool, all: seq<Record>, m: map<Rank, Body>, k: Rank, lo: nat, left: bool)
    requires KeyPlace(noCase, all, m, k, lo)
    ensures NextKey(noCase, all, m.Keys, k, false, Target(|all|, lo, Hit(noCase, all, k, lo), Edges(left, true), true))
            <==> k in m || NoneAbove(m.Keys, k, false)
    ensures PriorKey(noCase, all, m.Keys, k, true, Target(|all|, lo, Hit(noCase, all, k, lo), Edges(left, true), false))
            <==> k in m || NoneAbove(m.Keys, k, false) || NoneBelow(m.Keys, k, false)
  {
    hide Less, RankOf, Maps, Sorted;
    var present := Hit(noCase, all, k, lo);
    HitDecides(noCase, all, m, k, lo);
    NextAt(noCase, all, m, k, lo, false, if present then lo + 1 else lo);
    PriorAt(noCase, all, m, k, lo, true, if present then lo else lo - 1);
    PriorAt(noCase, all, m, k, lo, false, lo - 1);
    LessIrreflexive(k);
    if !present && lo < |all| {
      AboveFrom(noCase, all, m, k, lo, lo);
      InMap(noCase, all, m, lo);
      SkipsOne(noCase, all, m, k, lo);
    }
  }

  /** The key is gone and there is one beyond it: the scan to the right passes over that one, and
      the scan to the left brings it. */
  lemma SkipsOne(noCase: bool, all: seq<Record>, m: map<Rank, Body>, k: Rank, lo: nat)
    requires KeyPlace(noCase, all, m, k, lo) && lo < |all| && Less(k, KeyRank(noCase, all[lo]))
    requires KeyRank(noCase, all[lo]) in m && KeyRank(noCase, all[lo]) != k
    ensures !NextKey(noCase, all, m.Keys, k, false, if lo + 1 < |all| then lo + 1 else -1)
    ensures !PriorKey(noCase, all, m.Keys, k, true, lo)
  {
    hide RankOf, Maps;
    LessTotal(k, KeyRank(noCase, all[lo]));
  }

  /** For instance: standing at the right edge on "b", which is then deleted while "c" and "d" are
      added. The scan to the right brings "d", and the scan to the left brings "c". */
  lemma RightEdgeSkips()
    ensures var a, c, d := Record([97], Inline([])), Record([99], Inline([])), Record([100], Inline([]));
            var k := RankOf(false, [98]);
            var m: map<Rank, Body> := map[RankOf(false, [97]) := Inline([]), RankOf(false, [99]) := Inline([]),
                                     RankOf(false, [100]) := Inline([])];
            && KeyPlace(false, [a, c, d], m, k, 1) && k !in m
            && Target(3, 1, false, Edges(false, true), true) == 2
            && Target(3, 1, false, Edges(false, true), false) == 1
            && LeastAbove(m.Keys, k, false, RankOf(false, [99]))
            && GreatestBelow(m.Keys, k, true, RankOf(false, [97]))
  {
    var a, c, d := Record([97], Inline([])), Record([99], Inline([])), Record([100], Inline([]));
    var all := [a, c, d];
    var m: map<Rank, Body> := map[RankOf(false, [97]) := Inline([]), RankOf(false, [99]) := Inline([]),
                                     RankOf(false, [100]) := Inline([])];
    assert RankOf(false, [97])[0] == 97 && RankOf(false, [98])[0] == 98 && RankOf(false, [99])[0] == 99 && RankOf(false, [100])[0] == 100;
    forall x | x in m ensures HasRank(false, all, x) {
      assert a in all && c in all && d in all;
      assert KeyRank(false, a) == x || KeyRank(false, c) == x || KeyRank(false, d) == x;
    }
  }

  // ------------------------------------------------------------------------
  // The position kept between scans

  /** A node and a place in it, as the place of a key that is there. */
  ghost predicate IsAt(noCase: bool, path: seq<nat>, leaves: seq<seq<Record>>, node: nat, pos: nat, k: Rank) {
    exists i: nat :: InLeaf(noCase, path, leaves, node, pos, k, i)
  }

  ghost predicate InLeaf(noCase: bool, path: seq<nat>, leaves: seq<seq<Record>>, node: nat, pos: nat, k: Rank, i: nat) {
    i < |path| == |leaves| && path[i] == node && pos < |leaves[i]| && KeyRank(noCase, leaves[i][pos]) == k
  }

  /** A scan's step starts here: where the key is or belongs, and the edges it is at. */
  ghost predicate Settled(noCase: bool, path: seq<nat>, leaves: seq<seq<Record>>, k: Rank, r: Look, i: nat, e: Edges) {
    && i < |path| == |leaves| && r.node == path[i] && r.pos <= |leaves[i]|
    && var p, all := Global(leaves, i, r.pos), Flat(leaves);
    && Position(noCase, all, k, p)
    && (r.found <==> Hit(noCase, all, k, p))
    && (r.right <==> p == |all|)
    && (r.left ==> all == [] || p == 0)
    && (r.left && r.found ==> e.left && !e.right)
    && (all == [] || (p == 0 && !r.found) ==> r.left)
    && (r.left && r.right ==> all == [])
    && (p == |all| ==> r.pos == |leaves[i]| && i + 1 == |leaves|)
    && (p < |all| ==> r.pos < |leaves[i]|)
  }

  class AkScan {
    const index: AkIndex

    var found: bool
    var edges: Edges
    var upd: nat
    var node: nat
    var pos: nat
    var key: Id

    ghost function K(): Rank
      reads `key
    {
      RankOf(index.noCase, key)
    }

    /** While there has been no update since the stamp, the node and place are those of the key. */
    ghost predicate Stamped()
      reads this, index
    {
      && (found ==> K() in index.contents)
      && (K() in index.contents ==> IsAt(index.noCase, index.path, index.leaves, node, pos, K()))
      && (found && edges.left ==> NoneBelow(index.contents.Keys, K(), false))
    }

    ghost predicate Valid()
      reads this, index
    {
      && index.Valid() && upd <= index.akUpd
      && !(found && edges.right)
      && (upd == index.akUpd ==> Stamped())
    }

    constructor (index: AkIndex)
      requires index.Valid() && index.akUpd > 0
      ensures Valid() && this.index == index && edges == Edges(false, false) && key == []
    {
      this.index := index;
      found, edges, upd, node, pos, key := false, Edges(false, false), 0, 0, 0, [];
    }

    /** Whatever is written and deleted meanwhile, the position stays good. */
    twostate lemma Survives()
      requires old(Valid()) && unchanged(this) && index.Valid() && index.akUpd > old(index.akUpd)
      ensures Valid()
    {
    }

    /** Look up an indexed value, and stand there. */
    method SelectValue(id: Id) returns (r: Look, data: Data)
      requires Valid()
      modifies this
      ensures Valid() && key == id
      ensures (r.found <==> K() in index.contents) && (r.found ==> data == index.contents[K()])
      ensures edges.right <==> NoneAbove(index.contents.Keys, K(), true)
      ensures edges.left <==> NoneBelow(index.contents.Keys, K(), true) || index.contents == map[]
    {
      hide Less, RankOf, TreeOk, Maps, Located, NoneAbove, NoneBelow, Flat, Big, AkIndex.Valid;
      ghost var i;
      index.KeysAgree();
      r, data, i := index.Read(id);
      ValueFacts(index.T(), index.noCase, index.path, index.leaves, index.fp, index.outer, index.bodies, RankOf(index.noCase, id), r, i);
      found, edges, upd, node, pos, key := r.found, Edges(r.left, r.right), index.akUpd, r.node, r.pos, id;
    }

    /** Go down one edge of the tree to its leaf. */
    method DescendEdge(right: bool) returns (n: nat, b: Node, ghost i: nat)
      requires index.Tree()
      ensures |index.path| == |index.leaves| >= 1 && i == (if right then |index.leaves| - 1 else 0) && n == index.path[i]
      ensures b.TermNode? && b.recs == index.leaves[i]
      ensures n == 1 && b.used == TERM_NODE_HEADER_SIZE <==> index.leaves[i] == []
      ensures index.leaves[i] == [] ==> |index.leaves| == 1
    {
      hide Less, RankOf, TreeOk, Maps, Flat;
      ghost var t := index.T();
      RootFacts(t, index.noCase, index.path, index.leaves, index.fp, index.outer);
      n, i := 1, 0;
      b := index.ReadNode(n);
      if b.IntNode? {
        i := if right then |index.path| - 1 else 0;
        LeafFacts(t, index.noCase, index.path, index.leaves, index.fp, index.outer, i);
        n := b.children[if right then |b.children| - 1 else 0];
        b := index.ReadNode(n);
      }
      LeafFacts(t, index.noCase, index.path, index.leaves, index.fp, index.outer, i);
    }

    /** The record at one edge of the index, if it has any. */
    method EdgeRecord(right: bool) returns (some: bool, n: nat, p: nat, id: Id)
      requires index.Valid()
      ensures some <==> index.contents != map[]
      ensures var k := RankOf(index.noCase, id);
              some ==>
                && IsAt(index.noCase, index.path, index.leaves, n, p, k) && k in index.contents
                && if right then NoneAbove(index.contents.Keys, k, false) else NoneBelow(index.contents.Keys, k, false)
    {
      hide Less, RankOf, TreeOk, Maps, NoneAbove, NoneBelow, Flat, Sorted, AkIndex.Valid;
      index.KeysAgree();
      var b;
      ghost var i;
      n, b, i := DescendEdge(right);
      ValidParts(index.T(), index.noCase, index.path, index.leaves, index.fp, index.outer);
      EdgeFacts(index.noCase, index.leaves, index.bodies, i, right);
      assert index.contents == map[] <==> index.contents.Keys == {};
      assert index.bodies == map[] <==> index.bodies.Keys == {};
      if n == 1 && b.used == TERM_NODE_HEADER_SIZE {
        return false, 0, 0, [];
      }
      some, p := true, if right then |b.recs| - 1 else 0;
      id := b.recs[p].id;
      assert InLeaf(index.noCase, index.path, index.leaves, n, p, RankOf(index.noCase, id), i);
    }

    /** Stand at the left or the right edge of the index. */
    method SetEdge(right: bool)
      requires Valid()
      modifies this
      ensures Valid()
      ensures index.contents == map[] ==> key == [] && edges == Edges(true, true)
      ensures index.contents != map[] ==> edges == Edges(!right, right) && K() in index.contents
      ensures index.contents != map[] && right ==> NoneAbove(index.contents.Keys, K(), false)
      ensures index.contents != map[] && !right ==> NoneBelow(index.contents.Keys, K(), false)
    {
      hide RankOf, NoneAbove, NoneBelow, AkIndex.Valid, IsAt;
      var some, n, p, id := EdgeRecord(right);
      if !some {
        found, edges, key := false, Edges(true, true), [];
        return;
      }
      found, edges, upd, node, pos, key := false, Edges(!right, right), index.akUpd, n, p, id;
    }

    /** Where the key is, or belongs, now: from the cached position when there has been no update
        since it was stamped, and otherwise by searching again. */
    method Locate() returns (r: Look, ghost i: nat)
      requires Valid()
      ensures Settled(index.noCase, index.path, index.leaves, K(), r, i, edges)
    {
      hide Less, RankOf, Maps, NoneBelow;
      if found && upd == index.akUpd {
        r := Look(true, edges.left, edges.right, node, pos);
        i :| InLeaf(index.noCase, index.path, index.leaves, node, pos, K(), i);
        CachedSettled(index.noCase, index.path, index.leaves, index.bodies, K(), r, i, edges);
      } else {
        var body;
        r, body, i := index.Search(key);
      }
    }

    method StepRight(n: nat, p: nat, b: Node, ghost i: nat) returns (ok: bool, n': nat, p': nat, b': Node, ghost i': nat)
      requires index.Valid() && OnRecord(index.T(), index.path, index.leaves, n, p, b, i)
      ensures ok ==> OnRecord(index.T(), index.path, index.leaves, n', p', b', i')
                     && Global(index.leaves, i', p') == Global(index.leaves, i, p) + 1 < |index.All()|
      ensures !ok ==> Global(index.leaves, i, p) + 1 == |index.All()|
    {
      hide Less, RankOf, Maps, Flat, TreeOk;
      StepFacts(index.T(), index.noCase, index.path, index.leaves, index.fp, index.outer, i);
      ok, n', p', b', i' := true, n, p + 1, b, i;
      if p' == |b.recs| {
        n', p', i' := b.right, 0, i + 1;
        if n' == 0 {
          ok := false;
          return;
        }
        b' := index.ReadNode(n');
      }
      GlobalAt(index.leaves, i', p');
    }

    method StepLeft(n: nat, p: nat, b: Node, ghost i: nat) returns (ok: bool, n': nat, p': nat, b': Node, ghost i': nat)
      requires index.Valid() && i < |index.path| == |index.leaves| && n == index.path[i] && b == At(index.T(), n)
      requires b.TermNode? && b.recs == index.leaves[i] && p <= |b.recs| && (p == |b.recs| ==> p > 0)
      ensures ok ==> OnRecord(index.T(), index.path, index.leaves, n', p', b', i')
                     && Global(index.leaves, i', p') + 1 == Global(index.leaves, i, p)
      ensures !ok ==> Global(index.leaves, i, p) == 0
    {
      hide Less, RankOf, Maps, Flat, TreeOk;
      StepFacts(index.T(), index.noCase, index.path, index.leaves, index.fp, index.outer, i);
      ok, n', p', b', i' := true, n, p, b, i;
      if p == 0 {
        n' := b.left;
        if n' == 0 {
          ok := false;
          return;
        }
        b' := index.ReadNode(n');
        i', p' := i - 1, |b'.recs|;
      }
      p' := p' - 1;
    }

    /** Stand on a record that is there. */
    method Stand(n: nat, p: nat, b: Node, ghost i: nat)
      requires index.Valid() && upd <= index.akUpd && OnRecord(index.T(), index.path, index.leaves, n, p, b, i)
      modifies this
      ensures Valid() && found && edges == Edges(false, false) && key == b.recs[p].id
      ensures var to := Global(index.leaves, i, p);
              to < |index.All()| && index.All()[to] == b.recs[p]
    {
      hide Less, RankOf, Maps, Flat, TreeOk, NoneBelow;
      GlobalAt(index.leaves, i, p);
      InMap(index.noCase, index.All(), index.bodies, Global(index.leaves, i, p));
      assert InLeaf(index.noCase, index.path, index.leaves, n, p, KeyRank(index.noCase, b.recs[p]), i);
      found, edges, node, pos, key := true, Edges(false, false), n, p, b.recs[p].id;
    }

    /** Go to the record the scan's edges and direction call for. */
    method Move(right: bool, look: Look, e: Edges, ghost i: nat) returns (ok: bool, n: nat, p: nat, b: Node, ghost i': nat)
      requires index.Valid() && Settled(index.noCase, index.path, index.leaves, K(), look, i, e)
      requires !(if right then look.right else look.left)
      ensures ok <==> Target(|index.All()|, Global(index.leaves, i, look.pos), look.found, e, right) >= 0
      ensures ok ==> OnRecord(index.T(), index.path, index.leaves, n, p, b, i')
      ensures ok ==> Global(index.leaves, i', p) == Target(|index.All()|, Global(index.leaves, i, look.pos), look.found, e, right)
      ensures !ok && !right ==> Global(index.leaves, i, look.pos) == 0 && index.All() != []
    {
      hide Less, RankOf, Maps, Flat, TreeOk, Sorted, Position, NoneBelow, Hit;
      SettledFacts(index.T(), index.noCase, index.path, index.leaves, index.fp, index.outer, index.bodies, K(), look, i, e);
      var f := if e.left || e.right then false else look.found;
      ok, n, p, i' := true, look.node, look.pos, i;
      b := index.ReadNode(n);
      if f {
        if right {
          ok, n, p, b, i' := StepRight(n, p, b, i);
        } else {
          ok, n, p, b, i' := StepLeft(n, p, b, i);
        }
      } else if right {
        if e.right {
          ok, n, p, b, i' := StepRight(n, p, b, i);
        }
      } else if !e.right {
        ok, n, p, b, i' := StepLeft(n, p, b, i);
      } else if p == |b.recs| {
        p := |b.recs| - 1;
      }
    }

    /** Stay where the position is, at an edge. */
    method Stay(f: bool, e: Edges)
      requires Valid() && !(f && e.right) && (f ==> K() in index.contents)
      requires f && e.left ==> NoneBelow(index.contents.Keys, K(), false)
      modifies `found, `edges
      ensures Valid() && found == f && edges == e
    {
      hide Less, RankOf, NoneBelow, IsAt, AkIndex.Valid;
      found, edges := f, e;
    }

    /** Take one step to the right or left of the key, from where it is or belongs. */
    method StepOn(right: bool) returns (some: bool, id: Id, data: Data, ghost lo: nat, ghost to: int)
      requires Valid()
      modifies this
      ensures Valid()
      ensures KeyPlace(index.noCase, index.All(), index.bodies, old(K()), lo)
      ensures to == Target(|index.All()|, lo, old(K()) in index.contents, old(edges), right)
      ensures some <==> to >= 0
      ensures some ==> to < |index.All()| && id == index.All()[to].id && RankOf(index.noCase, id) in index.contents
                       && data == index.contents[RankOf(index.noCase, id)]
      ensures some ==> key == id && found && edges == Edges(false, false)
      ensures !some ==> key == old(key)
      ensures !some ==> edges == if right then Edges(index.contents == map[], true) else Edges(true, index.contents == map[])
    {
      hide Less, RankOf, Maps, Flat, TreeOk, Global, Sorted, Position, NoneBelow, Target, NextKey, PriorKey;
      hide OnRecord, IsAt, NoneAbove;
      hide AkIndex.Valid, AkScan.Stamped;
      index.KeysAgree();
      var e := edges;
      var look, i := Locate();
      SettledFacts(index.T(), index.noCase, index.path, index.leaves, index.fp, index.outer, index.bodies, K(), look, i, e);
      lo := Global(index.leaves, i, look.pos);
      to := Target(|index.All()|, lo, look.found, e, right);
      TargetFacts(index.noCase, index.All(), index.bodies, K(), lo, e, right);
      some, id, data := false, [], [];
      if if right then look.right else look.left {
        Stay(false, Edges(look.left, look.right));
      } else {
        var ok, n, p, b;
        ok, n, p, b, i := Move(right, look, e, i);
        if ok {
          data := ReadRecord(n, p, b, i);
          Stand(n, p, b, i);
          some, id := true, key;
        } else {
          Stay(!right && e != Edges(false, false) && look.found, Edges(!right, right));
        }
      }
    }

    /** Move to the next record on one side of the key, or report that there is none. */
    method Scan(right: bool) returns (some: bool, id: Id, data: Data, ghost lo: nat, ghost to: int)
      requires Valid()
      modifies this
      ensures Valid()
      ensures KeyPlace(index.noCase, index.All(), index.bodies, old(K()), lo)
      ensures to == Target(|index.All()|, lo, old(K()) in index.contents, old(edges), right)
      ensures some <==> to >= 0
      ensures some ==> to < |index.All()| && id == index.All()[to].id && RankOf(index.noCase, id) in index.contents
                       && data == index.contents[RankOf(index.noCase, id)]
      ensures some ==> key == id && found && edges == Edges(false, false)
      ensures !some ==> key == old(key)
      ensures !some ==> edges == if right then Edges(index.contents == map[], true) else Edges(true, index.contents == map[])
      ensures old(edges) == Edges(false, false) ==>
                if right then NextKey(index.noCase, index.All(), index.contents.Keys, old(K()), false, to)
                else PriorKey(index.noCase, index.All(), index.contents.Keys, old(K()), false, to)
      ensures old(edges) == Edges(true, false) ==>
                if right then NextKey(index.noCase, index.All(), index.contents.Keys, old(K()), true, to)
                else PriorKey(index.noCase, index.All(), index.contents.Keys, old(K()), false, to)
      ensures old(edges).right && old(K()) in index.contents ==>
                if right then NextKey(index.noCase, index.All(), index.contents.Keys, old(K()), false, to)
                else PriorKey(index.noCase, index.All(), index.contents.Keys, old(K()), true, to)
    {
      hide Less, RankOf, Maps, Flat, TreeOk, Target, NextKey, PriorKey, KeyPlace, AkIndex.Valid;
      ghost var k, e := K(), edges;
      index.KeysAgree();
      some, id, data, lo, to := StepOn(right);
      TargetFacts(index.noCase, index.All(), index.bodies, k, lo, e, right);
    }

    /** The data of the record a scan has come to. */
    method ReadRecord(n: nat, p: nat, b: Node, ghost i: nat) returns (data: Data)
      requires index.Valid() && OnRecord(index.T(), index.path, index.leaves, n, p, b, i)
      ensures b.TermNode? && p < |b.recs|
      ensures var k := KeyRank(index.noCase, b.recs[p]); k in index.contents && data == index.contents[k]
    {
      hide Less, RankOf, Maps, TreeOk, Big;
      GlobalAt(index.leaves, i, p);
      InMap(index.noCase, index.All(), index.bodies, Global(index.leaves, i, p));
      data := index.ReadBody(b.recs[p].body, KeyRank(index.noCase, b.recs[p]));
    }
  }

  // ------------------------------------------------------------------------
  // Facts for the steps

  /** A place with a record in it. */
  ghost predicate OnRecord(t: Ak, path: seq<nat>, leaves: seq<seq<Record>>, n: nat, p: nat, b: Node, i: nat) {
    && i < |path| == |leaves| && n == path[i] && b == At(t, n) && b.TermNode?
    && b.recs == leaves[i] && p < |b.recs|
  }

  lemma ValidParts(t: Ak, noCase: bool, path: seq<nat>, leaves: seq<seq<Record>>, fp: seq<nat>, kept: set<nat>)
    requires TreeOk(t, noCase, path, leaves, fp, kept)
    ensures Sorted(noCase, Flat(leaves))
  {
  }

  lemma LeafFacts(t: Ak, noCase: bool, path: seq<nat>, leaves: seq<seq<Record>>, fp: seq<nat>, kept: set<nat>, i: nat)
    requires TreeOk(t, noCase, path, leaves, fp, kept) && i < |path|
    ensures |path| == |leaves| && InFile(t, path[i]) && At(t, path[i]).TermNode? && At(t, path[i]).recs == leaves[i]
    ensures At(t, path[i]).left == Prev(path, i) && At(t, path[i]).right == Nth(path, i + 1)
    ensures At(t, path[i]).used == TERM_NODE_HEADER_SIZE <==> leaves[i] == []
    ensures leaves[i] == [] ==> path == [1]
  {
    hide Less, RankOf, Fits;
    LeftLink(t, path, leaves, i);
    NoBytesNoRecords(leaves[i]);
    if path != [1] {
      ChildFacts(t, noCase, path, leaves, fp, kept, i);
    }
  }

  lemma StepFacts(t: Ak, noCase: bool, path: seq<nat>, leaves: seq<seq<Record>>, fp: seq<nat>, kept: set<nat>, i: nat)
    requires TreeOk(t, noCase, path, leaves, fp, kept) && i < |path|
    ensures |path| == |leaves| && At(t, path[i]).TermNode?
    ensures At(t, path[i]).left == Prev(path, i) && At(t, path[i]).right == Nth(path, i + 1)
    ensures (Prev(path, i) == 0 <==> i == 0) && (Nth(path, i + 1) == 0 <==> i + 1 == |path|)
    ensures i > 0 ==> InFile(t, path[i - 1]) && At(t, path[i - 1]).TermNode? && At(t, path[i - 1]).recs == leaves[i - 1]
                      && leaves[i - 1] != [] && Global(leaves, i - 1, |leaves[i - 1]|) == Global(leaves, i, 0)
    ensures i == 0 ==> Global(leaves, i, 0) == 0
    ensures i + 1 < |path|
            ==> InFile(t, path[i + 1]) && At(t, path[i + 1]).TermNode?
                && At(t, path[i + 1]).recs == leaves[i + 1] && leaves[i + 1] != []
                && Global(leaves, i, |leaves[i]|) == Global(leaves, i + 1, 0)
    ensures i + 1 == |path| ==> Global(leaves, i, |leaves[i]|) == |Flat(leaves)|
  {
    hide Less, RankOf, Flat, TreeOk;
    LeafFacts(t, noCase, path, leaves, fp, kept, i);
    LeftOwned(t, noCase, path, leaves, fp, kept, i);
    GlobalEnd(leaves, i);
    if i > 0 {
      LeafFacts(t, noCase, path, leaves, fp, kept, i - 1);
      GlobalEnd(leaves, i - 1);
    } else {
      NoneBefore(leaves);
    }
    if i + 1 < |path| {
      LeafFacts(t, noCase, path, leaves, fp, kept, i + 1);
    }
  }

  /** A map is empty exactly when its list is. */
  lemma EmptyMap(noCase: bool, all: seq<Record>, m: map<Rank, Body>)
    requires Maps(noCase, all, m)
    ensures all == [] <==> m == map[]
  {
    hide Less, RankOf;
    if all != [] {
      assert all[0] in all;
    } else {
      assert forall k | k in m :: HasRank(noCase, all, k);
      assert forall k: Rank :: !HasRank(noCase, all, k);
    }
  }

  lemma ValueFacts(t: Ak, noCase: bool, path: seq<nat>, leaves: seq<seq<Record>>, fp: seq<nat>, kept: set<nat>,
                   m: map<Rank, Body>,
                   k: Rank, r: Look, i: nat)
    requires TreeOk(t, noCase, path, leaves, fp, kept) && Maps(noCase, Flat(leaves), m)
             && Located(noCase, path, leaves, k, r, i)
    ensures r.found <==> k in m
    ensures r.found ==> InLeaf(noCase, path, leaves, r.node, r.pos, k, i)
    ensures r.right <==> NoneAbove(m.Keys, k, true)
    ensures r.left <==> NoneBelow(m.Keys, k, true) || m == map[]
    ensures !(r.found && r.right) && !(r.found && r.left)
  {
    hide Less, RankOf, Maps, Sorted, Flat;
    var all, p: int := Flat(leaves), Global(leaves, i, r.pos);
    HitDecides(noCase, all, m, k, p);
    NextAt(noCase, all, m, k, p, true, p);
    PriorAt(noCase, all, m, k, p, true, if Hit(noCase, all, k, p) then p else p - 1);
    EmptyMap(noCase, all, m);
    if r.found {
      GlobalAt(leaves, i, r.pos);
    }
  }

  /** The outermost record has the outermost key. */
  lemma EdgeFacts(noCase: bool, leaves: seq<seq<Record>>, m: map<Rank, Body>, i: nat, right: bool)
    requires Sorted(noCase, Flat(leaves)) && Maps(noCase, Flat(leaves), m)
    requires i < |leaves| && i == (if right then |leaves| - 1 else 0) && (leaves[i] == [] ==> |leaves| == 1)
    ensures leaves[i] == [] <==> m == map[]
    ensures leaves[i] != [] && right
            ==> KeyRank(noCase, Last(leaves[i])) in m && NoneAbove(m.Keys, KeyRank(noCase, Last(leaves[i])), false)
    ensures leaves[i] != [] && !right
            ==> KeyRank(noCase, leaves[i][0]) in m && NoneBelow(m.Keys, KeyRank(noCase, leaves[i][0]), false)
  {
    hide Less, RankOf, Maps, Sorted, Flat;
    var all := Flat(leaves);
    EmptyMap(noCase, all, m);
    if leaves[i] == [] {
      FlatOne(leaves[0]);
      assert leaves == [leaves[0]];
    } else {
      var pos := if right then |leaves[i]| - 1 else 0;
      var p: int := Global(leaves, i, pos);
      GlobalAt(leaves, i, pos);
      GlobalEnd(leaves, i);
      NoneBefore(leaves);
      InMap(noCase, all, m, p);
      OwnPosition(noCase, all, p);
      NextAt(noCase, all, m, KeyRank(noCase, all[p]), p, false, p + 1);
      PriorAt(noCase, all, m, KeyRank(noCase, all[p]), p, false, p - 1);
    }
  }

  lemma CachedSettled(noCase: bool, path: seq<nat>, leaves: seq<seq<Record>>, m: map<Rank, Body>, k: Rank, r: Look,
                      i: nat, e: Edges)
    requires Sorted(noCase, Flat(leaves)) && Maps(noCase, Flat(leaves), m)
             && InLeaf(noCase, path, leaves, r.node, r.pos, k, i)
    requires r.found && r.left == e.left && !r.right && !e.right && (e.left ==> NoneBelow(m.Keys, k, false))
    ensures Settled(noCase, path, leaves, k, r, i, e)
  {
    hide Less, RankOf, Maps, Sorted, Flat;
    var all, p: int := Flat(leaves), Global(leaves, i, r.pos);
    GlobalAt(leaves, i, r.pos);
    OwnPosition(noCase, all, p);
    PriorAt(noCase, all, m, k, p, false, p - 1);
  }

  lemma SettledFacts(t: Ak, noCase: bool, path: seq<nat>, leaves: seq<seq<Record>>, fp: seq<nat>, kept: set<nat>,
                     m: map<Rank, Body>,
                     k: Rank, r: Look, i: nat, e: Edges)
    requires TreeOk(t, noCase, path, leaves, fp, kept) && Maps(noCase, Flat(leaves), m)
             && Settled(noCase, path, leaves, k, r, i, e)
    ensures InFile(t, r.node) && At(t, r.node).TermNode? && At(t, r.node).recs == leaves[i]
    ensures var all, lo := Flat(leaves), Global(leaves, i, r.pos);
            && KeyPlace(noCase, all, m, k, lo)
            && (r.found <==> k in m)
            && lo <= |all|
            && (r.found ==> lo < |all|)
            && (lo == |all| && all != [] ==> r.pos > 0)
            && (all == [] <==> m == map[])
            && (lo == 0 ==> NoneBelow(m.Keys, k, false))
  {
    hide Less, RankOf, Maps, Sorted, Flat;
    var all, lo: int := Flat(leaves), Global(leaves, i, r.pos);
    LeafFacts(t, noCase, path, leaves, fp, kept, i);
    StepFacts(t, noCase, path, leaves, fp, kept, i);
    HitDecides(noCase, all, m, k, lo);
    EmptyMap(noCase, all, m);
    PriorAt(noCase, all, m, k, lo, false, lo - 1);
  }

  lemma TargetFacts(noCase: bool, all: seq<Record>, m: map<Rank, Body>, k: Rank, lo: nat, e: Edges, right: bool)
    requires KeyPlace(noCase, all, m, k, lo)
    ensures var to := Target(|all|, lo, k in m, e, right);
            && to < |all|
            && (e == Edges(false, false) ==>
                  if right then NextKey(noCase, all, m.Keys, k, false, to) else PriorKey(noCase, all, m.Keys, k, false, to))
            && (e == Edges(true, false) ==>
                  if right then NextKey(noCase, all, m.Keys, k, true, to) else PriorKey(noCase, all, m.Keys, k, false, to))
            && (e.right && k in m ==>
                  if right then NextKey(noCase, all, m.Keys, k, false, to) else PriorKey(noCase, all, m.Keys, k, true, to))
            && ((if right then lo == |all| else all == [] || (lo == 0 && k !in m)) ==> to < 0)
            && (!right && lo == 0 && !e.right ==> to < 0)
  {
    hide Less, RankOf, Maps, Sorted, NextKey, PriorKey, NoneAbove, NoneBelow;
    HitDecides(noCase, all, m, k, lo);
    FromAKey(noCase, all, m, k, lo);
    FromTheLeft(noCase, all, m, k, lo);
    FromTheRight(noCase, all, m, k, lo, e.left);
  }
}
