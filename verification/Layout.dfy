/** Who owns each overflow block. Every overflow block lies on exactly one chain: the free
    chain, one group's chain, or one large record's chain. */
module Layout {
  import opened Blocks
  import opened Sequences

  /** What a chain of overflow blocks hangs from. The last three exist only while an
      operation is under way: a chain being emptied, a large record being written, and one
      waiting to be released. */
  datatype Root =
    | FreeList
    | Group(g: nat)
    | BigOf(key: Id)
    | Source
    | Incoming
    | Outgoing

  datatype Map = Map(paths: map<Root, seq<nat>>, owner: seq<Root>)

  ghost predicate PathOwned(l: Map, r: Root)
    requires r in l.paths
  {
    && NoDup(l.paths[r])
    && forall x | x in l.paths[r] :: 1 <= x <= |l.owner| && l.owner[x - 1] == r
  }

  ghost predicate BlockOwned(l: Map, b: nat)
    requires 1 <= b <= |l.owner|
  {
    l.owner[b - 1] in l.paths && b in l.paths[l.owner[b - 1]]
  }

  /** The chains partition the overflow blocks: none is shared and none is lost. */
  ghost predicate Partition(l: Map) {
    && (forall r | r in l.paths :: PathOwned(l, r))
    && (forall b: nat | 1 <= b <= |l.owner| :: BlockOwned(l, b))
  }

  /** Hand a block to the end of a chain: the head of the free chain, or, when that is
      empty, a block added to the end of the file. */
  ghost function Take(l: Map, r: Root): Map
    requires FreeList in l.paths && r in l.paths && r != FreeList
    requires l.paths[FreeList] != [] ==> 1 <= l.paths[FreeList][0] <= |l.owner|
  {
    var free := l.paths[FreeList];
    if free == [] then
      Map(l.paths[r := l.paths[r] + [|l.owner| + 1]], l.owner + [r])
    else
      Map(l.paths[FreeList := free[1..]][r := l.paths[r] + [free[0]]], l.owner[free[0] - 1 := r])
  }

  lemma TakeKeepsPartition(l: Map, r: Root)
    requires Partition(l) && FreeList in l.paths && r in l.paths && r != FreeList
    requires l.paths[FreeList] != [] ==> 1 <= l.paths[FreeList][0] <= |l.owner|
    ensures Partition(Take(l, r))
  {
    var l' := Take(l, r);
    var free := l.paths[FreeList];
    assert PathOwned(l, r) && PathOwned(l, FreeList);
    NoDupConcat(l.paths[r], [|l.owner| + 1]);
    if free == [] {
      forall q | q in l'.paths ensures PathOwned(l', q) {
        assert PathOwned(l, q);
      }
      forall b: nat | 1 <= b <= |l'.owner| ensures BlockOwned(l', b) {
        if b <= |l.owner| {
          assert BlockOwned(l, b);
        }
      }
    } else {
      NoDupHead(free);
      NoDupConcat(l.paths[r], [free[0]]);
      forall q | q in l'.paths ensures PathOwned(l', q) {
        assert PathOwned(l, q);
      }
      forall b: nat | 1 <= b <= |l'.owner| ensures BlockOwned(l', b) {
        assert BlockOwned(l, b);
      }
    }
  }

  /** Take the block at index `i` out of a chain and put it on the head of the free chain. */
  ghost function Release(l: Map, r: Root, i: nat): Map
    requires FreeList in l.paths && r in l.paths && r != FreeList && i < |l.paths[r]|
    requires 1 <= l.paths[r][i] <= |l.owner|
  {
    var b := l.paths[r][i];
    Map(l.paths[r := RemoveAt(l.paths[r], i)][FreeList := [b] + l.paths[FreeList]], l.owner[b - 1 := FreeList])
  }

  lemma RemoveAtMembers(s: seq<nat>, i: nat)
    requires NoDup(s) && i < |s|
    ensures NoDup(RemoveAt(s, i))
    ensures forall x :: x in RemoveAt(s, i) <==> x in s && x != s[i]
  {
    var t := RemoveAt(s, i);
    forall x | x in s && x != s[i] ensures x in t {
      var j :| 0 <= j < |s| && s[j] == x;
      assert t[if j < i then j else j - 1] == x;
    }
  }

  lemma ReleaseKeepsPartition(l: Map, r: Root, i: nat)
    requires Partition(l) && FreeList in l.paths && r in l.paths && r != FreeList && i < |l.paths[r]|
    requires 1 <= l.paths[r][i] <= |l.owner|
    ensures Partition(Release(l, r, i))
  {
    var l' := Release(l, r, i);
    var b := l.paths[r][i];
    assert PathOwned(l, r) && PathOwned(l, FreeList);
    RemoveAtMembers(l.paths[r], i);
    assert b in l.paths[r];
    NoDupConcat([b], l.paths[FreeList]);
    forall q | q in l'.paths ensures PathOwned(l', q) {
      assert PathOwned(l, q);
    }
    forall c: nat | 1 <= c <= |l'.owner| ensures BlockOwned(l', c) {
      assert BlockOwned(l, c);
    }
  }

  /** Give a whole chain to the head of the free chain. */
  ghost function ReleaseAll(l: Map, r: Root): Map
    requires FreeList in l.paths && r in l.paths && r != FreeList
  {
    Map((l.paths - {r})[FreeList := l.paths[r] + l.paths[FreeList]],
        seq(|l.owner|, i requires 0 <= i < |l.owner| => if l.owner[i] == r then FreeList else l.owner[i]))
  }

  lemma ReleaseAllKeepsPartition(l: Map, r: Root)
    requires Partition(l) && FreeList in l.paths && r in l.paths && r != FreeList
    ensures Partition(ReleaseAll(l, r))
  {
    var l' := ReleaseAll(l, r);
    assert PathOwned(l, r) && PathOwned(l, FreeList);
    NoDupConcat(l.paths[r], l.paths[FreeList]);
    forall q | q in l'.paths ensures PathOwned(l', q) {
      assert PathOwned(l, q);
    }
    forall c: nat | 1 <= c <= |l'.owner| ensures BlockOwned(l', c) {
      assert BlockOwned(l, c);
    }
  }

  /** Hang a chain from another root. */
  ghost function Rename(l: Map, from: Root, to: Root): Map
    requires from in l.paths && to !in l.paths
  {
    Map((l.paths - {from})[to := l.paths[from]],
        seq(|l.owner|, i requires 0 <= i < |l.owner| => if l.owner[i] == from then to else l.owner[i]))
  }

  lemma RenameKeepsPartition(l: Map, from: Root, to: Root)
    requires Partition(l) && from in l.paths && to !in l.paths
    ensures Partition(Rename(l, from, to))
  {
    var l' := Rename(l, from, to);
    assert PathOwned(l, from);
    forall q | q in l'.paths ensures PathOwned(l', q) {
      if q != to {
        assert PathOwned(l, q);
      }
    }
    forall c: nat | 1 <= c <= |l'.owner| ensures BlockOwned(l', c) {
      assert BlockOwned(l, c);
    }
  }

  /** A chain with no blocks yet. */
  ghost function Open(l: Map, r: Root): Map
    requires r !in l.paths
  {
    Map(l.paths[r := []], l.owner)
  }

  lemma OpenKeepsPartition(l: Map, r: Root)
    requires Partition(l) && r !in l.paths
    ensures Partition(Open(l, r))
  {
    var l' := Open(l, r);
    forall q | q in l'.paths ensures PathOwned(l', q) {
      if q != r {
        assert PathOwned(l, q);
      }
    }
    forall c: nat | 1 <= c <= |l'.owner| ensures BlockOwned(l', c) {
      assert BlockOwned(l, c);
    }
  }

  /** Forget an emptied chain. */
  ghost function Close(l: Map, r: Root): Map {
    Map(l.paths - {r}, l.owner)
  }

  lemma CloseKeepsPartition(l: Map, r: Root)
    requires Partition(l) && r in l.paths && l.paths[r] == []
    ensures Partition(Close(l, r))
  {
    var l' := Close(l, r);
    forall q | q in l'.paths ensures PathOwned(l', q) {
      assert PathOwned(l, q);
    }
    forall c: nat | 1 <= c <= |l'.owner| ensures BlockOwned(l', c) {
      assert BlockOwned(l, c);
    }
  }

  /** A block of one chain is on no other. */
  lemma OwnersDiffer(l: Map, r: Root, x: nat, q: Root)
    requires Partition(l) && r in l.paths && q in l.paths && x in l.paths[r] && q != r
    ensures x !in l.paths[q]
  {
    assert PathOwned(l, r) && PathOwned(l, q);
  }
}
