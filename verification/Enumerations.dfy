/** Listing the ids of a file, and counting its records along the way. */
module Enumerations {
  import opened Blocks
  import opened Tables
  import opened Sequences

  function IdsOf(recs: seq<Record>): (ids: seq<Id>)
    ensures |ids| == |recs|
  {
    if recs == [] then [] else [recs[0].id] + IdsOf(recs[1..])
  }

  /** The ids of the groups, in group order. */
  function AllIds(groups: seq<seq<Record>>): seq<Id> {
    if groups == [] then [] else AllIds(groups[..|groups| - 1]) + IdsOf(groups[|groups| - 1])
  }

  lemma {:induction false} IdsOfConcat(a: seq<Record>, b: seq<Record>)
    ensures IdsOf(a + b) == IdsOf(a) + IdsOf(b)
  {
    if a == [] {
      assert a + b == b;
    } else {
      assert (a + b)[1..] == a[1..] + b;
      IdsOfConcat(a[1..], b);
    }
  }

  lemma {:induction false} IdsOfAt(recs: seq<Record>, i: nat)
    requires i < |recs|
    ensures IdsOf(recs)[i] == recs[i].id
  {
    if i > 0 {
      IdsOfAt(recs[1..], i - 1);
    }
  }

  /** The id of every record is among them. */
  lemma {:induction false} InAllIds(groups: seq<seq<Record>>, g: nat, i: nat)
    requires g < |groups| && i < |groups[g]|
    ensures groups[g][i].id in AllIds(groups)
  {
    var n := |groups| - 1;
    if g == n {
      IdsOfAt(groups[g], i);
      assert groups[g][i].id in IdsOf(groups[n]);
    } else {
      InAllIds(groups[..n], g, i);
    }
  }

  /** One group more. */
  lemma NextGroup(groups: seq<seq<Record>>, i: nat)
    requires i < |groups|
    ensures AllIds(groups[..i + 1]) == AllIds(groups[..i]) + IdsOf(groups[i])
    ensures TotalCount(groups[..i + 1]) == TotalCount(groups[..i]) + |groups[i]|
    ensures TotalBytes(groups[..i + 1]) == TotalBytes(groups[..i]) + Bytes(groups[i])
  {
    assert groups[..i + 1] == groups[..i] + [groups[i]];
    TotalsAppend(groups[..i], groups[i]);
  }

  lemma {:induction false} IdsConcat(a: seq<seq<Record>>, b: seq<seq<Record>>)
    ensures AllIds(a + b) == AllIds(a) + AllIds(b)
    decreases |b|
  {
    if b == [] {
      assert a + b == a;
    } else {
      hide IdsOf;
      var rest := b[..|b| - 1];
      IdsConcat(a, rest);
      assert (a + b)[..|a + b| - 1] == a + rest && (a + b)[|a + b| - 1] == b[|b| - 1];
      AddAssoc(AllIds(a), AllIds(rest), IdsOf(b[|b| - 1]));
    }
  }

  lemma {:induction false} TotalsConcat(a: seq<seq<Record>>, b: seq<seq<Record>>)
    ensures TotalCount(a + b) == TotalCount(a) + TotalCount(b)
    ensures TotalBytes(a + b) == TotalBytes(a) + TotalBytes(b)
  {
    if a == [] {
      assert a + b == b;
    } else {
      assert (a + b)[1..] == a[1..] + b;
      TotalsConcat(a[1..], b);
    }
  }

  /** No records, no bytes. */
  lemma {:induction false} NothingLeft(groups: seq<seq<Record>>)
    ensures TotalCount(groups) == 0 <==> TotalBytes(groups) == 0
    ensures TotalCount(groups) == 0 <==> AllIds(groups) == []
  {
    IdsCount(groups);
    NoBytes(groups);
  }

  lemma {:induction false} NoBytes(groups: seq<seq<Record>>)
    ensures TotalCount(groups) == 0 <==> TotalBytes(groups) == 0
  {
    if groups != [] {
      NoBytesNoRecords(groups[0]);
      NoBytes(groups[1..]);
    }
  }

  lemma {:induction false} IdsCount(groups: seq<seq<Record>>)
    ensures |AllIds(groups)| == TotalCount(groups)
  {
    if groups != [] {
      var rest, last := groups[..|groups| - 1], groups[|groups| - 1];
      IdsCount(rest);
      assert groups == rest + [last];
      TotalsAppend(rest, last);
    }
  }

  /** The keys of a list of ids are all different. */
  ghost predicate DifferentKeys(n: Naming, ids: seq<Id>) {
    forall i, j | 0 <= i < j < |ids| :: Key(n, ids[i]) != Key(n, ids[j])
  }

  ghost predicate Lists(n: Naming, ids: seq<Id>, k: Id) {
    exists i :: 0 <= i < |ids| && Key(n, ids[i]) == k
  }

  /** Listing the groups of a file lists every key once and nothing else. */
  lemma EveryIdOnce(n: Naming, at: Addresses, groups: seq<seq<Record>>, m: map<Id, Data>, large: map<Id, (nat, Data)>)
    requires TableOk(n, at, groups, m, large)
    ensures DifferentKeys(n, AllIds(groups))
    ensures forall k :: Lists(n, AllIds(groups), k) <==> k in m
    ensures |AllIds(groups)| == TotalCount(groups)
  {
    ListedOnce(n, at, groups, m, large, |groups|);
    assert groups[..|groups|] == groups;
    IdsCount(groups);
    forall k ensures Lists(n, AllIds(groups), k) <==> k in m {
      if k in m {
        assert Has(n, groups[HomeOf(at, k) - 1], k);
        assert Lists(n, AllIds(groups), k);
      }
    }
  }

  /** The first `count` groups list the keys addressed to them, each once. */
  lemma {:induction false} ListedOnce(n: Naming, at: Addresses, groups: seq<seq<Record>>, m: map<Id, Data>,
                                      large: map<Id, (nat, Data)>, count: nat)
    requires TableOk(n, at, groups, m, large) && count <= |groups|
    ensures DifferentKeys(n, AllIds(groups[..count]))
    ensures forall k :: Lists(n, AllIds(groups[..count]), k) <==> k in m && HomeOf(at, k) <= count
  {
    if count == 0 {
      assert groups[..0] == [];
    } else {
      ListedOnce(n, at, groups, m, large, count - 1);
      NextGroup(groups, count - 1);
      GroupIds(n, at, groups, m, large, count);
      Join(n, AllIds(groups[..count - 1]), IdsOf(groups[count - 1]));
    }
  }

  lemma GroupIds(n: Naming, at: Addresses, groups: seq<seq<Record>>, m: map<Id, Data>, large: map<Id, (nat, Data)>, g: nat)
    requires TableOk(n, at, groups, m, large) && 1 <= g <= |groups|
    ensures DifferentKeys(n, IdsOf(groups[g - 1]))
    ensures forall k :: Lists(n, IdsOf(groups[g - 1]), k) <==> k in m && HomeOf(at, k) == g
  {
    var recs := groups[g - 1];
    var ids := IdsOf(recs);
    assert GroupTable(n, at, groups, g, m, large);
    forall i | 0 <= i < |ids| ensures ids[i] == recs[i].id && Placed(n, at, recs[i], g, m, large) {
      IdsOfAt(recs, i);
    }
    forall k ensures Lists(n, ids, k) <==> k in m && HomeOf(at, k) == g {
      if k in m && HomeOf(at, k) == g {
        assert Has(n, recs, k);
        var r :| r in recs && KeyOf(n, r) == k;
        var i :| 0 <= i < |recs| && recs[i] == r;
        assert Key(n, ids[i]) == k;
      }
    }
  }

  lemma Join(n: Naming, a: seq<Id>, b: seq<Id>)
    requires DifferentKeys(n, a) && DifferentKeys(n, b)
    requires forall k :: !(Lists(n, a, k) && Lists(n, b, k))
    ensures DifferentKeys(n, a + b)
    ensures forall k :: Lists(n, a + b, k) <==> Lists(n, a, k) || Lists(n, b, k)
  {
    var c := a + b;
    forall i, j | 0 <= i < j < |c| ensures Key(n, c[i]) != Key(n, c[j]) {
      if i < |a| <= j {
        assert Lists(n, a, Key(n, c[i]));
        assert b[j - |a|] == c[j] && Lists(n, b, Key(n, c[j]));
      }
    }
    forall k ensures Lists(n, c, k) <==> Lists(n, a, k) || Lists(n, b, k) {
      if Lists(n, a, k) {
        var i :| 0 <= i < |a| && Key(n, a[i]) == k;
        assert Key(n, c[i]) == k;
      }
      if Lists(n, b, k) {
        var i :| 0 <= i < |b| && Key(n, b[i]) == k;
        assert Key(n, c[|a| + i]) == k;
      }
      if Lists(n, c, k) {
        var i :| 0 <= i < |c| && Key(n, c[i]) == k;
        if i < |a| {
          assert Key(n, a[i]) == k;
        } else {
          assert Key(n, b[i - |a|]) == k;
        }
      }
    }
  }

  lemma IdsOfAppend(recs: seq<Record>, rec: Record)
    ensures IdsOf(recs + [rec]) == IdsOf(recs) + [rec.id]
  {
    IdsOfConcat(recs, [rec]);
    assert IdsOf([rec]) == [rec.id] + IdsOf([rec][1..]);
  }

  lemma NothingScanned()
    ensures IdsOf([]) == [] && Bytes([]) == 0
  {
  }

  lemma NothingListed(groups: seq<seq<Record>>, i: nat)
    requires i <= |groups|
    ensures AllIds(groups[i..i]) == []
  {
  }

  lemma NothingCounted(groups: seq<seq<Record>>)
    ensures TotalCount(groups[|groups|..]) == 0
  {
  }

  lemma NextListed(groups: seq<seq<Record>>, first: nat, i: nat)
    requires first <= i < |groups|
    ensures AllIds(groups[first..i + 1]) == AllIds(groups[first..i]) + IdsOf(groups[i])
  {
    var part := groups[first..i + 1];
    assert part[..|part| - 1] == groups[first..i];
  }

  /** A group with records counts. */
  lemma SomeCounted(groups: seq<seq<Record>>, a: nat, b: nat)
    requires a < b <= |groups| && groups[a] != []
    ensures TotalCount(groups[a..b]) > 0
  {
    assert groups[a..b][0] == groups[a];
  }
}
