/** The number of records in the file header, while many processes write and delete. A writer counts
    its change some time after it has made it, and a select that comes to its end may put the number
    it has counted in the place of the one in the header. */
module RecordCounts {
  import opened Addressing
  import opened Blocks
  import opened Tables
  import opened Protocol
  import opened ProtocolTheorems
  import opened Progress
  import opened SelectTheorems
  import opened SelectPaths

  /** What a process has still to add to the count. */
  function Uncounted(pc: Pc): int {
    match pc
    case Worked(_, write, _, _, _, change) => if write then change else 0
    case WantTable(goal) => if goal.Count? then goal.change else 0
    case HasTable(goal) => if goal.Count? then goal.change else 0
    case WantHeader(h) => if h.Finishing? then h.change else 0
    case HasHeader(h) => if h.Finishing? then h.change else 0
    case _ => 0
  }

  function AllUncounted(procs: seq<Pc>): int {
    if procs == [] then 0 else Uncounted(procs[0]) + AllUncounted(procs[1..])
  }

  /** How far the count will be too high when everyone has counted. */
  function Drift(s: State): int {
    s.counts.records + AllUncounted(s.procs) - |s.recs|
  }

  lemma {:induction false} UncountedUpdate(procs: seq<Pc>, i: nat, pc: Pc)
    requires i < |procs|
    ensures AllUncounted(procs[i := pc]) == AllUncounted(procs) - Uncounted(procs[i]) + Uncounted(pc)
  {
    if i == 0 {
      assert procs[0 := pc][1..] == procs[1..];
    } else {
      assert procs[i := pc][1..] == procs[1..][i - 1 := pc];
      UncountedUpdate(procs[1..], i - 1, pc);
    }
  }

  /** The count is kept from falling below zero. */
  predicate Clamps(s: State, i: nat) {
    && i < |s.procs| && s.procs[i].HasTable? && s.procs[i].goal.Count?
    && s.counts.records >= 0 && s.counts.records + s.procs[i].goal.change < 0
  }

  /** A select puts its number in the header. */
  ghost predicate Stores(s: State, s': State, i: nat) {
    && i < |s.procs| && s.procs[i].HasTable? && s.procs[i].goal.StoreGoal?
    && StoresCount(s, s', |s.procs[i].goal.tour.listed|)
  }

  /** The count goes wrong, or is put right, by these two kinds of steps only, and by how much. */
  lemma StepDrift(n: Naming, s: State, s': State, i: nat)
    requires Inv(n, s) && Next(n, s, s', i)
    ensures Stores(s, s', i) ==>
              Drift(s') == |s.procs[i].goal.tour.listed| + AllUncounted(s.procs) - |s.recs| && s'.counts.records >= 0
    ensures !Stores(s, s', i) ==> (s'.counts.records >= 0 <==> s.counts.records >= 0)
    ensures !Stores(s, s', i) && Clamps(s, i) ==>
              Drift(s') == Drift(s) - (s.counts.records + s.procs[i].goal.change) > Drift(s)
    ensures !Stores(s, s', i) && !Clamps(s, i) && s.counts.records >= 0 ==> Drift(s') == Drift(s)
  {
    hide Inv, AddressOf, CanLock, NoneToMove, TableFree, Reassigns, OnlyAt, IdsIn;
    UncountedUpdate(s.procs, i, s'.procs[i]);
    SizeKept(n, s, s', i);
  }

  /** Moving a record leaves their number alone. */
  lemma SizeKept(n: Naming, s: State, s': State, i: nat)
    requires Inv(n, s) && Next(n, s, s', i)
    ensures !(s.procs[i].Working? && s'.procs[i].Worked?) ==> |s'.recs| == |s.recs|
  {
    hide OneTable, LocksExclude, OneResize, NewIsFree, RecordsOk, HoldersOk, AddressOf, InhibitCount, IsPow2, SpaceOk;
    hide ReadersOk, HandsOk, CanLock, NoneToMove, TableFree, Reassigns, OnlyAt, IdsIn;
    if s.procs[i].Moving? && s'.recs != s.recs {
      var from, to := s.procs[i].from, s.procs[i].to;
      assert PcOk(n, s, s.procs[i]) && MayMove(s.procs[i], from, to);
      var id :| Sees(s, id, from) && AddressOf(n, s.p, id) == to && RecordMoved(s, s', from, to, id);
      assert !Sees(s, id, to);
      assert s'.recs.Keys == s.recs.Keys - {(from, id)} + {(to, id)};
    }
  }

  lemma {:induction false} NoneUncounted(procs: seq<Pc>)
    requires forall i | 0 <= i < |procs| :: Uncounted(procs[i]) == 0
    ensures AllUncounted(procs) == 0
  {
    if procs != [] {
      forall i | 0 <= i < |procs[1..]| ensures Uncounted(procs[1..][i]) == 0 {
        assert procs[1..][i] == procs[i + 1];
      }
      NoneUncounted(procs[1..]);
    }
  }

  /** A step that does the count no harm. */
  ghost predicate Harmless(s: State, s': State, i: nat) {
    && !Clamps(s, i)
    && (Stores(s, s', i) ==> |s.procs[i].goal.tour.listed| + AllUncounted(s.procs) == |s.recs|)
  }

  /** The count in the header, with the changes not yet counted, is the number of records, or unknown,
      as long as every step is harmless; so it is that number whenever nobody is at work. */
  lemma {:induction false} CountRight(n: Naming, states: seq<State>, who: seq<nat>, k: nat)
    requires IsRun(n, states, who) && k < |states|
    requires forall m | 0 <= m < k :: Harmless(states[m], states[m + 1], who[m])
    ensures states[k].counts.records < 0 || Drift(states[k]) == 0
    ensures (forall i | 0 <= i < |states[k].procs| :: states[k].procs[i] == Idle) ==>
              states[k].counts.records < 0 || states[k].counts.records == |states[k].recs|
  {
    hide Next, Inv, Harmless, Drift;
    if k == 0 {
      FirstCount(n, states[0]);
    } else {
      CountRight(n, states, who, k - 1);
      RunKeeps(n, states, who, k - 1);
      StaysRight(n, states[k - 1], states[k], who[k - 1]);
    }
    IdleDrift(states[k]);
  }

  lemma FirstCount(n: Naming, s: State)
    requires Init(n, s)
    ensures s.counts.records < 0 || Drift(s) == 0
  {
    NoneUncounted(s.procs);
  }

  /** A count that is right, or unknown, stays so exactly over the harmless steps. */
  lemma StaysRight(n: Naming, s: State, s': State, i: nat)
    requires Inv(n, s) && Next(n, s, s', i) && (s.counts.records < 0 || Drift(s) == 0)
    ensures s'.counts.records < 0 || Drift(s') == 0 <==> Harmless(s, s', i)
  {
    hide Inv, Next;
    StepDrift(n, s, s', i);
  }

  lemma IdleDrift(s: State)
    ensures (forall i | 0 <= i < |s.procs| :: s.procs[i] == Idle) ==> Drift(s) == s.counts.records - |s.recs|
  {
    if forall i | 0 <= i < |s.procs| :: s.procs[i] == Idle {
      NoneUncounted(s.procs);
    }
  }

  // ------------------------------------------------------------------------
  // When a select's number is right

  /** A write or delete from the moment it has its group lock until it has made its change. */
  predicate MayChange(pc: Pc) {
    match pc
    case GotGroup(_, write, _) => write
    case Working(_, write, _) => write
    case WantHeader(h) => h.KeyedLock?
    case HasHeader(h) => h.KeyedLock?
    case _ => false
  }

  ghost predicate NobodyChanges(s: State) {
    forall i | 0 <= i < |s.procs| :: !MayChange(s.procs[i])
  }

  ghost predicate SameIdsAs(s: State, s': State) {
    forall id :: Present(s', id) <==> Present(s, id)
  }

  /** While no update is counted, no write or delete begins; and records only move. */
  lemma QuietStep(n: Naming, s: State, s': State, j: nat)
    requires Inv(n, s) && Next(n, s, s', j) && NobodyChanges(s)
    ensures s'.counts.updates >= s.counts.updates
    ensures s'.counts.updates == s.counts.updates ==> NobodyChanges(s') && SameIdsAs(s, s')
  {
    hide OneTable, LocksExclude, OneResize, NewIsFree, RecordsOk, HoldersOk, AddressOf, InhibitCount, IsPow2, SpaceOk;
    hide ReadersOk, HandsOk, CanLock, NoneToMove, TableFree, Reassigns, OnlyAt, IdsIn, PcsOk, Unique;
    if s'.recs == s.recs {
      SameRecords(s, s');
    } else if s.procs[j].Moving? {
      var from, to := s.procs[j].from, s.procs[j].to;
      var id :| Sees(s, id, from) && AddressOf(n, s.p, id) == to && RecordMoved(s, s', from, to, id);
      MovedIds(s, s', from, to, id);
    }
  }

  lemma SameRecords(s: State, s': State)
    requires s'.recs == s.recs
    ensures SameIdsAs(s, s')
  {
    assert forall id, g: nat :: Sees(s', id, g) <==> Sees(s, id, g);
  }

  lemma MovedIds(s: State, s': State, from: nat, to: nat, id: Id)
    requires Sees(s, id, from) && RecordMoved(s, s', from, to, id)
    ensures SameIdsAs(s, s')
  {
    assert Sees(s', id, to);
    forall x ensures Present(s', x) <==> Present(s, x) {
      if x != id {
        assert forall g: nat :: Sees(s', x, g) <==> Sees(s, x, g);
      }
    }
  }

  /** No update has been counted since the select began, so nothing has changed but places. */
  lemma {:induction false} QuietSince(n: Naming, states: seq<State>, who: seq<nat>, a: nat, k: nat)
    requires IsRun(n, states, who) && a <= k < |states| && NobodyChanges(states[a])
    ensures states[k].counts.updates >= states[a].counts.updates
    ensures states[k].counts.updates == states[a].counts.updates ==>
              && NobodyChanges(states[k])
              && forall m | a <= m <= k :: SameIdsAs(states[a], states[m])
    decreases k - a
  {
    hide Inv, Next, Init, NobodyChanges, Present;
    if k > a {
      UpdatesGrow(n, states, who, k - 1);
      QuietSince(n, states, who, a, k - 1);
      RunKeeps(n, states, who, k - 1);
      if states[k - 1].counts.updates == states[a].counts.updates {
        QuietStep(n, states[k - 1], states[k], who[k - 1]);
      }
    }
  }

  lemma UpdatesGrow(n: Naming, states: seq<State>, who: seq<nat>, m: nat)
    requires IsRun(n, states, who) && m < |who|
    ensures states[m + 1].counts.updates >= states[m].counts.updates
  {
    hide Init, AddressOf, CanLock, NoneToMove, TableFree, Reassigns, OnlyAt, IdsIn;
    assert Next(n, states[m], states[m + 1], who[m]);
  }

  /** A select that lists every id once counts the records. */
  lemma CountsOnce(s: State, listed: multiset<Id>)
    requires Unique(s) && forall id :: listed[id] == if Present(s, id) then 1 else 0
    ensures |listed| == |s.recs|
  {
    var ids := Ids(s);
    forall id ensures id in ids <==> Present(s, id) {
      if Present(s, id) {
        var g: nat :| Sees(s, id, g);
        assert (g, id).1 in ids;
      }
      if id in ids {
        var k :| k in s.recs && k.1 == id;
        assert Sees(s, id, k.0);
      }
    }
    assert listed == multiset(ids);
    forall id, g: nat, h: nat | (g, id) in s.recs.Keys && (h, id) in s.recs.Keys ensures g == h {
      assert Sees(s, id, g) && Sees(s, id, h);
    }
    KeysCount(s.recs.Keys, ids);
  }

  lemma {:induction false} KeysCount(keys: set<(nat, Id)>, ids: set<Id>)
    requires forall id :: id in ids <==> exists g: nat :: (g, id) in keys
    requires forall id, g: nat, h: nat | (g, id) in keys && (h, id) in keys :: g == h
    ensures |ids| == |keys|
    decreases |keys|
  {
    if keys == {} {
      assert ids == {};
    } else {
      var k :| k in keys;
      assert (k.0, k.1) in keys;
      var keys1, ids1 := keys - {k}, ids - {k.1};
      forall id ensures id in ids1 <==> exists g: nat :: (g, id) in keys1 {
        if g: nat :| (g, id) in keys1 {
          assert (g, id) in keys;
        }
        if id in ids1 {
          var g: nat :| (g, id) in keys;
          assert (g, id) in keys1;
        }
      }
      KeysCount(keys1, ids1);
    }
  }

  predicate WillStore(pc: Pc) {
    (pc.WantTable? || pc.HasTable?) && pc.goal.StoreGoal?
  }

  lemma StoreKeeps(n: Naming, s: State, s': State, j: nat, i: nat)
    requires Next(n, s, s', j) && i < |s.procs| && Selects(s.procs[i]) && i < |s'.procs| && WillStore(s'.procs[i])
    ensures TourOf(s'.procs[i]) == TourOf(s.procs[i])
    ensures WillStore(s.procs[i]) || TourOf(s.procs[i]).g > s.p.modulus
  {
    hide AddressOf, CanLock, Works, MovesOne, NoneToMove, TableFree, Reassigns, IdsIn;
  }

  /** A select stores its number when it has passed every group. */
  lemma {:induction false} StoresLast(n: Naming, states: seq<State>, who: seq<nat>, i: nat, a: nat, k: nat)
    requires SelectRun(n, states, who, i, a, k) && WillStore(states[k].procs[i])
    ensures TourOf(states[k].procs[i]).g > states[a].p.modulus
  {
    hide Next, Init, Inv;
    if k == a + 1 {
      SelectBegins(n, states, who, i, a);
    } else {
      StoreKeeps(n, states[k - 1], states[k], who[k - 1], i);
      SelectCalm(n, states, who, i, a, k - 1);
      if WillStore(states[k - 1].procs[i]) {
        StoresLast(n, states, who, i, a, k - 1);
      }
    }
  }

  /** A select that ends with no update counted since it began has the number of records, if nobody was
      about to change the file when it began and no split was waiting for the group it divides. Putting
      that number in the header makes the count right if and only if what others have made and still
      have to count comes to nothing. */
  lemma StoreRight(n: Naming, states: seq<State>, who: seq<nat>, i: nat, a: nat, k: nat)
    requires SelectRun(n, states, who, i, a, k) && states[k].procs[i].HasTable? && states[k].procs[i].goal.StoreGoal?
    requires states[k].counts.updates == states[a].counts.updates
    requires NobodyChanges(states[a]) && NoneWaits(states[a])
    ensures |TourOf(states[k].procs[i]).listed| == |states[k].recs|
    ensures k < |who| && who[k] == i && Stores(states[k], states[k + 1], i) ==>
              (Drift(states[k + 1]) == 0 <==> AllUncounted(states[k].procs) == 0)
  {
    hide IsRun, Inv, NoneWaits, Present, SameIdsAs, Next, Stores, Drift;
    assert IsRun(n, states, who);
    QuietSince(n, states, who, a, k);
    StoresLast(n, states, who, i, a, k);
    var listed := TourOf(states[k].procs[i]).listed;
    forall id ensures listed[id] == if Present(states[k], id) then 1 else 0 {
      SelectListsOnce(n, states, who, i, a, k, id);
      forall m | a <= m <= k ensures Present(states[m], id) <==> Present(states[k], id) {
        SameIdsThere(states[a], states[m], id);
        SameIdsThere(states[a], states[k], id);
      }
    }
    RunKeeps(n, states, who, k);
    UniqueHere(n, states[k]);
    CountsOnce(states[k], listed);
    StepOfRun(n, states, who, k);
    if k < |who| && who[k] == i && Stores(states[k], states[k + 1], i) {
      StepDrift(n, states[k], states[k + 1], i);
    }
  }

  lemma StepOfRun(n: Naming, states: seq<State>, who: seq<nat>, k: nat)
    requires IsRun(n, states, who)
    ensures |states| == |who| + 1 && (k < |who| ==> Next(n, states[k], states[k + 1], who[k]))
  {
  }

  lemma SameIdsThere(s: State, s': State, id: Id)
    requires SameIdsAs(s, s')
    ensures Present(s', id) <==> Present(s, id)
  {
  }

  lemma UniqueHere(n: Naming, s: State)
    requires Inv(n, s)
    ensures Unique(s)
  {
  }
}
