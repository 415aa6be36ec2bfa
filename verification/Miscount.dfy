/** How the number of records in the file header can come to be wrong: a select puts its number there
    between a change and its being counted, or a delete is counted before the write of the record it
    has deleted. */
module Miscounts {
  import opened Addressing
  import opened Blocks
  import opened Tables
  import opened Protocol
  import opened ProtocolTheorems
  import opened Progress
  import opened SelectTheorems
  import opened SelectPaths
  import opened RecordCounts

  /** Process `j` has still to count a change, process `i` is about to begin a select, and nobody else
      is at work. */
  ghost predicate CountsLate(s: State, i: nat, j: nat, change: int) {
    && i < |s.procs| && j < |s.procs| && i != j
    && s.procs[i] == HasTable(SelectGoal) && s.procs[j] == WantTable(Count(change))
    && forall m | 0 <= m < |s.procs| && m != i && m != j :: s.procs[m] == Idle
  }

  /** The select, all by itself, up to where it has the file table lock to put its number away. */
  lemma AllBySelf(n: Naming, s: State, i: nat, j: nat, change: int) returns (path: seq<State>, who: seq<nat>, tour: Tour)
    requires CountsLate(s, i, j, change) && s.p.Valid()
    ensures Path(n, path, who) && path[0] == s && |path| > 1 && Going(path[1..], i) && Unchanged(path, s.recs)
    ensures End(path) == With(Started(s, i), i, HasTable(StoreGoal(tour)))
    ensures tour.since == s.counts.updates
  {
    hide Next, Path, IdsFrom, Going, Unchanged;
    var s1 := Started(s, i);
    SelectStarts(n, s, i);
    OneStep(n, s, s1, i);
    var listed;
    path, who, listed := TakesGroups(n, s1, i, Tour(1, multiset{}, s.counts.updates), s.p.modulus);
    tour := Tour(s.p.modulus + 1, listed, s.counts.updates);
    var s2, s3, s4 := With(s1, i, Selecting(tour)), With(s1, i, WantTable(StoreGoal(tour))), With(s1, i, HasTable(StoreGoal(tour)));
    ToStore(n, s2, s3, s4, i, j, change, tour);
    JoinPaths(n, path, who, [s2, s3, s4], [i, i]);
    var rest := Joined(path, [s2, s3, s4]);
    JoinPaths(n, [s, s1], [i], rest, who + [i, i]);
    assert Joined([s, s1], rest)[1..] == rest;
    path, who := Joined([s, s1], rest), [i] + (who + [i, i]);
  }

  lemma ToStore(n: Naming, s: State, s': State, s'': State, i: nat, j: nat, change: int, tour: Tour)
    requires i < |s.procs| && j < |s.procs| && i != j && s.procs[i] == Selecting(tour)
             && s.procs[j] == WantTable(Count(change))
    requires tour.g > s.p.modulus && forall m | 0 <= m < |s.procs| && m != i && m != j :: s.procs[m] == Idle
    requires s' == With(s, i, WantTable(StoreGoal(tour))) && s'' == With(s, i, HasTable(StoreGoal(tour)))
    ensures Path(n, [s, s', s''], [i, i]) && Going([s, s', s''], i) && Unchanged([s, s', s''], s.recs)
  {
    hide AddressOf, CanLock;
    OneStep(n, s, s', i);
    OneStep(n, s', s'', i);
    JoinPaths(n, [s, s'], [i], [s', s''], [i]);
    assert Joined([s, s'], [s', s'']) == [s, s', s''] && [i] + [i] == [i, i];
  }

  lemma NoWaiter(s: State, i: nat, j: nat, change: int)
    requires CountsLate(s, i, j, change)
    ensures NoneWaits(s) && i < |s.procs| && s.procs[i] == HasTable(SelectGoal)
  {
  }

  /** By itself a select counts every record. */
  lemma CountsAll(n: Naming, states: seq<State>, who: seq<nat>, i: nat, j: nat, change: int, path: seq<State>,
                  more: seq<nat>, tour: Tour)
    requires IsRun(n, states, who) && CountsLate(End(states), i, j, change) && Path(n, path, more) && path[0] == End(states)
    requires |path| > 1 && Going(path[1..], i) && Unchanged(path, End(states).recs)
    requires End(path).p == End(states).p && i < |End(path).procs| && End(path).procs[i] == HasTable(StoreGoal(tour))
    ensures |tour.listed| == |End(path).recs|
  {
    hide Next, Init, Inv, Present, NoneWaits, CountsLate;
    var s, a := End(states), |states| - 1;
    var all, whos := Joined(states, path), who + more;
    GoOn(n, states, who, path, more);
    var k := |all| - 1;
    forall m | a < m <= k ensures i < |all[m].procs| && Selects(all[m].procs[i]) {
      assert all[m] == path[1..][m - |states|];
    }
    forall m | a <= m <= k ensures all[m].recs == s.recs {
      assert m > a ==> all[m] == path[m - |states| + 1];
    }
    NoWaiter(s, i, j, change);
    assert all[a] == s;
    StoresLast(n, all, whos, i, a, k);
    forall id ensures tour.listed[id] == if Present(all[k], id) then 1 else 0 {
      SelectListsOnce(n, all, whos, i, a, k, id);
      forall m | a <= m <= k ensures Present(all[m], id) <==> Present(all[k], id) {
        SamePlace(all[m], all[k], id);
      }
    }
    RunKeeps(n, all, whos, k);
    UniqueHere(n, all[k]);
    CountsOnce(all[k], tour.listed);
  }

  lemma SamePlace(s: State, s': State, id: Id)
    requires s.recs == s'.recs
    ensures Present(s, id) <==> Present(s', id)
  {
    SameRecords(s, s');
    SameIdsThere(s, s', id);
  }

  /** The select puts its number in the header, and then the change is counted. */
  lemma ThenCounted(n: Naming, s: State, i: nat, j: nat, change: int, tour: Tour) returns (path: seq<State>, who: seq<nat>)
    requires i < |s.procs| && j < |s.procs| && i != j
    requires s.procs[i] == HasTable(StoreGoal(tour)) && s.procs[j] == WantTable(Count(change))
             && tour.since == s.counts.updates
    requires forall m | 0 <= m < |s.procs| && m != i && m != j :: s.procs[m] == Idle
    ensures Path(n, path, who) && path[0] == s && End(path).recs == s.recs
    ensures forall m | 0 <= m < |End(path).procs| :: End(path).procs[m] == Idle
    ensures End(path).counts.records == Recounted(|tour.listed|, change)
  {
    hide Next;
    var s1 := s.(inhibit := s.inhibit - 1, counts := s.counts.(records := |tour.listed|), procs := s.procs[i := Idle]);
    var s2 := With(s1, j, HasTable(Count(change)));
    var s3 := With(s1, j, Idle).(counts := s1.counts.(records := Recounted(|tour.listed|, change)));
    StoreSteps(n, s, s1, s2, s3, i, j, change, tour);
    path, who := [s, s1, s2, s3], [i, j, j];
  }

  lemma StoreSteps(n: Naming, s: State, s1: State, s2: State, s3: State, i: nat, j: nat, change: int, tour: Tour)
    requires i < |s.procs| && j < |s.procs| && i != j
    requires s.procs[i] == HasTable(StoreGoal(tour)) && s.procs[j] == WantTable(Count(change))
             && tour.since == s.counts.updates
    requires forall m | 0 <= m < |s.procs| && m != i && m != j :: s.procs[m] == Idle
    requires s1 == s.(inhibit := s.inhibit - 1, counts := s.counts.(records := |tour.listed|), procs := s.procs[i := Idle])
    requires s2 == With(s1, j, HasTable(Count(change)))
    requires s3 == With(s1, j, Idle).(counts := s1.counts.(records := Recounted(|tour.listed|, change)))
    ensures Next(n, s, s1, i) && Next(n, s1, s2, j) && Next(n, s2, s3, j)
  {
    hide Works, MovesOne, Shuffles, Allots, NoneToMove, IdsIn, CanLock, Reassigns, Recounted, AddressOf;
  }

  /** Whenever a select begins while a change has been made but not counted, nobody else being at work,
      it can go on so that the count is wrong when everyone has finished: the change is counted twice. */
  lemma CanMiscount(n: Naming, states: seq<State>, who: seq<nat>, i: nat, j: nat, change: int)
    returns (states': seq<State>, who': seq<nat>)
    requires IsRun(n, states, who) && CountsLate(End(states), i, j, change)
    requires Recounted(|End(states).recs|, change) != |End(states).recs|
    ensures IsRun(n, states', who') && states <= states'
    ensures var s := End(states');
            && (forall m | 0 <= m < |s.procs| :: s.procs[m] == Idle)
            && s.recs == End(states).recs && s.counts.records == Recounted(|s.recs|, change) != |s.recs|
  {
    hide Next, Init, Inv, Path, Going;
    var s := End(states);
    RunKeeps(n, states, who, |states| - 1);
    ValidHere(n, s);
    var path, more, tour := AllBySelf(n, s, i, j, change);
    CountsAll(n, states, who, i, j, change, path, more, tour);
    assert path[|path| - 1].recs == s.recs;
    var path1, more1 := ThenCounted(n, End(path), i, j, change, tour);
    JoinPaths(n, path, more, path1, more1);
    GoOn(n, states, who, Joined(path, path1), more + more1);
    states', who' := Joined(states, Joined(path, path1)), who + (more + more1);
  }

  // ------------------------------------------------------------------------
  // The clamp

  /** The stages of a write or delete that leaves nothing to release. */
  function Course(k: nat, id: Id, seen: bool, change: int): Pc {
    match k
    case 0 => Idle
    case 1 => WantTable(Keyed(id, true))
    case 2 => HasTable(Keyed(id, true))
    case 3 => WantGroup(id, true, 1)
    case 4 => GotGroup(id, true, 1)
    case 5 => Working(id, true, 1)
    case 6 => Worked(id, true, 1, seen, {}, change)
    case 7 => WantTable(Count(change))
    case 8 => HasTable(Count(change))
    case _ => Idle
  }

  /** A record is written, then deleted; the delete is counted, then the write. */
  function Race(k: nat, id: Id): State {
    var writer := if k < 16 then (if k < 7 then k else 7) else k - 9;
    var deleter := if k < 7 then 0 else if k < 16 then k - 7 else 9;
    State(Params(1, 1), 0,
          Counts((if writer >= 4 then 1 else 0) + (if deleter >= 4 then 1 else 0), if writer >= 9 then 1 else 0),
          if writer >= 6 && deleter < 6 then map[(1, id) := Rec([], {})] else map[],
          Space(map[], {}, 0, [{}, {}]),
          [Course(writer, id, false, 1), Course(deleter, id, true, -1)])
  }

  lemma WriterStep(n: Naming, k: nat, id: Id)
    requires k < 5 || k == 6
    ensures Next(n, Race(k, id), Race(k + 1, id), 0)
  {
    hide MovesOne, Shuffles, Allots, NoneToMove, IdsIn;
    var s, s' := Race(k, id), Race(k + 1, id);
    assert s'.procs == s.procs[0 := s'.procs[0]];
  }

  lemma DeleterStep(n: Naming, k: nat, id: Id)
    requires 7 <= k < 12 || 13 <= k < 16
    ensures Next(n, Race(k, id), Race(k + 1, id), 1)
  {
    hide MovesOne, Shuffles, Allots, NoneToMove, IdsIn;
    var s, s' := Race(k, id), Race(k + 1, id);
    assert s'.procs == s.procs[1 := s'.procs[1]];
  }

  lemma LastStep(n: Naming, k: nat, id: Id)
    requires 16 <= k < 18
    ensures Next(n, Race(k, id), Race(k + 1, id), 0)
  {
    hide MovesOne, Shuffles, Allots, NoneToMove, IdsIn;
    var s, s' := Race(k, id), Race(k + 1, id);
    assert s'.procs == s.procs[0 := s'.procs[0]];
  }

  lemma NoBlocks(s: State, s': State, own: set<Owner>)
    requires s'.space == s.space && forall o :: BlocksWith(s, o) == {} && BlocksWith(s', o) == {}
    ensures Reassigns(s, s', own)
  {
  }

  lemma WorkStep(n: Naming, k: nat, id: Id)
    requires k == 5 || k == 12
    ensures Next(n, Race(k, id), Race(k + 1, id), if k == 5 then 0 else 1)
  {
    hide MovesOne, Shuffles, Allots, NoneToMove, IdsIn, CanLock, Reassigns;
    var s, s', i := Race(k, id), Race(k + 1, id), if k == 5 then 0 else 1;
    assert s'.procs == s.procs[i := s'.procs[i]];
    NoBlocks(s, s', {InGroup(1), InRecord(1, id), InHand(i)});
  }

  lemma SceneBegins(n: Naming, id: Id)
    ensures Init(n, Race(0, id))
  {
    assert forall o :: BlocksWith(Race(0, id), o) == {};
  }

  /** A delete that is counted before the write of the record it has deleted leaves a count of one in
      a file without records. */
  lemma ClampMiscounts(n: Naming, id: Id) returns (states: seq<State>, who: seq<nat>)
    ensures IsRun(n, states, who)
    ensures var s := End(states);
            s.recs == map[] && s.counts.records == 1 && forall m | 0 <= m < |s.procs| :: s.procs[m] == Idle
  {
    hide Next;
    states, who := seq(19, (k: nat) => Race(k, id)), seq(18, (k: nat) => if k < 7 || k >= 16 then 0 else 1);
    SceneBegins(n, id);
    forall k | 0 <= k < 18 ensures Next(n, states[k], states[k + 1], who[k]) {
      if k == 5 || k == 12 {
        WorkStep(n, k, id);
      } else if k < 7 {
        WriterStep(n, k, id);
      } else if k < 16 {
        DeleterStep(n, k, id);
      } else {
        LastStep(n, k, id);
      }
    }
  }

  lemma SelectorSteps(n: Naming, id: Id)
    ensures var s := Race(7, id);
            && Next(n, s, With(s, 1, WantTable(SelectGoal)), 1)
            && Next(n, With(s, 1, WantTable(SelectGoal)), With(s, 1, HasTable(SelectGoal)), 1)
            && CountsLate(With(s, 1, HasTable(SelectGoal)), 1, 0, 1)
  {
    hide MovesOne, Shuffles, Allots, NoneToMove, IdsIn, CanLock;
  }

  /** A select between the write of a file's first record and the counting of it leaves a count of two
      in a file with one record. */
  lemma SelectMiscounts(n: Naming, id: Id) returns (states: seq<State>, who: seq<nat>)
    ensures IsRun(n, states, who)
    ensures var s := End(states);
            |s.recs| == 1 && s.counts.records == 2 && forall m | 0 <= m < |s.procs| :: s.procs[m] == Idle
  {
    hide Next, Path, CountsLate;
    states, who := seq(8, (k: nat) => Race(k, id)), seq(7, (k: nat) => 0);
    SceneBegins(n, id);
    forall k | 0 <= k < 7 ensures Next(n, states[k], states[k + 1], who[k]) {
      if k == 5 {
        WorkStep(n, k, id);
      } else {
        WriterStep(n, k, id);
      }
    }
    var s, s1 := Race(7, id), With(Race(7, id), 1, WantTable(SelectGoal));
    var s2 := With(s, 1, HasTable(SelectGoal));
    SelectorSteps(n, id);
    OneStep(n, s, s1, 1);
    OneStep(n, s1, s2, 1);
    JoinPaths(n, [s, s1], [1], [s1, s2], [1]);
    GoOn(n, states, who, Joined([s, s1], [s1, s2]), [1] + [1]);
    states, who := CanMiscount(n, Joined(states, Joined([s, s1], [s1, s2])), who + ([1] + [1]), 1, 0, 1);
    assert |s2.recs| == 1;
  }
}
