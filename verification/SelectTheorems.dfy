/** What a select lists while other processes write, delete, split and merge. It goes from group to
    group, holds each only while it is on it, and holds off new resizes all the while. */
module SelectTheorems {
  import opened Addressing
  import opened Blocks
  import opened Tables
  import opened Protocol
  import opened ProtocolTheorems

  ghost predicate Present(s: State, id: Id) {
    exists g: nat :: Sees(s, id, g)
  }

  /** Process `i` begins a select in state `a` and has not ended it in state `k`. */
  ghost predicate SelectRun(n: Naming, states: seq<State>, who: seq<nat>, i: nat, a: nat, k: nat) {
    && IsRun(n, states, who) && a < k < |states|
    && i < |states[a].procs| && states[a].procs[i] == HasTable(SelectGoal)
    && forall m | a < m <= k :: i < |states[m].procs| && Selects(states[m].procs[i])
  }

  ghost predicate Throughout(states: seq<State>, a: nat, k: nat, id: Id)
    requires a <= k < |states|
  {
    forall m | a <= m <= k :: Present(states[m], id)
  }

  ghost predicate Sometime(states: seq<State>, a: nat, k: nat, id: Id)
    requires a <= k < |states|
  {
    exists m :: a <= m <= k && Present(states[m], id)
  }

  /** A split has added group `to` and has not locked the group it divides, which is before `g`. */
  ghost predicate SplitBefore(s: State, to: nat, g: nat) {
    exists from: nat :: from < g && SomeEarlySplit(s, from, to)
  }

  // ------------------------------------------------------------------------
  // What a select can rely on

  /** While a select is on, the addresses stay as they are and no split begins. */
  lemma SelectSteady(n: Naming, s: State, s': State, j: nat, i: nat)
    requires Inv(n, s) && Next(n, s, s', j) && i < |s.procs| && Selects(s.procs[i])
    ensures s'.p == s.p
    ensures forall from: nat, to: nat :: SomeEarlySplit(s', from, to) ==> SomeEarlySplit(s, from, to)
  {
    hide OneTable, LocksExclude, OneResize, NewIsFree, RecordsOk, HoldersOk, AddressOf, InhibitCount, IsPow2;
    hide CanLock, OnlyAt, RecordMoved;
    hide NoneToMove, TableFree, SpaceOk, Unique, ReadersOk, HandsOk, Reassigns, IdsIn;
    NoneInhibits(s.procs);
    assert Inhibits(s.procs[i]);
    assert PcOk(n, s, s.procs[j]);
    forall from: nat, to: nat | SomeEarlySplit(s', from, to) ensures SomeEarlySplit(s, from, to) {
      var m :| 0 <= m < |s'.procs| && EarlySplit(s'.procs[m], from, to);
      assert EarlySplit(s.procs[m], from, to);
    }
  }

  /** The tour once the group it is on has been listed. */
  function Listing(s: State, tour: Tour): Tour {
    Tour(tour.g + 1, tour.listed + multiset(IdsIn(s, tour.g)), tour.since)
  }

  /** A select goes on to the next group when it has listed the one it is on. */
  lemma SelectStep(n: Naming, s: State, s': State, j: nat, i: nat)
    requires Next(n, s, s', j) && i < |s.procs| && Selects(s.procs[i]) && Selects(s'.procs[i])
    ensures var pc, pc' := s.procs[i], s'.procs[i];
            || TourOf(pc') == TourOf(pc)
            || (pc.Scanning? && TourOf(pc') == Listing(s, pc.tour))
  {
    hide AddressOf, CanLock, Works, MovesOne, NoneToMove, TableFree, Reassigns, IdsIn;
  }

  /** A select on a group sees every record addressed to it, and no others but those that a split
      is about to move. */
  lemma GroupListed(n: Naming, s: State, i: nat, id: Id)
    requires Inv(n, s) && i < |s.procs| && s.procs[i].Scanning?
    ensures var g, to := s.procs[i].tour.g, AddressOf(n, s.p, id);
            && (Present(s, id) && to == g ==> id in IdsIn(s, g))
            && (id in IdsIn(s, g) ==> Sees(s, id, g) && (to == g || SomeEarlySplit(s, g, to)))
  {
    hide OneTable, OneResize, PcsOk, AddressOf, InhibitCount, IsPow2, HoldersOk, SpaceOk, Unique, ReadersOk, HandsOk;
    var g, to := s.procs[i].tour.g, AddressOf(n, s.p, id);
    if id in IdsIn(s, g) {
      assert Sees(s, id, g) && RecordOk(n, s, id, g);
      if m :| 0 <= m < |s.procs| && MayMove(s.procs[m], g, to) {
        NotLocked(s, i, m, g, to);
      }
    }
    if h: nat :| Sees(s, id, h) && to == g {
      assert RecordOk(n, s, id, h);
      if m :| 0 <= m < |s.procs| && MayMove(s.procs[m], h, to) {
        NotLocked(s, i, m, h, to);
      }
      assert h == g && (g, id).1 in IdsIn(s, g);
    }
  }

  /** Records move neither to the group a select is on nor, but for a split that waits, from it. */
  lemma NotLocked(s: State, i: nat, m: nat, from: nat, to: nat)
    requires LocksExclude(s) && NewIsFree(s) && i < |s.procs| && m < |s.procs|
    requires s.procs[i].Scanning? && MayMove(s.procs[m], from, to)
    ensures s.procs[i].tour.g != to
    ensures s.procs[i].tour.g == from ==> SomeEarlySplit(s, from, to)
  {
    var g := s.procs[i].tour.g;
    assert HoldsRead(s.procs[i], g);
    if EarlySplit(s.procs[m], from, to) {
      if !s.procs[m].WantNew? {
        assert HoldsWrite(s.procs[m], to);
      }
    } else {
      assert HoldsWrite(s.procs[m], from) && HoldsWrite(s.procs[m], to);
    }
  }

  // ------------------------------------------------------------------------
  // What it lists

  lemma SelectBegins(n: Naming, states: seq<State>, who: seq<nat>, i: nat, a: nat)
    requires SelectRun(n, states, who, i, a, a + 1)
    ensures states[a + 1].procs[i] == Selecting(Tour(1, multiset{}, states[a].counts.updates))
            && states[a + 1].p == states[a].p
    ensures forall from: nat, to: nat :: SomeEarlySplit(states[a + 1], from, to) ==> SomeEarlySplit(states[a], from, to)
  {
    hide CanLock, AddressOf, Init, MovesOne, Works, NoneToMove, TableFree, Reassigns, IdsIn;
    var s, s' := states[a], states[a + 1];
    assert Next(n, s, s', who[a]) && who[a] == i;
    forall from: nat, to: nat | SomeEarlySplit(s', from, to) ensures SomeEarlySplit(s, from, to) {
      var m :| 0 <= m < |s'.procs| && EarlySplit(s'.procs[m], from, to);
      assert EarlySplit(s.procs[m], from, to);
    }
  }

  /** The addresses, and the splits that wait, while a select is on. */
  lemma {:induction false} SelectCalm(n: Naming, states: seq<State>, who: seq<nat>, i: nat, a: nat, k: nat)
    requires SelectRun(n, states, who, i, a, k)
    ensures states[k].p == states[a].p
    ensures forall from: nat, to: nat :: SomeEarlySplit(states[k], from, to) ==> SomeEarlySplit(states[a], from, to)
  {
    hide Inv, Next, Init, SomeEarlySplit, Selects;
    if k == a + 1 {
      SelectBegins(n, states, who, i, a);
    } else {
      SelectCalm(n, states, who, i, a, k - 1);
      RunKeeps(n, states, who, k - 1);
      SelectSteady(n, states[k - 1], states[k], who[k - 1], i);
    }
  }

  /** How often a select has listed an id. */
  ghost predicate ListedRight(n: Naming, states: seq<State>, i: nat, a: nat, k: nat, id: Id)
    requires a <= k < |states| && i < |states[k].procs| && Selects(states[k].procs[i])
  {
    var g, times, to := TourOf(states[k].procs[i]).g, TourOf(states[k].procs[i]).listed[id], AddressOf(n, states[a].p, id);
    && (Throughout(states, a, k, id) && to < g ==> times >= 1)
    && times <= (if to < g then 1 else 0) + (if SplitBefore(states[a], to, g) then 1 else 0)
    && (times > 0 ==> Sometime(states, a, k, id))
  }

  lemma {:induction false} ListedSoFar(n: Naming, states: seq<State>, who: seq<nat>, i: nat, a: nat, k: nat, id: Id)
    requires SelectRun(n, states, who, i, a, k)
    ensures ListedRight(n, states, i, a, k, id)
  {
    hide Inv, Next, Init, SomeEarlySplit, AddressOf, IdsIn, Present;
    if k == a + 1 {
      SelectBegins(n, states, who, i, a);
      RunKeeps(n, states, who, a);
      ValidHere(n, states[a]);
      AddressExists(n, states[a], id);
    } else {
      ListedSoFar(n, states, who, i, a, k - 1, id);
      SelectStep(n, states[k - 1], states[k], who[k - 1], i);
      if TourOf(states[k].procs[i]) == TourOf(states[k - 1].procs[i]) {
        ListedLater(n, states, i, a, k, id);
      } else {
        ListedMore(n, states, who, i, a, k, id);
      }
    }
  }

  lemma ValidHere(n: Naming, s: State)
    requires Inv(n, s)
    ensures s.p.Valid() && OneResize(s)
  {
  }

  lemma ListedLater(n: Naming, states: seq<State>, i: nat, a: nat, k: nat, id: Id)
    requires a < k < |states| && i < |states[k - 1].procs| && i < |states[k].procs|
    requires Selects(states[k - 1].procs[i]) && Selects(states[k].procs[i]) && ListedRight(n, states, i, a, k - 1, id)
    requires TourOf(states[k].procs[i]) == TourOf(states[k - 1].procs[i])
    ensures ListedRight(n, states, i, a, k, id)
  {
    hide SplitBefore, AddressOf, Present;
  }

  /** A group is listed. */
  lemma ListedMore(n: Naming, states: seq<State>, who: seq<nat>, i: nat, a: nat, k: nat, id: Id)
    requires SelectRun(n, states, who, i, a, k) && a + 1 < k && ListedRight(n, states, i, a, k - 1, id)
    requires var pc, pc' := states[k - 1].procs[i], states[k].procs[i];
             pc.Scanning? && TourOf(pc') == Listing(states[k - 1], pc.tour)
    ensures ListedRight(n, states, i, a, k, id)
  {
    hide Inv, Next, Init, SomeEarlySplit, AddressOf, IdsIn, Sees, IsRun;
    var s, g, to := states[k - 1], states[k - 1].procs[i].tour.g, AddressOf(n, states[a].p, id);
    SelectShorter(n, states, who, i, a, k);
    SelectCalm(n, states, who, i, a, k - 1);
    RunKeeps(n, states, who, k - 1);
    RunKeeps(n, states, who, a);
    ValidHere(n, states[a]);
    GroupListed(n, s, i, id);
    if id in IdsIn(s, g) {
      assert Present(s, id);
      if to != g {
        assert SomeEarlySplit(states[a], g, to);
        assert SplitBefore(states[a], to, g + 1);
        if f: nat :| f < g && SomeEarlySplit(states[a], f, to) {
          OneEarly(states[a], f, g, to);
        }
      }
    }
    assert SplitBefore(states[a], to, g) ==> SplitBefore(states[a], to, g + 1);
    assert Throughout(states, a, k, id) ==> Throughout(states, a, k - 1, id) && Present(s, id);
  }

  lemma SelectShorter(n: Naming, states: seq<State>, who: seq<nat>, i: nat, a: nat, k: nat)
    requires SelectRun(n, states, who, i, a, k) && a + 1 < k
    ensures SelectRun(n, states, who, i, a, k - 1) && IsRun(n, states, who) && a < |states|
  {
  }

  /** A select that has passed every group has listed whatever was there all the time, and nothing
      that never was; and it has listed nothing twice but what a split, which had added its group
      when the select began but not locked the group it divides, moved from the one to the other. */
  lemma SelectListsAll(n: Naming, states: seq<State>, who: seq<nat>, i: nat, a: nat, k: nat, id: Id)
    requires SelectRun(n, states, who, i, a, k) && TourOf(states[k].procs[i]).g > states[a].p.modulus
    ensures var times := TourOf(states[k].procs[i]).listed[id];
            && (Throughout(states, a, k, id) ==> times >= 1)
            && (times >= 1 ==> Sometime(states, a, k, id))
            && times <= 2
            && (times == 2 ==> exists from: nat :: SomeEarlySplit(states[a], from, AddressOf(n, states[a].p, id)))
  {
    hide Inv, IsRun, SomeEarlySplit, AddressOf, Throughout, Sometime;
    ListedSoFar(n, states, who, i, a, k, id);
    assert IsRun(n, states, who);
    RunKeeps(n, states, who, a);
    ValidHere(n, states[a]);
    AddressExists(n, states[a], id);
  }

  /** No split waits for the group it divides. */
  ghost predicate NoneWaits(s: State) {
    forall j | 0 <= j < |s.procs| :: !s.procs[j].WantSource?
  }

  lemma NoneEarly(s: State, i: nat, from: nat, to: nat)
    requires OneTable(s) && NoneWaits(s) && i < |s.procs| && HoldsTable(s.procs[i]) && s.procs[i].HasTable?
    ensures !SomeEarlySplit(s, from, to)
  {
  }

  /** A select that does not begin just then lists every id once, if it was there all the time, and
      never twice. */
  lemma SelectListsOnce(n: Naming, states: seq<State>, who: seq<nat>, i: nat, a: nat, k: nat, id: Id)
    requires SelectRun(n, states, who, i, a, k) && TourOf(states[k].procs[i]).g > states[a].p.modulus
    requires NoneWaits(states[a])
    ensures TourOf(states[k].procs[i]).listed[id] <= 1
    ensures Throughout(states, a, k, id) ==> TourOf(states[k].procs[i]).listed[id] == 1
    ensures id in TourOf(states[k].procs[i]).listed ==> Sometime(states, a, k, id)
  {
    hide IsRun, AddressOf, Throughout, Sometime, LocksExclude, OneResize, PcsOk, NewIsFree, RecordsOk, HoldersOk;
    hide SpaceOk, Unique, ReadersOk, HandsOk;
    hide InhibitCount, IsPow2, NoneWaits, SomeEarlySplit;
    SelectListsAll(n, states, who, i, a, k, id);
    assert IsRun(n, states, who);
    RunKeeps(n, states, who, a);
    forall from: nat ensures !SomeEarlySplit(states[a], from, AddressOf(n, states[a].p, id)) {
      NoneEarly(states[a], i, from, AddressOf(n, states[a].p, id));
    }
  }

  lemma StepKeepsSince(n: Naming, s: State, s': State, j: nat, i: nat)
    requires Next(n, s, s', j) && i < |s.procs| && i < |s'.procs| && Selects(s.procs[i]) && Selects(s'.procs[i])
    ensures TourOf(s'.procs[i]).since == TourOf(s.procs[i]).since
  {
    hide AddressOf, CanLock, Works, MovesOne, NoneToMove, TableFree, Reassigns, IdsIn;
  }

  /** All along, a select knows the update count there was when it began. */
  lemma {:induction false} KnowsSince(n: Naming, states: seq<State>, who: seq<nat>, i: nat, a: nat, k: nat)
    requires SelectRun(n, states, who, i, a, k)
    ensures TourOf(states[k].procs[i]).since == states[a].counts.updates
  {
    hide Next, Init, Inv;
    SelectBegins(n, states, who, i, a);
    if k > a + 1 {
      SelectShorter(n, states, who, i, a, k);
      KnowsSince(n, states, who, i, a, k - 1);
      StepKeepsSince(n, states[k - 1], states[k], who[k - 1], i);
    }
  }

  /** When it ends, it leaves the counts alone unless no update has been counted since it began; then it may
      leave the number of ids it has listed. */
  lemma StoresUnchangedOnly(n: Naming, states: seq<State>, who: seq<nat>, i: nat, a: nat, k: nat)
    requires SelectRun(n, states, who, i, a, k) && k < |who| && who[k] == i && !Selects(states[k + 1].procs[i])
    ensures states[k + 1].counts != states[k].counts ==>
              && states[k].counts.updates == states[a].counts.updates
              && states[k + 1].counts == states[k].counts.(records := |TourOf(states[k].procs[i]).listed|)
  {
    hide Init, AddressOf, CanLock, Works, MovesOne, NoneToMove, TableFree, Reassigns, IdsIn;
    KnowsSince(n, states, who, i, a, k);
    assert Next(n, states[k], states[k + 1], who[k]);
  }
}
