/** Ways in which a file can go on: paths of states, and the one on which a select takes in one group
    after another while nobody else makes a step. */
module SelectPaths {
  import opened Addressing
  import opened Blocks
  import opened Tables
  import opened Protocol
  import opened ProtocolTheorems
  import opened SelectTheorems

  /** States that follow one another, and the processes that make the steps. */
  ghost predicate Path(n: Naming, path: seq<State>, who: seq<nat>): (r: bool)
    ensures r ==> path != []
  {
    && |path| == |who| + 1
    && forall k | 0 <= k < |who| :: Next(n, path[k], path[k + 1], who[k])
  }

  function End(path: seq<State>): State
    requires path != []
  {
    path[|path| - 1]
  }

  /** All along, process `i` is at a select. */
  ghost predicate Going(path: seq<State>, i: nat) {
    forall k | 0 <= k < |path| :: i < |path[k].procs| && Selects(path[k].procs[i])
  }

  /** All along, the records are these. */
  ghost predicate Unchanged(path: seq<State>, recs: map<(nat, Id), Rec>) {
    forall k | 0 <= k < |path| :: path[k].recs == recs
  }

  /** All along, there is a record of the id. */
  ghost predicate KeptThrough(path: seq<State>, id: Id) {
    forall k | 0 <= k < |path| :: Present(path[k], id)
  }

  /** One path after another, that begins where the first ends. */
  function Joined(a: seq<State>, b: seq<State>): seq<State>
    requires b != []
  {
    a + b[1..]
  }

  lemma JoinPaths(n: Naming, a: seq<State>, wa: seq<nat>, b: seq<State>, wb: seq<nat>)
    requires Path(n, a, wa) && Path(n, b, wb) && b[0] == End(a)
    ensures Path(n, Joined(a, b), wa + wb) && Joined(a, b)[0] == a[0] && End(Joined(a, b)) == End(b)
    ensures forall i :: Going(a, i) && Going(b, i) ==> Going(Joined(a, b), i)
    ensures forall id :: KeptThrough(a, id) && KeptThrough(b, id) ==> KeptThrough(Joined(a, b), id)
    ensures forall recs :: Unchanged(a, recs) && Unchanged(b, recs) ==> Unchanged(Joined(a, b), recs)
  {
    hide Next, Present;
    var path, who := Joined(a, b), wa + wb;
    forall k | 0 <= k < |who| ensures Next(n, path[k], path[k + 1], who[k]) {
      if k >= |wa| {
        assert path[k] == b[k - |wa|] && path[k + 1] == b[k - |wa| + 1] && who[k] == wb[k - |wa|];
      }
    }
  }

  /** A run that goes on along a path. */
  lemma GoOn(n: Naming, states: seq<State>, who: seq<nat>, path: seq<State>, more: seq<nat>)
    requires IsRun(n, states, who) && Path(n, path, more) && path[0] == End(states)
    ensures IsRun(n, Joined(states, path), who + more) && End(Joined(states, path)) == End(path)
            && states <= Joined(states, path)
  {
    hide Next, Init;
    RunPath(n, states, who);
    JoinPaths(n, states, who, path, more);
    assert Joined(states, path)[0] == states[0];
  }

  lemma RunPath(n: Naming, states: seq<State>, who: seq<nat>)
    requires IsRun(n, states, who)
    ensures Path(n, states, who)
  {
    hide Next, Init;
  }

  lemma OneStep(n: Naming, s: State, s': State, j: nat)
    requires Next(n, s, s', j)
    ensures Path(n, [s, s'], [j])
    ensures s'.recs == s.recs ==> Unchanged([s, s'], s.recs)
  {
  }

  function With(s: State, i: nat, pc: Pc): State
    requires i < |s.procs|
  {
    s.(procs := s.procs[i := pc])
  }

  lemma StaysPresent(path: seq<State>, recs: map<(nat, Id), Rec>, id: Id, g: nat)
    requires Unchanged(path, recs) && (g, id) in recs
    ensures KeptThrough(path, id)
  {
    forall k | 0 <= k < |path| ensures Present(path[k], id) {
      assert Sees(path[k], id, g);
    }
  }

  // ------------------------------------------------------------------------
  // Taking in groups

  /** The stages of taking in one group. */
  function Stage(k: nat, s: State, tour: Tour): Pc {
    match k
    case 0 => Selecting(tour)
    case 1 => WantTable(ScanGoal(tour))
    case 2 => HasTable(ScanGoal(tour))
    case 3 => WantScan(tour)
    case 4 => GotScan(tour)
    case 5 => Scanning(tour)
    case _ => Selecting(Listing(s, tour))
  }

  lemma NextStage(n: Naming, s: State, i: nat, k: nat, tour: Tour)
    requires i < |s.procs| && s.procs[i] == Selecting(tour) && tour.g <= s.p.modulus && k < 6
    requires TableFree(s) && CanLock(s, i, tour.g, false)
    ensures Next(n, With(s, i, Stage(k, s, tour)), With(s, i, Stage(k + 1, s, tour)), i)
  {
    hide AddressOf, IdsIn, Works, MovesOne, Shuffles, Allots, NoneToMove;
    SameIds(s, With(s, i, Stage(k, s, tour)), tour.g);
  }

  lemma SameIds(s: State, s': State, g: nat)
    requires s'.recs == s.recs
    ensures IdsIn(s', g) == IdsIn(s, g)
  {
  }

  /** A select takes in one group. */
  lemma TakesGroup(n: Naming, s: State, i: nat, tour: Tour) returns (path: seq<State>, who: seq<nat>)
    requires i < |s.procs| && s.procs[i] == Selecting(tour) && tour.g <= s.p.modulus
    requires TableFree(s) && CanLock(s, i, tour.g, false)
    ensures Path(n, path, who) && path[0] == s && End(path) == With(s, i, Selecting(Listing(s, tour)))
    ensures Going(path, i) && Unchanged(path, s.recs)
  {
    hide Next, IdsIn;
    path, who := seq(7, (k: nat) => With(s, i, Stage(k, s, tour))), seq(6, (k: nat) => i);
    forall k | 0 <= k < 6 ensures Next(n, path[k], path[k + 1], who[k]) {
      NextStage(n, s, i, k, tour);
    }
  }

  /** The ids in groups `g` to `h`. */
  function IdsFrom(s: State, g: nat, h: nat): multiset<Id>
    decreases h + 1 - g
  {
    if g > h then multiset{} else multiset(IdsIn(s, g)) + IdsFrom(s, g + 1, h)
  }

  /** A select takes in groups up to `h`. */
  lemma {:induction false} TakesGroups(n: Naming, s: State, i: nat, tour: Tour, h: nat)
    returns (path: seq<State>, who: seq<nat>, listed: multiset<Id>)
    requires i < |s.procs| && s.procs[i] == Selecting(tour) && tour.g <= h + 1 <= s.p.modulus + 1
    requires TableFree(s) && forall x: nat | tour.g <= x <= h :: CanLock(s, i, x, false)
    ensures listed == tour.listed + IdsFrom(s, tour.g, h)
    ensures Path(n, path, who) && path[0] == s && End(path) == With(s, i, Selecting(Tour(h + 1, listed, tour.since)))
    ensures Going(path, i) && Unchanged(path, s.recs)
    decreases h + 1 - tour.g
  {
    hide Next, CanLock, TableFree, IdsIn;
    if tour.g > h {
      path, who, listed := [s], [], tour.listed;
      assert s == With(s, i, Selecting(tour));
    } else {
      var tour1 := Listing(s, tour);
      var s1 := With(s, i, Selecting(tour1));
      path, who := TakesGroup(n, s, i, tour);
      StillFree(s, i, tour1);
      var path1, who1;
      path1, who1, listed := TakesGroups(n, s1, i, tour1, h);
      JoinPaths(n, path, who, path1, who1);
      path, who := Joined(path, path1), who + who1;
      SameFrom(s, s1, tour1.g, h);
      assert With(s1, i, Selecting(Tour(h + 1, listed, tour.since))) == With(s, i, Selecting(Tour(h + 1, listed, tour.since)));
    }
  }

  lemma {:induction false} SameFrom(s: State, s': State, g: nat, h: nat)
    requires s'.recs == s.recs
    ensures IdsFrom(s', g, h) == IdsFrom(s, g, h)
    decreases h + 1 - g
  {
    hide IdsIn;
    if g <= h {
      SameIds(s, s', g);
      SameFrom(s, s', g + 1, h);
    }
  }

  /** Between two groups a select holds nothing. */
  lemma StillFree(s: State, i: nat, tour: Tour)
    requires i < |s.procs| && TableFree(s)
    ensures TableFree(With(s, i, Selecting(tour)))
    ensures forall x: nat :: CanLock(s, i, x, false) ==> CanLock(With(s, i, Selecting(tour)), i, x, false)
  {
  }

  /** A record in one of the groups is listed. */
  lemma {:induction false} FoundFrom(s: State, g: nat, h: nat, f: nat, id: Id)
    requires g <= f <= h && Sees(s, id, f)
    ensures IdsFrom(s, g, h)[id] >= 1
    decreases h + 1 - g
  {
    if f == g {
      assert (g, id).1 in IdsIn(s, g);
    } else {
      FoundFrom(s, g + 1, h, f, id);
    }
  }

  /** A select begins. */
  function Started(s: State, i: nat): State
    requires i < |s.procs|
  {
    s.(inhibit := s.inhibit + 1, procs := s.procs[i := Selecting(Tour(1, multiset{}, s.counts.updates))])
  }

  lemma SelectStarts(n: Naming, s: State, i: nat)
    requires i < |s.procs| && s.procs[i] == HasTable(SelectGoal)
    ensures Next(n, s, Started(s, i), i)
  {
  }
}
