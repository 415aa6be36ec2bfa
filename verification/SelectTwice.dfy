/** A select can list a record twice, whenever it begins while a split waits for the group it divides
    and the record is one that the split is going to move. */
module SelectsTwice {
  import opened Addressing
  import opened Blocks
  import opened Tables
  import opened Protocol
  import opened ProtocolTheorems
  import opened Progress
  import opened SelectTheorems
  import opened SelectPaths

  /** A path on which a select goes on and the record stays. */
  ghost predicate Leads(n: Naming, i: nat, id: Id, path: seq<State>, who: seq<nat>): (r: bool)
    ensures r ==> path != []
  {
    Path(n, path, who) && Going(path, i) && KeptThrough(path, id)
  }

  lemma Onward(n: Naming, i: nat, id: Id, a: seq<State>, wa: seq<nat>, b: seq<State>, wb: seq<nat>)
    requires Leads(n, i, id, a, wa) && Leads(n, i, id, b, wb) && b[0] == End(a)
    ensures Leads(n, i, id, Joined(a, b), wa + wb) && Joined(a, b)[0] == a[0] && End(Joined(a, b)) == End(b)
  {
    hide Path, Going, KeptThrough;
    JoinPaths(n, a, wa, b, wb);
  }

  lemma SeenHere(s: State, id: Id, g: nat)
    requires Sees(s, id, g)
    ensures Present(s, id)
  {
  }

  lemma OneLeads(n: Naming, i: nat, id: Id, s: State, s': State, j: nat)
    requires Next(n, s, s', j) && i < |s.procs| && i < |s'.procs| && Selects(s.procs[i]) && Selects(s'.procs[i])
    requires Present(s, id) && Present(s', id)
    ensures Leads(n, i, id, [s, s'], [j])
  {
  }

  // ------------------------------------------------------------------------
  // The split goes on

  ghost function ToMove(n: Naming, s: State, from: nat, to: nat): set<(nat, Id)> {
    set k | k in s.recs && k.0 == from && AddressOf(n, s.p, k.1) == to
  }

  /** A split moves what it has to move. */
  lemma {:induction false} MoveAll(n: Naming, s: State, i: nat, j: nat, id: Id, from: nat, to: nat)
    returns (path: seq<State>, who: seq<nat>)
    requires i < |s.procs| && j < |s.procs| && i != j && from != to && s.procs[j] == Moving(from, to) && Selects(s.procs[i])
    requires AddressOf(n, s.p, id) == to && (Sees(s, id, from) || Sees(s, id, to))
    ensures Leads(n, i, id, path, who) && path[0] == s
    ensures NoneToMove(n, End(path), from, to) && Sees(End(path), id, to)
    ensures End(path) == s.(recs := End(path).recs)
    decreases |ToMove(n, s, from, to)|
  {
    hide Next, AddressOf, Leads;
    if x :| Sees(s, x, from) && AddressOf(n, s.p, x) == to {
      var s1 := s.(recs := (s.recs - {(from, x)})[(to, x) := s.recs[(from, x)]]);
      OneMoved(n, s, s1, j, x, id, from, to);
      var path1, who1 := MoveAll(n, s1, i, j, id, from, to);
      OneLeads(n, i, id, s, s1, j);
      Onward(n, i, id, [s, s1], [j], path1, who1);
      path, who := Joined([s, s1], path1), [j] + who1;
    } else {
      path, who := [s], [];
      assert Leads(n, i, id, path, who) by {
        Alone(n, i, id, s);
      }
    }
  }

  lemma Alone(n: Naming, i: nat, id: Id, s: State)
    requires i < |s.procs| && Selects(s.procs[i]) && Present(s, id)
    ensures Leads(n, i, id, [s], [])
  {
  }

  lemma OneMoved(n: Naming, s: State, s': State, j: nat, x: Id, id: Id, from: nat, to: nat)
    requires j < |s.procs| && from != to && s.procs[j] == Moving(from, to)
    requires Sees(s, x, from) && AddressOf(n, s.p, x) == to && (Sees(s, id, from) || Sees(s, id, to))
    requires s' == s.(recs := (s.recs - {(from, x)})[(to, x) := s.recs[(from, x)]])
    ensures Next(n, s, s', j) && Present(s, id) && Present(s', id) && (Sees(s', id, from) || Sees(s', id, to))
    ensures |ToMove(n, s', from, to)| < |ToMove(n, s, from, to)|
  {
    hide AddressOf;
    assert MovesOne(n, s, s', from, to) by {
      assert RecordMoved(s, s', from, to, x);
    }
    assert Sees(s', id, from) || Sees(s', id, to);
    assert (from, x) in ToMove(n, s, from, to);
    assert ToMove(n, s', from, to) == ToMove(n, s, from, to) - {(from, x)};
  }

  // ------------------------------------------------------------------------
  // Together

  /** Nobody but a select and a split is at work. */
  ghost predicate OnlyThese(s: State, i: nat, j: nat) {
    && i < |s.procs| && j < |s.procs| && i != j
    && forall m | 0 <= m < |s.procs| && m != i && m != j :: s.procs[m] == Idle
  }

  /** A split that has not locked the group it divides lets a select take in the groups before the one
      it adds. */
  lemma BeforeSplit(n: Naming, s: State, i: nat, j: nat, id: Id, from: nat, to: nat, since: nat)
    returns (path: seq<State>, who: seq<nat>, listed: multiset<Id>)
    requires OnlyThese(s, i, j) && s.procs[i] == Selecting(Tour(1, multiset{}, since)) && s.procs[j] == WantSource(from, to)
    requires 1 <= from < to <= s.p.modulus && Sees(s, id, from)
    ensures Leads(n, i, id, path, who) && path[0] == s && listed[id] >= 1
    ensures End(path) == With(With(s, i, Selecting(Tour(from + 1, listed, since))), j, Moving(from, to))
  {
    hide Next, Present, IdsFrom;
    path, who, listed := TakesGroups(n, s, i, Tour(1, multiset{}, since), from);
    StaysPresent(path, s.recs, id, from);
    FoundFrom(s, 1, from, from, id);
    var s1 := With(s, i, Selecting(Tour(from + 1, listed, since)));
    var s2 := With(s1, j, Moving(from, to));
    TakesSource(n, s1, s2, i, j, from, to);
    SeenHere(s1, id, from);
    SeenHere(s2, id, from);
    OneLeads(n, i, id, s1, s2, j);
    Onward(n, i, id, path, who, [s1, s2], [j]);
    path, who := Joined(path, [s1, s2]), who + [j];
  }

  lemma TakesSource(n: Naming, s: State, s': State, i: nat, j: nat, from: nat, to: nat)
    requires OnlyThese(s, i, j) && s.procs[i].Selecting? && s.procs[j] == WantSource(from, to)
             && s' == With(s, j, Moving(from, to))
    ensures Next(n, s, s', j)
  {
  }

  /** The split moves the record, and all others that it has to move, and lets go. */
  lemma SplitGoes(n: Naming, s: State, i: nat, j: nat, id: Id, from: nat, to: nat) returns (path: seq<State>, who: seq<nat>)
    requires i < |s.procs| && j < |s.procs| && i != j && Selects(s.procs[i])
    requires s.procs[j] == Moving(from, to) && from != to && from <= s.p.modulus && Hand(s, j) == {}
    requires Sees(s, id, from) && AddressOf(n, s.p, id) == to
    ensures Leads(n, i, id, path, who) && path[0] == s
    ensures End(path).p == s.p && End(path).procs == s.procs[j := WantTable(EndGoal)] && Sees(End(path), id, to)
  {
    hide Leads, Next, AddressOf, Present, NoneToMove;
    path, who := MoveAll(n, s, i, j, id, from, to);
    var s1 := End(path);
    var s2, s3 := With(s1, j, FreedFrom(to)), With(s1, j, WantTable(EndGoal));
    SplitEnds(n, s1, s2, s3, j, from, to);
    SeenHere(s1, id, to);
    SeenHere(s2, id, to);
    SeenHere(s3, id, to);
    OneLeads(n, i, id, s1, s2, j);
    Onward(n, i, id, path, who, [s1, s2], [j]);
    OneLeads(n, i, id, s2, s3, j);
    Onward(n, i, id, Joined(path, [s1, s2]), who + [j], [s2, s3], [j]);
    path, who := Joined(Joined(path, [s1, s2]), [s2, s3]), who + [j] + [j];
  }

  lemma SplitEnds(n: Naming, s: State, s': State, s'': State, j: nat, from: nat, to: nat)
    requires j < |s.procs| && s.procs[j] == Moving(from, to) && NoneToMove(n, s, from, to) && Hand(s, j) == {}
    requires from <= s.p.modulus && s' == With(s, j, FreedFrom(to)) && s'' == With(s, j, WantTable(EndGoal))
    ensures Next(n, s, s', j) && Next(n, s', s'', j)
  {
    hide AddressOf, NoneToMove, MovesOne, Shuffles;
  }

  /** When the split has moved the record, the select goes on and comes to it again. */
  lemma AfterSplit(n: Naming, s: State, i: nat, j: nat, id: Id, from: nat, to: nat, tour: Tour)
    returns (path: seq<State>, who: seq<nat>, all: multiset<Id>)
    requires OnlyThese(s, i, j) && s.procs[i] == Selecting(tour) && s.procs[j] == Moving(from, to) && Hand(s, j) == {}
    requires 1 <= from < to <= s.p.modulus && Sees(s, id, from) && AddressOf(n, s.p, id) == to && tour.g == from + 1
    ensures Leads(n, i, id, path, who) && path[0] == s
    ensures End(path).procs[i] == Selecting(Tour(s.p.modulus + 1, all, tour.since)) && all[id] >= tour.listed[id] + 1
  {
    hide AddressOf, Present, IdsFrom, Next, Path;
    path, who := SplitGoes(n, s, i, j, id, from, to);
    var s1 := End(path);
    var path1, who1;
    path1, who1, all := TakesGroups(n, s1, i, tour, s.p.modulus);
    StaysPresent(path1, s1.recs, id, to);
    FoundFrom(s1, from + 1, s.p.modulus, to, id);
    Onward(n, i, id, path, who, path1, who1);
    path, who := Joined(path, path1), who + who1;
  }

  lemma AroundSplit(n: Naming, s: State, i: nat, j: nat, id: Id, from: nat, to: nat, since: nat)
    returns (path: seq<State>, who: seq<nat>, listed: multiset<Id>)
    requires OnlyThese(s, i, j) && s.procs[i] == Selecting(Tour(1, multiset{}, since)) && s.procs[j] == WantSource(from, to)
    requires 1 <= from < to <= s.p.modulus && Sees(s, id, from) && AddressOf(n, s.p, id) == to && Hand(s, j) == {}
    ensures Leads(n, i, id, path, who) && path[0] == s
    ensures End(path).procs[i] == Selecting(Tour(s.p.modulus + 1, listed, since)) && listed[id] >= 2
  {
    hide Leads, AddressOf;
    path, who, listed := BeforeSplit(n, s, i, j, id, from, to, since);
    var path1, who1;
    path1, who1, listed := AfterSplit(n, End(path), i, j, id, from, to, Tour(from + 1, listed, since));
    Onward(n, i, id, path, who, path1, who1);
    path, who := Joined(path, path1), who + who1;
  }

  /** The run that a path continues. */
  lemma Continue(n: Naming, states: seq<State>, who: seq<nat>, i: nat, id: Id, path: seq<State>, more: seq<nat>)
    requires IsRun(n, states, who) && i < |End(states).procs| && End(states).procs[i] == HasTable(SelectGoal)
    requires Leads(n, i, id, path, more) && Next(n, End(states), path[0], i) && Present(End(states), id)
    ensures var a, k := |states| - 1, |states + path| - 1;
            && SelectRun(n, states + path, who + [i] + more, i, a, k) && Throughout(states + path, a, k, id)
            && (states + path)[a] == End(states) && (states + path)[k] == End(path)
  {
    hide Next, Init, Present;
    var all, whos, a := states + path, who + [i] + more, |states| - 1;
    forall k | 0 <= k < |whos| ensures Next(n, all[k], all[k + 1], whos[k]) {
      if k > a {
        assert all[k] == path[k - |states|] && all[k + 1] == path[k - |states| + 1] && whos[k] == more[k - |states|];
      }
    }
    forall m | a < m < |all| ensures i < |all[m].procs| && Selects(all[m].procs[i]) && Present(all[m], id) {
      assert all[m] == path[m - |states|];
    }
  }

  /** Whenever a select begins while a split waits for the group it divides, nobody else being at work,
      it can go on in such a way that any record the split moves is listed twice. */
  lemma CanListTwice(n: Naming, states: seq<State>, who: seq<nat>, i: nat, j: nat, from: nat, to: nat, id: Id)
    returns (states': seq<State>, who': seq<nat>)
    requires IsRun(n, states, who) && OnlyThese(End(states), i, j)
    requires End(states).procs[i] == HasTable(SelectGoal) && End(states).procs[j] == WantSource(from, to)
    requires Sees(End(states), id, from) && AddressOf(n, End(states).p, id) == to
    ensures states <= states'
    ensures var a, k := |states| - 1, |states'| - 1;
            && SelectRun(n, states', who', i, a, k) && TourOf(states'[k].procs[i]).g > states'[a].p.modulus
            && Throughout(states', a, k, id) && TourOf(states'[k].procs[i]).listed[id] == 2
  {
    hide Leads, AddressOf, Inv, Present, Init, Throughout, Next;
    var s := End(states);
    RunKeeps(n, states, who, |states| - 1);
    EarlyOrder(n, s, j, from, to, id);
    var s1 := Started(s, i);
    SelectStarts(n, s, i);
    assert Sees(s1, id, from);
    var path, more, all := AroundSplit(n, s1, i, j, id, from, to, s.counts.updates);
    SeenHere(s, id, from);
    Continue(n, states, who, i, id, path, more);
    states', who' := states + path, who + [i] + more;
    SelectListsAll(n, states', who', i, |states| - 1, |states'| - 1, id);
  }

  lemma EarlyOrder(n: Naming, s: State, j: nat, from: nat, to: nat, id: Id)
    requires Inv(n, s) && j < |s.procs| && s.procs[j] == WantSource(from, to) && AddressOf(n, s.p, id) == to
    ensures 1 <= from < to <= s.p.modulus && Hand(s, j) == {}
  {
    hide OneTable, LocksExclude, OneResize, NewIsFree, RecordsOk, HoldersOk, AddressOf, InhibitCount, IsPow2;
    hide SpaceOk, Unique, ReadersOk;
    assert PcOk(n, s, s.procs[j]) && MayMove(s.procs[j], from, to) && EarlySplit(s.procs[j], from, to);
    AddressExists(n, s, id);
  }

  // ------------------------------------------------------------------------
  // It does come to that

  /** A file of one group, a split of it, and a select. */
  function Scene(k: nat, id: Id): State {
    var splitter := if k == 0 then Idle else if k == 1 then WantTable(SplitGoal) else if k == 2 then HasTable(SplitGoal)
                    else if k == 3 then WantNew(1, 2) else if k == 4 then GotNew(1, 2) else WantSource(1, 2);
    var selector := if k < 6 then Idle else if k == 6 then WantTable(SelectGoal) else HasTable(SelectGoal);
    State(if k < 3 then Params(1, 1) else Params(2, 2), if k < 4 then 0 else 1, Counts(0, 1), map[(1, id) := Rec([], {})],
          Space(map[], {}, 0, [{}, {}]), [splitter, selector])
  }

  lemma SceneStep(n: Naming, k: nat, id: Id)
    requires k < 7
    ensures Next(n, Scene(k, id), Scene(k + 1, id), if k < 5 then 0 else 1)
  {
    hide Reassigns, IsPow2, AddressOf;
    var s, s', i := Scene(k, id), Scene(k + 1, id), if k < 5 then 0 else 1;
    assert s'.procs == s.procs[i := s'.procs[i]];
  }

  /** So an id that the first split of a file moves can be listed twice. */
  lemma SelectListsTwice(n: Naming, id: Id) returns (states: seq<State>, who: seq<nat>, a: nat, k: nat)
    requires n.hash(id) % 2 == 1
    ensures SelectRun(n, states, who, 1, a, k) && TourOf(states[k].procs[1]).g > states[a].p.modulus
    ensures Throughout(states, a, k, id) && TourOf(states[k].procs[1]).listed[id] == 2
  {
    hide Next, SelectRun, Throughout;
    states, who := seq(8, (k: nat) => Scene(k, id)), seq(7, (k: nat) => if k < 5 then 0 else 1);
    assert Init(n, Scene(0, id)) by {
      assert forall o :: BlocksWith(Scene(0, id), o) == {};
    }
    forall k | 0 <= k < 7 ensures Next(n, states[k], states[k + 1], who[k]) {
      SceneStep(n, k, id);
    }
    assert Sees(states[7], id, 1);
    a := 7;
    states, who := CanListTwice(n, states, who, 1, 0, 1, 2, id);
    k := |states| - 1;
  }
}
