/** From every state that a run can come to, the processes can all become idle again, with the file as a
    map unchanged; and from there every operation can be carried out, with the effect it should have. */
module Endings {
  import opened Addressing
  import opened Blocks
  import opened Tables
  import opened Protocol
  import opened ProtocolTheorems
  import opened Progress
  import opened SelectTheorems
  import opened SelectPaths
  import opened RecordCounts

  ghost predicate AtRest(s: State) {
    forall i | 0 <= i < |s.procs| :: s.procs[i] == Idle
  }

  ghost predicate NobodyFolds(s: State) {
    forall i | 0 <= i < |s.procs| :: !Folds(s.procs[i])
  }

  // ------------------------------------------------------------------------
  // Everyone can become idle

  /** How many steps the first `k` processes have left. */
  ghost function AllSteps(n: Naming, s: State, k: nat): nat
    requires k <= |s.procs|
  {
    if k == 0 then 0 else AllSteps(n, s, k - 1) + StepsLeft(n, s, k - 1)
  }

  lemma {:induction false} AllStepsFall(n: Naming, s: State, s': State, i: nat, k: nat)
    requires Nears(n, s, s', i) && k <= |s.procs|
    ensures AllSteps(n, s', k) <= AllSteps(n, s, k) && (i < k ==> AllSteps(n, s', k) < AllSteps(n, s, k))
  {
    hide StepsLeft;
    if k > 0 {
      AllStepsFall(n, s, s', i, k - 1);
    }
  }

  lemma NearsKeeps(n: Naming, s: State, s': State, i: nat)
    requires Inv(n, s) && Next(n, s, s', i) && Nears(n, s, s', i)
    ensures Inv(n, s') && Unique(s) && Unique(s') && Contents(s') == Contents(s)
    ensures NobodyFolds(s) ==> NobodyFolds(s') && s'.p == s.p
  {
    hide Inv, Local, Contents, Unique, StepsLeft;
    StepKeeps(n, s, s', i);
    BothUnique(n, s, s', i);
    if s'.recs == s.recs {
      SameContents(s, s');
    } else {
      MoveKeepsContents(n, s, s', i);
    }
  }

  /** Step by step, each bringing its process nearer to being idle. */
  lemma {:induction false} RestPath(n: Naming, s: State) returns (path: seq<State>, who: seq<nat>)
    requires Inv(n, s)
    ensures Path(n, path, who) && path[0] == s && AtRest(End(path)) && Inv(n, End(path))
    ensures Unique(s) && Unique(End(path)) && Contents(End(path)) == Contents(s)
    ensures NobodyFolds(s) ==> End(path).p == s.p
    decreases AllSteps(n, s, |s.procs|)
  {
    hide Inv, Next, Nears, Contents, Unique, Path;
    UniqueIn(n, s);
    if AtRest(s) {
      path, who := [s], [];
      PathOfOne(n, s);
    } else {
      var i :| 0 <= i < |s.procs| && s.procs[i] != Idle;
      var j, s' := SomeoneMoves(n, s, i);
      NearsKeeps(n, s, s', j);
      SameNumber(n, s, s', j);
      AllStepsFall(n, s, s', j, |s.procs|);
      OneStep(n, s, s', j);
      var path1, who1 := RestPath(n, s');
      JoinPaths(n, [s, s'], [j], path1, who1);
      path, who := Joined([s, s'], path1), [j] + who1;
    }
  }

  lemma UniqueIn(n: Naming, s: State)
    requires Inv(n, s)
    ensures Unique(s)
  {
  }

  lemma PathOfOne(n: Naming, s: State)
    ensures Path(n, [s], [])
  {
  }

  lemma SameNumber(n: Naming, s: State, s': State, i: nat)
    requires Next(n, s, s', i)
    ensures |s'.procs| == |s.procs|
  {
  }

  lemma RestInhibits(n: Naming, s: State)
    requires Inv(n, s) && AtRest(s)
    ensures s.inhibit == 0
  {
    hide OneTable, LocksExclude, OneResize, PcsOk, NewIsFree, RecordsOk, HoldersOk, AddressOf, IsPow2, SpaceOk, Unique;
    hide ReadersOk, HandsOk, InhibitCount;
    NoneInhibits(s.procs);
  }

  /** Every run can be continued to a state in which all processes are idle, nothing holds a resize off,
      and the file is the same map. Only a merge that is about to take the last group off the file
      changes the number of groups. */
  lemma CanRest(n: Naming, states: seq<State>, who: seq<nat>) returns (states': seq<State>, who': seq<nat>)
    requires IsRun(n, states, who)
    ensures IsRun(n, states', who') && states <= states'
    ensures AtRest(End(states')) && End(states').inhibit == 0
    ensures Unique(End(states)) && Unique(End(states')) && Contents(End(states')) == Contents(End(states))
    ensures NobodyFolds(End(states)) ==> End(states').p == End(states).p
  {
    hide Inv, Contents, Unique, Path, NobodyFolds, Next, Init;
    RunKeeps(n, states, who, |states| - 1);
    var path, more := RestPath(n, End(states));
    RestInhibits(n, End(path));
    GoOn(n, states, who, path, more);
    states', who' := Joined(states, path), who + more;
  }

  // ------------------------------------------------------------------------
  // Taking blocks

  ghost predicate OthersIdle(s: State, i: nat) {
    i < |s.procs| && forall j | 0 <= j < |s.procs| && j != i :: s.procs[j] == Idle
  }

  /** Blocks from the end of the file. */
  function NewBlocks(size: nat, count: nat): (s: set<nat>)
    ensures forall x :: x in s <==> size < x <= size + count
  {
    if count == 0 then {} else NewBlocks(size, count - 1) + {size + count}
  }

  lemma {:induction false} CountNew(size: nat, count: nat)
    ensures |NewBlocks(size, count)| == count
  {
    if count > 0 {
      CountNew(size, count - 1);
    }
  }

  /** A process has taken new blocks in hand. */
  function Supplied(s: State, i: nat, count: nat, pc: Pc): State
    requires i < |s.procs| && i < |s.space.hands|
  {
    s.(space := s.space.(size := s.space.size + count,
                         hands := s.space.hands[i := s.space.hands[i] + NewBlocks(s.space.size, count)]),
       procs := s.procs[i := pc])
  }

  lemma SuppliesHand(s: State, i: nat, pc: Pc)
    requires SpaceOk(s) && i < |s.procs|
    ensures i < |s.space.hands|
    ensures Reassigns(s, Supplied(s, i, 1, pc), {Free, InHand(i)})
  {
    var s', own, x := Supplied(s, i, 1, pc), {Free, InHand(i)}, s.space.size + 1;
    assert NewBlocks(s.space.size, 1) == {x};
    assert BlocksWith(s', InHand(i)) == BlocksWith(s, InHand(i)) + {x};
    assert forall o | o != InHand(i) :: BlocksWith(s', o) == BlocksWith(s, o);
    assert x !in BlocksWith(s, Free);
    forall o, q | o in own && q in own && o != q ensures !Shared(s', o, q) {
      assert !Shared(s, o, q);
    }
    forall o, y | o in own && y in BlocksWith(s', o) ensures OwnedIn(s, own, y) || y == x {
      assert y == x || y in BlocksWith(s, o);
    }
    forall y: nat | OwnedIn(s, own, y) || y == x ensures OwnedIn(s', own, y) {
      if y == x {
        assert x in BlocksWith(s', InHand(i));
      } else {
        var o :| o in own && y in BlocksWith(s, o);
        assert y in BlocksWith(s', o);
      }
    }
  }

  /** On this errand a process may ask for the header lock. */
  predicate MayAsk(pc: Pc, h: Errand) {
    (h.Nothing? && (pc.Idle? || pc.Prepared?)) || (h.KeyedLock? && pc == Working(h.id, true, h.g) && h.g >= 1)
  }

  lemma TakesBlock(n: Naming, s: State, i: nat, h: Errand)
    requires OthersIdle(s, i) && SpaceOk(s) && MayAsk(s.procs[i], h)
    ensures i < |s.space.hands|
    ensures var s1, s2, s3 := With(s, i, WantHeader(h)), With(s, i, HasHeader(h)), Supplied(s, i, 1, Back(h));
            Next(n, s, s1, i) && Next(n, s1, s2, i) && Next(n, s2, s3, i) && SpaceOk(s3)
  {
    hide AddressOf, Works, MovesOne, Shuffles, NoneToMove, IdsIn, Reassigns, SpaceOk;
    SuppliesHand(s, i, Back(h));
    var s2, s3 := With(s, i, HasHeader(h)), Supplied(s, i, 1, Back(h));
    SameReassigns(s, s2, s3, {Free, InHand(i)});
    HandLengths(s, s3);
    ReassignKeeps(s, s3, {Free, InHand(i)});
  }

  lemma HandLengths(s: State, s': State)
    requires SpaceOk(s) && |s'.procs| == |s.procs| && |s'.space.hands| == |s.space.hands|
    ensures |s'.space.hands| == |s'.procs|
  {
  }

  lemma SameReassigns(s: State, s2: State, s': State, own: set<Owner>)
    requires s2.recs == s.recs && s2.space == s.space && Reassigns(s, s', own)
    ensures Reassigns(s2, s', own)
  {
    assert forall o :: BlocksWith(s2, o) == BlocksWith(s, o);
    assert forall x: nat :: OwnedIn(s2, own, x) <==> OwnedIn(s, own, x);
  }

  lemma AsksAgain(pc: Pc, h: Errand)
    requires MayAsk(pc, h)
    ensures MayAsk(Back(h), h)
  {
  }

  lemma SuppliedTwice(s: State, i: nat, count: nat, pc: Pc, pc': Pc)
    requires i < |s.procs| && i < |s.space.hands| && count >= 1
    ensures Supplied(Supplied(s, i, 1, pc), i, count - 1, pc') == Supplied(s, i, count, pc')
  {
    hide NewBlocks;
    var size := s.space.size;
    assert NewBlocks(size, 1) + NewBlocks(size + 1, count - 1) == NewBlocks(size, count);
    assert s.space.hands[i] + NewBlocks(size, 1) + NewBlocks(size + 1, count - 1) == s.space.hands[i] + NewBlocks(size, count);
  }

  /** It takes as many blocks as it wants, one at a time. */
  lemma {:induction false} TakesBlocks(n: Naming, s: State, i: nat, h: Errand, count: nat)
    returns (path: seq<State>, who: seq<nat>)
    requires OthersIdle(s, i) && SpaceOk(s) && MayAsk(s.procs[i], h) && i < |s.space.hands|
    ensures Path(n, path, who) && path[0] == s
    ensures End(path) == Supplied(s, i, count, if count == 0 then s.procs[i] else Back(h)) && SpaceOk(End(path))
    decreases count
  {
    hide Next, SpaceOk, Path, NewBlocks, MayAsk;
    if count == 0 {
      path, who := [s], [];
      PathOfOne(n, s);
      assert NewBlocks(s.space.size, 0) == {};
      assert s.space.hands[i] + {} == s.space.hands[i];
    } else {
      TakesBlock(n, s, i, h);
      AsksAgain(s.procs[i], h);
      var s1, s2, s3 := With(s, i, WantHeader(h)), With(s, i, HasHeader(h)), Supplied(s, i, 1, Back(h));
      OneStep(n, s, s1, i);
      OneStep(n, s1, s2, i);
      OneStep(n, s2, s3, i);
      JoinPaths(n, [s, s1], [i], [s1, s2], [i]);
      JoinPaths(n, Joined([s, s1], [s1, s2]), [i] + [i], [s2, s3], [i]);
      var first := Joined(Joined([s, s1], [s1, s2]), [s2, s3]);
      var path1, who1 := TakesBlocks(n, s3, i, h, count - 1);
      JoinPaths(n, first, [i] + [i] + [i], path1, who1);
      path, who := Joined(first, path1), [i] + [i] + [i] + who1;
      SuppliedTwice(s, i, count, Back(h), End(path1).procs[i]);
    }
  }

  // ------------------------------------------------------------------------
  // Reading, writing and deleting

  /** The stages of a keyed operation until it can do its work. */
  function KeyedStage(k: nat, id: Id, write: bool, g: nat): Pc {
    match k
    case 1 => WantTable(Keyed(id, write))
    case 2 => HasTable(Keyed(id, write))
    case 3 => WantGroup(id, write, g)
    case 4 => GotGroup(id, write, g)
    case _ => Working(id, write, g)
  }

  function KeyedState(s: State, i: nat, k: nat, id: Id, write: bool, g: nat): State
    requires i < |s.procs|
  {
    if k == 0 then s else
    var counts := if write && k >= 4 then s.counts.(updates := s.counts.updates + 1) else s.counts;
    s.(counts := counts, procs := s.procs[i := KeyedStage(k, id, write, g)])
  }

  lemma NextKeyed(n: Naming, s: State, i: nat, k: nat, id: Id, write: bool)
    requires OthersIdle(s, i) && (s.procs[i].Idle? || (write && s.procs[i].Prepared?)) && k < 5
    ensures var g := AddressOf(n, s.p, id);
            Next(n, KeyedState(s, i, k, id, write, g), KeyedState(s, i, k + 1, id, write, g), i)
  {
    hide AddressOf, Works, Allots, MovesOne, Shuffles, NoneToMove, IdsIn;
  }

  /** With all others idle, an operation comes to where it has locked its group. */
  lemma KeyedBegins(n: Naming, s: State, i: nat, id: Id, write: bool) returns (path: seq<State>, who: seq<nat>)
    requires OthersIdle(s, i) && (s.procs[i].Idle? || (write && s.procs[i].Prepared?))
    ensures Path(n, path, who) && path[0] == s && End(path) == KeyedState(s, i, 5, id, write, AddressOf(n, s.p, id))
  {
    hide Next, AddressOf;
    var g := AddressOf(n, s.p, id);
    path, who := seq(6, (k: nat) => KeyedState(s, i, k, id, write, g)), seq(5, (k: nat) => i);
    forall k | 0 <= k < 5 ensures Next(n, path[k], path[k + 1], who[k]) {
      NextKeyed(n, s, i, k, id, write);
    }
  }

  /** The records with another version of one, or without it. Of the blocks in hand some become its chain and
      some go to the group; the blocks of the old version come into hand. */
  function WithRecord(s: State, i: nat, g: nat, id: Id, put: bool, rec: Rec, more: set<nat>, pc: Pc): State
    requires i < |s.procs| && i < |s.space.hands|
  {
    var recs := if put then s.recs[(g, id) := rec] else s.recs - {(g, id)};
    var hand := s.space.hands[i] - more - (if put then rec.chain else {}) + ChainAt(s, g, id);
    s.(recs := recs,
       space := s.space.(over := s.space.over[g := BlocksWith(s, InGroup(g)) + more], hands := s.space.hands[i := hand]),
       procs := s.procs[i := pc])
  }

  lemma TakesRecord(s: State, i: nat, g: nat, id: Id, put: bool, rec: Rec, more: set<nat>, pc: Pc)
    requires SpaceOk(s) && i < |s.procs| && i < |s.space.hands|
    requires rec.chain !! more && rec.chain <= s.space.hands[i] && more <= s.space.hands[i]
    ensures Reassigns(s, WithRecord(s, i, g, id, put, rec, more, pc), {InGroup(g), InRecord(g, id), InHand(i)})
  {
    var s', own := WithRecord(s, i, g, id, put, rec, more, pc), {InGroup(g), InRecord(g, id), InHand(i)};
    var chain, group, record, hand := if put then rec.chain else {}, InGroup(g), InRecord(g, id), InHand(i);
    assert BlocksWith(s', hand) == BlocksWith(s, hand) - more - chain + BlocksWith(s, record);
    assert BlocksWith(s', record) == chain && BlocksWith(s', group) == BlocksWith(s, group) + more;
    assert forall o | o !in own :: BlocksWith(s', o) == BlocksWith(s, o);
    assert !Shared(s, hand, group) && !Shared(s, hand, record) && !Shared(s, group, record);
    forall o, q | o in own && q in own && o != q ensures !Shared(s', o, q) {
    }
    forall o, x | o in own && x in BlocksWith(s', o) ensures OwnedIn(s, own, x) {
      assert x in BlocksWith(s, hand) || x in BlocksWith(s, record) || x in BlocksWith(s, group);
    }
    forall x: nat | OwnedIn(s, own, x) ensures OwnedIn(s', own, x) {
      assert x in BlocksWith(s', hand) || x in BlocksWith(s', record) || x in BlocksWith(s', group);
    }
  }

  lemma WorkIsStep(n: Naming, s: State, s': State, i: nat, id: Id, g: nat)
    requires i < |s.procs| && s.procs[i] == Working(id, true, g) && Works(s, s', i, id, true, g)
    requires s'.procs == s.procs[i := Worked(id, true, g, Sees(s, id, g), ChainAt(s, g, id), |s'.recs| - |s.recs|)]
    ensures Next(n, s, s', i)
  {
    hide AddressOf, Works, Allots, MovesOne, Shuffles, NoneToMove, CanLock, TableFree;
  }

  lemma OneRecord(s: State, i: nat, g: nat, id: Id, put: bool, rec: Rec, more: set<nat>, pc: Pc)
    requires i < |s.procs| && i < |s.space.hands|
    ensures var s' := WithRecord(s, i, g, id, put, rec, more, pc);
            && OnlyAt(s, s', id, g) && (Sees(s', id, g) <==> put) && (put ==> s'.recs[(g, id)] == rec)
            && BlocksWith(s', InGroup(g)) == BlocksWith(s, InGroup(g)) + more
  {
  }

  lemma WorkDone(n: Naming, s: State, i: nat, id: Id, g: nat, put: bool, rec: Rec, more: set<nat>) returns (s': State)
    requires SpaceOk(s) && i < |s.procs| && s.procs[i] == Working(id, true, g) && i < |s.space.hands|
    requires rec.chain !! more && rec.chain <= s.space.hands[i] && more <= s.space.hands[i]
    ensures Next(n, s, s', i) && OnlyAt(s, s', id, g) && s'.p == s.p && s'.procs[i].Worked?
    ensures Sees(s', id, g) <==> put
    ensures put ==> s'.recs[(g, id)] == rec
    ensures BlocksWith(s', InGroup(g)) == BlocksWith(s, InGroup(g)) + more
    ensures s'.procs == s.procs[i := s'.procs[i]]
  {
    hide Reassigns, SpaceOk, Next, OnlyAt, Sees, ChainAt, BlocksWith;
    var recs := if put then s.recs[(g, id) := rec] else s.recs - {(g, id)};
    var pc := Worked(id, true, g, Sees(s, id, g), ChainAt(s, g, id), |recs| - |s.recs|);
    s' := WithRecord(s, i, g, id, put, rec, more, pc);
    OneRecord(s, i, g, id, put, rec, more, pc);
    TakesRecord(s, i, g, id, put, rec, more, pc);
    WorkIsStep(n, s, s', i, id, g);
  }

  /** The map with other data under an id, or without it. */
  function MapWith(m: map<Id, Data>, id: Id, put: bool, data: Data): map<Id, Data> {
    if put then m[id := data] else m - {id}
  }

  lemma PutContents(s: State, s': State, id: Id, g: nat, put: bool, data: Data)
    requires Unique(s) && Unique(s') && OnlyAt(s, s', id, g) && forall h: nat | Sees(s, id, h) :: h == g
    requires (Sees(s', id, g) <==> put) && (put ==> s'.recs[(g, id)].data == data)
    ensures Contents(s') == MapWith(Contents(s), id, put, data)
  {
    hide Contents, Unique;
    OneChanges(s, s', id, g);
    ContentsAt(s', id);
    forall h: nat ensures Sees(s', id, h) ==> h == g {
      assert (h, id) != (g, id) ==> (Sees(s', id, h) <==> Sees(s, id, h));
    }
  }

  lemma HoldsForWork(n: Naming, s: State, i: nat, id: Id, write: bool, g: nat)
    requires Inv(n, s) && i < |s.procs| && s.procs[i] == Working(id, write, g)
    ensures Unique(s) && SpaceOk(s) && forall h: nat | Sees(s, id, h) :: h == g
  {
    hide OneTable, LocksExclude, OneResize, PcsOk, NewIsFree, RecordsOk, AddressOf, IsPow2, SpaceOk, Unique;
    hide ReadersOk, HandsOk, InhibitCount;
    assert HoldsFor(s.procs[i], id, g);
    assert HolderOk(n, s, id, g);
  }

  /** From every reachable state any process can write a record with any data, or delete it, so that in
      the end all are idle and the file is the same map but for that. It can take any number of new blocks
      for the record before it looks for its group, and any number for the group once it has locked it;
      in state `k` they are there. */
  lemma CanChange(n: Naming, states: seq<State>, who: seq<nat>, i: nat, id: Id, put: bool, data: Data,
                  blocks: nat, more: nat)
    returns (states': seq<State>, who': seq<nat>, k: nat, g: nat)
    requires IsRun(n, states, who) && i < |End(states).procs|
    ensures IsRun(n, states', who') && states <= states' && AtRest(End(states'))
    ensures Unique(End(states)) && Unique(End(states'))
    ensures Contents(End(states')) == MapWith(Contents(End(states)), id, put, data)
    ensures 0 < k < |states'| && (Sees(states'[k], id, g) <==> put)
    ensures put ==> states'[k].recs[(g, id)].data == data && |states'[k].recs[(g, id)].chain| == blocks
    ensures |BlocksWith(states'[k], InGroup(g))| == |BlocksWith(states'[k - 1], InGroup(g))| + more
  {
    hide Inv, Contents, Unique, AddressOf, IsRun, MapWith, AtRest, NobodyFolds, SpaceOk, BlocksWith, Sees, NewBlocks;
    var states0, who0 := CanRest(n, states, who);
    SameProcs(n, states, who, states0, who0);
    EndUnique(n, states0, who0);
    var s := End(states0);
    EmptyHand(n, s, i);
    g := AddressOf(n, s.p, id);
    var states1, who1 := Gathers(n, states0, who0, i, id, g, blocks, more);
    SameMap(n, states0, who0, states1, who1);
    NewTwice(s.space.size, blocks, more);
    var chain, extra := NewBlocks(s.space.size, blocks), NewBlocks(s.space.size + blocks, more);
    var states2, who2 := Changes(n, states1, who1, i, id, g, put, Rec(data, chain), extra);
    k := |states1|;
    states', who' := CanRest(n, states2, who2);
    assert states'[k] == states2[k] && states'[k - 1] == states2[k - 1] == End(states1);
  }

  lemma SameMap(n: Naming, states: seq<State>, who: seq<nat>, states1: seq<State>, who1: seq<nat>)
    requires states != [] && states1 != [] && IsRun(n, states, who) && IsRun(n, states1, who1)
    requires End(states1).recs == End(states).recs
    ensures Unique(End(states)) && Unique(End(states1)) && Contents(End(states1)) == Contents(End(states))
  {
    hide Inv, Contents, Unique, IsRun;
    EndUnique(n, states, who);
    EndUnique(n, states1, who1);
    SameContents(End(states), End(states1));
  }

  /** The step in which it changes the file. */
  lemma Changes(n: Naming, states: seq<State>, who: seq<nat>, i: nat, id: Id, g: nat, put: bool, rec: Rec, more: set<nat>)
    returns (states': seq<State>, who': seq<nat>)
    requires states != [] && IsRun(n, states, who)
    requires var s := End(states);
             && i < |s.procs| && s.procs[i] == Working(id, true, g) && i < |s.space.hands|
             && rec.chain !! more && s.space.hands[i] == rec.chain + more
    ensures IsRun(n, states', who') && |states'| == |states| + 1 && states <= states'
    ensures Unique(End(states)) && Unique(End(states'))
    ensures Contents(End(states')) == MapWith(Contents(End(states)), id, put, rec.data)
    ensures (Sees(End(states'), id, g) <==> put) && (put ==> End(states').recs[(g, id)] == rec)
    ensures |BlocksWith(End(states'), InGroup(g))| == |BlocksWith(End(states), InGroup(g))| + |more|
  {
    hide Inv, Contents, Unique, Path, Next, Init, OnlyAt, IsRun, MapWith, SpaceOk, BlocksWith, Sees;
    var s := End(states);
    EndUnique(n, states, who);
    HoldsForWork(n, s, i, id, true, g);
    var s' := WorkDone(n, s, i, id, g, put, rec, more);
    GroupGains(s, s', i, g, more);
    OneStep(n, s, s', i);
    GoOn(n, states, who, [s, s'], [i]);
    states', who' := Joined(states, [s, s']), who + [i];
    EndUnique(n, states', who');
    PutContents(s, s', id, g, put, rec.data);
  }

  lemma EmptyHand(n: Naming, s: State, i: nat)
    requires Inv(n, s) && AtRest(s) && i < |s.procs|
    ensures i < |s.space.hands| && s.space.hands[i] == {} && SpaceOk(s) && OthersIdle(s, i)
  {
    hide OneTable, LocksExclude, OneResize, PcsOk, NewIsFree, RecordsOk, HoldersOk, AddressOf, IsPow2, Unique;
    hide ReadersOk, InhibitCount;
    assert HandFree(s.procs[i]) ==> Hand(s, i) == {};
  }

  lemma NewTwice(size: nat, blocks: nat, more: nat)
    ensures NewBlocks(size, blocks) !! NewBlocks(size + blocks, more)
    ensures |NewBlocks(size, blocks)| == blocks && |NewBlocks(size + blocks, more)| == more
  {
    hide NewBlocks;
    CountNew(size, blocks);
    CountNew(size + blocks, more);
  }

  /** None of the new blocks was in the group. */
  lemma GroupGains(s: State, s': State, i: nat, g: nat, more: set<nat>)
    requires SpaceOk(s) && i < |s.space.hands| && more <= s.space.hands[i]
    requires BlocksWith(s', InGroup(g)) == BlocksWith(s, InGroup(g)) + more
    ensures |BlocksWith(s', InGroup(g))| == |BlocksWith(s, InGroup(g))| + |more|
  {
    assert !Shared(s, InGroup(g), InHand(i));
    assert more <= BlocksWith(s, InHand(i));
    assert more !! BlocksWith(s, InGroup(g));
  }

  /** A writer takes blocks, locks its group, and takes more blocks. */
  lemma Gathers(n: Naming, states: seq<State>, who: seq<nat>, i: nat, id: Id, g: nat, blocks: nat, more: nat)
    returns (states': seq<State>, who': seq<nat>)
    requires states != [] && IsRun(n, states, who) && Inv(n, End(states)) && AtRest(End(states)) && i < |End(states).procs|
    requires g == AddressOf(n, End(states).p, id) && i < |End(states).space.hands| && End(states).space.hands[i] == {}
    ensures IsRun(n, states', who') && states <= states'
    ensures var s, s' := End(states), End(states');
            && s'.recs == s.recs && i < |s'.procs| && s'.procs[i] == Working(id, true, g) && i < |s'.space.hands|
            && s'.space.hands[i] == NewBlocks(s.space.size, blocks) + NewBlocks(s.space.size + blocks, more)
  {
    hide Inv, Path, Next, Init, AddressOf, IsRun, SpaceOk, NewBlocks, KeyedStage, AtRest;
    var s := End(states);
    EmptyHand(n, s, i);
    GroupThere(n, s, id);
    RestsBeside(s, i);
    var path1, more1 := TakesBlocks(n, s, i, Nothing, blocks);
    GoOn(n, states, who, path1, more1);
    var states1, who1 := Joined(states, path1), who + more1;
    var s1 := End(states1);
    var path2, more2 := KeyedBegins(n, s1, i, id, true);
    GoOn(n, states1, who1, path2, more2);
    var states2, who2 := Joined(states1, path2), who1 + more2;
    var s2 := End(states2);
    SameSpace(s1, s2);
    IsWorking(id, g);
    var path3, more3 := TakesBlocks(n, s2, i, KeyedLock(id, g), more);
    GoOn(n, states2, who2, path3, more3);
    states', who' := Joined(states2, path3), who2 + more3;
  }

  lemma GroupThere(n: Naming, s: State, id: Id)
    requires Inv(n, s)
    ensures AddressOf(n, s.p, id) >= 1
  {
    hide OneTable, LocksExclude, OneResize, PcsOk, NewIsFree, RecordsOk, HoldersOk, AddressOf, IsPow2, Unique, SpaceOk;
    hide ReadersOk, HandsOk, InhibitCount;
    AddressExists(n, s, id);
  }

  lemma SameSpace(s: State, s': State)
    requires SpaceOk(s) && s'.recs == s.recs && s'.space == s.space && |s'.procs| == |s.procs|
    ensures SpaceOk(s')
  {
    hide SpaceOk;
    SameBlocks(s, s');
  }

  lemma IsWorking(id: Id, g: nat)
    ensures KeyedStage(5, id, true, g) == Working(id, true, g)
  {
  }

  lemma KeyedSame(n: Naming, states: seq<State>, who: seq<nat>, states1: seq<State>, who1: seq<nat>,
                  i: nat, id: Id, write: bool, g: nat)
    requires IsRun(n, states, who) && IsRun(n, states1, who1) && i < |End(states).procs|
    requires End(states1) == KeyedState(End(states), i, 5, id, write, g)
    ensures Inv(n, End(states1)) && Unique(End(states)) && Unique(End(states1))
    ensures Contents(End(states1)) == Contents(End(states))
    ensures i < |End(states1).procs| && End(states1).procs[i] == Working(id, write, g)
  {
    hide Inv, Contents, Unique, IsRun;
    EndUnique(n, states, who);
    EndUnique(n, states1, who1);
    SameContents(End(states), End(states1));
  }

  lemma EndUnique(n: Naming, states: seq<State>, who: seq<nat>)
    requires IsRun(n, states, who)
    ensures states != [] && Inv(n, End(states)) && Unique(End(states))
  {
    hide Inv, Next, Init;
    RunKeeps(n, states, who, |states| - 1);
    UniqueIn(n, End(states));
  }

  /** The number of processes is the same all along. */
  lemma SameProcs(n: Naming, states: seq<State>, who: seq<nat>, states': seq<State>, who': seq<nat>)
    requires IsRun(n, states, who) && IsRun(n, states', who') && states <= states'
    ensures states != [] && |End(states').procs| == |End(states).procs|
  {
    hide Init, Local;
    ProcsAt(n, states', who', |states| - 1, |states'| - 1);
  }

  lemma {:induction false} ProcsAt(n: Naming, states: seq<State>, who: seq<nat>, a: nat, k: nat)
    requires IsRun(n, states, who) && a <= k < |states|
    ensures |states[k].procs| == |states[a].procs|
    decreases k - a
  {
    hide Init, Local;
    if k > a {
      ProcsAt(n, states, who, a, k - 1);
      SameNumber(n, states[k - 1], states[k], who[k - 1]);
    }
  }

  /** From every reachable state any process can read a record, and sees it if and only if it is there. */
  lemma CanRead(n: Naming, states: seq<State>, who: seq<nat>, i: nat, id: Id)
    returns (states': seq<State>, who': seq<nat>, k: nat)
    requires IsRun(n, states, who) && i < |End(states).procs|
    ensures IsRun(n, states', who') && states <= states' && AtRest(End(states'))
    ensures Unique(End(states)) && Unique(End(states')) && Contents(End(states')) == Contents(End(states))
    ensures k < |states'| && i < |states'[k].procs|
            && var pc := states'[k].procs[i]; pc.Worked? && !pc.write && pc.id == id && (pc.seen <==> id in Contents(End(states)))
  {
    hide Inv, Contents, Unique, Path, Next, Init, AddressOf, IsRun, KeyedState, AtRest, NobodyFolds, NextState;
    var states0, who0 := CanRest(n, states, who);
    SameProcs(n, states, who, states0, who0);
    var s := End(states0);
    var g := AddressOf(n, s.p, id);
    RestsBeside(s, i);
    var path, more := KeyedBegins(n, s, i, id, false);
    GoOn(n, states0, who0, path, more);
    var states1, who1 := Joined(states0, path), who0 + more;
    var s1 := End(states1);
    KeyedSame(n, states0, who0, states1, who1, i, id, false, g);
    var s2 := Looks(n, s1, i, id, g);
    OneStep(n, s1, s2, i);
    GoOn(n, states1, who1, [s1, s2], [i]);
    var states2, who2 := Joined(states1, [s1, s2]), who1 + [i];
    k := |states2| - 1;
    StepsActOnMap(n, s1, s2, i);
    states', who' := CanRest(n, states2, who2);
  }

  lemma RestsBeside(s: State, i: nat)
    requires AtRest(s) && i < |s.procs|
    ensures OthersIdle(s, i) && s.procs[i] == Idle
  {
  }

  lemma Looks(n: Naming, s: State, i: nat, id: Id, g: nat) returns (s': State)
    requires Inv(n, s) && i < |s.procs| && s.procs[i] == Working(id, false, g)
    ensures Next(n, s, s', i) && s'.procs == s.procs[i := Worked(id, false, g, Sees(s, id, g), ChainAt(s, g, id), 0)]
    ensures s'.recs == s.recs
  {
    hide Inv, Next, Waits, AddressOf;
    NobodyWaitedFor(s, i);
    StepsThere(n, s, i);
    s' := NextState(n, s, i);
  }

  lemma NobodyWaitedFor(s: State, i: nat)
    requires i < |s.procs| && s.procs[i].Working?
    ensures forall j | 0 <= j < |s.procs| :: !Waits(s, i, j)
  {
  }

  // ------------------------------------------------------------------------
  // Splitting and merging

  /** The stages of a split, until it has decided, and of a merge, until it has both locks. */
  function ResizeState(s: State, i: nat, k: nat, split: bool): State
    requires i < |s.procs| && s.p.modulus >= 1
  {
    var p := if split then Grow(s.p) else Shrink(s.p);
    var from, to := s.p.modulus, if Buddy(s.p) >= 0 then Buddy(s.p) else 0;
    var source := if Buddy(p) >= 0 then Buddy(p) else 0;
    match k
    case 0 => s
    case 1 => With(s, i, WantTable(if split then SplitGoal else MergeGoal))
    case 2 => With(s, i, HasTable(if split then SplitGoal else MergeGoal))
    case 3 => if split then With(s, i, WantNew(source, p.modulus)).(p := p) else With(s, i, WantTarget(from, to))
    case 4 => With(s, i, WantLast(from, to))
    case _ => With(s, i, GotBoth(from, to)).(p := p, inhibit := s.inhibit + 1)
  }

  lemma NextSplit(n: Naming, s: State, i: nat, k: nat)
    requires AtRest(s) && i < |s.procs| && s.p.Valid() && s.inhibit == 0 && k < 3
    ensures Next(n, ResizeState(s, i, k, true), ResizeState(s, i, k + 1, true), i)
  {
    hide AddressOf, Works, Allots, MovesOne, Shuffles, NoneToMove, IdsIn, IsPow2;
    assert s.procs[i := Idle] == s.procs;
    GrowMovesOneGroup(0, s.p);
  }

  lemma NextMerge(n: Naming, s: State, i: nat, k: nat)
    requires AtRest(s) && i < |s.procs| && s.p.Valid() && s.inhibit == 0 && s.p.modulus >= 2 && k < 5
    ensures Next(n, ResizeState(s, i, k, false), ResizeState(s, i, k + 1, false), i)
  {
    hide AddressOf, Works, Allots, MovesOne, Shuffles, NoneToMove, IdsIn, IsPow2, Shrink;
    assert s.procs[i := Idle] == s.procs;
    ShrinkFoldsLastGroup(0, s.p);
  }

  lemma ResizeBegins(n: Naming, s: State, i: nat, split: bool) returns (path: seq<State>, who: seq<nat>)
    requires AtRest(s) && i < |s.procs| && s.p.Valid() && s.inhibit == 0 && (!split ==> s.p.modulus >= 2)
    ensures Path(n, path, who) && path[0] == s && End(path).recs == s.recs && NobodyFolds(End(path))
    ensures End(path).p == if split then Grow(s.p) else Shrink(s.p)
  {
    hide Next;
    var last := if split then 3 else 5;
    path, who := seq(last + 1, (k: nat) => ResizeState(s, i, k, split)), seq(last, (k: nat) => i);
    forall k | 0 <= k < last ensures Next(n, path[k], path[k + 1], who[k]) {
      if split {
        NextSplit(n, s, i, k);
      } else {
        NextMerge(n, s, i, k);
      }
    }
  }

  /** From every reachable state any process can add a group to the file, or take one of several away, so
      that in the end all are idle and the file is the same map. */
  lemma CanResize(n: Naming, states: seq<State>, who: seq<nat>, i: nat, split: bool)
    returns (states': seq<State>, who': seq<nat>, p: Params)
    requires IsRun(n, states, who) && i < |End(states).procs|
    ensures IsRun(n, states', who') && states <= states' && AtRest(End(states'))
    ensures Unique(End(states)) && Unique(End(states')) && Contents(End(states')) == Contents(End(states))
    ensures NobodyFolds(End(states)) ==> p == End(states).p
    ensures p.modulus >= 1 && (split || p.modulus >= 2 ==> End(states').p == if split then Grow(p) else Shrink(p))
  {
    hide Inv, Contents, Unique, Path, Next, Init, AddressOf, IsRun, AtRest, NobodyFolds;
    states', who' := CanRest(n, states, who);
    SameProcs(n, states, who, states', who');
    EndUnique(n, states', who');
    var s := End(states');
    p := s.p;
    ValidParams(n, s);
    if split || p.modulus >= 2 {
      var path, more := ResizeBegins(n, s, i, split);
      GoOn(n, states', who', path, more);
      var states1, who1 := Joined(states', path), who' + more;
      EndUnique(n, states1, who1);
      SameContents(s, End(states1));
      states', who' := CanRest(n, states1, who1);
    }
  }

  lemma ValidParams(n: Naming, s: State)
    requires Inv(n, s)
    ensures s.p.Valid() && s.p.modulus >= 1
  {
    hide IsPow2;
  }

  // ------------------------------------------------------------------------
  // Selecting

  lemma SelectBeginsAtRest(n: Naming, s: State, i: nat)
    requires AtRest(s) && i < |s.procs|
    ensures var s1, s2 := With(s, i, WantTable(SelectGoal)), With(s, i, HasTable(SelectGoal));
            Next(n, s, s1, i) && Next(n, s1, s2, i)
  {
  }

  lemma StoresAtRest(n: Naming, s: State, i: nat, tour: Tour)
    requires i < |s.procs| && s.procs[i] == Selecting(tour) && tour.g > s.p.modulus && tour.since == s.counts.updates
    requires forall j | 0 <= j < |s.procs| && j != i :: s.procs[j] == Idle
    ensures var s1, s2 := With(s, i, WantTable(StoreGoal(tour))), With(s, i, HasTable(StoreGoal(tour)));
            var s3 := With(s, i, Idle).(inhibit := s.inhibit - 1, counts := s.counts.(records := |tour.listed|));
            Next(n, s, s1, i) && Next(n, s1, s2, i) && Next(n, s2, s3, i)
  {
    hide AddressOf, Works, Allots, MovesOne, Shuffles, NoneToMove, IdsIn, CanLock;
  }

  /** From every reachable state any process can make a select that lists every id of the file once and
      nothing else, and leaves the right number of records in the file header. */
  lemma CanSelect(n: Naming, states: seq<State>, who: seq<nat>, i: nat)
    returns (states': seq<State>, who': seq<nat>, k: nat)
    requires IsRun(n, states, who) && i < |End(states).procs|
    ensures IsRun(n, states', who') && states <= states' && AtRest(End(states'))
    ensures Unique(End(states)) && Unique(End(states')) && Contents(End(states')) == Contents(End(states))
    ensures k < |states'| && i < |states'[k].procs| && states'[k].procs[i].Selecting?
            && forall id :: states'[k].procs[i].tour.listed[id] == if id in Contents(End(states)) then 1 else 0
    ensures End(states').counts.records == |End(states').recs|
  {
    hide Inv, Contents, Unique, Path, Next, Init, AddressOf, IsRun, NobodyFolds, IdsFrom, Going, Unchanged, Present;
    var states0, who0 := CanRest(n, states, who);
    SameProcs(n, states, who, states0, who0);
    var s := End(states0);
    SelectBeginsAtRest(n, s, i);
    var s1, s2 := With(s, i, WantTable(SelectGoal)), With(s, i, HasTable(SelectGoal));
    OneStep(n, s, s1, i);
    OneStep(n, s1, s2, i);
    JoinPaths(n, [s, s1], [i], [s1, s2], [i]);
    GoOn(n, states0, who0, Joined([s, s1], [s1, s2]), [i] + [i]);
    var states1, who1 := Joined(states0, Joined([s, s1], [s1, s2])), who0 + ([i] + [i]);
    var states2, who2, tour := ListsAll(n, states1, who1, i);
    k := |states2| - 1;
    EndUnique(n, states2, who2);
    EndUnique(n, states0, who0);
    SameContents(s, End(states2));
    ListedIsContents(End(states2), tour.listed);
    StoresAtRest(n, End(states2), i, tour);
    var t := End(states2);
    var t1, t2 := With(t, i, WantTable(StoreGoal(tour))), With(t, i, HasTable(StoreGoal(tour)));
    var t3 := With(t, i, Idle).(inhibit := t.inhibit - 1, counts := t.counts.(records := |tour.listed|));
    OneStep(n, t, t1, i);
    OneStep(n, t1, t2, i);
    OneStep(n, t2, t3, i);
    JoinPaths(n, [t, t1], [i], [t1, t2], [i]);
    JoinPaths(n, Joined([t, t1], [t1, t2]), [i] + [i], [t2, t3], [i]);
    var last := Joined(Joined([t, t1], [t1, t2]), [t2, t3]);
    GoOn(n, states2, who2, last, [i] + [i] + [i]);
    states', who' := Joined(states2, last), who2 + ([i] + [i] + [i]);
    EndUnique(n, states', who');
    SameContents(t, End(states'));
    CountsOnce(t, tour.listed);
  }

  lemma ListedIsContents(s: State, listed: multiset<Id>)
    requires Unique(s) && forall id :: listed[id] == if Present(s, id) then 1 else 0
    ensures forall id :: listed[id] == if id in Contents(s) then 1 else 0
  {
    hide Contents, Unique;
    forall id ensures Present(s, id) <==> id in Contents(s) {
      ContentsAt(s, id);
    }
  }

  /** A select that nobody is beside lists every id once. */
  lemma ListsAll(n: Naming, states: seq<State>, who: seq<nat>, i: nat)
    returns (states': seq<State>, who': seq<nat>, tour: Tour)
    requires IsRun(n, states, who) && i < |End(states).procs| && End(states).procs[i] == HasTable(SelectGoal)
    requires forall j | 0 <= j < |End(states).procs| && j != i :: End(states).procs[j] == Idle
    ensures IsRun(n, states', who') && states <= states' && End(states').recs == End(states).recs
    ensures End(states') == With(Started(End(states), i), i, Selecting(tour))
    ensures tour.g > End(states).p.modulus && tour.since == End(states).counts.updates
    ensures forall id :: tour.listed[id] == if Present(End(states'), id) then 1 else 0
  {
    hide Inv, Path, Next, Init, AddressOf, IdsFrom, Going, Unchanged, Present;
    var s := End(states);
    var s1, a := Started(s, i), |states| - 1;
    RunKeeps(n, states, who, a);
    ValidParams(n, s);
    SelectStarts(n, s, i);
    OneStep(n, s, s1, i);
    var path, more, listed := TakesGroups(n, s1, i, Tour(1, multiset{}, s.counts.updates), s.p.modulus);
    tour := Tour(s.p.modulus + 1, listed, s.counts.updates);
    JoinPaths(n, [s, s1], [i], path, more);
    GoOn(n, states, who, Joined([s, s1], path), [i] + more);
    states', who' := Joined(states, Joined([s, s1], path)), who + ([i] + more);
    var k := |states'| - 1;
    AllSelecting(states, s, s1, path, i);
    assert SelectRun(n, states', who', i, a, k);
    forall id ensures listed[id] == if Present(End(states'), id) then 1 else 0 {
      SelectListsOnce(n, states', who', i, a, k, id);
      forall m | a <= m <= k ensures Present(states'[m], id) <==> Present(End(states'), id) {
        SamePresent(states'[m], End(states'), id);
      }
    }
  }

  lemma SamePresent(s: State, s': State, id: Id)
    requires s'.recs == s.recs
    ensures Present(s', id) <==> Present(s, id)
  {
    assert forall g: nat :: Sees(s', id, g) <==> Sees(s, id, g);
  }

  lemma AllSelecting(states: seq<State>, s: State, s1: State, path: seq<State>, i: nat)
    requires states != [] && End(states) == s && path != [] && path[0] == s1 && Going(path, i) && Unchanged(path, s.recs)
    ensures var all, a := Joined(states, Joined([s, s1], path)), |states| - 1;
            && |all| == |states| + |path| && all[a] == s
            && (forall m | a < m < |all| :: i < |all[m].procs| && Selects(all[m].procs[i]))
            && forall m | a <= m < |all| :: all[m].recs == s.recs
  {
    var all, a := Joined(states, Joined([s, s1], path)), |states| - 1;
    assert Joined([s, s1], path)[1..] == [s1] + path[1..];
    forall m | a < m < |all| ensures i < |all[m].procs| && Selects(all[m].procs[i]) && all[m].recs == s.recs {
      assert all[m] == path[m - a - 1];
    }
  }
}
