/** Going on: whatever state a file has come to, its processes can all finish what they are doing. No
    state is a deadlock, and none is one from which some process can never be idle again. */
module Progress {
  import opened Addressing
  import opened Blocks
  import opened Tables
  import opened Protocol
  import opened ProtocolTheorems

  // ------------------------------------------------------------------------
  // How far it is to the end

  /** The records that a split or merge has still to move. */
  ghost function ToMove(n: Naming, s: State, from: nat, to: nat): set<(nat, Id)> {
    set k | k in s.recs && k.0 == from && AddressOf(n, s.p, k.1) == to
  }

  /** The group is no longer one of the file and has a chain all the same. */
  ghost predicate ChainLeft(s: State, from: nat) {
    from > s.p.modulus && BlocksWith(s, InGroup(from)) != {}
  }

  /** What a mover with nothing in hand has still to do. */
  ghost function MoveSteps(n: Naming, s: State, from: nat, to: nat): (steps: nat)
    ensures steps >= 4
  {
    4 + 4 * (|ToMove(n, s, from, to)| + if ChainLeft(s, from) then 1 else 0)
  }

  /** No mover has more to do. */
  function MostSteps(s: State): nat {
    4 + 4 * (|s.recs| + 1)
  }

  /** A number of steps in which a process can be idle again, if others let it. */
  ghost function StepsLeft(n: Naming, s: State, i: nat): nat
    requires i < |s.procs|
  {
    match s.procs[i]
    case Idle => 0
    case Prepared => 11
    case WantTable(goal) => 1 + GoalSteps(goal)
    case HasTable(goal) => GoalSteps(goal)
    case WantGroup(_, _, _) => 8
    case GotGroup(_, _, _) => 7
    case Working(_, _, _) => 6
    case Worked(_, _, _, _, _, _) => 5
    case WantHeader(h) => 2 + ErrandSteps(n, s, h)
    case HasHeader(h) => 1 + ErrandSteps(n, s, h)
    case WantNew(_, _) => MostSteps(s) + 6
    case GotNew(_, _) => MostSteps(s) + 5
    case WantSource(_, _) => MostSteps(s) + 4
    case WantTarget(_, _) => MostSteps(s) + 6
    case WantLast(_, _) => MostSteps(s) + 5
    case GotBoth(_, _) => MostSteps(s) + 4
    case Moving(from, to) => MoveSteps(n, s, from, to) + (if Hand(s, i) == {} then 0 else 3)
    case FreedFrom(_) => 3
    case Selecting(_) => 3
    case WantScan(_) => 6
    case GotScan(_) => 5
    case Scanning(_) => 4
  }

  function GoalSteps(goal: Goal): nat {
    match goal
    case Keyed(_, _) => 9
    case SelectGoal => 4
    case ScanGoal(_) => 7
    case _ => 1
  }

  ghost function ErrandSteps(n: Naming, s: State, h: Errand): nat {
    match h
    case Nothing => 11
    case Finishing(_) => 2
    case KeyedLock(_, _) => 6
    case MoveLocks(from, to) => MoveSteps(n, s, from, to)
  }

  /** A step that brings its process nearer to being idle, no other further from it, and neither the
      map nor, but for a merge that begins, the number of groups changes. */
  ghost predicate Nears(n: Naming, s: State, s': State, i: nat) {
    && i < |s.procs| == |s'.procs|
    && StepsLeft(n, s', i) < StepsLeft(n, s, i)
    && (forall j | 0 <= j < |s.procs| && j != i :: StepsLeft(n, s', j) <= StepsLeft(n, s, j))
    && (s.procs[i].Moving? || s'.recs == s.recs)
    && (s.procs[i].WantLast? || s'.p == s.p)
    && (Folds(s'.procs[i]) ==> Folds(s.procs[i]))
  }

  /** A merge that has not taken the last group off the file. */
  predicate Folds(pc: Pc) {
    pc.WantTarget? || pc.WantLast?
  }

  lemma MoveBound(n: Naming, s: State, from: nat, to: nat)
    ensures MoveSteps(n, s, from, to) <= MostSteps(s)
  {
    hide AddressOf;
    assert ToMove(n, s, from, to) <= s.recs.Keys;
    Subset(ToMove(n, s, from, to), s.recs.Keys);
  }

  lemma {:induction false} Subset<T>(a: set<T>, b: set<T>)
    requires a <= b
    ensures |a| <= |b|
  {
    if a != {} {
      var x :| x in a;
      Subset(a - {x}, b - {x});
    }
  }

  // ------------------------------------------------------------------------
  // One process that nobody is in the way of

  /** Where it goes, when it goes the shortest way. */
  function NextPc(n: Naming, s: State, i: nat): Pc
    requires i < |s.procs| && !s.procs[i].Moving?
  {
    match s.procs[i]
    case Idle => Idle
    case Prepared => WantTable(Keyed([], true))
    case WantTable(goal) => HasTable(goal)
    case HasTable(goal) =>
      if goal.Keyed? then WantGroup(goal.id, goal.write, AddressOf(n, s.p, goal.id))
      else if goal.SelectGoal? then Selecting(Tour(1, multiset{}, s.counts.updates))
      else if goal.ScanGoal? then WantScan(goal.tour)
      else Idle
    case WantGroup(id, write, g) => GotGroup(id, write, g)
    case GotGroup(id, write, g) => Working(id, write, g)
    case Working(id, write, g) => Worked(id, write, g, Sees(s, id, g), ChainAt(s, g, id), 0)
    case Worked(_, write, _, _, _, change) =>
      if !write then Idle else if Hand(s, i) == {} then WantTable(Count(change)) else WantHeader(Finishing(change))
    case WantHeader(h) => HasHeader(h)
    case HasHeader(h) => Back(h)
    case WantNew(from, to) => GotNew(from, to)
    case GotNew(from, to) => WantSource(from, to)
    case WantSource(from, to) => Moving(from, to)
    case WantTarget(from, to) => WantLast(from, to)
    case WantLast(from, to) => GotBoth(from, to)
    case GotBoth(from, to) => Moving(from, to)
    case FreedFrom(_) => WantTable(EndGoal)
    case Selecting(_) => WantTable(EndGoal)
    case WantScan(tour) => GotScan(tour)
    case GotScan(tour) => Scanning(tour)
    case Scanning(tour) => Selecting(Tour(tour.g + 1, tour.listed + multiset(IdsIn(s, tour.g)), tour.since))
  }

  /** What else the step changes. */
  function NextState(n: Naming, s: State, i: nat): State
    requires i < |s.procs| && !s.procs[i].Moving?
  {
    var pc := s.procs[i];
    var more := if pc.WantNew? || pc.WantLast? || (pc.HasTable? && pc.goal.SelectGoal?) then 1
                else if pc.HasTable? && (pc.goal.EndGoal? || pc.goal.StoreGoal?) then -1 else 0;
    var counts := if pc.WantGroup? && pc.write then s.counts.(updates := s.counts.updates + 1)
                  else if pc.HasTable? && pc.goal.Count? then
                    s.counts.(records := Recounted(s.counts.records, pc.goal.change))
                  else s.counts;
    var p := if pc.WantLast? && s.p.modulus >= 1 then Shrink(s.p) else s.p;
    State(p, s.inhibit + more, counts, s.recs, if pc.HasHeader? then Emptied(s.space, i) else s.space,
          s.procs[i := NextPc(n, s, i)])
  }

  /** What a process has in hand goes to the free chain. */
  function Emptied(space: Space, i: nat): Space {
    if i < |space.hands| then space.(free := space.free + space.hands[i], hands := space.hands[i := {}]) else space
  }

  lemma HandReleased(s: State, s': State, i: nat)
    requires SpaceOk(s) && s'.recs == s.recs && s'.space == Emptied(s.space, i)
    ensures Reassigns(s, s', {Free, InHand(i)}) && Hand(s', i) == {}
  {
    assert !Shared(s, Free, InHand(i));
    forall x: nat | OwnedIn(s, {Free, InHand(i)}, x) ensures OwnedIn(s', {Free, InHand(i)}, x) {
      assert x in BlocksWith(s', Free);
    }
    forall o, x | o in {Free, InHand(i)} && x in BlocksWith(s', o) ensures OwnedIn(s, {Free, InHand(i)}, x) {
      assert x in BlocksWith(s, Free) || x in BlocksWith(s, InHand(i));
    }
  }

  lemma NothingReassigned(s: State, s': State, own: set<Owner>)
    requires SpaceOk(s) && s'.recs == s.recs && s'.space == s.space
    ensures Reassigns(s, s', own)
  {
    assert forall o :: BlocksWith(s', o) == BlocksWith(s, o);
    forall o, q | o in own && q in own && o != q ensures !Shared(s', o, q) {
      assert !Shared(s, o, q);
    }
    forall x: nat | OwnedIn(s, own, x) ensures OwnedIn(s', own, x) {
      var o :| o in own && x in BlocksWith(s, o);
      assert x in BlocksWith(s', o);
    }
  }

  datatype Wish = None | Some(lock: nat)

  /** The group lock a process is waiting for. */
  function Wanted(pc: Pc): Wish {
    match pc
    case WantGroup(_, _, g) => Some(g)
    case WantHeader(_) => Some(0)
    case WantNew(_, to) => Some(to)
    case WantSource(from, _) => Some(from)
    case WantTarget(_, to) => Some(to)
    case WantLast(from, _) => Some(from)
    case WantScan(tour) => Some(tour.g)
    case _ => None
  }

  /** Whether it wants the lock for itself alone. */
  predicate WantsWrite(pc: Pc) {
    !pc.WantScan? && (!pc.WantGroup? || pc.write)
  }

  lemma FreeToGo(s: State, i: nat)
    requires i < |s.procs| && forall j | 0 <= j < |s.procs| :: !Waits(s, i, j)
    ensures s.procs[i].WantTable? ==> TableFree(s)
    ensures Wanted(s.procs[i]).Some? ==> CanLock(s, i, Wanted(s.procs[i]).lock, WantsWrite(s.procs[i]))
  {
    var pc := s.procs[i];
    if pc.WantTable? {
      forall j | 0 <= j < |s.procs| ensures !HoldsTable(s.procs[j]) {
        assert !Waits(s, i, j);
      }
    } else {
      var g, write := Wanted(pc), WantsWrite(pc);
      forall j | 0 <= j < |s.procs| && j != i && g.Some?
        ensures !HoldsWrite(s.procs[j], g.lock) && (write ==> !HoldsRead(s.procs[j], g.lock))
      {
        assert !Waits(s, i, j);
      }
    }
  }

  lemma StepsThere(n: Naming, s: State, i: nat)
    requires Inv(n, s) && i < |s.procs| && s.procs[i] != Idle && !s.procs[i].Moving?
    requires forall j | 0 <= j < |s.procs| :: !Waits(s, i, j)
    ensures Next(n, s, NextState(n, s, i), i)
  {
    hide AddressOf, IsPow2, InhibitCount, RecordsOk, HoldersOk, LocksExclude, OneResize, NewIsFree, SpaceOk;
    hide Unique, ReadersOk, Reassigns, BlocksWith, PcOk, HandsOk, Recounted;
    var pc, s' := s.procs[i], NextState(n, s, i);
    assert PcOk(n, s, pc);
    FreeToGo(s, i);
    if pc.HasHeader? {
      HandReleased(s, s', i);
    } else if pc.Working? {
      NothingReassigned(s, s', {InGroup(pc.g), InRecord(pc.g, pc.id), InHand(i)});
    }
  }

  lemma NearsThere(n: Naming, s: State, i: nat)
    requires Inv(n, s) && i < |s.procs| && s.procs[i] != Idle && !s.procs[i].Moving?
    ensures StepsLeft(n, NextState(n, s, i), i) < StepsLeft(n, s, i)
  {
    hide NextState, NextPc, StepsLeft, SpaceOk, HandsOk;
    if Resizes(s.procs[i]) {
      ResizerNears(n, s, i);
    } else {
      OthersNear(n, s, i);
    }
  }

  lemma OthersNear(n: Naming, s: State, i: nat)
    requires i < |s.procs| && s.procs[i] != Idle && !Resizes(s.procs[i])
    ensures StepsLeft(n, NextState(n, s, i), i) < StepsLeft(n, s, i)
  {
    hide AddressOf, MoveSteps, IdsIn, Shrink, Recounted, Hand, Sees, ChainAt;
  }

  lemma ResizerNears(n: Naming, s: State, i: nat)
    requires SpaceOk(s) && HandsOk(s)
    requires i < |s.procs| && Resizes(s.procs[i]) && !s.procs[i].Moving?
    ensures StepsLeft(n, NextState(n, s, i), i) < StepsLeft(n, s, i)
  {
    hide AddressOf, SpaceOk, MoveSteps, IdsIn, Shrink, Recounted, Sees, ChainAt;
    var pc, s' := s.procs[i], NextState(n, s, i);
    if pc.WantSource? || pc.GotBoth? {
      MoveBound(n, s', pc.from, pc.to);
    } else if pc.HasHeader? {
      SameMoves(n, s, s', pc.h.from, pc.h.to);
      HandThere(s, i);
    } else if pc.WantHeader? {
      SameMoves(n, s, s', pc.h.from, pc.h.to);
    }
  }

  lemma SameMoves(n: Naming, s: State, s': State, from: nat, to: nat)
    requires s'.recs == s.recs && s'.p == s.p && s'.space.over == s.space.over
    ensures MoveSteps(n, s', from, to) == MoveSteps(n, s, from, to)
  {
    hide AddressOf;
    assert ToMove(n, s', from, to) == ToMove(n, s, from, to);
  }

  /** A step other than a mover's leaves the work of all others as it is. */
  lemma OthersNoFurther(n: Naming, s: State, s': State, i: nat, j: nat)
    requires Inv(n, s) && i < |s.procs| == |s'.procs| && j < |s.procs| && j != i && s'.procs[j] == s.procs[j]
    requires |s'.recs| <= |s.recs|
    requires !Resizes(s.procs[i]) ==> s'.recs == s.recs && s'.p == s.p && s'.space.over == s.space.over
    requires !Resizes(s.procs[i]) ==> Hand(s', j) == Hand(s, j)
    ensures StepsLeft(n, s', j) <= StepsLeft(n, s, j)
  {
    hide OneTable, LocksExclude, PcsOk, NewIsFree, RecordsOk, HoldersOk, AddressOf, InhibitCount, IsPow2;
    hide SpaceOk, Unique, ReadersOk, HandsOk, MoveSteps, Hand;
    var pc := s.procs[j];
    if Resizes(pc) {
      assert !Resizes(s.procs[i]);
      match pc {
        case WantHeader(h) => SameMoves(n, s, s', h.from, h.to);
        case HasHeader(h) => SameMoves(n, s, s', h.from, h.to);
        case Moving(from, to) => SameMoves(n, s, s', from, to);
        case _ =>
      }
    }
  }

  // ------------------------------------------------------------------------
  // A split or merge that is moving records

  /** The chain of a group, taken in hand. */
  function ChainTaken(s: State, i: nat, from: nat): State
    requires i < |s.space.hands| && from in s.space.over
  {
    s.(space := s.space.(over := s.space.over[from := {}], hands := s.space.hands[i := s.space.hands[i] + s.space.over[from]]))
  }

  lemma TakesChain(s: State, i: nat, from: nat, to: nat)
    requires SpaceOk(s) && i < |s.space.hands| && from in s.space.over
    ensures Shuffles(s, ChainTaken(s, i, from), i, from, to)
  {
    var s', own := ChainTaken(s, i, from), {InGroup(from), InGroup(to), InHand(i)};
    assert BlocksWith(s', InHand(i)) == BlocksWith(s, InHand(i)) + BlocksWith(s, InGroup(from));
    assert forall o | o != InHand(i) && o != InGroup(from) :: BlocksWith(s', o) == BlocksWith(s, o);
    forall o, q | o in own && q in own && o != q ensures !Shared(s', o, q) {
      ChainApart(s, s', i, from, o, q);
    }
    forall o, x | o in own && x in BlocksWith(s', o) ensures OwnedIn(s, own, x) {
      assert x in BlocksWith(s, o) || x in BlocksWith(s, InGroup(from));
    }
    forall x: nat | OwnedIn(s, own, x) ensures OwnedIn(s', own, x) {
      var o :| o in own && x in BlocksWith(s, o);
      assert x in BlocksWith(s', if o == InGroup(from) then InHand(i) else o);
    }
  }

  lemma ChainApart(s: State, s': State, i: nat, from: nat, o: Owner, q: Owner)
    requires SpaceOk(s) && i < |s.space.hands| && from in s.space.over && s' == ChainTaken(s, i, from) && o != q
    ensures !Shared(s', o, q)
  {
    assert BlocksWith(s', InHand(i)) == BlocksWith(s, InHand(i)) + BlocksWith(s, InGroup(from));
    assert BlocksWith(s', InGroup(from)) == {};
    assert forall r | r != InHand(i) && r != InGroup(from) :: BlocksWith(s', r) == BlocksWith(s, r);
    forall x ensures !(x in BlocksWith(s', o) && x in BlocksWith(s', q)) {
      var a := if o == InHand(i) && x in BlocksWith(s, InGroup(from)) then InGroup(from) else o;
      var b := if q == InHand(i) && x in BlocksWith(s, InGroup(from)) then InGroup(from) else q;
      if o != InGroup(from) && q != InGroup(from) {
        assert (x in BlocksWith(s', o) ==> x in BlocksWith(s, a)) && (x in BlocksWith(s', q) ==> x in BlocksWith(s, b));
        assert !Shared(s, a, b);
      }
    }
  }

  /** It moves a record, takes up what is left of a chain, gets ready to give back blocks, or ends. */
  lemma MoverSteps(n: Naming, s: State, i: nat) returns (s': State)
    requires Inv(n, s) && i < |s.procs| && s.procs[i].Moving?
    ensures Next(n, s, s', i) && StepsLeft(n, s', i) < StepsLeft(n, s, i) && s'.p == s.p && |s'.recs| <= |s.recs|
    ensures !Folds(s'.procs[i])
  {
    hide OneTable, LocksExclude, OneResize, NewIsFree, RecordsOk, HoldersOk, AddressOf, InhibitCount, IsPow2;
    hide Unique, ReadersOk, HandsOk, Reassigns, BlocksWith, MoveSteps, Hand, SpaceOk;
    var from, to := s.procs[i].from, s.procs[i].to;
    if !NoneToMove(n, s, from, to) {
      s' := MovesRecord(n, s, i);
    } else if ChainLeft(s, from) {
      s' := MovesChain(n, s, i);
    } else {
      s' := s.(procs := s.procs[i := if Hand(s, i) == {} then FreedFrom(to) else WantHeader(MoveLocks(from, to))]);
      assert Same(s, s');
      SameMoves(n, s, s', from, to);
    }
  }

  lemma MovesRecord(n: Naming, s: State, i: nat) returns (s': State)
    requires Inv(n, s) && i < |s.procs| && s.procs[i].Moving? && !NoneToMove(n, s, s.procs[i].from, s.procs[i].to)
    ensures Next(n, s, s', i) && StepsLeft(n, s', i) < StepsLeft(n, s, i) && s'.p == s.p && |s'.recs| <= |s.recs|
    ensures !Folds(s'.procs[i])
  {
    hide OneTable, LocksExclude, OneResize, NewIsFree, RecordsOk, HoldersOk, AddressOf, InhibitCount, IsPow2, SpaceOk;
    hide ReadersOk, HandsOk, Reassigns, Shuffles, Unique;
    var from, to := s.procs[i].from, s.procs[i].to;
    assert PcOk(n, s, s.procs[i]) && MayMove(s.procs[i], from, to);
    var id :| Sees(s, id, from) && AddressOf(n, s.p, id) == to;
    s' := s.(recs := (s.recs - {(from, id)})[(to, id) := s.recs[(from, id)]]);
    assert s'.procs == s.procs[i := s'.procs[i]];
    assert RecordMoved(s, s', from, to, id);
    assert MovesOne(n, s, s', from, to);
    OneFewer(n, s, s', from, to, id);
  }

  lemma OneFewer(n: Naming, s: State, s': State, from: nat, to: nat, id: Id)
    requires Sees(s, id, from) && AddressOf(n, s.p, id) == to && from != to && s'.p == s.p && s'.space == s.space
    requires RecordMoved(s, s', from, to, id)
    ensures MoveSteps(n, s', from, to) == MoveSteps(n, s, from, to) - 4 && |s'.recs| <= |s.recs|
  {
    hide AddressOf;
    assert ToMove(n, s', from, to) == ToMove(n, s, from, to) - {(from, id)};
    assert s'.recs.Keys == s.recs.Keys - {(from, id)} + {(to, id)};
    assert BlocksWith(s', InGroup(from)) == BlocksWith(s, InGroup(from));
  }

  lemma MovesChain(n: Naming, s: State, i: nat) returns (s': State)
    requires Inv(n, s) && i < |s.procs| && s.procs[i].Moving? && ChainLeft(s, s.procs[i].from)
    ensures Next(n, s, s', i) && StepsLeft(n, s', i) < StepsLeft(n, s, i) && s'.p == s.p && s'.recs == s.recs
  {
    hide OneTable, LocksExclude, OneResize, NewIsFree, RecordsOk, HoldersOk, AddressOf, InhibitCount, IsPow2, SpaceOk;
    hide ReadersOk, HandsOk, Reassigns, Shuffles, Unique, PcsOk, NoneToMove, MovesOne;
    var from, to := s.procs[i].from, s.procs[i].to;
    HandThere(s, i);
    s' := ChainTaken(s, i, from);
    assert s'.procs == s.procs[i := s'.procs[i]];
    TakesChain(s, i, from, to);
    assert ToMove(n, s', from, to) == ToMove(n, s, from, to);
  }

  lemma HandThere(s: State, i: nat)
    requires SpaceOk(s) && i < |s.procs|
    ensures i < |s.space.hands|
  {
  }

  // ------------------------------------------------------------------------
  // No deadlock

  /** A process that waits for nobody can make a step that brings it nearer to being idle. */
  lemma Unblocked(n: Naming, s: State, i: nat) returns (s': State)
    requires Inv(n, s) && i < |s.procs| && s.procs[i] != Idle
    requires forall j | 0 <= j < |s.procs| :: !Waits(s, i, j)
    ensures Next(n, s, s', i) && Nears(n, s, s', i)
  {
    hide Inv, Waits, StepsLeft, NextPc, Local, Hand;
    if s.procs[i].Moving? {
      s' := MoverSteps(n, s, i);
    } else {
      s' := NextState(n, s, i);
      NoFold(n, s, i);
      StepsThere(n, s, i);
      NearsThere(n, s, i);
    }
    forall j | 0 <= j < |s.procs| && j != i ensures StepsLeft(n, s', j) <= StepsLeft(n, s, j) {
      if !Resizes(s.procs[i]) {
        SameHand(s, s', i, j);
      }
      OthersNoFurther(n, s, s', i, j);
    }
  }

  lemma NoFold(n: Naming, s: State, i: nat)
    requires i < |s.procs| && !s.procs[i].Moving?
    ensures Folds(NextPc(n, s, i)) ==> Folds(s.procs[i])
  {
    hide AddressOf, IdsIn;
  }

  lemma SameHand(s: State, s': State, i: nat, j: nat)
    requires i != j && (s'.space == s.space || s'.space == Emptied(s.space, i))
    ensures Hand(s', j) == Hand(s, j) && s'.space.over == s.space.over
  {
  }

  /** As long as any process has work to finish, some such process can make a step. */
  lemma {:induction false} SomeoneMoves(n: Naming, s: State, i: nat) returns (j: nat, s': State)
    requires Inv(n, s) && i < |s.procs| && s.procs[i] != Idle
    ensures j < |s.procs| && s.procs[j] != Idle && Next(n, s, s', j) && Nears(n, s, s', j)
    decreases 4 - LockOrder(s.procs[i])
  {
    hide Inv, Next, Waits, LockOrder, Nears;
    if k: nat :| k < |s.procs| && Waits(s, i, k) {
      WaitsUpward(n, s, i, k);
      RankBound(s.procs[k]);
      j, s' := SomeoneMoves(n, s, k);
    } else {
      j := i;
      s' := Unblocked(n, s, i);
    }
  }

  lemma RankBound(pc: Pc)
    ensures LockOrder(pc) <= 4
  {
  }

  /** No reachable state is a deadlock, if every lock that nobody holds incompatibly is granted.
      LockTheorems.NoDeadlock puts the lock table in the place of that hypothesis. */
  lemma NoDeadlock(n: Naming, states: seq<State>, who: seq<nat>, k: nat, i: nat) returns (j: nat, s': State)
    requires IsRun(n, states, who) && k < |states| && i < |states[k].procs| && states[k].procs[i] != Idle
    ensures j < |states[k].procs| && states[k].procs[j] != Idle && Next(n, states[k], s', j)
  {
    hide IsRun, Inv, Next;
    RunKeeps(n, states, who, k);
    j, s' := SomeoneMoves(n, states[k], i);
  }
}
