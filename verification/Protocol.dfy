/** Many processes sharing one file. Each takes the file table lock, group locks, and the lock
    on group 0 that guards the file header, in the order the file engine does; a split or a
    merge moves records one at a time between two groups it has locked. Overflow blocks pass
    between the free chain, the groups, the large records, and the processes that have taken
    them or not yet released them. */
module Protocol {
  import opened Addressing
  import opened Blocks
  import opened Tables

  /** How far a select has come: the group it is on or comes to next, the ids it has listed, and the
      update count when it began. */
  datatype Tour = Tour(g: nat, listed: multiset<Id>, since: nat)

  /** Why a process wants the file table lock. */
  datatype Goal =
    | Keyed(id: Id, write: bool)
    | Count(change: int)
    | SplitGoal
    | MergeGoal
    | SelectGoal
    | ScanGoal(tour: Tour)
    | StoreGoal(tour: Tour)
    | EndGoal

  /** What a process holds when it asks for the header lock. */
  datatype Errand = Nothing | Finishing(change: int) | KeyedLock(id: Id, g: nat) | MoveLocks(from: nat, to: nat)

  /** Where a process is. */
  datatype Pc =
    | Idle
    | Prepared                                 // has written a large record's chain
    | WantTable(goal: Goal)
    | HasTable(goal: Goal)
    | WantGroup(id: Id, write: bool, g: nat)   // holds the file table lock
    | GotGroup(id: Id, write: bool, g: nat)    // holds it still
    | Working(id: Id, write: bool, g: nat)
    | Worked(id: Id, write: bool, g: nat, seen: bool, chain: set<nat>, change: int)
    | WantHeader(h: Errand)
    | HasHeader(h: Errand)
    | WantNew(from: nat, to: nat)              // holds the file table lock
    | GotNew(from: nat, to: nat)               // holds it still
    | WantSource(from: nat, to: nat)
    | WantTarget(from: nat, to: nat)           // holds the file table lock
    | WantLast(from: nat, to: nat)             // holds it still
    | GotBoth(from: nat, to: nat)              // holds it still
    | Moving(from: nat, to: nat)
    | FreedFrom(to: nat)
    | Selecting(tour: Tour)
    | WantScan(tour: Tour)                     // holds the file table lock
    | GotScan(tour: Tour)                      // holds it still
    | Scanning(tour: Tour)

  /** A record: its data, and the blocks of its chain if it is a large one. */
  datatype Rec = Rec(data: Data, chain: set<nat>)

  /** The overflow blocks: those of each group's chain, the free ones, how many there are, and
      those that each process has in hand. */
  datatype Space = Space(over: map<nat, set<nat>>, free: set<nat>, size: nat, hands: seq<set<nat>>)

  /** What the file header counts: updates, and records unless that number is negative. */
  datatype Counts = Counts(updates: nat, records: int)

  /** The shared state: file parameters, inhibit count, counts, the records of each group, and the
      overflow blocks. Nothing in it keeps an id from lying in two groups. */
  datatype State = State(p: Params, inhibit: int, counts: Counts, recs: map<(nat, Id), Rec>, space: Space, procs: seq<Pc>)

  // ------------------------------------------------------------------------
  // Blocks

  /** Where an overflow block can be. */
  datatype Owner = Free | InGroup(g: nat) | InRecord(g: nat, id: Id) | InHand(i: nat)

  function ChainAt(s: State, g: nat, id: Id): set<nat> {
    if (g, id) in s.recs then s.recs[(g, id)].chain else {}
  }

  function BlocksWith(s: State, o: Owner): set<nat> {
    match o
    case Free => s.space.free
    case InGroup(g) => if g in s.space.over then s.space.over[g] else {}
    case InRecord(g, id) => ChainAt(s, g, id)
    case InHand(i) => if i < |s.space.hands| then s.space.hands[i] else {}
  }

  ghost predicate Shared(s: State, o: Owner, q: Owner) {
    exists x :: x in BlocksWith(s, o) && x in BlocksWith(s, q)
  }

  ghost predicate HasOwner(s: State, x: nat) {
    exists o :: x in BlocksWith(s, o)
  }

  /** Every overflow block is in exactly one place. */
  ghost predicate SpaceOk(s: State) {
    && |s.space.hands| == |s.procs|
    && (forall o, q | o != q :: !Shared(s, o, q))
    && (forall o, x | x in BlocksWith(s, o) :: 1 <= x <= s.space.size)
    && (forall x | 1 <= x <= s.space.size :: HasOwner(s, x))
  }

  ghost predicate OwnedIn(s: State, own: set<Owner>, x: nat) {
    exists o :: o in own && x in BlocksWith(s, o)
  }

  /** Blocks are handed round among some owners; the file may have got more blocks. */
  ghost predicate Reassigns(s: State, s': State, own: set<Owner>) {
    && |s'.space.hands| == |s.space.hands| && s'.space.size >= s.space.size
    && (forall o | o !in own :: BlocksWith(s', o) == BlocksWith(s, o))
    && (forall o, q | o in own && q in own && o != q :: !Shared(s', o, q))
    && (forall o, x | o in own && x in BlocksWith(s', o) :: OwnedIn(s, own, x) || s.space.size < x <= s'.space.size)
    && (forall x: nat | OwnedIn(s, own, x) || s.space.size < x <= s'.space.size :: OwnedIn(s', own, x))
  }

  // ------------------------------------------------------------------------
  // Locks, as the program points tell

  predicate HoldsTable(pc: Pc) {
    || pc.HasTable? || pc.WantGroup? || pc.GotGroup? || pc.WantNew? || pc.GotNew? || pc.WantTarget? || pc.WantLast? || pc.GotBoth?
    || pc.WantScan? || pc.GotScan?
  }

  predicate HoldsWrite(pc: Pc, g: nat) {
    match pc
    case GotGroup(_, write, g0) => write && g == g0
    case Working(_, write, g0) => write && g == g0
    case Worked(_, write, g0, _, _, _) => write && g == g0
    case WantHeader(h) => HoldingWrites(h, g)
    case HasHeader(h) => g == 0 || HoldingWrites(h, g)
    case GotNew(_, to) => g == to
    case WantSource(_, to) => g == to
    case WantLast(_, to) => g == to
    case GotBoth(from, to) => g == from || g == to
    case Moving(from, to) => g == from || g == to
    case FreedFrom(to) => g == to
    case _ => false
  }

  predicate HoldingWrites(h: Errand, g: nat) {
    match h
    case Nothing => false
    case Finishing(_) => false
    case KeyedLock(_, g0) => g == g0
    case MoveLocks(from, to) => g == from || g == to
  }

  predicate HoldsRead(pc: Pc, g: nat) {
    match pc
    case GotGroup(_, write, g0) => !write && g == g0
    case Working(_, write, g0) => !write && g == g0
    case Worked(_, write, g0, _, _, _) => !write && g == g0
    case GotScan(tour) => g == tour.g
    case Scanning(tour) => g == tour.g
    case _ => false
  }

  predicate Holds(pc: Pc, g: nat) {
    HoldsWrite(pc, g) || HoldsRead(pc, g)
  }

  ghost predicate TableFree(s: State) {
    forall j | 0 <= j < |s.procs| :: !HoldsTable(s.procs[j])
  }

  /** Nobody else holds the lock in a way that excludes this mode. A step takes such a lock at once; the
      lock table may refuse it all the same (module LockTheorems). */
  ghost predicate CanLock(s: State, i: nat, g: nat, write: bool) {
    forall j | 0 <= j < |s.procs| && j != i :: !HoldsWrite(s.procs[j], g) && (write ==> !HoldsRead(s.procs[j], g))
  }

  /** A select between two groups, or on its way to one, or on one. */
  predicate Selects(pc: Pc) {
    match pc
    case WantTable(goal) => goal.ScanGoal? || goal.StoreGoal?
    case HasTable(goal) => goal.ScanGoal? || goal.StoreGoal?
    case _ => pc.Selecting? || pc.WantScan? || pc.GotScan? || pc.Scanning?
  }

  /** The process counts in the inhibit count. */
  predicate Inhibits(pc: Pc) {
    match pc
    case WantTable(goal) => goal.EndGoal? || goal.ScanGoal? || goal.StoreGoal?
    case HasTable(goal) => goal.EndGoal? || goal.ScanGoal? || goal.StoreGoal?
    case WantHeader(h) => h.MoveLocks?
    case HasHeader(h) => h.MoveLocks?
    case _ => pc.GotNew? || pc.WantSource? || pc.GotBoth? || pc.Moving? || pc.FreedFrom? || Selects(pc)
  }

  function TourOf(pc: Pc): Tour
    requires Selects(pc)
  {
    if pc.WantTable? || pc.HasTable? then pc.goal.tour else pc.tour
  }

  /** The ids of the records in a group. */
  function IdsIn(s: State, g: nat): set<Id> {
    set k | k in s.recs && k.0 == g :: k.1
  }

  // ------------------------------------------------------------------------
  // Steps

  /** What a search of group `g` sees of an id. */
  predicate Sees(s: State, id: Id, g: nat) {
    (g, id) in s.recs
  }

  ghost predicate Same(s: State, s': State) {
    s'.p == s.p && s'.inhibit == s.inhibit && s'.counts == s.counts && s'.recs == s.recs && s'.space == s.space
  }

  ghost predicate Inhibited(s: State, s': State, change: int) {
    Same(s.(inhibit := s.inhibit + change), s')
  }

  /** An update is counted. */
  ghost predicate Updated(s: State, s': State) {
    Same(s.(counts := s.counts.(updates := s.counts.updates + 1)), s')
  }

  /** The record count once a write or delete has been counted. It stays unknown if it was, and it
      is kept from falling below zero. */
  function Recounted(records: int, change: int): int {
    if records < 0 then records else if records + change < 0 then 0 else records + change
  }

  /** Under the header lock a process takes blocks from the free chain or the end of the file, and
      gives blocks to the free chain. */
  ghost predicate Allots(s: State, s': State, i: nat) {
    s'.p == s.p && s'.inhibit == s.inhibit && s'.counts == s.counts && s'.recs == s.recs && Reassigns(s, s', {Free, InHand(i)})
  }

  ghost predicate OnlyAt(s: State, s': State, id: Id, g: nat) {
    forall k | k != (g, id) :: (k in s'.recs <==> k in s.recs) && (k in s.recs ==> s'.recs[k] == s.recs[k])
  }

  /** What a keyed operation may do while it holds its group lock. A writer puts, replaces or
      removes the record of its id in that group; blocks pass between the group, the record, and
      the writer's hand. */
  ghost predicate Works(s: State, s': State, i: nat, id: Id, write: bool, g: nat) {
    && s'.p == s.p && s'.inhibit == s.inhibit && s'.counts == s.counts
    && if write then
         OnlyAt(s, s', id, g) && s'.space.size == s.space.size && Reassigns(s, s', {InGroup(g), InRecord(g, id), InHand(i)})
       else s'.recs == s.recs && s'.space == s.space
  }

  /** A split or merge moves a record, with its chain, to the group it is addressed to. */
  ghost predicate MovesOne(n: Naming, s: State, s': State, from: nat, to: nat) {
    && s'.p == s.p && s'.inhibit == s.inhibit && s'.counts == s.counts && s'.space == s.space
    && exists id :: Sees(s, id, from) && AddressOf(n, s.p, id) == to && RecordMoved(s, s', from, to, id)
  }

  ghost predicate RecordMoved(s: State, s': State, from: nat, to: nat, id: Id)
    requires Sees(s, id, from)
  {
    s'.recs == (s.recs - {(from, id)})[(to, id) := s.recs[(from, id)]]
  }

  /** Its blocks pass between the two groups and its hand. */
  ghost predicate Shuffles(s: State, s': State, i: nat, from: nat, to: nat) {
    && s'.p == s.p && s'.inhibit == s.inhibit && s'.counts == s.counts && s'.recs == s.recs && s'.space.size == s.space.size
    && Reassigns(s, s', {InGroup(from), InGroup(to), InHand(i)})
  }

  /** No record in `from` is addressed to `to`. */
  ghost predicate NoneToMove(n: Naming, s: State, from: nat, to: nat) {
    forall id | Sees(s, id, from) :: AddressOf(n, s.p, id) != to
  }

  /** The mover has nothing left in hand; and if the group is no longer one of the file, nothing of its
      chain is left. */
  ghost predicate AllTaken(s: State, i: nat, from: nat) {
    Hand(s, i) == {} && (from > s.p.modulus ==> BlocksWith(s, InGroup(from)) == {})
  }

  /** What a process can set out to do. */
  predicate Begins(goal: Goal) {
    goal.Keyed? || goal.SplitGoal? || goal.MergeGoal? || goal.SelectGoal?
  }

  /** A select that has come to its end puts the number of ids it has listed in the file header. */
  ghost predicate StoresCount(s: State, s': State, records: nat) {
    Same(s.(inhibit := s.inhibit - 1, counts := s.counts.(records := records)), s')
  }

  function Hand(s: State, i: nat): set<nat> {
    BlocksWith(s, InHand(i))
  }

  function Back(h: Errand): Pc {
    match h
    case Nothing => Prepared
    case Finishing(change) => WantTable(Count(change))
    case KeyedLock(id, g) => Working(id, true, g)
    case MoveLocks(from, to) => Moving(from, to)
  }

  /** One step of process `i`, from `pc` to `pc'`. */
  ghost predicate Local(n: Naming, s: State, s': State, i: nat, pc: Pc, pc': Pc) {
    match pc
    case Idle =>
      && Same(s, s')
      && (pc' == WantHeader(Nothing) || (pc'.WantTable? && Begins(pc'.goal)))
    case Prepared => Same(s, s') && (pc' == WantHeader(Nothing) || (pc'.WantTable? && pc'.goal.Keyed? && pc'.goal.write))
    case WantTable(goal) => Same(s, s') && TableFree(s) && pc' == HasTable(goal)
    case HasTable(Keyed(id, write)) => Same(s, s') && pc' == WantGroup(id, write, AddressOf(n, s.p, id))
    case HasTable(Count(change)) =>
      Same(s.(counts := s.counts.(records := Recounted(s.counts.records, change))), s') && pc' == Idle
    case HasTable(SplitGoal) =>
      || (Same(s, s') && pc' == Idle)
      || (s.inhibit == 0 && Same(s.(p := Grow(s.p)), s')
          && Buddy(s'.p) >= 0 && pc' == WantNew(Buddy(s'.p), s'.p.modulus))
    case HasTable(MergeGoal) =>
      || (Same(s, s') && pc' == Idle)
      || (s.inhibit == 0 && s.p.modulus >= 2 && Same(s, s') && Buddy(s.p) >= 0 && pc' == WantTarget(s.p.modulus, Buddy(s.p)))
    case HasTable(SelectGoal) => Inhibited(s, s', 1) && pc' == Selecting(Tour(1, multiset{}, s.counts.updates))
    case HasTable(ScanGoal(tour)) => Same(s, s') && pc' == WantScan(tour)
    case HasTable(StoreGoal(tour)) =>
      && pc' == Idle
      && (Inhibited(s, s', -1) || (tour.since == s.counts.updates && StoresCount(s, s', |tour.listed|)))
    case HasTable(EndGoal) => Inhibited(s, s', -1) && pc' == Idle
    case WantGroup(id, write, g) =>
      (if write then Updated(s, s') else Same(s, s')) && CanLock(s, i, g, write) && pc' == GotGroup(id, write, g)
    case GotGroup(id, write, g) => Same(s, s') && pc' == Working(id, write, g)
    case Working(id, write, g) =>
      || (Works(s, s', i, id, write, g) && pc' == Worked(id, write, g, Sees(s, id, g), ChainAt(s, g, id), |s'.recs| - |s.recs|))
      || (write && Same(s, s') && pc' == WantHeader(KeyedLock(id, g)))
    case Worked(_, write, _, _, _, change) =>
      Same(s, s') && pc' == if !write then Idle else if Hand(s, i) == {} then WantTable(Count(change)) else WantHeader(Finishing(change))
    case WantHeader(h) => Same(s, s') && CanLock(s, i, 0, true) && pc' == HasHeader(h)
    case HasHeader(h) => Allots(s, s', i) && (h.Finishing? ==> Hand(s', i) == {}) && pc' == Back(h)
    case WantNew(from, to) => Inhibited(s, s', 1) && CanLock(s, i, to, true) && pc' == GotNew(from, to)
    case GotNew(from, to) => Same(s, s') && pc' == WantSource(from, to)
    case WantSource(from, to) => Same(s, s') && CanLock(s, i, from, true) && pc' == Moving(from, to)
    case WantTarget(from, to) => Same(s, s') && CanLock(s, i, to, true) && pc' == WantLast(from, to)
    case WantLast(from, to) =>
      && s.p.modulus >= 1 && Same(s.(p := Shrink(s.p), inhibit := s.inhibit + 1), s')
      && CanLock(s, i, from, true) && pc' == GotBoth(from, to)
    case GotBoth(from, to) => Same(s, s') && pc' == Moving(from, to)
    case Moving(from, to) =>
      || (MovesOne(n, s, s', from, to) && pc' == pc)
      || (Shuffles(s, s', i, from, to) && pc' == pc)
      || (Same(s, s') && pc' == WantHeader(MoveLocks(from, to)))
      || (Same(s, s') && NoneToMove(n, s, from, to) && AllTaken(s, i, from) && pc' == FreedFrom(to))
    case FreedFrom(_) => Same(s, s') && pc' == WantTable(EndGoal)
    case Selecting(tour) =>
      && Same(s, s')
      && (pc' == WantTable(EndGoal) || pc' == WantTable(if tour.g <= s.p.modulus then ScanGoal(tour) else StoreGoal(tour)))
    case WantScan(tour) => Same(s, s') && CanLock(s, i, tour.g, false) && pc' == GotScan(tour)
    case GotScan(tour) => Same(s, s') && pc' == Scanning(tour)
    case Scanning(tour) =>
      Same(s, s') && pc' == Selecting(Tour(tour.g + 1, tour.listed + multiset(IdsIn(s, tour.g)), tour.since))
  }

  ghost predicate Next(n: Naming, s: State, s': State, i: nat) {
    && i < |s.procs| && |s'.procs| == |s.procs|
    && s'.procs == s.procs[i := s'.procs[i]]
    && Local(n, s, s', i, s.procs[i], s'.procs[i])
  }

  ghost predicate Init(n: Naming, s: State) {
    && s.p.Valid() && s.inhibit == 0 && SpaceOk(s) && (s.counts.records < 0 || s.counts.records == |s.recs|)
    && (forall i | 0 <= i < |s.procs| :: Hand(s, i) == {})
    && (forall g: nat | BlocksWith(s, InGroup(g)) != {} :: 1 <= g <= s.p.modulus)
    && (forall i | 0 <= i < |s.procs| :: s.procs[i] == Idle)
    && forall k | k in s.recs :: k.0 == AddressOf(n, s.p, k.1)
  }

  // ------------------------------------------------------------------------
  // The invariant

  function InhibitCount(procs: seq<Pc>): nat {
    if procs == [] then 0 else (if Inhibits(procs[0]) then 1 else 0) + InhibitCount(procs[1..])
  }

  ghost predicate OneTable(s: State) {
    forall i, j | 0 <= i < |s.procs| && 0 <= j < |s.procs| && HoldsTable(s.procs[i]) && HoldsTable(s.procs[j]) :: i == j
  }

  ghost predicate LocksExclude(s: State) {
    forall i, j, g: nat | 0 <= i < |s.procs| && 0 <= j < |s.procs| && i != j :: !(HoldsWrite(s.procs[i], g) && Holds(s.procs[j], g))
  }

  /** A split or a merge from the moment its parameters are decided until its locks are free. */
  predicate Resizes(pc: Pc) {
    match pc
    case WantHeader(h) => h.MoveLocks?
    case HasHeader(h) => h.MoveLocks?
    case _ =>
      pc.WantNew? || pc.GotNew? || pc.WantSource? || pc.WantTarget? || pc.WantLast? || pc.GotBoth? || pc.Moving? || pc.FreedFrom?
  }

  ghost predicate OneResize(s: State) {
    forall i, j | 0 <= i < |s.procs| && 0 <= j < |s.procs| && Resizes(s.procs[i]) && Resizes(s.procs[j]) :: i == j
  }

  /** The addresses have changed, and records of `from` that are now addressed to `to` may not
      have been moved yet. */
  predicate MayMove(pc: Pc, from: nat, to: nat) {
    match pc
    case WantNew(f, t) => f == from && t == to
    case GotNew(f, t) => f == from && t == to
    case WantSource(f, t) => f == from && t == to
    case GotBoth(f, t) => f == from && t == to
    case Moving(f, t) => f == from && t == to
    case WantHeader(h) => h == MoveLocks(from, to)
    case HasHeader(h) => h == MoveLocks(from, to)
    case _ => false
  }

  /** A split that has not locked the group it divides. */
  predicate EarlySplit(pc: Pc, from: nat, to: nat) {
    match pc
    case WantNew(f, t) => f == from && t == to
    case GotNew(f, t) => f == from && t == to
    case WantSource(f, t) => f == from && t == to
    case _ => false
  }

  predicate HoldsFor(pc: Pc, id: Id, g: nat) {
    match pc
    case GotGroup(id0, _, g0) => id == id0 && g == g0
    case Working(id0, _, g0) => id == id0 && g == g0
    case Worked(id0, _, g0, _, _, _) => id == id0 && g == g0
    case WantHeader(h) => h == KeyedLock(id, g)
    case HasHeader(h) => h == KeyedLock(id, g)
    case _ => false
  }

  ghost predicate PcOk(n: Naming, s: State, pc: Pc) {
    && (forall id, g: nat :: HoldsFor(pc, id, g) ==> g >= 1)
    && (forall from: nat, to: nat :: MayMove(pc, from, to) ==> from >= 1 && to >= 1 && from != to)
    && (forall from: nat, to: nat :: EarlySplit(pc, from, to) ==> from < to)
    && PlanOk(n, s, pc)
  }

  /** What a process that holds the file table lock has found out is still so. */
  ghost predicate PlanOk(n: Naming, s: State, pc: Pc) {
    match pc
    case WantGroup(id, _, g) => g == AddressOf(n, s.p, id) && g >= 1
    case WantTarget(from, to) => from == s.p.modulus && to == Buddy(s.p) && s.p.modulus >= 2 && s.inhibit == 0 && to >= 1 && from != to
    case WantLast(from, to) => from == s.p.modulus && to == Buddy(s.p) && s.p.modulus >= 2 && s.inhibit == 0 && to >= 1 && from != to
    case FreedFrom(to) => to >= 1
    case _ => Selects(pc) ==> TourOf(pc).g >= 1
  }

  ghost predicate PcsOk(n: Naming, s: State) {
    forall i | 0 <= i < |s.procs| :: PcOk(n, s, s.procs[i])
  }

  ghost predicate SomeMayMove(s: State, from: nat, to: nat) {
    exists i :: 0 <= i < |s.procs| && MayMove(s.procs[i], from, to)
  }

  ghost predicate SomeEarlySplit(s: State, from: nat, to: nat) {
    exists i :: 0 <= i < |s.procs| && EarlySplit(s.procs[i], from, to)
  }

  /** No id lies in two groups. */
  ghost predicate Unique(s: State) {
    forall id, g: nat, h: nat | Sees(s, id, g) && Sees(s, id, h) :: g == h
  }

  /** Where a record may be. */
  ghost predicate RecordOk(n: Naming, s: State, id: Id, g: nat) {
    g == AddressOf(n, s.p, id) || SomeMayMove(s, g, AddressOf(n, s.p, id))
  }

  ghost predicate RecordsOk(n: Naming, s: State) {
    forall id, g: nat | Sees(s, id, g) :: RecordOk(n, s, id, g)
  }

  /** What holding a group lock for an id gives. */
  ghost predicate HolderOk(n: Naming, s: State, id: Id, g: nat) {
    && (forall h: nat | Sees(s, id, h) :: h == g)
    && (g == AddressOf(n, s.p, id) || SomeEarlySplit(s, g, AddressOf(n, s.p, id)))
  }

  /** A reader that still has its lock knows the record's chain as it is. */
  ghost predicate ReadersOk(s: State) {
    forall i | 0 <= i < |s.procs| && s.procs[i].Worked? && !s.procs[i].write :: ReaderOk(s, s.procs[i])
  }

  ghost predicate ReaderOk(s: State, pc: Pc)
    requires pc.Worked?
  {
    pc.chain == ChainAt(s, pc.g, pc.id) && (pc.seen <==> Sees(s, pc.id, pc.g))
  }

  ghost predicate HoldersOk(n: Naming, s: State) {
    forall i, id, g: nat | 0 <= i < |s.procs| && HoldsFor(s.procs[i], id, g) :: HolderOk(n, s, id, g)
  }

  /** Nobody holds the lock a split is about to take on the group it adds. */
  ghost predicate NewIsFree(s: State) {
    forall i, j | 0 <= i < |s.procs| && 0 <= j < |s.procs| && s.procs[i].WantNew? :: !Holds(s.procs[j], s.procs[i].to)
  }

  /** A process that has nothing to put in a chain, and nothing left to release. */
  predicate HandFree(pc: Pc) {
    match pc
    case Prepared => false
    case WantTable(goal) => !(goal.Keyed? && goal.write)
    case HasTable(goal) => !(goal.Keyed? && goal.write)
    case WantGroup(_, write, _) => !write
    case GotGroup(_, write, _) => !write
    case Working(_, write, _) => !write
    case Worked(_, write, _, _, _, _) => !write
    case WantHeader(_) => false
    case HasHeader(_) => false
    case Moving(_, _) => false
    case _ => true
  }

  ghost predicate HandsOk(s: State) {
    forall i | 0 <= i < |s.procs| && HandFree(s.procs[i]) :: Hand(s, i) == {}
  }

  ghost predicate Inv(n: Naming, s: State) {
    && s.p.Valid()
    && OneTable(s)
    && LocksExclude(s)
    && s.inhibit == InhibitCount(s.procs)
    && OneResize(s)
    && PcsOk(n, s)
    && NewIsFree(s)
    && RecordsOk(n, s)
    && HoldersOk(n, s)
    && Unique(s)
    && ReadersOk(s)
    && SpaceOk(s)
    && HandsOk(s)
  }

  // ------------------------------------------------------------------------
  // Every step keeps it

  lemma {:induction false} InhibitUpdate(procs: seq<Pc>, i: nat, pc: Pc)
    requires i < |procs|
    ensures InhibitCount(procs[i := pc])
            == InhibitCount(procs) - (if Inhibits(procs[i]) then 1 else 0) + (if Inhibits(pc) then 1 else 0)
  {
    if i == 0 {
      assert procs[0 := pc][1..] == procs[1..];
    } else {
      assert procs[i := pc][1..] == procs[1..][i - 1 := pc];
      InhibitUpdate(procs[1..], i - 1, pc);
    }
  }

  lemma {:induction false} NoneInhibits(procs: seq<Pc>)
    ensures InhibitCount(procs) == 0 <==> forall i | 0 <= i < |procs| :: !Inhibits(procs[i])
  {
    if procs != [] {
      NoneInhibits(procs[1..]);
      assert forall i | 0 < i < |procs| :: procs[i] == procs[1..][i - 1];
      assert forall i | 0 <= i < |procs[1..]| :: procs[1..][i] == procs[i + 1];
    }
  }

  /** The parameters change only under the file table lock. */
  lemma ParamsKept(n: Naming, s: State, s': State, i: nat)
    requires Inv(n, s) && Next(n, s, s', i)
    ensures s'.p.Valid()
    ensures s'.p != s.p ==> HoldsTable(s.procs[i])
  {
    hide OneTable, LocksExclude, OneResize, NewIsFree, RecordsOk, HoldersOk, AddressOf, InhibitCount, IsPow2, PcOk;
    hide SpaceOk, Unique, ReadersOk, HandsOk, Reassigns;
    var pc := s.procs[i];
    if s'.p != s.p {
      if pc.HasTable? {
        GrowMovesOneGroup(0, s.p);
      } else {
        OkAt(n, s, i);
        ShrinkFoldsLastGroup(0, s.p);
      }
    }
  }

  lemma OkAt(n: Naming, s: State, i: nat)
    requires PcsOk(n, s) && i < |s.procs|
    ensures PcOk(n, s, s.procs[i])
    ensures s.procs[i].WantLast? ==> s.p.modulus >= 2
  {
  }

  lemma TableKept(n: Naming, s: State, s': State, i: nat)
    requires Inv(n, s) && Next(n, s, s', i)
    ensures OneTable(s')
  {
    hide LocksExclude, OneResize, NewIsFree, RecordsOk, HoldersOk, AddressOf, InhibitCount, IsPow2, PcsOk, CanLock;
    hide Works, MovesOne, NoneToMove, SpaceOk, Unique, ReadersOk, HandsOk, Reassigns;
  }

  /** A process that has a lock it did not have could take it. */
  lemma TakesLock(n: Naming, s: State, s': State, i: nat, g: nat)
    requires Next(n, s, s', i)
    ensures HoldsWrite(s'.procs[i], g) ==> HoldsWrite(s.procs[i], g) || CanLock(s, i, g, true)
    ensures HoldsRead(s'.procs[i], g) ==> HoldsRead(s.procs[i], g) || CanLock(s, i, g, false)
  {
    hide AddressOf, Works, MovesOne, NoneToMove, Reassigns, Shuffles, Allots, Same, Inhibited, TableFree, CanLock, IdsIn;
  }

  lemma LocksKept(n: Naming, s: State, s': State, i: nat)
    requires Inv(n, s) && Next(n, s, s', i)
    ensures LocksExclude(s')
  {
    hide OneTable, OneResize, NewIsFree, RecordsOk, HoldersOk, AddressOf, InhibitCount, IsPow2, PcsOk, Local;
    hide SpaceOk, Unique, ReadersOk, HandsOk, HoldsWrite, HoldsRead;
    forall a, b, g: nat | 0 <= a < |s'.procs| && 0 <= b < |s'.procs| && a != b
      ensures !(HoldsWrite(s'.procs[a], g) && Holds(s'.procs[b], g))
    {
      TakesLock(n, s, s', i, g);
      assert !(HoldsWrite(s.procs[a], g) && Holds(s.procs[b], g)) && !(HoldsWrite(s.procs[b], g) && Holds(s.procs[a], g));
    }
  }

  lemma InhibitKept(n: Naming, s: State, s': State, i: nat)
    requires Inv(n, s) && Next(n, s, s', i)
    ensures s'.inhibit == InhibitCount(s'.procs)
  {
    hide OneTable, LocksExclude, OneResize, NewIsFree, RecordsOk, HoldersOk, AddressOf, InhibitCount, IsPow2;
    hide PcsOk, CanLock, NoneToMove, TableFree, SpaceOk, Unique, ReadersOk, HandsOk, Reassigns;
    InhibitUpdate(s.procs, i, s'.procs[i]);
  }

  /** With nothing inhibited and the table held, no split, merge or select is under way. */
  lemma NoResize(s: State, i: nat)
    requires OneTable(s) && s.inhibit == 0 == InhibitCount(s.procs)
    requires i < |s.procs| && HoldsTable(s.procs[i]) && s.procs[i].HasTable?
    ensures forall j | 0 <= j < |s.procs| :: !Resizes(s.procs[j]) && !Selects(s.procs[j])
  {
    NoneInhibits(s.procs);
  }

  lemma ResizeKept(n: Naming, s: State, s': State, i: nat)
    requires Inv(n, s) && Next(n, s, s', i)
    ensures OneResize(s')
  {
    hide LocksExclude, NewIsFree, RecordsOk, HoldersOk, AddressOf, InhibitCount, IsPow2, PcsOk, CanLock, Works;
    hide MovesOne, NoneToMove, TableFree, SpaceOk, Unique, ReadersOk, HandsOk, Reassigns;
    if s.procs[i].HasTable? && s.inhibit == 0 {
      NoResize(s, i);
    }
  }

  /** A step without the file table lock leaves the parameters and the inhibit count alone. */
  lemma TableGuards(n: Naming, s: State, s': State, i: nat)
    requires Next(n, s, s', i) && !HoldsTable(s.procs[i])
    ensures s'.p == s.p && s'.inhibit == s.inhibit
  {
    hide AddressOf, CanLock, TableFree, NoneToMove, Reassigns;
  }

  /** The new state of the process that moved. */
  lemma PcKept(n: Naming, s: State, s': State, i: nat)
    requires Inv(n, s) && Next(n, s, s', i)
    ensures PcOk(n, s', s'.procs[i])
  {
    hide OneTable, LocksExclude, OneResize, NewIsFree, RecordsOk, HoldersOk, AddressOf, InhibitCount, IsPow2;
    hide CanLock, Works, MovesOne;
    hide NoneToMove, TableFree, SpaceOk, Unique, ReadersOk, HandsOk, Reassigns, IdsIn, MayMove, EarlySplit;
    var pc, pc' := s.procs[i], s'.procs[i];
    assert PcOk(n, s, pc);
    PlanKept(n, s, s', i);
    MoveKept(n, s, s', i);
    forall id, g: nat | HoldsFor(pc', id, g) ensures g >= 1 {
      assert HoldsFor(pc, id, g) || pc.WantGroup?;
    }
  }

  lemma MoveKept(n: Naming, s: State, s': State, i: nat)
    requires s.p.Valid() && Next(n, s, s', i) && PcOk(n, s, s.procs[i])
    ensures forall from: nat, to: nat :: MayMove(s'.procs[i], from, to) ==> from >= 1 && to >= 1 && from != to
    ensures forall from: nat, to: nat :: EarlySplit(s'.procs[i], from, to) ==> from < to
  {
    hide AddressOf, InhibitCount, IsPow2, CanLock, Works, MovesOne, NoneToMove, TableFree, Reassigns, IdsIn, HoldsFor;
    var pc, pc' := s.procs[i], s'.procs[i];
    if pc.HasTable? && pc.goal.SplitGoal? {
      GrowMovesOneGroup(0, s.p);
    }
    forall from: nat, to: nat | MayMove(pc', from, to) ensures from >= 1 && to >= 1 && from != to {
      assert MayMove(pc, from, to) || pc.HasTable? || pc.WantLast?;
    }
    forall from: nat, to: nat | EarlySplit(pc', from, to) ensures from < to {
      assert EarlySplit(pc, from, to) || pc.HasTable?;
    }
  }

  lemma PlanKept(n: Naming, s: State, s': State, i: nat)
    requires s.p.Valid() && Next(n, s, s', i) && PcOk(n, s, s.procs[i])
    ensures PlanOk(n, s', s'.procs[i])
  {
    hide AddressOf, InhibitCount, IsPow2, CanLock, Works, MovesOne, NoneToMove, TableFree, Reassigns, IdsIn;
    var pc := s.procs[i];
    if pc.Moving? {
      assert MayMove(pc, pc.from, pc.to);
    } else if pc.HasTable? && pc.goal.MergeGoal? && s.p.modulus >= 2 {
      ShrinkFoldsLastGroup(0, s.p);
    } else if pc.HasTable? && pc.goal.Keyed? {
      AddressExists(n, s, pc.goal.id);
    }
  }

  lemma AddressExists(n: Naming, s: State, id: Id)
    requires s.p.Valid()
    ensures 1 <= AddressOf(n, s.p, id) <= s.p.modulus
  {
    hide IsPow2, Reassigns;
    AddressInRange(n.hash(id), s.p);
  }

  lemma PcsKept(n: Naming, s: State, s': State, i: nat)
    requires Inv(n, s) && Next(n, s, s', i)
    ensures PcsOk(n, s')
  {
    hide LocksExclude, OneResize, NewIsFree, RecordsOk, HoldersOk, AddressOf, InhibitCount, IsPow2, Local, SpaceOk;
    hide Unique, ReadersOk, Reassigns;
    PcKept(n, s, s', i);
    forall j | 0 <= j < |s'.procs| ensures PcOk(n, s', s'.procs[j]) {
      if j != i {
        assert s'.procs[j] == s.procs[j] && PcOk(n, s, s.procs[j]);
        if HoldsTable(s.procs[j]) {
          TableGuards(n, s, s', i);
        }
      }
    }
  }

  /** Group locks are held by keyed operations, by selects, and by a split or merge. */
  lemma HeldFor(pc: Pc, g: nat) returns (id: Id)
    requires Holds(pc, g) && g != 0 && !Resizes(pc) && !Selects(pc)
    ensures HoldsFor(pc, id, g)
  {
    id := match pc
      case GotGroup(id0, _, _) => id0
      case Working(id0, _, _) => id0
      case Worked(id0, _, _, _, _, _) => id0
      case WantHeader(h) => (match h case KeyedLock(id0, _) => id0 case _ => [])
      case HasHeader(h) => (match h case KeyedLock(id0, _) => id0 case _ => [])
      case _ => [];
  }

  /** When a split has just decided to add a group, nobody holds that group's lock. */
  lemma NewGroupFree(n: Naming, s: State, i: nat, g: nat)
    requires Inv(n, s) && i < |s.procs| && s.procs[i].HasTable? && s.inhibit == 0 && g > s.p.modulus
    ensures forall j | 0 <= j < |s.procs| :: !Holds(s.procs[j], g)
  {
    hide LocksExclude, OneResize, NewIsFree, RecordsOk, AddressOf, InhibitCount, IsPow2, PcsOk, OneTable, SpaceOk;
    hide Unique, ReadersOk, Reassigns;
    NoResize(s, i);
    forall j | 0 <= j < |s.procs| ensures !Holds(s.procs[j], g) {
      if Holds(s.procs[j], g) {
        var id := HeldFor(s.procs[j], g);
        assert HolderOk(n, s, id, g);
        AddressExists(n, s, id);
      }
    }
  }

  /** How a group lock is come by. */
  lemma Acquires(n: Naming, s: State, s': State, i: nat, g: nat)
    requires Next(n, s, s', i) && Holds(s'.procs[i], g) && !Holds(s.procs[i], g)
    ensures HoldsTable(s.procs[i]) || (s.procs[i].WantHeader? && g == 0) || s.procs[i].WantSource?
  {
    hide AddressOf, CanLock, Works, MovesOne, NoneToMove, TableFree, Reassigns;
  }

  lemma NewFreeKept(n: Naming, s: State, s': State, i: nat)
    requires Inv(n, s) && Next(n, s, s', i)
    ensures NewIsFree(s')
  {
    hide LocksExclude, RecordsOk, HoldersOk, AddressOf, InhibitCount, IsPow2, PcOk, Local, SpaceOk, Unique;
    hide ReadersOk, Reassigns;
    forall a, b | 0 <= a < |s'.procs| && 0 <= b < |s'.procs| && s'.procs[a].WantNew?
      ensures !Holds(s'.procs[b], s'.procs[a].to)
    {
      if a == i {
        NewSplit(n, s, s', i);
      } else if b == i && Holds(s'.procs[b], s'.procs[a].to) {
        WantedIsGroup(n, s, a);
        Acquires(n, s, s', i, s'.procs[a].to);
      }
    }
  }

  lemma WantedIsGroup(n: Naming, s: State, a: nat)
    requires PcsOk(n, s) && a < |s.procs| && s.procs[a].WantNew?
    ensures s.procs[a].to >= 1
  {
    assert PcOk(n, s, s.procs[a]) && MayMove(s.procs[a], s.procs[a].from, s.procs[a].to);
  }

  lemma NewSplit(n: Naming, s: State, s': State, i: nat)
    requires Inv(n, s) && Next(n, s, s', i) && s'.procs[i].WantNew?
    ensures forall b | 0 <= b < |s'.procs| :: !Holds(s'.procs[b], s'.procs[i].to)
    ensures s.procs[i].HasTable? && s.inhibit == 0 && s'.p == Grow(s.p) && s'.recs == s.recs
    ensures s'.procs[i] == WantNew(Buddy(s'.p), s'.p.modulus)
  {
    hide LocksExclude, RecordsOk, HoldersOk, AddressOf, InhibitCount, IsPow2, PcOk, OneTable, OneResize, CanLock;
    hide MovesOne, Works, NoneToMove, SpaceOk, Unique, ReadersOk, HandsOk, Reassigns;
    assert s.procs[i].HasTable? && s.inhibit == 0;
    NewGroupFree(n, s, i, s'.procs[i].to);
  }

  // ------------------------------------------------------------------------
  // Records and their holders

  /** A pending move stays pending unless its process has finished moving. */
  lemma MoveStays(n: Naming, s: State, s': State, i: nat, from: nat, to: nat)
    requires Next(n, s, s', i) && SomeMayMove(s, from, to)
    requires MayMove(s.procs[i], from, to) ==> !s'.procs[i].FreedFrom?
    ensures SomeMayMove(s', from, to)
  {
    hide AddressOf, CanLock, Works, MovesOne, NoneToMove, TableFree;
    var k :| 0 <= k < |s.procs| && MayMove(s.procs[k], from, to);
    assert MayMove(s'.procs[k], from, to);
  }

  lemma EarlyStays(n: Naming, s: State, s': State, i: nat, from: nat, to: nat)
    requires Next(n, s, s', i) && SomeEarlySplit(s, from, to)
    requires EarlySplit(s.procs[i], from, to) ==> !s'.procs[i].Moving?
    ensures SomeEarlySplit(s', from, to)
  {
    hide AddressOf, CanLock, Works, MovesOne, NoneToMove, TableFree;
    var k :| 0 <= k < |s.procs| && EarlySplit(s.procs[k], from, to);
    assert EarlySplit(s'.procs[k], from, to);
  }

  lemma EarlyMoves(s: State, from: nat, to: nat)
    requires SomeEarlySplit(s, from, to)
    ensures SomeMayMove(s, from, to)
  {
    var k :| 0 <= k < |s.procs| && EarlySplit(s.procs[k], from, to);
    assert MayMove(s.procs[k], from, to);
  }

  /** A record that no step has touched, under the same addresses. */
  lemma RecordStays(n: Naming, s: State, s': State, i: nat, id: Id, g: nat)
    requires Next(n, s, s', i) && RecordOk(n, s, id, g) && s'.p == s.p
    requires MayMove(s.procs[i], g, AddressOf(n, s.p, id)) ==> !s'.procs[i].FreedFrom? || !Sees(s, id, g)
    requires Sees(s, id, g)
    ensures RecordOk(n, s', id, g)
  {
    hide AddressOf, Local;
    var a := AddressOf(n, s.p, id);
    if g != a {
      MoveStays(n, s, s', i, g, a);
    }
  }

  /** Whoever finishes moving has moved every record that had to move. */
  lemma Finished(n: Naming, s: State, s': State, i: nat, id: Id, g: nat)
    requires Next(n, s, s', i) && Sees(s, id, g) && s'.p == s.p
    ensures MayMove(s.procs[i], g, AddressOf(n, s.p, id)) ==> !s'.procs[i].FreedFrom?
  {
    hide AddressOf, CanLock, Works, MovesOne, Shuffles, Allots, TableFree;
  }

  /** Two processes that hold locks for one id hold the same lock. */
  lemma SameLock(n: Naming, s: State, i: nat, j: nat, id: Id, g: nat, h: nat)
    requires Inv(n, s) && i < |s.procs| && j < |s.procs| && HoldsFor(s.procs[i], id, g) && HoldsFor(s.procs[j], id, h)
    ensures g == h
  {
    hide OneTable, OneResize, PcsOk, RecordsOk, AddressOf, InhibitCount, IsPow2;
    assert HolderOk(n, s, id, g) && HolderOk(n, s, id, h);
    var a := AddressOf(n, s.p, id);
    if g != a && h != a {
      OneEarly(s, g, h, a);
    } else if g != a {
      LateHolder(s, j, id, g, a);
    } else if h != a {
      LateHolder(s, i, id, h, a);
    }
  }

  lemma OneEarly(s: State, g: nat, h: nat, a: nat)
    requires OneResize(s) && SomeEarlySplit(s, g, a) && SomeEarlySplit(s, h, a)
    ensures g == h
  {
    var k :| 0 <= k < |s.procs| && EarlySplit(s.procs[k], g, a);
    var m :| 0 <= m < |s.procs| && EarlySplit(s.procs[m], h, a);
    assert Resizes(s.procs[k]) && Resizes(s.procs[m]);
  }

  /** No keyed operation holds the lock of the group a split is adding. */
  lemma LateHolder(s: State, j: nat, id: Id, from: nat, to: nat)
    requires LocksExclude(s) && NewIsFree(s) && j < |s.procs| && HoldsFor(s.procs[j], id, to)
    ensures !SomeEarlySplit(s, from, to)
  {
    HoldsIt(s.procs[j], id, to);
    forall k | 0 <= k < |s.procs| ensures !EarlySplit(s.procs[k], from, to) {
      if EarlySplit(s.procs[k], from, to) {
        EarlyHolds(s, k, j, from, to);
      }
    }
  }

  lemma HoldsIt(pc: Pc, id: Id, g: nat)
    requires HoldsFor(pc, id, g)
    ensures Holds(pc, g) && !Resizes(pc) && !pc.WantNew?
  {
  }

  /** While a split is early, only the splitter has the lock of the group it adds. */
  lemma EarlyHolds(s: State, k: nat, j: nat, from: nat, to: nat)
    requires LocksExclude(s) && NewIsFree(s) && k < |s.procs| && j < |s.procs| && !Resizes(s.procs[j])
    requires EarlySplit(s.procs[k], from, to)
    ensures !Holds(s.procs[j], to)
  {
    if !s.procs[k].WantNew? {
      assert HoldsWrite(s.procs[k], to) && k != j;
    }
  }

  /** Steps that change neither records nor addresses. */
  lemma QuietHolder(n: Naming, s: State, s': State, i: nat, j: nat, id: Id, g: nat)
    requires Inv(n, s) && Next(n, s, s', i) && s'.p == s.p && s'.recs == s.recs
    requires j < |s.procs| && HoldsFor(s.procs[j], id, g)
    ensures HolderOk(n, s', id, g)
  {
    hide OneTable, OneResize, PcsOk, NewIsFree, RecordsOk, AddressOf, InhibitCount, IsPow2, Works, MovesOne;
    hide NoneToMove, TableFree;
    hide SpaceOk, Unique, ReadersOk, HandsOk, Reassigns;
    assert HolderOk(n, s, id, g);
    OnlyThere(s, s', id, g);
    var a := AddressOf(n, s.p, id);
    if g != a {
      HoldsIt(s.procs[j], id, g);
      EarlyStays(n, s, s', i, g, a);
    }
  }

  /** A keyed operation that has just been given its group lock. */
  lemma FreshHolder(n: Naming, s: State, s': State, i: nat, id: Id, g: nat)
    requires Inv(n, s) && Next(n, s, s', i) && HoldsFor(s'.procs[i], id, g) && !HoldsFor(s.procs[i], id, g)
    ensures HolderOk(n, s', id, g)
  {
    hide OneResize, NewIsFree, HoldersOk, AddressOf, InhibitCount, IsPow2, Works, MovesOne, NoneToMove, TableFree;
    hide SpaceOk, Unique, ReadersOk, HandsOk, Reassigns, RecordOk, CanLock;
    var pc := s.procs[i];
    assert pc.WantGroup? && pc.id == id && pc.g == g;
    assert PcOk(n, s, pc) && CanLock(s, i, g, pc.write);
    forall h: nat | Sees(s, id, h) ensures h == g {
      assert RecordOk(n, s, id, h);
      NotMoving(n, s, i, id, h, g);
    }
    OnlyThere(s, s', id, g);
  }

  lemma OnlyThere(s: State, s': State, id: Id, g: nat)
    requires s'.recs == s.recs && forall h: nat | Sees(s, id, h) :: h == g
    ensures forall h: nat | Sees(s', id, h) :: h == g
  {
    forall h: nat | Sees(s', id, h) ensures h == g {
      assert Sees(s, id, h);
    }
  }

  lemma SameUnique(s: State, s': State)
    requires s'.recs == s.recs && Unique(s)
    ensures Unique(s')
  {
    forall id, g: nat, h: nat | Sees(s', id, g) && Sees(s', id, h) ensures g == h {
      assert Sees(s, id, g) && Sees(s, id, h);
    }
  }

  lemma NotMoving(n: Naming, s: State, i: nat, id: Id, h: nat, g: nat)
    requires OneTable(s) && i < |s.procs| && s.procs[i].WantGroup? && CanLock(s, i, g, s.procs[i].write)
    requires RecordOk(n, s, id, h) && g == AddressOf(n, s.p, id)
    ensures h == g
  {
    hide AddressOf;
    if h != g {
      MoverBlocks(s, i, h, g);
    }
  }

  /** A lock for the group records are being moved to cannot be had under the table lock. */
  lemma MoverBlocks(s: State, i: nat, from: nat, to: nat)
    requires OneTable(s) && i < |s.procs| && s.procs[i].WantGroup? && CanLock(s, i, to, s.procs[i].write)
    ensures !SomeMayMove(s, from, to)
  {
    forall k | 0 <= k < |s.procs| ensures !MayMove(s.procs[k], from, to) {
      if MayMove(s.procs[k], from, to) && !HoldsTable(s.procs[k]) {
        assert HoldsWrite(s.procs[k], to);
      }
    }
  }

  lemma KeepsQuiet(n: Naming, s: State, s': State, i: nat)
    requires Inv(n, s) && Next(n, s, s', i) && s'.p == s.p && s'.recs == s.recs
    ensures RecordsOk(n, s') && HoldersOk(n, s')
  {
    hide Inv, Next, RecordOk, HolderOk, HoldsFor;
    forall id, g: nat | Sees(s', id, g) ensures RecordOk(n, s', id, g) {
      SeenOk(n, s, id, g);
      Finished(n, s, s', i, id, g);
      RecordStays(n, s, s', i, id, g);
    }
    forall j, id, g: nat | 0 <= j < |s'.procs| && HoldsFor(s'.procs[j], id, g) ensures HolderOk(n, s', id, g) {
      OtherSame(n, s, s', i, j);
      if HoldsFor(s.procs[j], id, g) {
        QuietHolder(n, s, s', i, j, id, g);
      } else {
        FreshHolder(n, s, s', i, id, g);
      }
    }
  }

  lemma SeenOk(n: Naming, s: State, id: Id, g: nat)
    requires Inv(n, s) && Sees(s, id, g)
    ensures RecordOk(n, s, id, g)
  {
  }

  lemma OtherSame(n: Naming, s: State, s': State, i: nat, j: nat)
    requires Next(n, s, s', i) && j < |s'.procs|
    ensures i < |s.procs| == |s'.procs| && (j != i ==> s'.procs[j] == s.procs[j])
  {
  }

  /** A keyed operation works on the record of its id. */
  lemma KeepsWork(n: Naming, s: State, s': State, i: nat)
    requires Inv(n, s) && Next(n, s, s', i) && s.procs[i].Working? && s'.procs[i].Worked?
    ensures RecordsOk(n, s') && HoldersOk(n, s') && Unique(s')
  {
    hide Inv, RecordOk, HolderOk, CanLock, MovesOne, NoneToMove, TableFree, AddressOf, Reassigns;
    var id0, g0 := s.procs[i].id, s.procs[i].g;
    assert s'.p == s.p && OnlyAt(s, s', id0, g0);
    HolderAt(n, s, i, id0, g0);
    forall id, g: nat | Sees(s', id, g) ensures RecordOk(n, s', id, g) {
      if id == id0 && g == g0 {
        WorkedRecord(n, s, s', i, id, g0);
      } else {
        SeenOk(n, s, id, g);
        Finished(n, s, s', i, id, g);
        RecordStays(n, s, s', i, id, g);
      }
    }
    forall j, id, g: nat | 0 <= j < |s'.procs| && HoldsFor(s'.procs[j], id, g) ensures HolderOk(n, s', id, g) {
      assert HoldsFor(s.procs[j], id, g);
      HolderAt(n, s, j, id, g);
      if id == id0 {
        SameLock(n, s, i, j, id, g0, g);
      }
      WorkedHolder(n, s, s', i, id, g, id0, g0);
    }
    StillUnique(n, s, s', id0, g0);
  }

  /** The record that is written is where its holder looks, so there is no other. */
  lemma StillUnique(n: Naming, s: State, s': State, id: Id, g: nat)
    requires Inv(n, s) && HolderOk(n, s, id, g) && OnlyAt(s, s', id, g)
    ensures Unique(s')
  {
    hide OneTable, LocksExclude, OneResize, PcsOk, NewIsFree, RecordsOk, HoldersOk, AddressOf, InhibitCount;
    hide IsPow2, SpaceOk, ReadersOk;
    forall id', g': nat, h: nat | Sees(s', id', g') && Sees(s', id', h) ensures g' == h {
      assert Sees(s, id', g') || (id', g') == (id, g);
      assert Sees(s, id', h) || (id', h) == (id, g);
    }
  }

  lemma HolderAt(n: Naming, s: State, i: nat, id: Id, g: nat)
    requires Inv(n, s) && i < |s.procs| && HoldsFor(s.procs[i], id, g)
    ensures HolderOk(n, s, id, g)
  {
  }

  lemma WorkedRecord(n: Naming, s: State, s': State, i: nat, id: Id, g: nat)
    requires Next(n, s, s', i) && s.procs[i].Working? && s'.procs[i].Worked? && HolderOk(n, s, id, g) && s'.p == s.p
    ensures RecordOk(n, s', id, g)
  {
    hide AddressOf, Local;
    var a := AddressOf(n, s.p, id);
    if g != a {
      EarlyMoves(s, g, a);
      MoveStays(n, s, s', i, g, a);
    }
  }

  lemma WorkedHolder(n: Naming, s: State, s': State, i: nat, id: Id, g: nat, id0: Id, g0: nat)
    requires Next(n, s, s', i) && s.procs[i].Working? && s'.procs[i].Worked? && HolderOk(n, s, id, g) && s'.p == s.p
    requires OnlyAt(s, s', id0, g0) && (id == id0 ==> g == g0)
    ensures HolderOk(n, s', id, g)
  {
    hide AddressOf, Local;
    var a := AddressOf(n, s.p, id);
    forall h: nat | Sees(s', id, h) ensures h == g {
      assert Sees(s, id, h) || (id, h) == (id0, g0);
    }
    if g != a {
      EarlyStays(n, s, s', i, g, a);
    }
  }

  /** A record is moved. */
  lemma KeepsMove(n: Naming, s: State, s': State, i: nat)
    requires Inv(n, s) && Next(n, s, s', i) && s.procs[i].Moving? && s'.procs[i].Moving? && s'.recs != s.recs
    ensures RecordsOk(n, s') && HoldersOk(n, s') && Unique(s')
  {
    hide OneTable, OneResize, PcsOk, NewIsFree, AddressOf, InhibitCount, IsPow2, CanLock, Works, NoneToMove;
    hide TableFree, RecordOk;
    hide SpaceOk, ReadersOk, Reassigns;
    var from, to := s.procs[i].from, s.procs[i].to;
    var id0 :| Sees(s, id0, from) && AddressOf(n, s.p, id0) == to && RecordMoved(s, s', from, to, id0);
    assert forall id, g: nat | Sees(s', id, g) :: Sees(s, id, g) || (id, g) == (id0, to);
    assert from != to ==> !Sees(s', id0, from);
    forall id, g: nat | Sees(s', id, g) ensures RecordOk(n, s', id, g) {
      if id == id0 && g == to {
        MovedRecord(n, s', id0, to);
      } else {
        assert RecordOk(n, s, id, g);
        RecordStays(n, s, s', i, id, g);
      }
    }
    assert s'.procs == s.procs;
    forall j, id, g: nat | 0 <= j < |s'.procs| && HoldsFor(s'.procs[j], id, g) ensures HolderOk(n, s', id, g) {
      assert HolderOk(n, s, id, g);
      HoldsIt(s.procs[j], id, g);
      assert HoldsWrite(s.procs[i], from) && j != i;
    }
    forall id, g: nat, h: nat | Sees(s', id, g) && Sees(s', id, h) ensures g == h {
      assert Sees(s, id0, from);
    }
  }

  lemma MovedRecord(n: Naming, s: State, id: Id, to: nat)
    requires to == AddressOf(n, s.p, id)
    ensures RecordOk(n, s, id, to)
  {
  }

  lemma GrownAddress(n: Naming, p: Params, id: Id)
    requires p.Valid()
    ensures AddressOf(n, Grow(p), id) == AddressOf(n, p, id)
            || (AddressOf(n, p, id) == Buddy(Grow(p)) && AddressOf(n, Grow(p), id) == p.modulus + 1)
  {
    GrowMovesOneGroup(n.hash(id), p);
  }

  lemma ShrunkAddress(n: Naming, p: Params, id: Id)
    requires p.Valid() && p.modulus >= 2
    ensures AddressOf(n, Shrink(p), id) == if AddressOf(n, p, id) == p.modulus then Buddy(p) else AddressOf(n, p, id)
  {
    ShrinkFoldsLastGroup(n.hash(id), p);
  }

  /** A split changes the addresses. */
  lemma KeepsGrow(n: Naming, s: State, s': State, i: nat)
    requires Inv(n, s) && Next(n, s, s', i) && s'.procs[i].WantNew?
    ensures RecordsOk(n, s') && HoldersOk(n, s')
  {
    hide OneResize, PcsOk, NewIsFree, LocksExclude, AddressOf, InhibitCount, IsPow2, CanLock, Works, NoneToMove;
    hide MovesOne, TableFree, Local;
    NewSplit(n, s, s', i);
    NoResize(s, i);
    var from, to := s'.procs[i].from, s'.procs[i].to;
    assert MayMove(s'.procs[i], from, to) && EarlySplit(s'.procs[i], from, to);
    forall id, g: nat | Sees(s', id, g) ensures RecordOk(n, s', id, g) {
      GrownAddress(n, s.p, id);
      assert RecordOk(n, s, id, g);
    }
    forall j, id, g: nat | 0 <= j < |s'.procs| && HoldsFor(s'.procs[j], id, g) ensures HolderOk(n, s', id, g) {
      GrownAddress(n, s.p, id);
      assert HoldsFor(s.procs[j], id, g);
      assert HolderOk(n, s, id, g);
      OnlyThere(s, s', id, g);
    }
  }

  /** A merge changes the addresses once it has both locks. */
  lemma KeepsShrink(n: Naming, s: State, s': State, i: nat)
    requires Inv(n, s) && Next(n, s, s', i) && s.procs[i].WantLast?
    ensures RecordsOk(n, s') && HoldersOk(n, s')
  {
    hide OneTable, NewIsFree, LocksExclude, AddressOf, InhibitCount, IsPow2, Works, NoneToMove, MovesOne, TableFree;
    assert PcOk(n, s, s.procs[i]);
    var from, to := s.procs[i].from, s.procs[i].to;
    assert MayMove(s'.procs[i], from, to);
    forall id, g: nat | Sees(s', id, g) ensures RecordOk(n, s', id, g) {
      ShrunkAddress(n, s.p, id);
      assert RecordOk(n, s, id, g);
    }
    forall j, id, g: nat | 0 <= j < |s'.procs| && HoldsFor(s'.procs[j], id, g) ensures HolderOk(n, s', id, g) {
      ShrunkAddress(n, s.p, id);
      assert HoldsFor(s.procs[j], id, g);
      HoldsIt(s.procs[j], id, g);
      assert HolderOk(n, s, id, g);
      OnlyThere(s, s', id, g);
    }
  }

  /** What a step does to the records and the addresses. */
  lemma Kinds(n: Naming, s: State, s': State, i: nat)
    requires Next(n, s, s', i)
    ensures
      || (s'.p == s.p && s'.recs == s.recs)
      || (s.procs[i].Working? && s'.procs[i].Worked?)
      || (s.procs[i].Moving? && s'.procs[i].Moving?)
      || s'.procs[i].WantNew?
      || s.procs[i].WantLast?
    ensures s'.procs[i].WantNew? || s.procs[i].WantLast? ==> s'.recs == s.recs
    ensures s.procs[i].Moving? ==> s'.p == s.p
  {
    hide AddressOf, CanLock, TableFree, NoneToMove, Reassigns, OnlyAt;
  }

  lemma RecordsKept(n: Naming, s: State, s': State, i: nat)
    requires Inv(n, s) && Next(n, s, s', i)
    ensures RecordsOk(n, s') && HoldersOk(n, s') && Unique(s')
  {
    hide RecordsOk, HoldersOk, Local, OneTable, OneResize, PcsOk, NewIsFree, LocksExclude, AddressOf, InhibitCount;
    hide IsPow2, SpaceOk, ReadersOk;
    Kinds(n, s, s', i);
    if s'.recs == s.recs {
      SameUnique(s, s');
    }
    if s'.p == s.p && s'.recs == s.recs {
      KeepsQuiet(n, s, s', i);
    } else if s.procs[i].Working? && s'.procs[i].Worked? {
      KeepsWork(n, s, s', i);
    } else if s.procs[i].Moving? && s'.procs[i].Moving? {
      KeepsMove(n, s, s', i);
    } else if s'.procs[i].WantNew? {
      KeepsGrow(n, s, s', i);
    } else {
      KeepsShrink(n, s, s', i);
    }
  }

  // ------------------------------------------------------------------------
  // Readers

  /** Nobody changes the records of a group that another process has a lock on. */
  lemma LockedStays(n: Naming, s: State, s': State, i: nat, j: nat, id: Id, g: nat)
    requires Inv(n, s) && Next(n, s, s', i) && j < |s.procs| && j != i && Holds(s.procs[j], g)
    ensures Sees(s', id, g) <==> Sees(s, id, g)
    ensures Sees(s, id, g) ==> s'.recs[(g, id)] == s.recs[(g, id)]
  {
    hide OneTable, OneResize, PcsOk, NewIsFree, AddressOf, InhibitCount, IsPow2, CanLock, NoneToMove, TableFree;
    hide RecordsOk, HoldersOk;
    hide SpaceOk, ReadersOk, Reassigns, Unique;
    if s'.recs != s.recs {
      if s.procs[i].Working? {
        assert HoldsWrite(s.procs[i], s.procs[i].g);
      } else {
        assert HoldsWrite(s.procs[i], s.procs[i].from) && HoldsWrite(s.procs[i], s.procs[i].to);
      }
    }
  }

  lemma ReadersKept(n: Naming, s: State, s': State, i: nat)
    requires Inv(n, s) && Next(n, s, s', i)
    ensures ReadersOk(s')
  {
    hide OneTable, LocksExclude, OneResize, PcsOk, NewIsFree, AddressOf, InhibitCount, IsPow2, CanLock, NoneToMove;
    hide TableFree, RecordsOk, HoldersOk;
    hide SpaceOk, Reassigns, Unique, OnlyAt;
    forall j | 0 <= j < |s'.procs| && s'.procs[j].Worked? && !s'.procs[j].write ensures ReaderOk(s', s'.procs[j]) {
      if j != i {
        assert ReaderOk(s, s.procs[j]) && HoldsRead(s.procs[j], s.procs[j].g);
        LockedStays(n, s, s', i, j, s.procs[j].id, s.procs[j].g);
      }
    }
  }

  // ------------------------------------------------------------------------
  // Overflow blocks

  /** Handing blocks round among some owners leaves every block in exactly one place. */
  lemma ReassignKeeps(s: State, s': State, own: set<Owner>)
    requires SpaceOk(s) && Reassigns(s, s', own) && |s'.procs| == |s.procs|
    ensures SpaceOk(s')
  {
    hide BlocksWith;
    forall o, q | o != q ensures !Shared(s', o, q) {
      ApartAfter(s, s', own, o, q);
    }
    forall o, x | x in BlocksWith(s', o) ensures 1 <= x <= s'.space.size {
      if o in own && OwnedIn(s, own, x) {
        var q :| q in own && x in BlocksWith(s, q);
      }
    }
    forall x | 1 <= x <= s'.space.size ensures HasOwner(s', x) {
      PlacedAfter(s, s', own, x);
    }
  }

  lemma ApartAfter(s: State, s': State, own: set<Owner>, o: Owner, q: Owner)
    requires SpaceOk(s) && Reassigns(s, s', own) && o != q
    ensures !Shared(s', o, q)
  {
    hide BlocksWith;
    if o in own && q in own {
    } else if o !in own && q !in own {
      assert !Shared(s, o, q);
    } else {
      var inside, outside := if o in own then o else q, if o in own then q else o;
      forall x | x in BlocksWith(s', inside) ensures x !in BlocksWith(s', outside) {
        if OwnedIn(s, own, x) {
          var z :| z in own && x in BlocksWith(s, z);
          assert !Shared(s, z, outside);
        }
      }
    }
  }

  lemma PlacedAfter(s: State, s': State, own: set<Owner>, x: nat)
    requires SpaceOk(s) && Reassigns(s, s', own) && 1 <= x <= s'.space.size
    ensures HasOwner(s', x)
  {
    hide BlocksWith;
    if x <= s.space.size {
      assert HasOwner(s, x);
      var o :| x in BlocksWith(s, o);
      if o in own {
        assert OwnedIn(s, own, x);
      }
    }
    if OwnedIn(s, own, x) || s.space.size < x {
      assert OwnedIn(s', own, x);
    }
  }

  lemma SpaceKept(n: Naming, s: State, s': State, i: nat)
    requires Inv(n, s) && Next(n, s, s', i)
    ensures SpaceOk(s')
  {
    hide OneTable, LocksExclude, OneResize, PcsOk, NewIsFree, RecordsOk, HoldersOk, AddressOf, InhibitCount;
    hide IsPow2, CanLock, NoneToMove, TableFree;
    hide ReadersOk, HandsOk, SpaceOk, Reassigns, BlocksWith, OnlyAt;
    var pc := s.procs[i];
    if pc.HasHeader? {
      ReassignKeeps(s, s', {Free, InHand(i)});
    } else if pc.Working? && pc.write && s'.procs[i].Worked? {
      ReassignKeeps(s, s', {InGroup(pc.g), InRecord(pc.g, pc.id), InHand(i)});
    } else if pc.Moving? && Shuffles(s, s', i, pc.from, pc.to) {
      ReassignKeeps(s, s', {InGroup(pc.from), InGroup(pc.to), InHand(i)});
    } else if s'.recs != s.recs {
      var id :| Sees(s, id, pc.from) && AddressOf(n, s.p, id) == pc.to && RecordMoved(s, s', pc.from, pc.to, id);
      MoveReassigns(s, s', pc.from, pc.to, id);
      ReassignKeeps(s, s', {InRecord(pc.from, id), InRecord(pc.to, id)});
    } else {
      SameBlocks(s, s');
    }
  }

  lemma SameBlocks(s: State, s': State)
    requires SpaceOk(s) && s'.recs == s.recs && s'.space == s.space && |s'.procs| == |s.procs|
    ensures SpaceOk(s')
  {
    assert forall o :: BlocksWith(s', o) == BlocksWith(s, o);
    assert forall o, q :: Shared(s', o, q) <==> Shared(s, o, q);
    forall x | 1 <= x <= s'.space.size ensures HasOwner(s', x) {
      assert HasOwner(s, x);
      var o :| x in BlocksWith(s, o);
      assert x in BlocksWith(s', o);
    }
  }

  /** A record that moves takes its chain with it. */
  lemma MoveReassigns(s: State, s': State, from: nat, to: nat, id: Id)
    requires Unique(s) && SpaceOk(s) && Sees(s, id, from) && RecordMoved(s, s', from, to, id) && s'.space == s.space
    ensures Reassigns(s, s', {InRecord(from, id), InRecord(to, id)})
  {
    var a, b := InRecord(from, id), InRecord(to, id);
    assert from != to ==> !Sees(s, id, to);
    assert BlocksWith(s', b) == BlocksWith(s, a);
    assert from != to ==> BlocksWith(s', a) == {} && BlocksWith(s, b) == {};
    forall x | OwnedIn(s, {a, b}, x) ensures OwnedIn(s', {a, b}, x) {
      assert x in BlocksWith(s', b);
    }
    forall o, x | o in {a, b} && x in BlocksWith(s', o) ensures OwnedIn(s, {a, b}, x) {
      assert x in BlocksWith(s, a);
    }
  }

  /** Only its own steps put blocks in a process's hand, and none that ends an operation leaves any. */
  lemma HandsKept(n: Naming, s: State, s': State, i: nat)
    requires Inv(n, s) && Next(n, s, s', i)
    ensures HandsOk(s')
  {
    hide OneTable, LocksExclude, OneResize, PcsOk, NewIsFree, RecordsOk, HoldersOk, AddressOf, InhibitCount, IsPow2;
    hide CanLock, NoneToMove, TableFree, ReadersOk, SpaceOk, Unique, OnlyAt, IdsIn;
    forall j | 0 <= j < |s'.procs| && HandFree(s'.procs[j]) ensures Hand(s', j) == {} {
      if j != i {
        assert Hand(s, j) == {};
      } else {
        assert HandFree(s.procs[i]) ==> Hand(s, i) == {};
      }
    }
  }

  // ------------------------------------------------------------------------
  // All together

  /** Every step keeps the invariant. */
  lemma StepKeeps(n: Naming, s: State, s': State, i: nat)
    requires Inv(n, s) && Next(n, s, s', i)
    ensures Inv(n, s')
  {
    hide OneTable, OneResize, PcsOk, NewIsFree, LocksExclude, RecordsOk, HoldersOk, AddressOf, InhibitCount;
    hide IsPow2, Next, SpaceOk, Unique, ReadersOk, HandsOk;
    ParamsKept(n, s, s', i);
    TableKept(n, s, s', i);
    LocksKept(n, s, s', i);
    InhibitKept(n, s, s', i);
    ResizeKept(n, s, s', i);
    PcsKept(n, s, s', i);
    NewFreeKept(n, s, s', i);
    RecordsKept(n, s, s', i);
    ReadersKept(n, s, s', i);
    SpaceKept(n, s, s', i);
    HandsKept(n, s, s', i);
  }
}
