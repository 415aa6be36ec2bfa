/** All the files of a system, the processes that work on them, and the one lock table they share,
    which has three cells for each process. A process can be refused a lock that nobody holds, when the
    scan for it comes round too soon; but only while another is about to give back the header lock of a
    file it is splitting or merging. So nobody waits for ever. */
module LockSystems {
  import opened Addressing
  import opened Blocks
  import opened Tables
  import opened Protocol
  import opened ProtocolTheorems
  import opened Progress
  import L = LockTables

  /** The files, each with its state of every process, the file each process is at work on, and the
      cells of the lock table. A file is known by its number, in the table as here. */
  datatype System = System(files: seq<State>, at: seq<nat>, cells: seq<L.Cell>)

  /** A process holds nothing in a file it is not at work on, though it may have begun a select there. */
  predicate Resting(pc: Pc) {
    pc == Idle || pc.Selecting?
  }

  /** Each process has a place in every file, and there are three cells for each. */
  ghost predicate Shape(n: seq<Naming>, y: System) {
    && |n| == |y.files| && |y.cells| >= 1 && |y.cells| >= 3 * |y.at|
    && (forall f | 0 <= f < |y.files| :: |y.files[f].procs| == |y.at|)
    && forall i | 0 <= i < |y.at| :: y.at[i] < |y.files|
  }

  // ------------------------------------------------------------------------
  // Locks

  /** The locks a process can have at a time: on one group, in either mode, or write locks on two
      groups, or on two groups and the header. */
  datatype Hold = Nil | One(g: nat, write: bool) | Two(g: nat, h: nat) | Three(g: nat, h: nat)

  function HoldOf(pc: Pc): Hold {
    match pc
    case GotGroup(_, write, g) => One(g, write)
    case Working(_, write, g) => One(g, write)
    case Worked(_, write, g, _, _, _) => One(g, write)
    case WantHeader(h) => if h.KeyedLock? then One(h.g, true) else if h.MoveLocks? then Two(h.from, h.to) else Nil
    case HasHeader(h) => if h.KeyedLock? then Two(h.g, 0) else if h.MoveLocks? then Three(h.from, h.to) else One(0, true)
    case GotNew(_, to) => One(to, true)
    case WantSource(_, to) => One(to, true)
    case WantLast(_, to) => One(to, true)
    case GotBoth(from, to) => Two(from, to)
    case Moving(from, to) => Two(from, to)
    case FreedFrom(to) => One(to, true)
    case GotScan(tour) => One(tour.g, false)
    case Scanning(tour) => One(tour.g, false)
    case _ => Nil
  }

  predicate InHold(hold: Hold, g: nat, write: bool) {
    match hold
    case Nil => false
    case One(a, w) => g == a && write == w
    case Two(a, b) => write && (g == a || g == b)
    case Three(a, b) => write && (g == a || g == b || g == 0)
  }

  lemma HoldsBy(pc: Pc, g: nat)
    ensures InHold(HoldOf(pc), g, true) <==> HoldsWrite(pc, g)
    ensures InHold(HoldOf(pc), g, false) <==> HoldsRead(pc, g)
  {
  }

  /** The same as grants of the table, in file `f`. */
  function Grants(f: nat, hold: Hold): multiset<L.Grant> {
    match hold
    case Nil => multiset{}
    case One(g, write) => multiset{L.Grant(f, g, write)}
    case Two(g, h) => multiset{L.Grant(f, g, true), L.Grant(f, h, true)}
    case Three(g, h) => multiset{L.Grant(f, g, true), L.Grant(f, h, true), L.Grant(f, 0, true)}
  }

  lemma GrantsIn(f: nat, hold: Hold, l: L.Grant)
    ensures l in Grants(f, hold) <==> l.file == f && InHold(hold, l.group, l.write)
  {
  }

  function HowMany(hold: Hold): nat {
    match hold
    case Nil => 0
    case One(_, _) => 1
    case Two(_, _) => 2
    case Three(_, _) => 3
  }

  lemma GrantsSize(f: nat, hold: Hold)
    ensures |Grants(f, hold)| == HowMany(hold)
  {
  }

  /** Three locks are those of a split or merge that has the header, and two locks with a third wanted
      those of one that waits for it. */
  lemma HoldSizes(pc: Pc)
    ensures HowMany(HoldOf(pc)) == 3 <==> AtHeader(pc)
    ensures Wanted(pc).Some? ==> HowMany(HoldOf(pc)) <= 2
    ensures Wanted(pc).Some? && HowMany(HoldOf(pc)) == 2 ==> pc.WantHeader? && pc.h.MoveLocks?
    ensures Resting(pc) ==> HoldOf(pc) == Nil
  {
  }

  function Locks(f: nat, pc: Pc): multiset<L.Grant> {
    Grants(f, HoldOf(pc))
  }

  lemma LocksHeld(f: nat, pc: Pc, l: L.Grant)
    ensures l in Locks(f, pc) <==> l.file == f && if l.write then HoldsWrite(pc, l.group) else HoldsRead(pc, l.group)
  {
    hide HoldOf, Grants, HoldsWrite, HoldsRead;
    GrantsIn(f, HoldOf(pc), l);
    HoldsBy(pc, l.group);
  }

  /** A split or merge that has the header lock, on top of those on its two groups. */
  predicate AtHeader(pc: Pc) {
    pc.HasHeader? && pc.h.MoveLocks?
  }

  function HeldBy(y: System, i: nat): multiset<L.Grant>
    requires i < |y.at| && y.at[i] < |y.files| && i < |y.files[y.at[i]].procs|
  {
    Locks(y.at[i], y.files[y.at[i]].procs[i])
  }

  /** The locks that the first `k` processes have. */
  ghost function AllHeld(n: seq<Naming>, y: System, k: nat): multiset<L.Grant>
    requires Shape(n, y) && k <= |y.at|
  {
    if k == 0 then multiset{} else AllHeld(n, y, k - 1) + HeldBy(y, k - 1)
  }

  lemma {:induction false} HolderOf(n: seq<Naming>, y: System, k: nat, l: L.Grant) returns (j: nat)
    requires Shape(n, y) && k <= |y.at| && l in AllHeld(n, y, k)
    ensures j < k && l in HeldBy(y, j)
  {
    hide HeldBy;
    if l in HeldBy(y, k - 1) {
      j := k - 1;
    } else {
      j := HolderOf(n, y, k - 1, l);
    }
  }

  lemma {:induction false} HeldByOne(n: seq<Naming>, y: System, k: nat, j: nat, l: L.Grant)
    requires Shape(n, y) && j < k <= |y.at| && l in HeldBy(y, j)
    ensures l in AllHeld(n, y, k)
  {
    hide HeldBy;
    if j < k - 1 {
      HeldByOne(n, y, k - 1, j, l);
    }
  }

  lemma HeldSize(n: seq<Naming>, y: System, j: nat)
    requires Shape(n, y) && j < |y.at|
    ensures |HeldBy(y, j)| == HowMany(HoldOf(y.files[y.at[j]].procs[j])) <= 3
  {
    hide HoldOf, Grants;
    GrantsSize(y.at[j], HoldOf(y.files[y.at[j]].procs[j]));
  }

  /** All but one have three locks each at most; or two, if none of them has three. */
  lemma {:induction false} HeldBound(n: seq<Naming>, y: System, k: nat, i: nat, three: bool)
    requires Shape(n, y) && k <= |y.at| && i < |y.at|
    requires three || forall j | 0 <= j < |y.at| && j != i :: |HeldBy(y, j)| <= 2
    ensures |AllHeld(n, y, k)| <= (if three then 3 * OthersAmong(k, i) else 2 * OthersAmong(k, i)) + if i < k then |HeldBy(y, i)| else 0
  {
    hide HeldBy, HoldOf;
    if k > 0 {
      HeldBound(n, y, k - 1, i, three);
      HeldSize(n, y, k - 1);
    }
  }

  /** How many of the first `k` are others than `i`. */
  function OthersAmong(k: nat, i: nat): nat {
    if i < k then k - 1 else k
  }

  // ------------------------------------------------------------------------
  // Steps

  /** The table grants a lock. */
  ghost predicate Gets(cells: seq<L.Cell>, cells': seq<L.Cell>, l: L.Grant) {
    |cells| >= 1 && exists slot :: 1 <= slot <= |cells| && GetsAt(cells, cells', l, slot)
  }

  ghost predicate GetsAt(cells: seq<L.Cell>, cells': seq<L.Cell>, l: L.Grant, slot: nat)
    requires 1 <= slot <= |cells|
  {
    && !L.MustWait(cells, l.file, l.group, l.write) && cells' == L.AfterGet(cells, slot, l.file, l.group, l.write)
    && if L.Held(cells, l.file, l.group) then L.IsLock(cells[slot - 1], l.file, l.group)
       else L.FirstFree(cells, L.LockHash(l.file, l.group, |cells|), slot)
  }

  /** A lock is given back. */
  ghost predicate Frees(cells: seq<L.Cell>, cells': seq<L.Cell>, l: L.Grant) {
    exists slot :: 1 <= slot <= |cells| && FreesAt(cells, cells', l, slot)
  }

  ghost predicate FreesAt(cells: seq<L.Cell>, cells': seq<L.Cell>, l: L.Grant, slot: nat)
    requires 1 <= slot <= |cells|
  {
    L.IsLock(cells[slot - 1], l.file, l.group) && cells' == L.AfterFree(cells, slot)
  }

  /** What becomes of the table when a process had some locks and now has others. */
  ghost predicate TableStep(cells: seq<L.Cell>, cells': seq<L.Cell>, had: multiset<L.Grant>, has: multiset<L.Grant>) {
    || (has == had && cells' == cells)
    || (exists l :: has == had + multiset{l} && Gets(cells, cells', l))
    || (exists l :: had == has + multiset{l} && Frees(cells, cells', l))
  }

  /** Process `i` makes a step in file `f`. It goes to another file only when it rests where it was. The
      file table lock is one for all files. */
  ghost predicate SystemNext(n: seq<Naming>, y: System, y': System, f: nat, i: nat)
    requires Shape(n, y)
  {
    && f < |y.files| == |y'.files| && i < |y.at| && y'.at == y.at[i := f]
    && (y.at[i] == f || Resting(y.files[y.at[i]].procs[i]))
    && y'.files == y.files[f := y'.files[f]] && Next(n[f], y.files[f], y'.files[f], i)
    && (y.files[f].procs[i].WantTable? ==> forall g | 0 <= g < |y.files| :: TableFree(y.files[g]))
    && TableStep(y.cells, y'.cells, Locks(f, y.files[f].procs[i]), Locks(f, y'.files[f].procs[i]))
  }

  ghost predicate SystemInit(n: seq<Naming>, y: System) {
    && Shape(n, y)
    && (forall f | 0 <= f < |y.files| :: Init(n[f], y.files[f]))
    && forall k | 0 <= k < |y.cells| :: y.cells[k] == L.Cell(0, 0, 0, 0, 0)
  }

  // ------------------------------------------------------------------------
  // The invariant

  ghost predicate FilesOk(n: seq<Naming>, y: System)
    requires Shape(n, y)
  {
    forall f | 0 <= f < |y.files| :: Inv(n[f], y.files[f])
  }

  ghost predicate AtWork(n: seq<Naming>, y: System)
    requires Shape(n, y)
  {
    forall f, i | 0 <= f < |y.files| && 0 <= i < |y.at| && f != y.at[i] :: Resting(y.files[f].procs[i])
  }

  /** The table holds just the locks that the processes have. */
  ghost predicate CellsHold(n: seq<Naming>, y: System)
    requires Shape(n, y)
  {
    L.CellsOk(y.cells) && L.GrantsOk(AllHeld(n, y, |y.at|), y.cells)
  }

  /** The cell holds the header lock of a file that its holder is splitting or merging; and if there is
      just one file, just one process. */
  ghost predicate HeaderIn(n: seq<Naming>, y: System, c: L.Cell)
    requires Shape(n, y)
  {
    && c.group == 0 && (|y.files| == 1 ==> |y.at| == 1)
    && exists j | 0 <= j < |y.at| :: y.at[j] == c.file && AtHeader(y.files[y.at[j]].procs[j])
  }

  /** The last cell of a scan holds a lock of the hash that the scan is for only if that is such a
      header lock. */
  ghost predicate WrapsOk(n: seq<Naming>, y: System)
    requires Shape(n, y)
  {
    forall h | 1 <= h <= |y.cells| && L.Before(y.cells, h).hash == h :: HeaderIn(n, y, L.Before(y.cells, h))
  }

  ghost predicate SystemInv(n: seq<Naming>, y: System) {
    Shape(n, y) && FilesOk(n, y) && AtWork(n, y) && CellsHold(n, y) && WrapsOk(n, y)
  }

  // ------------------------------------------------------------------------
  // Cells and locks

  /** The locks in the first `k` cells, one grant for each. */
  ghost function Marks(cells: seq<L.Cell>, k: nat): set<L.Grant>
    requires k <= |cells|
  {
    if k == 0 then {}
    else Marks(cells, k - 1) + (if cells[k - 1].hash != 0 then {Mark(cells[k - 1])} else {})
  }

  function Mark(c: L.Cell): L.Grant {
    L.Grant(c.file, c.group, c.grpCount < 0)
  }

  ghost function UsedCells(cells: seq<L.Cell>, k: nat): nat
    requires k <= |cells|
  {
    if k == 0 then 0 else UsedCells(cells, k - 1) + if cells[k - 1].hash != 0 then 1 else 0
  }

  lemma {:induction false} MarkFrom(cells: seq<L.Cell>, k: nat, l: L.Grant) returns (i: nat)
    requires k <= |cells| && l in Marks(cells, k)
    ensures i < k && cells[i].hash != 0 && Mark(cells[i]) == l
  {
    if cells[k - 1].hash != 0 && Mark(cells[k - 1]) == l {
      i := k - 1;
    } else {
      i := MarkFrom(cells, k - 1, l);
    }
  }

  lemma {:induction false} NotMarked(cells: seq<L.Cell>, k: nat, l: L.Grant)
    requires k <= |cells| && forall i | 0 <= i < k && cells[i].hash != 0 :: Mark(cells[i]) != l
    ensures l !in Marks(cells, k)
  {
    if k > 0 {
      NotMarked(cells, k - 1, l);
    }
  }

  lemma OneMark(cells: seq<L.Cell>, i: nat, j: nat)
    requires L.CellsOk(cells) && i < j < |cells| && cells[i].hash != 0 && cells[j].hash != 0
    ensures Mark(cells[i]) != Mark(cells[j])
  {
    assert L.Apart(cells, i, j);
  }

  lemma {:induction false} MarksCount(cells: seq<L.Cell>, k: nat)
    requires k <= |cells| && L.CellsOk(cells)
    ensures |Marks(cells, k)| == UsedCells(cells, k)
  {
    if k > 0 {
      MarksCount(cells, k - 1);
      if cells[k - 1].hash != 0 {
        forall i | 0 <= i < k - 1 && cells[i].hash != 0 ensures Mark(cells[i]) != Mark(cells[k - 1]) {
          OneMark(cells, i, k - 1);
        }
        NotMarked(cells, k - 1, Mark(cells[k - 1]));
      }
    }
  }

  /** No more cells are used than there are grants. */
  lemma UsedBound(cells: seq<L.Cell>, grants: multiset<L.Grant>)
    requires L.CellsOk(cells) && L.GrantsOk(grants, cells)
    ensures UsedCells(cells, |cells|) <= |grants|
  {
    hide L.CellsOk, Marks, UsedCells;
    var marks := Marks(cells, |cells|);
    MarksCount(cells, |cells|);
    forall l | l in marks ensures grants[l] >= 1 {
      var i := MarkFrom(cells, |cells|, l);
      L.StateAt(cells, i);
      L.UsedCell(cells, i);
      assert L.GrantMatches(grants, cells, l.file, l.group);
    }
    assert multiset(marks) <= grants;
    assert grants == multiset(marks) + (grants - multiset(marks));
  }

  /** If all cells but perhaps one are used. */
  lemma {:induction false} NearlyAll(cells: seq<L.Cell>, k: nat, skip: nat)
    requires k <= |cells| && forall i | 0 <= i < |cells| && i != skip :: cells[i].hash != 0
    ensures UsedCells(cells, k) >= k - (if skip < k then 1 else 0)
  {
    if k > 0 {
      NearlyAll(cells, k - 1, skip);
    }
  }

  lemma GetKeeps(cells: seq<L.Cell>, cells': seq<L.Cell>, grants: multiset<L.Grant>, l: L.Grant)
    requires L.CellsOk(cells) && L.GrantsOk(grants, cells) && Gets(cells, cells', l)
    ensures |cells'| == |cells| && L.CellsOk(cells') && L.GrantsOk(grants + multiset{l}, cells')
  {
    hide L.CellsOk, L.GrantsOk, L.OnlyChanges, L.CountHash;
    var slot :| 1 <= slot <= |cells| && GetsAt(cells, cells', l, slot);
    GotState(cells, l, slot);
    L.GrantAdded(grants, cells, cells', l.file, l.group, l.write);
  }

  /** What the table has become by a grant. */
  lemma GotState(cells: seq<L.Cell>, l: L.Grant, slot: nat)
    requires L.CellsOk(cells) && 1 <= slot <= |cells| && !L.MustWait(cells, l.file, l.group, l.write)
    requires if L.Held(cells, l.file, l.group) then L.IsLock(cells[slot - 1], l.file, l.group) else cells[slot - 1].hash == 0
    ensures var cells' := L.AfterGet(cells, slot, l.file, l.group, l.write); var state := L.LockState(cells, l.file, l.group);
            && |cells'| == |cells| && L.CellsOk(cells') && L.OnlyChanges(cells, cells', l.file, l.group)
            && L.Compatible(state, l.write) && L.LockState(cells', l.file, l.group) == L.Granted(state, l.write)
  {
    hide L.CellsOk, L.OnlyChanges, L.CountHash, L.Before;
    if L.Held(cells, l.file, l.group) {
      L.StateAt(cells, slot - 1);
      L.UsedCell(cells, slot - 1);
      L.RecountedOk(cells, slot - 1, cells[slot - 1].grpCount + 1);
    } else {
      L.AddedOk(cells, slot - 1, l.file, l.group, if l.write then -1 else 1);
    }
  }

  lemma FreeKeeps(cells: seq<L.Cell>, cells': seq<L.Cell>, grants: multiset<L.Grant>, l: L.Grant)
    requires L.CellsOk(cells) && L.GrantsOk(grants, cells) && Frees(cells, cells', l) && l in grants
    ensures |cells'| == |cells| && L.CellsOk(cells') && L.GrantsOk(grants - multiset{l}, cells')
  {
    hide L.CellsOk, L.GrantsOk, L.OnlyChanges, L.CountHash;
    var slot :| 1 <= slot <= |cells| && FreesAt(cells, cells', l, slot);
    L.StateAt(cells, slot - 1);
    L.UsedCell(cells, slot - 1);
    var c := cells[slot - 1];
    L.HomeCount(cells, slot - 1);
    if c.grpCount < 0 || c.grpCount == 1 {
      L.DroppedOk(cells, slot - 1);
    } else {
      L.RecountedOk(cells, slot - 1, c.grpCount - 1);
    }
    L.GrantTaken(grants, cells, cells', l.file, l.group, l.write);
  }
}
