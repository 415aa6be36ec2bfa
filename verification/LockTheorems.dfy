/** What the lock table does for all the processes of a system, in every reachable state: it holds just
    the locks they have, it refuses a lock that nobody holds only for as long as a split or merge has
    the header lock of its file, and no state is a deadlock. */
module LockTheorems {
  import opened Addressing
  import opened Blocks
  import opened Tables
  import opened Protocol
  import opened ProtocolTheorems
  import opened Progress
  import opened LockSystems
  import L = LockTables

  // ------------------------------------------------------------------------
  // What a step does to the locks of the process that makes it

  /** The second is the first with one lock more. */
  predicate Gains(a: Hold, b: Hold, g: nat, write: bool) {
    match b
    case Nil => false
    case One(x, w) => a == Nil && g == x && write == w
    case Two(x, z) => write && a.One? && a.write && ((a.g == x && g == z) || (a.g == z && g == x))
    case Three(x, z) => write && a == Two(x, z) && g == 0
  }

  lemma GainsGrant(f: nat, a: Hold, b: Hold, g: nat, write: bool)
    requires Gains(a, b, g, write)
    ensures Grants(f, b) == Grants(f, a) + multiset{L.Grant(f, g, write)}
  {
  }

  ghost predicate Loses(a: Hold, b: Hold) {
    exists g: nat, write :: Gains(b, a, g, write)
  }

  /** A step that sets a lock sets the one that was wanted; any other step gives back one lock at most,
      and one that gives back the header lock nothing else. */
  lemma HoldStep(n: Naming, s: State, s': State, i: nat)
    requires Next(n, s, s', i)
    ensures var pc, pc' := s.procs[i], s'.procs[i];
            && (Wanted(pc).Some? ==>
                  CanLock(s, i, Wanted(pc).lock, WantsWrite(pc)) && Gains(HoldOf(pc), HoldOf(pc'), Wanted(pc).lock, WantsWrite(pc)))
            && (Wanted(pc).None? ==> HoldOf(pc') == HoldOf(pc) || Loses(HoldOf(pc), HoldOf(pc')))
            && (AtHeader(pc) ==> Gains(HoldOf(pc'), HoldOf(pc), 0, true))
  {
    hide AddressOf, CanLock, Works, MovesOne, Shuffles, Allots, NoneToMove, TableFree, IdsIn, Loses;
    var pc, pc' := s.procs[i], s'.procs[i];
    if pc.HasHeader? {
      assert Gains(HoldOf(pc'), HoldOf(pc), 0, true);
      Lost(HoldOf(pc), HoldOf(pc'), 0, true);
    } else if pc.Worked? {
      Lost(HoldOf(pc), HoldOf(pc'), pc.g, pc.write);
    } else if pc.Moving? && pc'.FreedFrom? {
      Lost(HoldOf(pc), HoldOf(pc'), pc.from, true);
    } else if pc.FreedFrom? {
      Lost(HoldOf(pc), HoldOf(pc'), pc.to, true);
    } else if pc.Scanning? {
      Lost(HoldOf(pc), HoldOf(pc'), pc.tour.g, false);
    }
  }

  lemma Lost(a: Hold, b: Hold, g: nat, write: bool)
    requires Gains(b, a, g, write)
    ensures Loses(a, b)
  {
  }

  // ------------------------------------------------------------------------
  // Files and processes

  /** What a process had and has, wherever it was at work. */
  lemma HadHas(n: seq<Naming>, y: System, y': System, f: nat, i: nat)
    requires SystemInv(n, y) && SystemNext(n, y, y', f, i)
    ensures Shape(n, y') && |y'.cells| == |y.cells|
    ensures HeldBy(y, i) == Locks(f, y.files[f].procs[i]) && HeldBy(y', i) == Locks(f, y'.files[f].procs[i])
    ensures forall j | 0 <= j < |y.at| && j != i :: HeldBy(y', j) == HeldBy(y, j) && y'.at[j] == y.at[j]
    ensures forall j | 0 <= j < |y.at| && j != i :: y'.files[y.at[j]].procs[j] == y.files[y.at[j]].procs[j]
  {
    hide FilesOk, CellsHold, WrapsOk, Local, HoldOf;
    if y.at[i] != f {
      HoldSizes(y.files[f].procs[i]);
      HoldSizes(y.files[y.at[i]].procs[i]);
    }
    TableSize(y.cells, y'.cells, Locks(f, y.files[f].procs[i]), Locks(f, y'.files[f].procs[i]));
  }

  lemma TableSize(cells: seq<L.Cell>, cells': seq<L.Cell>, had: multiset<L.Grant>, has: multiset<L.Grant>)
    requires TableStep(cells, cells', had, has)
    ensures |cells'| == |cells|
  {
  }

  lemma {:induction false} AllHeldStep(n: seq<Naming>, y: System, y': System, i: nat, k: nat)
    requires Shape(n, y) && Shape(n, y') && |y'.at| == |y.at| && i < |y.at| && k <= |y.at|
    requires forall j | 0 <= j < |y.at| && j != i :: HeldBy(y', j) == HeldBy(y, j)
    ensures k <= i ==> AllHeld(n, y', k) == AllHeld(n, y, k)
    ensures k > i ==> AllHeld(n, y', k) + HeldBy(y, i) == AllHeld(n, y, k) + HeldBy(y', i)
  {
    hide HeldBy;
    if k > 0 {
      AllHeldStep(n, y, y', i, k - 1);
      Swap(AllHeld(n, y', k - 1), HeldBy(y', k - 1), HeldBy(y, i));
      Swap(AllHeld(n, y, k - 1), HeldBy(y, k - 1), HeldBy(y', i));
    }
  }

  lemma Swap<T>(a: multiset<T>, b: multiset<T>, c: multiset<T>)
    ensures (a + b) + c == (a + c) + b
  {
  }

  lemma FilesKept(n: seq<Naming>, y: System, y': System, f: nat, i: nat)
    requires SystemInv(n, y) && SystemNext(n, y, y', f, i) && Shape(n, y')
    ensures FilesOk(n, y')
  {
    hide Inv, Next, CellsHold, WrapsOk, AtWork, TableStep, TableFree;
    forall g | 0 <= g < |y'.files| ensures Inv(n[g], y'.files[g]) {
      if g == f {
        StepKeeps(n[f], y.files[f], y'.files[f], i);
      }
    }
  }

  lemma AtWorkKept(n: seq<Naming>, y: System, y': System, f: nat, i: nat)
    requires SystemInv(n, y) && SystemNext(n, y, y', f, i) && Shape(n, y')
    ensures AtWork(n, y')
  {
    hide Inv, Local, CellsHold, WrapsOk, TableStep, TableFree;
  }

  // ------------------------------------------------------------------------
  // The table

  lemma CellsKept(n: seq<Naming>, y: System, y': System, f: nat, i: nat)
    requires SystemInv(n, y) && SystemNext(n, y, y', f, i) && Shape(n, y')
    ensures CellsHold(n, y')
  {
    hide Inv, Next, WrapsOk, AtWork, FilesOk, HeldBy, L.CellsOk, L.GrantsOk, Gets, Frees, TableFree, Locks;
    HadHas(n, y, y', f, i);
    var k := |y.at|;
    AllHeldStep(n, y, y', i, k);
    var had, has, all, all' := HeldBy(y, i), HeldBy(y', i), AllHeld(n, y, k), AllHeld(n, y', k);
    if l :| has == had + multiset{l} && Gets(y.cells, y'.cells, l) {
      GetKeeps(y.cells, y'.cells, all, l);
      assert all' + had == (all + multiset{l}) + had;
      Cancel(all', all + multiset{l}, had);
    } else if l :| had == has + multiset{l} && Frees(y.cells, y'.cells, l) {
      HeldByOne(n, y, k, i, l);
      FreeKeeps(y.cells, y'.cells, all, l);
      assert all' + multiset{l} + has == all + has;
      Cancel(all' + multiset{l}, all, has);
      assert all' == all - multiset{l};
    } else {
      Cancel(all', all, had);
    }
  }

  lemma Cancel<T>(a: multiset<T>, b: multiset<T>, c: multiset<T>)
    requires a + c == b + c
    ensures a == b
  {
    assert a == (a + c) - c && b == (b + c) - c;
  }

  ghost predicate AllButOne(cells: seq<L.Cell>) {
    exists slot :: 1 <= slot <= |cells| && OthersUsed(cells, slot)
  }

  ghost predicate OthersUsed(cells: seq<L.Cell>, slot: nat) {
    forall k | 0 <= k < |cells| && k != slot - 1 :: cells[k].hash != 0
  }

  /** A lock that is put in the last cell of its own scan is the header lock of a split or merge: with
      three cells for each process, no other finds all cells but that one used. */
  lemma LastIsHeader(n: seq<Naming>, y: System, f: nat, i: nat)
    requires SystemInv(n, y) && f < |y.files| && i < |y.at| && Wanted(y.files[f].procs[i]).Some? && AllButOne(y.cells)
    ensures y.at[i] == f && y.files[f].procs[i].WantHeader? && y.files[f].procs[i].h.MoveLocks?
    ensures |y.files| == 1 ==> |y.at| == 1
  {
    hide FilesOk, WrapsOk, L.CellsOk, L.GrantsOk, HoldOf, HeldBy;
    var pc := y.files[f].procs[i];
    assert !Resting(pc);
    var slot :| 1 <= slot <= |y.cells| && OthersUsed(y.cells, slot);
    NearlyAll(y.cells, |y.cells|, slot - 1);
    UsedBound(y.cells, AllHeld(n, y, |y.at|));
    HeldBound(n, y, |y.at|, i, true);
    HeldSize(n, y, i);
    HoldSizes(pc);
    if |y.files| == 1 && |y.at| > 1 {
      if forall j | 0 <= j < |y.at| && j != i :: |HeldBy(y, j)| <= 2 {
        HeldBound(n, y, |y.at|, i, false);
        assert false;
      }
      var j :| 0 <= j < |y.at| && j != i && |HeldBy(y, j)| > 2;
      HeldSize(n, y, j);
      HoldSizes(y.files[y.at[j]].procs[j]);
      TwoResizes(n, y, f, i, j);
    }
  }

  lemma TwoResizes(n: seq<Naming>, y: System, f: nat, i: nat, j: nat)
    requires SystemInv(n, y) && f < |y.files| && i < |y.at| && j < |y.at|
    requires Resizes(y.files[f].procs[i]) && Resizes(y.files[f].procs[j])
    ensures i == j
  {
    hide CellsHold, WrapsOk, AtWork, OneTable, LocksExclude, NewIsFree, RecordsOk, HoldersOk, AddressOf, InhibitCount;
    hide IsPow2, PcsOk;
    hide SpaceOk, Unique, ReadersOk, HandsOk;
    assert Inv(n[f], y.files[f]);
  }

  lemma LastFree(cells: seq<L.Cell>, home: nat, slot: nat)
    requires 1 <= home <= |cells| && L.FirstFree(cells, home, slot) && slot == L.Steps(home, |cells| - 1, |cells|)
    ensures AllButOne(cells)
  {
    var d: nat :| d < |cells| && slot == L.Steps(home, d, |cells|) && L.UsedUpTo(cells, home, d);
    forall k | 0 <= k < |cells| && k != slot - 1 ensures cells[k].hash != 0 {
      var e := L.RotatedAll(cells, home, k);
      assert L.Rotated(cells, home)[e].hash != 0;
    }
    assert OthersUsed(cells, slot);
  }

  /** A grant changes the hash of one cell at most. */
  lemma GetHashes(cells: seq<L.Cell>, l: L.Grant, slot: nat, h: nat)
    requires 1 <= slot <= |cells| && 1 <= h <= |cells|
    ensures var cells' := L.AfterGet(cells, slot, l.file, l.group, l.write); var at := L.Steps(h, |cells| - 1, |cells|);
            && |cells'| == |cells|
            && (at != slot || L.Held(cells, l.file, l.group) ==>
                  L.Before(cells', h).hash == L.Before(cells, h).hash && L.Before(cells', h).file == L.Before(cells, h).file
                  && L.Before(cells', h).group == L.Before(cells, h).group)
            && (at == slot && !L.Held(cells, l.file, l.group) ==>
                  L.Before(cells', h).hash == L.LockHash(l.file, l.group, |cells|)
                  && L.Before(cells', h).file == l.file && L.Before(cells', h).group == l.group)
  {
    hide L.Held, L.LockHash;
  }

  /** Giving a lock back fills no cell. */
  lemma FreeHashes(cells: seq<L.Cell>, slot: nat, h: nat)
    requires 1 <= slot <= |cells| && 1 <= h <= |cells|
    ensures var cells' := L.AfterFree(cells, slot);
            && |cells'| == |cells|
            && (L.Before(cells', h).hash != 0 ==>
                  L.Before(cells', h).hash == L.Before(cells, h).hash && L.Before(cells', h).file == L.Before(cells, h).file
                  && L.Before(cells', h).group == L.Before(cells, h).group)
  {
  }

  /** The header lock a split or merge gives back is in one cell, which is then free. */
  lemma HeaderFreed(cells: seq<L.Cell>, cells': seq<L.Cell>, f: nat, grants: multiset<L.Grant>)
    requires L.CellsOk(cells) && L.GrantsOk(grants, cells) && L.Grant(f, 0, true) in grants
    requires Frees(cells, cells', L.Grant(f, 0, true))
    ensures |cells'| == |cells| && !L.Held(cells', f, 0)
  {
    hide L.CellsOk, L.GrantsOk, L.CountHash;
    var l := L.Grant(f, 0, true);
    FreeKeeps(cells, cells', grants, l);
    L.WriterAlone(grants, cells, f, 0);
    NoGrant(cells', grants - multiset{l}, f, 0);
  }

  lemma NoGrant(cells: seq<L.Cell>, grants: multiset<L.Grant>, f: nat, g: nat)
    requires L.CellsOk(cells) && L.GrantsOk(grants, cells) && L.Grant(f, g, true) !in grants
             && L.Grant(f, g, false) !in grants
    ensures !L.Held(cells, f, g)
  {
    assert L.GrantMatches(grants, cells, f, g);
    if L.Held(cells, f, g) {
      HeldState(cells, f, g);
    }
  }

  /** A lock that is in the table has a state. */
  lemma HeldState(cells: seq<L.Cell>, file: nat, g: nat)
    requires L.CellsOk(cells)
    ensures L.Held(cells, file, g) <==> L.LockState(cells, file, g) != 0
  {
    if L.Held(cells, file, g) {
      var i :| 0 <= i < |cells| && L.IsLock(cells[i], file, g);
      L.StateAt(cells, i);
      assert L.CellOk(cells[i], |cells|);
    }
  }

  lemma SameGrant(a: multiset<L.Grant>, k: L.Grant, l: L.Grant)
    requires a + multiset{k} == a + multiset{l}
    ensures k == l
  {
    assert (a + multiset{k})[k] == a[k] + 1;
  }

  lemma InPlace(n: Naming, s: State, s': State, i: nat)
    requires Next(n, s, s', i)
    ensures i < |s.procs| == |s'.procs|
  {
  }

  /** A lock that is set or given back is one that the table grants or frees. */
  lemma TableCases(n: Naming, s: State, s': State, f: nat, i: nat, cells: seq<L.Cell>, cells': seq<L.Cell>)
    requires Next(n, s, s', i) && TableStep(cells, cells', Locks(f, s.procs[i]), Locks(f, s'.procs[i]))
    ensures var pc, pc' := s.procs[i], s'.procs[i];
            && (Wanted(pc).Some? ==> Gets(cells, cells', L.Grant(f, Wanted(pc).lock, WantsWrite(pc))))
            && (Wanted(pc).None? ==> cells' == cells || exists l :: l in Locks(f, pc) && Frees(cells, cells', l))
            && (AtHeader(pc) ==> Frees(cells, cells', L.Grant(f, 0, true)))
  {
    hide Next, Grants, HoldOf, Gains, Gets, Frees, WantsWrite;
    HoldStep(n, s, s', i);
    InPlace(n, s, s', i);
    var pc, pc' := s.procs[i], s'.procs[i];
    var had, has := Locks(f, pc), Locks(f, pc');
    if Wanted(pc).Some? {
      var k := L.Grant(f, Wanted(pc).lock, WantsWrite(pc));
      GainsGrant(f, HoldOf(pc), HoldOf(pc'), k.group, k.write);
      var l :| has == had + multiset{l} && Gets(cells, cells', l);
      SameGrant(had, k, l);
    } else if AtHeader(pc) {
      GainsGrant(f, HoldOf(pc'), HoldOf(pc), 0, true);
      var l :| had == has + multiset{l} && Frees(cells, cells', l);
      SameGrant(has, L.Grant(f, 0, true), l);
    } else if HoldOf(pc') != HoldOf(pc) {
      var g: nat, write :| Gains(HoldOf(pc'), HoldOf(pc), g, write);
      GainsGrant(f, HoldOf(pc'), HoldOf(pc), g, write);
      var l :| had == has + multiset{l} && Frees(cells, cells', l);
      assert l in had;
    }
  }

  /** Whoever has a header lock keeps it while another makes a step. */
  lemma WrapStays(n: seq<Naming>, y: System, y': System, f: nat, i: nat, c: L.Cell, c': L.Cell)
    requires SystemInv(n, y) && SystemNext(n, y, y', f, i) && Shape(n, y') && !AtHeader(y.files[f].procs[i])
    requires HeaderIn(n, y, c) && c'.file == c.file && c'.group == c.group
    ensures HeaderIn(n, y', c')
  {
    hide FilesOk, CellsHold, WrapsOk, Local, TableFree, TableStep;
    HadHas(n, y, y', f, i);
    var j :| 0 <= j < |y.at| && y.at[j] == c.file && AtHeader(y.files[y.at[j]].procs[j]);
    assert j != i by {
      if j == i && y.at[i] != f {
        HoldSizes(y.files[y.at[i]].procs[i]);
      }
    }
    assert AtHeader(y'.files[y'.at[j]].procs[j]);
  }

  /** A grant after which a scan ends on a lock of its own hash: it did so before, or the lock has been
      put there because all other cells were used. */
  lemma GetWraps(cells: seq<L.Cell>, cells': seq<L.Cell>, l: L.Grant, h: nat)
    requires Gets(cells, cells', l) && |cells'| == |cells| && 1 <= h <= |cells| && L.Before(cells', h).hash == h
    ensures var c, c' := L.Before(cells, h), L.Before(cells', h);
            || (c.hash == h && c'.file == c.file && c'.group == c.group)
            || (AllButOne(cells) && c'.file == l.file && c'.group == l.group)
  {
    hide L.Before, L.AfterGet, L.FirstFree, L.MustWait, L.Held;
    var slot :| 1 <= slot <= |cells| && GetsAt(cells, cells', l, slot);
    GetHashes(cells, l, slot, h);
    if L.Steps(h, |cells| - 1, |cells|) == slot && !L.Held(cells, l.file, l.group) {
      LastFree(cells, h, slot);
    }
  }

  lemma WrapAfterGet(n: seq<Naming>, y: System, y': System, f: nat, i: nat, h: nat)
    requires SystemInv(n, y) && SystemNext(n, y, y', f, i) && Shape(n, y') && Wanted(y.files[f].procs[i]).Some?
    requires 1 <= h <= |y'.cells| && L.Before(y'.cells, h).hash == h
    ensures HeaderIn(n, y', L.Before(y'.cells, h))
  {
    hide FilesOk, CellsHold, WrapsOk, Next, TableFree, TableStep, L.Before, Gets, HoldOf, Grants;
    var pc := y.files[f].procs[i];
    TableCases(n[f], y.files[f], y'.files[f], f, i, y.cells, y'.cells);
    HadHas(n, y, y', f, i);
    GetWraps(y.cells, y'.cells, L.Grant(f, Wanted(pc).lock, WantsWrite(pc)), h);
    if AllButOne(y.cells) {
      LastIsHeader(n, y, f, i);
      HeaderTaken(n[f], y.files[f], y'.files[f], i);
      assert AtHeader(y'.files[y'.at[i]].procs[i]);
    }
    if L.Before(y.cells, h).hash == h {
      WrapThere(n, y, h);
      if L.Before(y'.cells, h).file == L.Before(y.cells, h).file && L.Before(y'.cells, h).group == L.Before(y.cells, h).group {
        WrapStays(n, y, y', f, i, L.Before(y.cells, h), L.Before(y'.cells, h));
      }
    }
  }

  lemma WrapThere(n: seq<Naming>, y: System, h: nat)
    requires SystemInv(n, y) && 1 <= h <= |y.cells| && L.Before(y.cells, h).hash == h
    ensures HeaderIn(n, y, L.Before(y.cells, h))
  {
  }

  lemma HeaderTaken(n: Naming, s: State, s': State, i: nat)
    requires Next(n, s, s', i) && s.procs[i].WantHeader?
    ensures s'.procs[i] == HasHeader(s.procs[i].h) && Wanted(s.procs[i]).lock == 0
  {
  }

  lemma WrapAfterFree(n: seq<Naming>, y: System, y': System, f: nat, i: nat, h: nat)
    requires SystemInv(n, y) && SystemNext(n, y, y', f, i) && Shape(n, y')
    requires Wanted(y.files[f].procs[i]).None? && !AtHeader(y.files[f].procs[i])
    requires 1 <= h <= |y'.cells| && L.Before(y'.cells, h).hash == h
    ensures HeaderIn(n, y', L.Before(y'.cells, h))
  {
    hide FilesOk, CellsHold, Local, TableFree, TableStep, L.Before, L.AfterFree, HoldOf, Grants, AtHeader;
    TableCases(n[f], y.files[f], y'.files[f], f, i, y.cells, y'.cells);
    HadHas(n, y, y', f, i);
    if y'.cells != y.cells {
      var l :| l in Locks(f, y.files[f].procs[i]) && Frees(y.cells, y'.cells, l);
      var slot :| 1 <= slot <= |y.cells| && FreesAt(y.cells, y'.cells, l, slot);
      FreeHashes(y.cells, slot, h);
    }
    WrapStays(n, y, y', f, i, L.Before(y.cells, h), L.Before(y'.cells, h));
  }

  lemma WrapAfterHeader(n: seq<Naming>, y: System, y': System, f: nat, i: nat, h: nat)
    requires SystemInv(n, y) && SystemNext(n, y, y', f, i) && Shape(n, y') && AtHeader(y.files[f].procs[i])
    requires 1 <= h <= |y'.cells| && L.Before(y'.cells, h).hash == h
    ensures HeaderIn(n, y', L.Before(y'.cells, h))
  {
    hide FilesOk, Local, TableFree, TableStep, L.Before, L.AfterFree, HoldOf, Grants, L.CellsOk, L.GrantsOk, L.Held;
    var pc, l := y.files[f].procs[i], L.Grant(f, 0, true);
    TableCases(n[f], y.files[f], y'.files[f], f, i, y.cells, y'.cells);
    HadHas(n, y, y', f, i);
    LocksHeld(f, pc, l);
    HeldByOne(n, y, |y.at|, i, l);
    HeaderFreed(y.cells, y'.cells, f, AllHeld(n, y, |y.at|));
    var slot :| 1 <= slot <= |y.cells| && FreesAt(y.cells, y'.cells, l, slot);
    FreeHashes(y.cells, slot, h);
    var c, c' := L.Before(y.cells, h), L.Before(y'.cells, h);
    assert HeaderIn(n, y, c);
    NotFreed(y'.cells, h, f);
    var j :| 0 <= j < |y.at| && y.at[j] == c.file && AtHeader(y.files[y.at[j]].procs[j]);
    assert j != i;
    assert AtHeader(y'.files[y'.at[j]].procs[j]);
  }

  lemma NotFreed(cells: seq<L.Cell>, h: nat, f: nat)
    requires 1 <= h <= |cells| && !L.Held(cells, f, 0) && L.Before(cells, h).hash != 0
    ensures L.Before(cells, h).file != f || L.Before(cells, h).group != 0
  {
    assert !L.IsLock(L.Before(cells, h), f, 0);
  }

  lemma WrapsKept(n: seq<Naming>, y: System, y': System, f: nat, i: nat)
    requires SystemInv(n, y) && SystemNext(n, y, y', f, i) && Shape(n, y')
    ensures WrapsOk(n, y')
  {
    hide SystemInv, SystemNext, Shape, AtHeader, Wanted, L.Before, HeaderIn;
    HadHas(n, y, y', f, i);
    forall h | 1 <= h <= |y'.cells| && L.Before(y'.cells, h).hash == h ensures HeaderIn(n, y', L.Before(y'.cells, h)) {
      OnFile(n, y, y', f, i);
      if Wanted(y.files[f].procs[i]).Some? {
        WrapAfterGet(n, y, y', f, i, h);
      } else if AtHeader(y.files[f].procs[i]) {
        WrapAfterHeader(n, y, y', f, i, h);
      } else {
        WrapAfterFree(n, y, y', f, i, h);
      }
    }
  }

  lemma OnFile(n: seq<Naming>, y: System, y': System, f: nat, i: nat)
    requires SystemInv(n, y) && SystemNext(n, y, y', f, i)
    ensures f < |y.files| && i < |y.files[f].procs|
  {
  }

  /** Every step of every process keeps the invariant. */
  lemma SystemStepKeeps(n: seq<Naming>, y: System, y': System, f: nat, i: nat)
    requires SystemInv(n, y) && SystemNext(n, y, y', f, i)
    ensures SystemInv(n, y')
  {
    hide FilesOk, AtWork, CellsHold, WrapsOk, SystemNext, HeldBy, Locks;
    HadHas(n, y, y', f, i);
    FilesKept(n, y, y', f, i);
    AtWorkKept(n, y, y', f, i);
    CellsKept(n, y, y', f, i);
    WrapsKept(n, y, y', f, i);
  }

  lemma SystemStarts(n: seq<Naming>, y: System)
    requires SystemInit(n, y)
    ensures SystemInv(n, y)
  {
    hide Inv, Init, AllHeld;
    forall f | 0 <= f < |y.files| ensures Inv(n[f], y.files[f]) {
      InitKeeps(n[f], y.files[f]);
    }
    AtStart(n, y);
    NobodyHolds(n, y, |y.at|);
    NoCellUsed(y.cells);
  }

  lemma AtStart(n: seq<Naming>, y: System)
    requires SystemInit(n, y)
    ensures AtWork(n, y) && forall i | 0 <= i < |y.at| :: HeldBy(y, i) == multiset{}
  {
    hide SpaceOk, AddressOf;
  }

  lemma {:induction false} NobodyHolds(n: seq<Naming>, y: System, k: nat)
    requires Shape(n, y) && k <= |y.at| && forall i | 0 <= i < |y.at| :: HeldBy(y, i) == multiset{}
    ensures AllHeld(n, y, k) == multiset{}
  {
    hide HeldBy;
    if k > 0 {
      NobodyHolds(n, y, k - 1);
    }
  }

  lemma NoCellUsed(cells: seq<L.Cell>)
    requires |cells| >= 1 && forall k | 0 <= k < |cells| :: cells[k] == L.Cell(0, 0, 0, 0, 0)
    ensures L.CellsOk(cells) && L.GrantsOk(multiset{}, cells)
            && forall h | 1 <= h <= |cells| :: L.Before(cells, h).hash != h
  {
    forall i | 0 <= i < |cells| ensures L.CountOk(cells, i) {
      L.CountNone(cells, i + 1);
    }
  }

  // ------------------------------------------------------------------------
  // Runs

  /** A run of the whole system: at each step, a process and the file it makes the step in. */
  ghost predicate SystemRun(n: seq<Naming>, ys: seq<System>, what: seq<(nat, nat)>) {
    && |ys| == |what| + 1
    && SystemInit(n, ys[0])
    && forall k | 0 <= k < |what| :: Shape(n, ys[k]) && SystemNext(n, ys[k], ys[k + 1], what[k].0, what[k].1)
  }

  lemma {:induction false} SystemRunKeeps(n: seq<Naming>, ys: seq<System>, what: seq<(nat, nat)>, k: nat)
    requires SystemRun(n, ys, what) && k < |ys|
    ensures SystemInv(n, ys[k])
  {
    hide SystemInv, SystemNext, SystemInit;
    if k == 0 {
      SystemStarts(n, ys[0]);
    } else {
      SystemRunKeeps(n, ys, what, k - 1);
      SystemStepKeeps(n, ys[k - 1], ys[k], what[k - 1].0, what[k - 1].1);
    }
  }

  // ------------------------------------------------------------------------
  // What the table decides

  /** A lock that is in the table is held by a process at work on its file. */
  lemma HeldInFile(n: seq<Naming>, y: System, f: nat, j: nat, g: nat, write: bool)
    requires SystemInv(n, y) && f < |y.files| && j < |y.at|
    requires if write then HoldsWrite(y.files[f].procs[j], g) else HoldsRead(y.files[f].procs[j], g)
    ensures L.Grant(f, g, write) in AllHeld(n, y, |y.at|)
  {
    hide FilesOk, CellsHold, WrapsOk, HoldOf, Grants;
    var l := L.Grant(f, g, write);
    LocksHeld(f, y.files[f].procs[j], l);
    assert !Resting(y.files[f].procs[j]);
    assert y.at[j] == f;
    HeldByOne(n, y, |y.at|, j, l);
  }

  /** Whoever wants a lock finds a cell free. */
  lemma CellFree(n: seq<Naming>, y: System, f: nat, i: nat)
    requires SystemInv(n, y) && f < |y.files| && i < |y.at| && Wanted(y.files[f].procs[i]).Some?
    ensures exists k :: 0 <= k < |y.cells| && y.cells[k].hash == 0
  {
    hide FilesOk, WrapsOk, L.CellsOk, L.GrantsOk, HoldOf, HeldBy;
    assert !Resting(y.files[f].procs[i]) && y.at[i] == f;
    if forall k | 0 <= k < |y.cells| :: y.cells[k].hash != 0 {
      NearlyAll(y.cells, |y.cells|, |y.cells|);
      UsedBound(y.cells, AllHeld(n, y, |y.at|));
      HeldBound(n, y, |y.at|, i, true);
      HeldSize(n, y, i);
      HoldSizes(y.files[f].procs[i]);
      assert false;
    }
  }

  /** The table grants no lock that another process holds incompatibly. */
  lemma GrantIsSafe(n: seq<Naming>, y: System, f: nat, i: nat, g: nat, write: bool)
    requires SystemInv(n, y) && f < |y.files| && i < |y.at| && !L.MustWait(y.cells, f, g, write)
    ensures CanLock(y.files[f], i, g, write)
  {
    hide FilesOk, AtWork, WrapsOk, L.LockState, L.Held, L.Before, L.CellsOk;
    HeldState(y.cells, f, g);
    var all := AllHeld(n, y, |y.at|);
    assert L.GrantMatches(all, y.cells, f, g);
    forall j | 0 <= j < |y.at| && j != i
      ensures !HoldsWrite(y.files[f].procs[j], g) && (write ==> !HoldsRead(y.files[f].procs[j], g))
    {
      if HoldsWrite(y.files[f].procs[j], g) {
        HeldInFile(n, y, f, j, g, true);
      } else if write && HoldsRead(y.files[f].procs[j], g) {
        HeldInFile(n, y, f, j, g, false);
      }
    }
  }

  /** A lock that a process can take, and does not hold, is compatible with what the table has. */
  lemma TakeIsCompatible(n: seq<Naming>, y: System, f: nat, i: nat, g: nat, write: bool)
    requires SystemInv(n, y) && f < |y.files| && i < |y.at| && CanLock(y.files[f], i, g, write)
             && !Holds(y.files[f].procs[i], g)
    ensures L.Compatible(L.LockState(y.cells, f, g), write)
  {
    hide FilesOk, AtWork, WrapsOk, L.LockState, L.CellsOk, HoldOf, Grants;
    var all := AllHeld(n, y, |y.at|);
    assert L.GrantMatches(all, y.cells, f, g);
    forall w | L.Grant(f, g, w) in all ensures !w && !write {
      var j := HolderOf(n, y, |y.at|, L.Grant(f, g, w));
      LocksHeld(y.at[j], y.files[y.at[j]].procs[j], L.Grant(f, g, w));
    }
  }

  /** A process is made to wait exactly when another holds the lock incompatibly, or when the scan for
      a lock that nobody holds comes round: and that it does only while the header lock of a split or
      merge, whose holder waits for nothing, is in the last cell of the scan. A cell is always free. */
  lemma TableDecides(n: seq<Naming>, y: System, f: nat, i: nat)
    requires SystemInv(n, y) && f < |y.files| && i < |y.at| && Wanted(y.files[f].procs[i]).Some?
    ensures var pc := y.files[f].procs[i]; var g, write, home := Wanted(pc).lock, WantsWrite(pc), L.LockHash(f, Wanted(pc).lock, |y.cells|);
            && (L.MustWait(y.cells, f, g, write)
                <==> !CanLock(y.files[f], i, g, write) || (!L.Held(y.cells, f, g) && L.Before(y.cells, home).hash == home))
            && (L.Before(y.cells, home).hash == home ==> HeaderIn(n, y, L.Before(y.cells, home)))
            && exists k :: 0 <= k < |y.cells| && y.cells[k].hash == 0
  {
    hide FilesOk, AtWork, L.LockState, L.CellsOk, L.GrantsOk, L.Held, L.Before, CanLock, Wanted, WantsWrite, HeaderIn;
    hide L.Compatible;
    var pc := y.files[f].procs[i];
    var g, write := Wanted(pc).lock, WantsWrite(pc);
    CellFree(n, y, f, i);
    if !L.MustWait(y.cells, f, g, write) {
      GrantIsSafe(n, y, f, i, g, write);
    }
    if CanLock(y.files[f], i, g, write) {
      InvHere(n, y, f);
      WantsOther(n[f], y.files[f], i);
      TakeIsCompatible(n, y, f, i, g, write);
      HeldState(y.cells, f, g);
    }
  }

  /** In a system of one file a process is made to wait exactly when another holds the lock
      incompatibly. */
  lemma OneFileDecides(n: seq<Naming>, y: System, i: nat)
    requires SystemInv(n, y) && |y.files| == 1 && i < |y.at| && Wanted(y.files[0].procs[i]).Some?
    ensures var pc := y.files[0].procs[i];
            L.MustWait(y.cells, 0, Wanted(pc).lock, WantsWrite(pc)) <==> !CanLock(y.files[0], i, Wanted(pc).lock, WantsWrite(pc))
  {
    hide FilesOk, AtWork, CellsHold, WrapsOk, L.MustWait, CanLock, L.Held, L.Before;
    TableDecides(n, y, 0, i);
  }

  lemma InvHere(n: seq<Naming>, y: System, f: nat)
    requires SystemInv(n, y) && f < |y.files|
    ensures Inv(n[f], y.files[f])
  {
  }

  /** No process waits for a lock that it holds itself. */
  lemma WantsOther(n: Naming, s: State, i: nat)
    requires Inv(n, s) && i < |s.procs| && Wanted(s.procs[i]).Some?
    ensures !Holds(s.procs[i], Wanted(s.procs[i]).lock)
  {
    hide AddressOf, IsPow2, InhibitCount, RecordsOk, HoldersOk, SpaceOk, Unique, ReadersOk, HandsOk, OneTable, LocksExclude;
    hide OneResize, NewIsFree;
    var pc := s.procs[i];
    assert PcOk(n, s, pc);
    match pc {
      case WantHeader(h) =>
        if Holds(pc, 0) {
          GroupLock(n, s, pc, 0);
        }
      case WantSource(from, to) => assert MayMove(pc, from, to);
      case _ =>
    }
  }

  // ------------------------------------------------------------------------
  // No deadlock

  lemma {:induction false} FreeFrom(cells: seq<L.Cell>, h: nat, d: nat) returns (slot: nat)
    requires 1 <= h <= |cells| && d < |cells| && L.UsedUpTo(cells, h, d)
    requires exists k :: 0 <= k < |cells| && cells[k].hash == 0
    ensures L.FirstFree(cells, h, slot)
    decreases |cells| - d
  {
    L.RotatedAt(cells, h, d);
    if cells[L.Steps(h, d, |cells|) - 1].hash == 0 {
      slot := L.Steps(h, d, |cells|);
    } else {
      L.OneMoreUsed(cells, h, d);
      if d + 1 == |cells| {
        var k :| 0 <= k < |cells| && cells[k].hash == 0;
        var e := L.RotatedAll(cells, h, k);
        assert false;
      } else {
        slot := FreeFrom(cells, h, d + 1);
      }
    }
  }

  lemma CanGet(cells: seq<L.Cell>, l: L.Grant) returns (cells': seq<L.Cell>)
    requires |cells| >= 1 && !L.MustWait(cells, l.file, l.group, l.write)
    ensures Gets(cells, cells', l)
  {
    hide L.FirstFree, L.AfterGet, L.Before, L.UsedUpTo;
    var slot;
    if L.Held(cells, l.file, l.group) {
      var k :| 0 <= k < |cells| && L.IsLock(cells[k], l.file, l.group);
      slot := k + 1;
    } else {
      NoCellBefore(cells, L.LockHash(l.file, l.group, |cells|));
      slot := FreeFrom(cells, L.LockHash(l.file, l.group, |cells|), 0);
      FreeIn(cells, L.LockHash(l.file, l.group, |cells|), slot);
    }
    cells' := L.AfterGet(cells, slot, l.file, l.group, l.write);
    assert GetsAt(cells, cells', l, slot);
  }

  lemma NoCellBefore(cells: seq<L.Cell>, h: nat)
    requires 1 <= h <= |cells|
    ensures L.UsedUpTo(cells, h, 0)
  {
  }

  lemma FreeIn(cells: seq<L.Cell>, h: nat, slot: nat)
    requires 1 <= h <= |cells| && L.FirstFree(cells, h, slot)
    ensures 1 <= slot <= |cells|
  {
  }

  lemma CanFree(cells: seq<L.Cell>, grants: multiset<L.Grant>, l: L.Grant) returns (cells': seq<L.Cell>)
    requires L.CellsOk(cells) && L.GrantsOk(grants, cells) && l in grants
    ensures Frees(cells, cells', l)
  {
    hide L.CellsOk, L.AfterFree, L.LockState;
    assert L.GrantMatches(grants, cells, l.file, l.group);
    HeldState(cells, l.file, l.group);
    var k :| 0 <= k < |cells| && L.IsLock(cells[k], l.file, l.group);
    cells' := L.AfterFree(cells, k + 1);
    assert FreesAt(cells, cells', l, k + 1);
  }

  /** Whatever step a process can make, the table can make with it, unless it makes the process wait. */
  lemma TableFollows(n: Naming, s: State, s': State, f: nat, i: nat, cells: seq<L.Cell>, grants: multiset<L.Grant>)
    returns (cells': seq<L.Cell>)
    requires Next(n, s, s', i) && L.CellsOk(cells) && L.GrantsOk(grants, cells)
             && forall l | l in Locks(f, s.procs[i]) :: l in grants
    requires |cells| >= 1
    requires Wanted(s.procs[i]).Some? ==> !L.MustWait(cells, f, Wanted(s.procs[i]).lock, WantsWrite(s.procs[i]))
    ensures TableStep(cells, cells', Locks(f, s.procs[i]), Locks(f, s'.procs[i]))
  {
    hide Next, Grants, HoldOf, Gains, Gets, Frees, WantsWrite, L.CellsOk, L.GrantsOk, L.MustWait;
    InPlace(n, s, s', i);
    HoldStep(n, s, s', i);
    var pc, pc' := s.procs[i], s'.procs[i];
    if Wanted(pc).Some? {
      var l := L.Grant(f, Wanted(pc).lock, WantsWrite(pc));
      GainsGrant(f, HoldOf(pc), HoldOf(pc'), l.group, l.write);
      cells' := CanGet(cells, l);
    } else if HoldOf(pc') == HoldOf(pc) {
      cells' := cells;
    } else {
      var g: nat, write :| Gains(HoldOf(pc'), HoldOf(pc), g, write);
      GainsGrant(f, HoldOf(pc'), HoldOf(pc), g, write);
      assert L.Grant(f, g, write) in Locks(f, pc);
      cells' := CanFree(cells, grants, L.Grant(f, g, write));
    }
  }

  /** A step in one file is a step of the system. */
  lemma StepThere(n: seq<Naming>, y: System, f: nat, i: nat, s': State) returns (y': System)
    requires SystemInv(n, y) && f < |y.files| && i < |y.at| && Next(n[f], y.files[f], s', i)
    requires y.at[i] == f || Resting(y.files[y.at[i]].procs[i])
    requires y.files[f].procs[i].WantTable? ==> forall g | 0 <= g < |y.files| :: TableFree(y.files[g])
    requires var pc := y.files[f].procs[i]; Wanted(pc).Some? ==> !L.MustWait(y.cells, f, Wanted(pc).lock, WantsWrite(pc))
    ensures SystemNext(n, y, y', f, i) && y'.files[f] == s'
  {
    hide FilesOk, WrapsOk, Next, TableStep, L.CellsOk, L.GrantsOk, L.MustWait, Wanted, WantsWrite, HoldOf, Grants;
    hide TableFree;
    var pc := y.files[f].procs[i];
    if y.at[i] == f {
      forall l | l in Locks(f, pc) ensures l in AllHeld(n, y, |y.at|) {
        HeldByOne(n, y, |y.at|, i, l);
      }
    } else {
      HoldSizes(pc);
      GrantsSize(f, HoldOf(pc));
    }
    var cells' := TableFollows(n[f], y.files[f], s', f, i, y.cells, AllHeld(n, y, |y.at|));
    y' := System(y.files[f := s'], y.at[i := f], cells');
  }

  /** What keeps a process from its next step is another that is further on in the order of locks. */
  ghost predicate Behind(n: seq<Naming>, y: System, f: nat, i: nat, g: nat, j: nat)
    requires Shape(n, y) && f < |y.files| && i < |y.at|
  {
    g < |y.files| && j < |y.at| && y.at[j] == g && y.files[g].procs[j] != Idle
    && LockOrder(y.files[f].procs[i]) < LockOrder(y.files[g].procs[j])
  }

  lemma TableHolder(n: seq<Naming>, y: System, f: nat, i: nat, g: nat, j: nat)
    requires SystemInv(n, y) && f < |y.files| && i < |y.at| && y.files[f].procs[i].WantTable?
    requires g < |y.files| && j < |y.at| && HoldsTable(y.files[g].procs[j])
    ensures Behind(n, y, f, i, g, j)
  {
    hide FilesOk, CellsHold, WrapsOk;
    assert !Resting(y.files[g].procs[j]);
  }

  lemma LockHolder(n: seq<Naming>, y: System, f: nat, i: nat, j: nat)
    requires SystemInv(n, y) && f < |y.files| && i < |y.at| && j < |y.at| && !y.files[f].procs[i].WantTable?
    requires Waits(y.files[f], i, j)
    ensures Behind(n, y, f, i, f, j)
  {
    hide CellsHold, WrapsOk, Inv, LockOrder;
    WaitsUpward(n[f], y.files[f], i, j);
    assert !Resting(y.files[f].procs[j]);
  }

  lemma HeaderHolder(n: seq<Naming>, y: System, f: nat, i: nat, c: L.Cell) returns (g: nat, j: nat)
    requires SystemInv(n, y) && f < |y.files| && i < |y.at| && Wanted(y.files[f].procs[i]).Some? && HeaderIn(n, y, c)
    ensures Behind(n, y, f, i, g, j)
  {
    hide FilesOk, CellsHold, WrapsOk;
    j :| 0 <= j < |y.at| && y.at[j] == c.file && AtHeader(y.files[y.at[j]].procs[j]);
    g := y.at[j];
  }

  /** A step of the system that brings a process nearer to being idle. */
  ghost predicate Nearer(n: seq<Naming>, y: System, y': System, f: nat, i: nat)
    requires Shape(n, y)
  {
    SystemNext(n, y, y', f, i) && Nears(n[f], y.files[f], y'.files[f], i)
  }

  /** Unless another is in its way, a process can make its next step. */
  lemma StepOrBehind(n: seq<Naming>, y: System, f: nat, i: nat) returns (y': System, g: nat, j: nat)
    requires SystemInv(n, y) && f < |y.files| && i < |y.at| && y.files[f].procs[i] != Idle
    requires y.at[i] == f || Resting(y.files[y.at[i]].procs[i])
    ensures Nearer(n, y, y', f, i) || Behind(n, y, f, i, g, j)
  {
    hide FilesOk, CellsHold, WrapsOk, AtWork, Inv, Next, SystemNext, Waits, Behind, Nears, HeaderIn, L.MustWait;
    hide L.Held, L.Before;
    y', g, j := y, 0, 0;
    var pc := y.files[f].procs[i];
    if pc.WantTable? {
      if a: nat, b: nat :| a < |y.files| && b < |y.at| && HoldsTable(y.files[a].procs[b]) {
        TableHolder(n, y, f, i, a, b);
        g, j := a, b;
        return;
      }
    } else if k: nat :| k < |y.at| && Waits(y.files[f], i, k) {
      LockHolder(n, y, f, i, k);
      g, j := f, k;
      return;
    } else if Wanted(pc).Some? {
      FreeToGo(y.files[f], i);
      TableDecides(n, y, f, i);
      if L.MustWait(y.cells, f, Wanted(pc).lock, WantsWrite(pc)) {
        g, j := HeaderHolder(n, y, f, i, L.Before(y.cells, L.LockHash(f, Wanted(pc).lock, |y.cells|)));
        return;
      }
    }
    InvHere(n, y, f);
    forall k | 0 <= k < |y.files[f].procs| ensures !Waits(y.files[f], i, k) {
      if pc.WantTable? {
        NoTableWait(y.files[f], i, k);
      }
    }
    var s' := Unblocked(n[f], y.files[f], i);
    y' := StepThere(n, y, f, i, s');
  }

  lemma NoTableWait(s: State, i: nat, k: nat)
    requires i < |s.procs| && k < |s.procs| && s.procs[i].WantTable? && !HoldsTable(s.procs[k])
    ensures !Waits(s, i, k)
  {
  }

  lemma {:induction false} SomeoneSteps(n: seq<Naming>, y: System, f: nat, i: nat) returns (y': System, g: nat, j: nat)
    requires SystemInv(n, y) && f < |y.files| && i < |y.at| && y.files[f].procs[i] != Idle
    requires y.at[i] == f || Resting(y.files[y.at[i]].procs[i])
    ensures g < |y.files| && j < |y.at| && y.files[g].procs[j] != Idle && Nearer(n, y, y', g, j)
    decreases 4 - LockOrder(y.files[f].procs[i])
  {
    hide FilesOk, CellsHold, WrapsOk, AtWork, Nearer, LockOrder;
    y', g, j := StepOrBehind(n, y, f, i);
    if Behind(n, y, f, i, g, j) {
      RankBound(y.files[g].procs[j]);
      y', g, j := SomeoneSteps(n, y, g, j);
    } else {
      g, j := f, i;
    }
  }

  /** No reachable state of the system is a deadlock: as long as any process has work to finish in any
      file, some such process can make a step, and the table grants what it needs for it. */
  lemma NoDeadlock(n: seq<Naming>, ys: seq<System>, what: seq<(nat, nat)>, k: nat, f: nat, i: nat)
    returns (y': System, g: nat, j: nat)
    requires SystemRun(n, ys, what) && k < |ys| && f < |ys[k].files| && i < |ys[k].files[f].procs|
    requires ys[k].files[f].procs[i] != Idle
    ensures Shape(n, ys[k]) && g < |ys[k].files| && j < |ys[k].at| && ys[k].files[g].procs[j] != Idle
    ensures SystemNext(n, ys[k], y', g, j)
  {
    hide SystemRun, SystemNext, FilesOk, CellsHold, WrapsOk;
    SystemRunKeeps(n, ys, what, k);
    var y := ys[k];
    if y.at[i] == f || Resting(y.files[y.at[i]].procs[i]) {
      y', g, j := SomeoneSteps(n, y, f, i);
    } else {
      y', g, j := SomeoneSteps(n, y, y.at[i], i);
    }
  }
}
