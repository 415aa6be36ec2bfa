/** What the lock protocol guarantees in every reachable state: each keyed operation is on the
    right group, the file behaves as a map, and the processes cannot deadlock. */
module ProtocolTheorems {
  import opened Addressing
  import opened Blocks
  import opened Tables
  import opened Protocol

  // ------------------------------------------------------------------------
  // Runs

  lemma InitKeeps(n: Naming, s: State)
    requires Init(n, s)
    ensures Inv(n, s)
  {
    hide AddressOf, IsPow2, SpaceOk;
    NoneInhibits(s.procs);
  }

  /** A run: states, and the process that makes each step. */
  ghost predicate IsRun(n: Naming, states: seq<State>, who: seq<nat>) {
    && |states| == |who| + 1
    && Init(n, states[0])
    && forall k | 0 <= k < |who| :: Next(n, states[k], states[k + 1], who[k])
  }

  /** The invariant holds in every state of every run, however the processes interleave. */
  lemma {:induction false} RunKeeps(n: Naming, states: seq<State>, who: seq<nat>, k: nat)
    requires IsRun(n, states, who) && k < |states|
    ensures Inv(n, states[k])
  {
    hide Inv, Next, Init;
    if k == 0 {
      InitKeeps(n, states[0]);
    } else {
      RunKeeps(n, states, who, k - 1);
      StepKeeps(n, states[k - 1], states[k], who[k - 1]);
    }
  }

  // ------------------------------------------------------------------------
  // Safety

  /** No id ever lies in two groups. */
  lemma OneGroupEach(n: Naming, states: seq<State>, who: seq<nat>, k: nat, id: Id, g: nat, h: nat)
    requires IsRun(n, states, who) && k < |states| && Sees(states[k], id, g) && Sees(states[k], id, h)
    ensures g == h
  {
    hide IsRun, OneTable, OneResize, HoldersOk, RecordsOk, LocksExclude, IsPow2, InhibitCount, AddressOf, PcsOk, SpaceOk;
    RunKeeps(n, states, who, k);
  }

  /** A process that holds the group lock it took for an id is on the group where the record
      of that id lies, if there is one. */
  lemma RightGroup(n: Naming, states: seq<State>, who: seq<nat>, k: nat, i: nat, id: Id, g: nat)
    requires IsRun(n, states, who) && k < |states|
    requires i < |states[k].procs| && HoldsFor(states[k].procs[i], id, g)
    ensures Sees(states[k], id, g) <==> exists h: nat :: Sees(states[k], id, h)
  {
    hide Inv, IsRun;
    RunKeeps(n, states, who, k);
    HolderAt(n, states[k], i, id, g);
  }

  /** A record lies away from its group only while a split or merge is moving records between
      just those two groups and has locked the record's new group, or is about to: then it has
      the file table lock, and nobody has the new group's lock. */
  lemma AwayOnlyWhileMoving(n: Naming, states: seq<State>, who: seq<nat>, k: nat, id: Id, g: nat)
    requires IsRun(n, states, who) && k < |states| && Sees(states[k], id, g)
    requires g != AddressOf(n, states[k].p, id)
    ensures var s, to := states[k], AddressOf(n, states[k].p, id);
            exists i | 0 <= i < |s.procs| :: MayMove(s.procs[i], g, to) && Guards(s, i, to)
  {
    hide AddressOf, IsRun, OneTable, OneResize, HoldersOk, IsPow2, InhibitCount, SpaceOk, Unique, ReadersOk, HandsOk;
    RunKeeps(n, states, who, k);
    var s := states[k];
    assert RecordOk(n, s, id, g);
    var i :| 0 <= i < |s.procs| && MayMove(s.procs[i], g, AddressOf(n, s.p, id));
    assert Guards(s, i, AddressOf(n, s.p, id));
  }

  // ------------------------------------------------------------------------
  // Overflow blocks

  /** Every overflow block is always in exactly one place: the free chain, one group's chain, one
      large record's chain, or the hand of one process. */
  lemma BlocksInOnePlace(n: Naming, states: seq<State>, who: seq<nat>, k: nat, x: nat)
    requires IsRun(n, states, who) && k < |states| && 1 <= x <= states[k].space.size
    ensures exists o :: x in BlocksWith(states[k], o) && forall q | q != o :: x !in BlocksWith(states[k], q)
  {
    hide IsRun, OneTable, OneResize, HoldersOk, RecordsOk, LocksExclude, IsPow2, InhibitCount, AddressOf, PcsOk;
    hide BlocksWith, Unique, ReadersOk;
    RunKeeps(n, states, who, k);
    assert HasOwner(states[k], x);
    var o :| x in BlocksWith(states[k], o);
    forall q | q != o ensures x !in BlocksWith(states[k], q) {
      assert !Shared(states[k], o, q);
    }
  }

  /** While a reader has its lock, the chain it found is the chain of the record, and no block of
      it is free, in another process's hand, or on any other chain. */
  lemma ReaderSafe(n: Naming, states: seq<State>, who: seq<nat>, k: nat, i: nat)
    requires IsRun(n, states, who) && k < |states| && i < |states[k].procs|
    requires states[k].procs[i].Worked? && !states[k].procs[i].write
    ensures var s, pc := states[k], states[k].procs[i];
            && pc.chain == BlocksWith(s, InRecord(pc.g, pc.id)) && (pc.seen <==> Sees(s, pc.id, pc.g))
            && forall o | o != InRecord(pc.g, pc.id) :: BlocksWith(s, o) !! pc.chain
  {
    hide IsRun, OneTable, OneResize, HoldersOk, RecordsOk, LocksExclude, IsPow2, InhibitCount, AddressOf, PcsOk, Unique;
    RunKeeps(n, states, who, k);
    var s, pc := states[k], states[k].procs[i];
    assert ReaderOk(s, pc);
    forall o | o != InRecord(pc.g, pc.id) ensures BlocksWith(s, o) !! pc.chain {
      assert !Shared(s, o, InRecord(pc.g, pc.id));
      forall x | x in BlocksWith(s, o) ensures x !in pc.chain {
      }
    }
  }

  /** Process `i` has the write lock of group `to`, or will get it before anyone else can. */
  ghost predicate Guards(s: State, i: nat, to: nat)
    requires i < |s.procs|
  {
    || HoldsWrite(s.procs[i], to)
    || (s.procs[i].WantNew? && HoldsTable(s.procs[i]) && forall j | 0 <= j < |s.procs| :: !Holds(s.procs[j], to))
  }

  /** A split never waits for the lock of the group it adds. */
  lemma NewGroupNeverWaits(n: Naming, states: seq<State>, who: seq<nat>, k: nat, i: nat)
    requires IsRun(n, states, who) && k < |states| && i < |states[k].procs| && states[k].procs[i].WantNew?
    ensures CanLock(states[k], i, states[k].procs[i].to, true)
  {
    hide IsRun, OneTable, OneResize, HoldersOk, RecordsOk, LocksExclude, IsPow2, InhibitCount, AddressOf, SpaceOk;
    hide Unique, ReadersOk;
    RunKeeps(n, states, who, k);
    forall j | 0 <= j < |states[k].procs| && j != i ensures !Holds(states[k].procs[j], states[k].procs[i].to) {
    }
  }

  /** At most one split or merge is under way, and the inhibit count is exact. */
  lemma OneResizeAtATime(n: Naming, states: seq<State>, who: seq<nat>, k: nat, i: nat, j: nat)
    requires IsRun(n, states, who) && k < |states| && i < |states[k].procs| && j < |states[k].procs|
    requires Resizes(states[k].procs[i]) && Resizes(states[k].procs[j])
    ensures i == j && states[k].inhibit == InhibitCount(states[k].procs)
  {
    hide IsRun, OneTable, HoldersOk, RecordsOk, LocksExclude, IsPow2, InhibitCount, AddressOf, NewIsFree, PcsOk;
    hide SpaceOk, Unique, ReadersOk, HandsOk;
    RunKeeps(n, states, who, k);
  }

  // ------------------------------------------------------------------------
  // The file as a map

  /** What the file holds, wherever the records are. */
  ghost function Contents(s: State): map<Id, Data>
    requires Unique(s)
  {
    map id: Id | id in Ids(s) :: DataOf(s, id)
  }

  function Ids(s: State): set<Id> {
    set k | k in s.recs :: k.1
  }

  ghost function DataOf(s: State, id: Id): Data
    requires id in Ids(s)
  {
    var k :| k in s.recs && k.1 == id; s.recs[k].data
  }

  lemma ContentsAt(s: State, id: Id)
    requires Unique(s)
    ensures id in Contents(s) <==> exists g: nat :: Sees(s, id, g)
    ensures forall g: nat | Sees(s, id, g) :: Contents(s)[id] == s.recs[(g, id)].data
  {
    if g: nat :| Sees(s, id, g) {
      assert (g, id).1 in Ids(s);
    }
    if id in Contents(s) {
      var k :| k in s.recs && k.1 == id;
      assert Sees(s, id, k.0);
    }
    forall g: nat | Sees(s, id, g) ensures Contents(s)[id] == s.recs[(g, id)].data {
      var k :| k in s.recs && k.1 == id && DataOf(s, id) == s.recs[k].data;
      assert Sees(s, id, k.0) && k == (k.0, id);
    }
  }

  /** The second map differs from the first in the data of one id, which it has. */
  ghost predicate SetsOne(m: map<Id, Data>, m': map<Id, Data>, id: Id) {
    id in m' && m' == m[id := m'[id]]
  }

  /** Each keyed operation takes effect on the map in one step, and what it saw of its id is
      the truth at that step; no other step, of a split or merge least of all, changes the map. */
  lemma StepsActOnMap(n: Naming, s: State, s': State, i: nat)
    requires Inv(n, s) && Next(n, s, s', i)
    ensures Unique(s')
    ensures s.procs[i].Working? && s'.procs[i].Worked? ==>
              var id := s.procs[i].id;
              && (s'.procs[i].seen <==> id in Contents(s))
              && (Contents(s') == Contents(s)
                  || (s.procs[i].write && Contents(s') == Contents(s) - {id})
                  || (s.procs[i].write && SetsOne(Contents(s), Contents(s'), id)))
    ensures !(s.procs[i].Working? && s'.procs[i].Worked?) ==> Contents(s') == Contents(s)
  {
    hide Inv, AddressOf, CanLock, NoneToMove, TableFree, HolderOk, Contents, Unique, Reassigns, OnlyAt, Sees;
    BothUnique(n, s, s', i);
    if s.procs[i].Working? && s'.procs[i].Worked? {
      var id, g := s.procs[i].id, s.procs[i].g;
      HolderAt(n, s, i, id, g);
      HolderSees(n, s, id, g);
      if s.procs[i].write {
        OneChanges(s, s', id, g);
      } else {
        SameContents(s, s');
      }
    } else {
      MoveKeepsContents(n, s, s', i);
    }
  }

  lemma BothUnique(n: Naming, s: State, s': State, i: nat)
    requires Inv(n, s) && Next(n, s, s', i)
    ensures Unique(s) && Unique(s')
  {
    hide OneTable, OneResize, PcsOk, NewIsFree, LocksExclude, RecordsOk, HoldersOk, AddressOf, InhibitCount;
    hide IsPow2, Next, SpaceOk, Unique, ReadersOk, HandsOk;
    StepKeeps(n, s, s', i);
  }

  lemma HolderSees(n: Naming, s: State, id: Id, g: nat)
    requires Unique(s) && HolderOk(n, s, id, g)
    ensures Sees(s, id, g) <==> id in Contents(s)
  {
    ContentsAt(s, id);
  }

  lemma SameContents(s: State, s': State)
    requires Unique(s) && Unique(s') && s'.recs == s.recs
    ensures Contents(s') == Contents(s)
  {
    hide Contents, Unique;
    forall id ensures (id in Contents(s') <==> id in Contents(s)) && (id in Contents(s) ==> Contents(s')[id] == Contents(s)[id]) {
      ContentsAt(s, id);
      ContentsAt(s', id);
      if g: nat :| Sees(s, id, g) {
        assert Sees(s', id, g);
      }
      if g: nat :| Sees(s', id, g) {
        assert Sees(s, id, g);
      }
    }
  }

  /** A change to one record of one group changes the map at its id only. */
  lemma OneChanges(s: State, s': State, id: Id, g: nat)
    requires Unique(s) && Unique(s') && OnlyAt(s, s', id, g) && forall h: nat | Sees(s, id, h) :: h == g
    ensures Contents(s') == Contents(s) - {id} || SetsOne(Contents(s), Contents(s'), id)
  {
    hide Contents, Unique;
    forall x | x != id ensures (x in Contents(s') <==> x in Contents(s)) && (x in Contents(s) ==> Contents(s')[x] == Contents(s)[x]) {
      ContentsAt(s, x);
      ContentsAt(s', x);
      OthersSeen(s, s', id, g, x);
    }
    if id in Contents(s') {
      assert Contents(s') == Contents(s)[id := Contents(s')[id]];
    } else {
      assert Contents(s') == Contents(s) - {id};
    }
  }

  lemma OthersSeen(s: State, s': State, id: Id, g: nat, x: Id)
    requires OnlyAt(s, s', id, g) && x != id
    ensures forall h: nat :: Sees(s', x, h) <==> Sees(s, x, h)
    ensures forall h: nat | Sees(s, x, h) :: s'.recs[(h, x)] == s.recs[(h, x)]
  {
    forall h: nat ensures (Sees(s', x, h) <==> Sees(s, x, h)) && (Sees(s, x, h) ==> s'.recs[(h, x)] == s.recs[(h, x)]) {
      assert (h, x) != (g, id);
    }
  }

  lemma MoveKeepsContents(n: Naming, s: State, s': State, i: nat)
    requires Next(n, s, s', i) && !(s.procs[i].Working? && s'.procs[i].Worked?) && Unique(s) && Unique(s')
    ensures Contents(s') == Contents(s)
  {
    hide AddressOf, CanLock, NoneToMove, TableFree, Contents, Unique, Reassigns, OnlyAt;
    if s'.recs != s.recs {
      var from, to := s.procs[i].from, s.procs[i].to;
      var id :| Sees(s, id, from) && AddressOf(n, s.p, id) == to && RecordMoved(s, s', from, to, id);
      MovedContents(s, s', from, to, id);
    } else {
      SameContents(s, s');
    }
  }

  lemma MovedContents(s: State, s': State, from: nat, to: nat, id: Id)
    requires Unique(s) && Unique(s') && Sees(s, id, from) && RecordMoved(s, s', from, to, id)
    ensures Contents(s') == Contents(s)
  {
    hide Contents, Unique;
    forall x ensures (x in Contents(s') <==> x in Contents(s)) && (x in Contents(s) ==> Contents(s')[x] == Contents(s)[x]) {
      ContentsAt(s, x);
      ContentsAt(s', x);
      if x == id {
        assert Sees(s', id, to) && s'.recs[(to, id)] == s.recs[(from, id)];
      } else {
        forall h: nat ensures (Sees(s', x, h) <==> Sees(s, x, h)) && (Sees(s, x, h) ==> s'.recs[(h, x)] == s.recs[(h, x)]) {
          assert (h, x) != (from, id) && (h, x) != (to, id);
        }
      }
    }
  }

  // ------------------------------------------------------------------------
  // No deadlock

  /** What process `i` waits for is held by process `j`. */
  predicate Waits(s: State, i: nat, j: nat)
    requires i < |s.procs| && j < |s.procs|
  {
    var other := s.procs[j];
    && i != j
    && match s.procs[i]
       case WantTable(_) => HoldsTable(other)
       case WantGroup(_, write, g) => HoldsWrite(other, g) || (write && HoldsRead(other, g))
       case WantHeader(_) => Holds(other, 0)
       case WantNew(_, to) => Holds(other, to)
       case WantSource(from, _) => Holds(other, from)
       case WantTarget(_, to) => Holds(other, to)
       case WantLast(from, _) => Holds(other, from)
       case WantScan(tour) => HoldsWrite(other, tour.g)
       case _ => false
  }

  /** The order in which locks are waited for: nobody who holds a group lock waits for the file
      table, and whoever has the header lock waits for nothing. */
  function LockOrder(pc: Pc): nat {
    match pc
    case WantTable(_) => 0
    case WantGroup(_, _, _) => 1
    case WantNew(_, _) => 1
    case WantTarget(_, _) => 1
    case WantLast(_, _) => 1
    case WantScan(_) => 1
    case WantSource(_, _) => 2
    case WantHeader(_) => 3
    case _ => 4
  }

  /** Whoever is waited for is further on in the order than whoever waits. */
  lemma WaitsUpward(n: Naming, s: State, i: nat, j: nat)
    requires Inv(n, s) && i < |s.procs| && j < |s.procs| && Waits(s, i, j)
    ensures LockOrder(s.procs[i]) < LockOrder(s.procs[j]) && s.procs[j] != Idle
  {
    hide AddressOf, IsPow2, InhibitCount, RecordsOk, HoldersOk, SpaceOk, Unique, ReadersOk, HandsOk;
    assert PcOk(n, s, s.procs[i]) && PcOk(n, s, s.procs[j]);
    if s.procs[i].WantHeader? && !s.procs[j].HasHeader? {
      GroupLock(n, s, s.procs[j], 0);
    }
  }

  /** Except under the header lock, the locks a process holds are on groups. */
  lemma GroupLock(n: Naming, s: State, pc: Pc, g: nat)
    requires PcOk(n, s, pc) && Holds(pc, g) && !pc.HasHeader?
    ensures g >= 1
  {
    hide AddressOf;
    match pc {
      case GotGroup(id, _, g0) => assert HoldsFor(pc, id, g0);
      case Working(id, _, g0) => assert HoldsFor(pc, id, g0);
      case Worked(id, _, g0, _, _, _) => assert HoldsFor(pc, id, g0);
      case WantHeader(h) =>
        if h.KeyedLock? {
          assert HoldsFor(pc, h.id, h.g);
        } else if h.MoveLocks? {
          assert MayMove(pc, h.from, h.to);
        }
      case GotNew(from, to) => assert MayMove(pc, from, to);
      case WantSource(from, to) => assert MayMove(pc, from, to);
      case GotBoth(from, to) => assert MayMove(pc, from, to);
      case Moving(from, to) => assert MayMove(pc, from, to);
      case _ =>
    }
  }

  /** No circle of waits. */
  lemma {:induction false} NoCircle(n: Naming, s: State, path: seq<nat>)
    requires Inv(n, s) && |path| >= 2 && forall k | 0 <= k < |path| :: path[k] < |s.procs|
    requires forall k | 0 <= k < |path| - 1 :: Waits(s, path[k], path[k + 1])
    ensures LockOrder(s.procs[path[0]]) < LockOrder(s.procs[path[|path| - 1]])
  {
    hide Inv, Waits, LockOrder;
    assert Waits(s, path[0], path[0 + 1]);
    WaitsUpward(n, s, path[0], path[1]);
    if |path| > 2 {
      var rest := path[1..];
      forall k | 0 <= k < |rest| - 1 ensures Waits(s, rest[k], rest[k + 1]) {
        assert Waits(s, path[k + 1], path[k + 1 + 1]);
      }
      NoCircle(n, s, rest);
    }
  }
}
