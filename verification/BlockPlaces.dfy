/** No overflow block is ever lost: what is not free belongs to a group of the file or to a record
    that can be found, or to a process that has yet to put it somewhere. */
module BlockPlaces {
  import opened Addressing
  import opened Blocks
  import opened Tables
  import opened Protocol
  import opened ProtocolTheorems

  /** Records are only moved to groups of the file. */
  ghost predicate MovesWithin(s: State) {
    forall from: nat, to: nat | SomeMayMove(s, from, to) :: to <= s.p.modulus
  }

  /** Some split or merge has yet to move what belongs elsewhere out of the group. */
  ghost predicate Emptying(s: State, g: nat) {
    exists to: nat :: SomeMayMove(s, g, to)
  }

  /** A group with a chain is one of the file, or the one that a merge is emptying. */
  ghost predicate ChainPlaced(s: State, g: nat) {
    BlocksWith(s, InGroup(g)) != {} ==> 1 <= g <= s.p.modulus || Emptying(s, g)
  }

  ghost predicate ChainsPlaced(s: State) {
    MovesWithin(s) && forall g: nat :: ChainPlaced(s, g)
  }

  // ------------------------------------------------------------------------
  // Every step keeps it

  lemma MovesWithinKept(n: Naming, s: State, s': State, i: nat)
    requires Inv(n, s) && Next(n, s, s', i) && MovesWithin(s)
    ensures MovesWithin(s')
  {
    hide OneTable, LocksExclude, PcsOk, NewIsFree, RecordsOk, HoldersOk, AddressOf, InhibitCount, IsPow2, SpaceOk;
    hide Unique, ReadersOk, HandsOk, Next;
    forall from: nat, to: nat | SomeMayMove(s', from, to) ensures to <= s'.p.modulus {
      var k :| 0 <= k < |s'.procs| && MayMove(s'.procs[k], from, to);
      Targets(n, s, s', i, k, from, to);
      if MayMove(s.procs[k], from, to) {
        assert SomeMayMove(s, from, to);
      }
    }
  }

  /** A move that was not there before is to a group of the file, and while there is one the file
      loses no group. */
  lemma Targets(n: Naming, s: State, s': State, i: nat, k: nat, from: nat, to: nat)
    requires Inv(n, s) && Next(n, s, s', i) && k < |s'.procs| && MayMove(s'.procs[k], from, to)
    ensures |s'.procs| == |s.procs|
    ensures if MayMove(s.procs[k], from, to) then s'.p.modulus >= s.p.modulus else to <= s'.p.modulus
  {
    hide OneTable, LocksExclude, NewIsFree, RecordsOk, HoldersOk, AddressOf, InhibitCount, IsPow2, SpaceOk;
    hide OneResize, Unique, ReadersOk, HandsOk, Next, MayMove, PcsOk;
    Sizes(n, s, s', i);
    if k == i {
      NewTarget(n, s, s', i, from, to);
    } else {
      assert s'.procs[k] == s.procs[k] by {
        OthersStay(n, s, s', i, k);
      }
      OnlyResizer(s, i, k, from, to);
    }
  }

  lemma OthersStay(n: Naming, s: State, s': State, i: nat, k: nat)
    requires Next(n, s, s', i) && k < |s.procs| && k != i
    ensures s'.procs[k] == s.procs[k]
  {
    hide Local;
  }

  lemma OnlyResizer(s: State, i: nat, k: nat, from: nat, to: nat)
    requires OneResize(s) && i < |s.procs| && k < |s.procs| && k != i && MayMove(s.procs[k], from, to)
    ensures !s.procs[i].WantLast?
  {
    if s.procs[i].WantLast? {
      assert Resizes(s.procs[i]) && Resizes(s.procs[k]);
    }
  }

  lemma Sizes(n: Naming, s: State, s': State, i: nat)
    requires Next(n, s, s', i)
    ensures i < |s.procs| == |s'.procs| && (!s.procs[i].WantLast? ==> s'.p.modulus >= s.p.modulus)
  {
    hide AddressOf, CanLock, TableFree, NoneToMove, IdsIn, OnlyAt, Reassigns;
  }

  lemma NewTarget(n: Naming, s: State, s': State, i: nat, from: nat, to: nat)
    requires Inv(n, s) && Next(n, s, s', i) && MayMove(s'.procs[i], from, to)
    ensures if MayMove(s.procs[i], from, to) then !s.procs[i].WantLast? else to <= s'.p.modulus
  {
    hide OneTable, OneResize, LocksExclude, NewIsFree, RecordsOk, HoldersOk, AddressOf, InhibitCount, IsPow2, SpaceOk;
    hide Unique, ReadersOk, HandsOk, Reassigns, CanLock, TableFree, NoneToMove, IdsIn, Works, MovesOne;
    if s.procs[i].WantLast? {
      assert PcOk(n, s, s.procs[i]);
      ShrinkFoldsLastGroup(0, s.p);
    }
  }

  /** A process on its group of an id is on a group of the file. */
  lemma HolderWithin(n: Naming, s: State, i: nat, id: Id, g: nat)
    requires Inv(n, s) && MovesWithin(s) && i < |s.procs| && HoldsFor(s.procs[i], id, g)
    ensures 1 <= g <= s.p.modulus
  {
    hide OneTable, OneResize, LocksExclude, NewIsFree, RecordsOk, AddressOf, InhibitCount, IsPow2, SpaceOk, Unique;
    hide ReadersOk, HandsOk;
    assert HolderOk(n, s, id, g);
    AddressExists(n, s, id);
    if g != AddressOf(n, s.p, id) {
      var to := AddressOf(n, s.p, id);
      EarlyMoves(s, g, to);
      var k :| 0 <= k < |s.procs| && EarlySplit(s.procs[k], g, to);
      assert PcOk(n, s, s.procs[k]) && MayMove(s.procs[k], g, to);
    }
  }

  lemma EmptyingStays(n: Naming, s: State, s': State, i: nat, g: nat)
    requires Next(n, s, s', i) && Emptying(s, g)
    requires s'.procs[i].FreedFrom? ==> !(s.procs[i].Moving? && s.procs[i].from == g)
    ensures Emptying(s', g)
  {
    hide Works, MovesOne, NoneToMove, TableFree, CanLock, AddressOf, SomeMayMove;
    var to: nat :| SomeMayMove(s, g, to);
    if s'.procs[i].FreedFrom? {
      assert s.procs[i].Moving?;
    }
    MoveStays(n, s, s', i, g, to);
  }

  /** A step on which the chain of a group stays as it is, and the file loses no group. */
  lemma SameChain(n: Naming, s: State, s': State, i: nat, g: nat)
    requires Next(n, s, s', i) && PcOk(n, s, s.procs[i]) && ChainPlaced(s, g) && s'.p.modulus >= s.p.modulus
    requires BlocksWith(s', InGroup(g)) == BlocksWith(s, InGroup(g))
    ensures ChainPlaced(s', g)
  {
    hide BlocksWith, Works, MovesOne, NoneToMove, TableFree, CanLock, AddressOf, SomeMayMove, Emptying, Reassigns;
    if BlocksWith(s, InGroup(g)) != {} && !(1 <= g <= s.p.modulus) {
      if s.procs[i].Moving? {
        assert MayMove(s.procs[i], s.procs[i].from, s.procs[i].to);
      }
      EmptyingStays(n, s, s', i, g);
    }
  }

  lemma ChainKept(n: Naming, s: State, s': State, i: nat, g: nat)
    requires Inv(n, s) && Next(n, s, s', i) && ChainsPlaced(s)
    ensures ChainPlaced(s', g)
  {
    hide OneTable, OneResize, LocksExclude, PcsOk, NewIsFree, RecordsOk, HoldersOk, AddressOf, InhibitCount, IsPow2;
    hide SpaceOk, Unique, ReadersOk, HandsOk, CanLock, TableFree, NoneToMove, IdsIn, MovesOne, MovesWithin, Emptying;
    hide OnlyAt;
    var pc := s.procs[i];
    assert ChainPlaced(s, g);
    if pc.WantLast? {
      LastGroup(n, s, s', i, g);
    } else if pc.Working? && pc.write && s'.procs[i].Worked? && g == pc.g {
      HolderWithin(n, s, i, pc.id, g);
    } else if pc.Moving? && s'.procs[i] == pc && Shuffles(s, s', i, pc.from, pc.to) && (g == pc.from || g == pc.to) {
      ShuffledChain(n, s, s', i, g);
    } else {
      SameGroup(n, s, s', i, g);
      assert PcOk(n, s, pc) by {
        OkAt(n, s, i);
      }
      SameChain(n, s, s', i, g);
    }
  }

  /** The other steps leave the chain of the group alone. */
  lemma SameGroup(n: Naming, s: State, s': State, i: nat, g: nat)
    requires Next(n, s, s', i) && !s.procs[i].WantLast?
    requires !(s.procs[i].Working? && s.procs[i].write && s'.procs[i].Worked? && g == s.procs[i].g)
    requires s.procs[i].Moving? && s'.procs[i] == s.procs[i] && (g == s.procs[i].from || g == s.procs[i].to)
             ==> !Shuffles(s, s', i, s.procs[i].from, s.procs[i].to)
    ensures BlocksWith(s', InGroup(g)) == BlocksWith(s, InGroup(g)) && s'.p.modulus >= s.p.modulus
  {
    hide AddressOf, CanLock, TableFree, NoneToMove, IdsIn, OnlyAt;
  }

  lemma ShuffledChain(n: Naming, s: State, s': State, i: nat, g: nat)
    requires Inv(n, s) && Next(n, s, s', i) && MovesWithin(s) && s.procs[i].Moving? && s'.procs[i] == s.procs[i]
    requires Shuffles(s, s', i, s.procs[i].from, s.procs[i].to) && (g == s.procs[i].from || g == s.procs[i].to)
    ensures ChainPlaced(s', g)
  {
    hide OneTable, OneResize, LocksExclude, NewIsFree, RecordsOk, HoldersOk, AddressOf, InhibitCount, IsPow2, SpaceOk;
    hide Unique, ReadersOk, HandsOk, CanLock, TableFree, NoneToMove, IdsIn, MovesOne, Reassigns;
    var pc := s.procs[i];
    assert PcOk(n, s, pc) && MayMove(pc, pc.from, pc.to);
    assert SomeMayMove(s, pc.from, pc.to);
    if g == pc.from {
      assert SomeMayMove(s', g, pc.to);
    }
  }

  /** A merge that gives up the last group has yet to empty it. */
  lemma LastGroup(n: Naming, s: State, s': State, i: nat, g: nat)
    requires Inv(n, s) && Next(n, s, s', i) && s.procs[i].WantLast? && ChainPlaced(s, g)
    ensures ChainPlaced(s', g)
  {
    hide OneTable, OneResize, LocksExclude, NewIsFree, RecordsOk, HoldersOk, AddressOf, InhibitCount, IsPow2, SpaceOk;
    hide Unique, ReadersOk, HandsOk, CanLock;
    assert PcOk(n, s, s.procs[i]);
    var pc' := s'.procs[i];
    assert MayMove(pc', pc'.from, pc'.to);
    assert SomeMayMove(s', pc'.from, pc'.to);
    if Emptying(s, g) {
      EmptyingStays(n, s, s', i, g);
    }
  }

  lemma ChainsKept(n: Naming, s: State, s': State, i: nat)
    requires Inv(n, s) && Next(n, s, s', i) && ChainsPlaced(s)
    ensures ChainsPlaced(s')
  {
    hide Inv, Next, ChainPlaced, MovesWithin;
    MovesWithinKept(n, s, s', i);
    forall g: nat ensures ChainPlaced(s', g) {
      ChainKept(n, s, s', i, g);
    }
  }

  lemma {:induction false} RunPlaces(n: Naming, states: seq<State>, who: seq<nat>, k: nat)
    requires IsRun(n, states, who) && k < |states|
    ensures ChainsPlaced(states[k])
  {
    hide Inv, Next, AddressOf, IsPow2, SpaceOk;
    if k == 0 {
      forall g: nat ensures ChainPlaced(states[0], g) {
      }
    } else {
      RunPlaces(n, states, who, k - 1);
      RunKeeps(n, states, who, k - 1);
      ChainsKept(n, states[k - 1], states[k], who[k - 1]);
    }
  }

  // ------------------------------------------------------------------------
  // Every block

  /** A place from which a block can come into use again. */
  ghost predicate WithinReach(n: Naming, s: State, o: Owner) {
    match o
    case Free => true
    case InGroup(g) => 1 <= g <= s.p.modulus || Emptying(s, g)
    case InRecord(g, id) => Sees(s, id, g) && (g == AddressOf(n, s.p, id) || Emptying(s, g))
    case InHand(i) => i < |s.procs| && !HandFree(s.procs[i])
  }

  /** In every reachable state each overflow block is in such a place, and in no other. */
  lemma NoneLost(n: Naming, states: seq<State>, who: seq<nat>, k: nat, x: nat)
    requires IsRun(n, states, who) && k < |states| && 1 <= x <= states[k].space.size
    ensures exists o :: x in BlocksWith(states[k], o) && WithinReach(n, states[k], o)
                        && forall q | q != o :: x !in BlocksWith(states[k], q)
  {
    hide IsRun, OneTable, OneResize, LocksExclude, PcsOk, NewIsFree, HoldersOk, IsPow2, InhibitCount, AddressOf, Unique;
    hide ReadersOk, SpaceOk;
    var s := states[k];
    RunKeeps(n, states, who, k);
    RunPlaces(n, states, who, k);
    BlocksInOnePlace(n, states, who, k, x);
    var o :| x in BlocksWith(s, o) && forall q | q != o :: x !in BlocksWith(s, q);
    match o {
      case Free =>
      case InGroup(g) => assert ChainPlaced(s, g);
      case InRecord(g, id) => assert RecordOk(n, s, id, g);
      case InHand(i) => HandInUse(s, i, x);
    }
  }

  lemma HandInUse(s: State, i: nat, x: nat)
    requires SpaceOk(s) && HandsOk(s) && x in BlocksWith(s, InHand(i))
    ensures i < |s.procs| && !HandFree(s.procs[i])
  {
    hide HandFree;
    if i < |s.procs| {
      assert HandFree(s.procs[i]) ==> Hand(s, i) == {};
    }
  }

  /** When every process is idle, each is free, in a group of the file, or in a record in its group. */
  lemma NoneLeftOver(n: Naming, states: seq<State>, who: seq<nat>, k: nat, x: nat)
    requires IsRun(n, states, who) && k < |states| && 1 <= x <= states[k].space.size
    requires forall i | 0 <= i < |states[k].procs| :: states[k].procs[i] == Idle
    ensures var s := states[k];
            || x in s.space.free
            || (exists g: nat :: 1 <= g <= s.p.modulus && x in BlocksWith(s, InGroup(g)))
            || exists id :: Sees(s, id, AddressOf(n, s.p, id)) && x in BlocksWith(s, InRecord(AddressOf(n, s.p, id), id))
  {
    hide IsRun, AddressOf;
    var s := states[k];
    NoneLost(n, states, who, k, x);
    var o :| x in BlocksWith(s, o) && WithinReach(n, s, o);
  }
}
