/** The same for all the files of a system and their lock table: whatever they have come to, all processes
    can become idle in all files, the table granting what they need; and then no lock is left in it. */
module SystemEndings {
  import opened Addressing
  import opened Blocks
  import opened Tables
  import opened Protocol
  import opened ProtocolTheorems
  import opened Progress
  import opened Endings
  import opened LockSystems
  import opened LockTheorems
  import L = LockTables

  ghost predicate AllAtRest(y: System) {
    forall f | 0 <= f < |y.files| :: AtRest(y.files[f])
  }

  /** The steps left in the first `k` files. */
  ghost function StepsIn(n: seq<Naming>, y: System, k: nat): nat
    requires k <= |y.files| && k <= |n|
  {
    if k == 0 then 0 else StepsIn(n, y, k - 1) + AllSteps(n[k - 1], y.files[k - 1], |y.files[k - 1].procs|)
  }

  lemma {:induction false} StepsInFall(n: seq<Naming>, y: System, y': System, f: nat, k: nat)
    requires k <= |y.files| == |y'.files| == |n| && f < |y.files|
    requires forall g | 0 <= g < |y.files| && g != f :: y'.files[g] == y.files[g]
    requires |y'.files[f].procs| == |y.files[f].procs|
    requires AllSteps(n[f], y'.files[f], |y.files[f].procs|) < AllSteps(n[f], y.files[f], |y.files[f].procs|)
    ensures if f < k then StepsIn(n, y', k) < StepsIn(n, y, k) else StepsIn(n, y', k) == StepsIn(n, y, k)
  {
    hide AllSteps;
    if k > 0 {
      StepsInFall(n, y, y', f, k - 1);
    }
  }

  /** The same map in every file. */
  ghost predicate SameMaps(y: System, y': System) {
    && |y'.files| == |y.files|
    && forall f | 0 <= f < |y.files| ::
         Unique(y.files[f]) && Unique(y'.files[f]) && Contents(y'.files[f]) == Contents(y.files[f])
  }

  lemma NearerKeeps(n: seq<Naming>, y: System, y': System, f: nat, i: nat)
    requires SystemInv(n, y) && Nearer(n, y, y', f, i)
    ensures SystemInv(n, y') && SameMaps(y, y')
    ensures StepsIn(n, y', |n|) < StepsIn(n, y, |n|)
  {
    hide FilesOk, AtWork, CellsHold, WrapsOk, SystemNext, Inv, Next, Contents, Unique, Nears, AllSteps;
    SystemStepKeeps(n, y, y', f, i);
    ThereAndElsewhere(n, y, y', f, i);
    InvHere(n, y, f);
    NearsKeeps(n[f], y.files[f], y'.files[f], i);
    NearsAll(n[f], y.files[f], y'.files[f], i);
    StepsInFall(n, y, y', f, |n|);
    forall g | 0 <= g < |y.files|
      ensures Unique(y.files[g]) && Unique(y'.files[g]) && Contents(y'.files[g]) == Contents(y.files[g])
    {
      InvHere(n, y, g);
      UniqueIn(n[g], y.files[g]);
    }
  }

  lemma ThereAndElsewhere(n: seq<Naming>, y: System, y': System, f: nat, i: nat)
    requires Shape(n, y) && SystemNext(n, y, y', f, i)
    ensures f < |y.files| == |y'.files| && i < |y.at| && Next(n[f], y.files[f], y'.files[f], i)
    ensures forall g | 0 <= g < |y.files| && g != f :: y'.files[g] == y.files[g]
  {
    hide Next, TableStep, TableFree;
  }

  lemma NearsAll(n: Naming, s: State, s': State, i: nat)
    requires Nears(n, s, s', i)
    ensures |s'.procs| == |s.procs| && AllSteps(n, s', |s.procs|) < AllSteps(n, s, |s.procs|)
  {
    hide StepsLeft;
    AllStepsFall(n, s, s', i, |s.procs|);
  }

  // ------------------------------------------------------------------------
  // The continuation

  /** States of the system that follow one another. */
  ghost predicate SystemPath(n: seq<Naming>, ys: seq<System>, what: seq<(nat, nat)>) {
    && |ys| == |what| + 1
    && forall k | 0 <= k < |what| :: Shape(n, ys[k]) && SystemNext(n, ys[k], ys[k + 1], what[k].0, what[k].1)
  }

  lemma {:induction false} SystemRests(n: seq<Naming>, y: System) returns (ys: seq<System>, what: seq<(nat, nat)>)
    requires SystemInv(n, y)
    ensures SystemPath(n, ys, what) && ys[0] == y
    ensures SystemInv(n, ys[|ys| - 1]) && AllAtRest(ys[|ys| - 1]) && SameMaps(y, ys[|ys| - 1])
    decreases StepsIn(n, y, |n|)
  {
    hide FilesOk, AtWork, CellsHold, WrapsOk, SystemNext, Nears, Contents, Unique, StepsIn, Inv;
    if AllAtRest(y) {
      ys, what := [y], [];
      MapsAreSame(n, y);
    } else {
      var f :| 0 <= f < |y.files| && !AtRest(y.files[f]);
      var i :| 0 <= i < |y.files[f].procs| && y.files[f].procs[i] != Idle;
      var y', g, j := SomeoneGoesOn(n, y, f, i);
      NearerKeeps(n, y, y', g, j);
      var ys1, what1 := SystemRests(n, y');
      ys, what := [y] + ys1, [(g, j)] + what1;
      Prepend(n, y, g, j, ys1, what1);
      MapsOn(y, y', ys1[|ys1| - 1]);
    }
  }

  lemma SomeoneGoesOn(n: seq<Naming>, y: System, f: nat, i: nat) returns (y': System, g: nat, j: nat)
    requires SystemInv(n, y) && f < |y.files| && i < |y.at| && y.files[f].procs[i] != Idle
    ensures Nearer(n, y, y', g, j)
  {
    hide FilesOk, CellsHold, WrapsOk, AtWork, Nearer;
    if y.at[i] == f || Resting(y.files[y.at[i]].procs[i]) {
      y', g, j := SomeoneSteps(n, y, f, i);
    } else {
      y', g, j := SomeoneSteps(n, y, y.at[i], i);
    }
  }

  lemma MapsAreSame(n: seq<Naming>, y: System)
    requires SystemInv(n, y)
    ensures SameMaps(y, y)
  {
    hide AtWork, CellsHold, WrapsOk, Inv, Unique;
    forall f | 0 <= f < |y.files| ensures Unique(y.files[f]) {
      UniqueIn(n[f], y.files[f]);
    }
  }

  lemma Prepend(n: seq<Naming>, y: System, g: nat, j: nat, ys: seq<System>, what: seq<(nat, nat)>)
    requires Shape(n, y) && SystemPath(n, ys, what) && SystemNext(n, y, ys[0], g, j)
    ensures SystemPath(n, [y] + ys, [(g, j)] + what)
  {
    hide SystemNext, Shape;
  }

  lemma MapsOn(a: System, b: System, c: System)
    requires SameMaps(a, b) && SameMaps(b, c)
    ensures SameMaps(a, c)
  {
    hide Contents, Unique;
  }

  /** Nobody who is idle in all files has a lock, so all cells are free. */
  lemma {:induction false} NothingHeld(n: seq<Naming>, y: System, k: nat)
    requires Shape(n, y) && AllAtRest(y) && k <= |y.at|
    ensures AllHeld(n, y, k) == multiset{}
  {
    if k > 0 {
      NothingHeld(n, y, k - 1);
      assert AtRest(y.files[y.at[k - 1]]);
    }
  }

  lemma CellsFree(n: seq<Naming>, y: System)
    requires SystemInv(n, y) && AllAtRest(y)
    ensures forall k | 0 <= k < |y.cells| :: y.cells[k].hash == 0
  {
    hide FilesOk, AtWork, WrapsOk, AllAtRest, L.CellsOk, L.GrantsOk, AllHeld;
    NothingHeld(n, y, |y.at|);
    UsedBound(y.cells, AllHeld(n, y, |y.at|));
    NoneUsed(y.cells, |y.cells|);
  }

  lemma {:induction false} NoneUsed(cells: seq<L.Cell>, k: nat)
    requires k <= |cells| && UsedCells(cells, k) == 0
    ensures forall i | 0 <= i < k :: cells[i].hash == 0
  {
    if k > 0 {
      NoneUsed(cells, k - 1);
    }
  }

  /** Every run of the system can be continued to a state in which all processes are idle in all files, no
      resize is held off, every file is the same map, and every cell of the lock table is free. */
  lemma SystemCanRest(n: seq<Naming>, ys: seq<System>, what: seq<(nat, nat)>)
    returns (ys': seq<System>, what': seq<(nat, nat)>)
    requires SystemRun(n, ys, what)
    ensures SystemRun(n, ys', what') && ys <= ys'
    ensures var y := ys'[|ys'| - 1];
            && AllAtRest(y) && SameMaps(ys[|ys| - 1], y)
            && (forall f | 0 <= f < |y.files| :: y.files[f].inhibit == 0)
            && forall k | 0 <= k < |y.cells| :: y.cells[k].hash == 0
  {
    hide SystemInit, SystemNext, Shape, FilesOk, AtWork, CellsHold, WrapsOk, SameMaps, AllAtRest;
    SystemRunKeeps(n, ys, what, |ys| - 1);
    var path, more := SystemRests(n, ys[|ys| - 1]);
    ys', what' := ys + path[1..], what + more;
    forall k | 0 <= k < |what'|
      ensures Shape(n, ys'[k]) && SystemNext(n, ys'[k], ys'[k + 1], what'[k].0, what'[k].1)
    {
      if k >= |what| {
        assert ys'[k] == path[k - |what|] && ys'[k + 1] == path[k - |what| + 1];
      }
    }
    var y := ys'[|ys'| - 1];
    assert y == path[|path| - 1];
    CellsFree(n, y);
    NothingInhibits(n, y);
  }

  lemma NothingInhibits(n: seq<Naming>, y: System)
    requires SystemInv(n, y) && AllAtRest(y)
    ensures forall f | 0 <= f < |y.files| :: y.files[f].inhibit == 0
  {
    hide AtWork, CellsHold, WrapsOk, Inv, AtRest;
    forall f | 0 <= f < |y.files| ensures y.files[f].inhibit == 0 {
      RestInhibits(n[f], y.files[f]);
    }
  }
}
