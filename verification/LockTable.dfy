/** The shared table of group locks: a cyclic hash table in which the cell a lock hashes to
    keeps only a count of the locks that hash there; the locks themselves are in any cells. */
module LockTables {

  /** A cell: the hash of the lock in it (0 if none), how many locks hash to this cell, and the
      lock: file, group, and -1 for a writer or the number of readers. */
  datatype Cell = Cell(hash: nat, count: nat, file: nat, group: nat, grpCount: int)

  /** One grant of a lock that has not been given back. */
  datatype Grant = Grant(file: nat, group: nat, write: bool)

  /** Exclusive or, bit by bit. */
  function Xor(a: nat, b: nat): nat {
    if a == 0 && b == 0 then 0 else 2 * Xor(a / 2, b / 2) + (a % 2 + b % 2) % 2
  }

  /** Bit `k` of a number. */
  function Bit(a: nat, k: nat): nat {
    if k == 0 then a % 2 else Bit(a / 2, k - 1)
  }

  /** A bit is set when it is set in just one of the two. */
  lemma {:induction false} XorBits(a: nat, b: nat, k: nat)
    ensures Bit(Xor(a, b), k) == 1 <==> Bit(a, k) != Bit(b, k)
  {
    hide Xor;
    XorHalves(a, b);
    if k > 0 {
      assert Xor(a, b) / 2 == Xor(a / 2, b / 2);
      XorBits(a / 2, b / 2, k - 1);
    }
  }

  /** The cell a lock hashes to in a table of `n` cells numbered from 1. */
  function LockHash(file: nat, group: nat, n: nat): (h: nat)
    requires n >= 1
    ensures 1 <= h <= n
  {
    Xor(file, group) % n + 1
  }

  /** It is the remainder of the exclusive or, counted from 1. */
  lemma HomeCell(file: nat, group: nat, n: nat)
    requires n >= 1
    ensures exists q: nat :: Xor(file, group) == q * n + (LockHash(file, group, n) - 1)
  {
    var x := Xor(file, group);
    assert x == x / n * n + x % n;
  }

  // ------------------------------------------------------------------------
  // Tables as sequences of cells

  function CountHash(cells: seq<Cell>, h: nat): nat {
    if cells == [] then 0 else (if cells[0].hash == h then 1 else 0) + CountHash(cells[1..], h)
  }

  lemma {:induction false} CountConcat(a: seq<Cell>, b: seq<Cell>, h: nat)
    ensures CountHash(a + b, h) == CountHash(a, h) + CountHash(b, h)
  {
    if a == [] {
      assert a + b == b;
    } else {
      assert (a + b)[1..] == a[1..] + b;
      CountConcat(a[1..], b, h);
    }
  }

  lemma CountAround(cells: seq<Cell>, i: nat, c: Cell, h: nat)
    requires i < |cells|
    ensures CountHash(cells[i := c], h)
            == CountHash(cells, h) - (if cells[i].hash == h then 1 else 0) + (if c.hash == h then 1 else 0)
  {
    var cells' := cells[i := c];
    assert cells == cells[..i] + ([cells[i]] + cells[i + 1..]);
    assert cells' == cells[..i] + ([c] + cells[i + 1..]);
    CountConcat(cells[..i], [cells[i]] + cells[i + 1..], h);
    CountConcat(cells[..i], [c] + cells[i + 1..], h);
    assert ([cells[i]] + cells[i + 1..])[1..] == cells[i + 1..] == ([c] + cells[i + 1..])[1..];
  }

  lemma {:induction false} CountNone(cells: seq<Cell>, h: nat)
    ensures CountHash(cells, h) == 0 <==> forall i | 0 <= i < |cells| :: cells[i].hash != h
  {
    if cells != [] {
      CountNone(cells[1..], h);
      if CountHash(cells, h) == 0 {
        forall i | 0 <= i < |cells| ensures cells[i].hash != h {
          if i > 0 {
            assert cells[i] == cells[1..][i - 1];
          }
        }
      } else if cells[0].hash != h {
        var i :| 0 <= i < |cells[1..]| && cells[1..][i].hash == h;
        assert cells[i + 1].hash == h;
      }
    }
  }

  /** The cells in the order a scan from cell `idx` visits them. */
  function Rotated(cells: seq<Cell>, idx: nat): seq<Cell>
    requires 1 <= idx <= |cells|
  {
    cells[idx - 1..] + cells[..idx - 1]
  }

  /** The cell number `d` steps on from cell `idx`. */
  function Steps(idx: nat, d: nat, n: nat): nat {
    if idx + d <= n then idx + d else idx + d - n
  }

  lemma RotatedAt(cells: seq<Cell>, idx: nat, d: nat)
    requires 1 <= idx <= |cells| && d < |cells|
    ensures 1 <= Steps(idx, d, |cells|) <= |cells|
    ensures Rotated(cells, idx)[d] == cells[Steps(idx, d, |cells|) - 1]
  {
  }

  lemma RotatedCount(cells: seq<Cell>, idx: nat, h: nat)
    requires 1 <= idx <= |cells|
    ensures CountHash(Rotated(cells, idx), h) == CountHash(cells, h) && |Rotated(cells, idx)| == |cells|
  {
    CountConcat(cells[idx - 1..], cells[..idx - 1], h);
    CountConcat(cells[..idx - 1], cells[idx - 1..], h);
    assert cells[..idx - 1] + cells[idx - 1..] == cells;
  }

  /** A scan sees every cell. */
  lemma RotatedAll(cells: seq<Cell>, idx: nat, i: nat) returns (d: nat)
    requires 1 <= idx <= |cells| && i < |cells|
    ensures d < |cells| && Rotated(cells, idx)[d] == cells[i] && Steps(idx, d, |cells|) == i + 1
  {
    d := if i >= idx - 1 then i - (idx - 1) else i + |cells| - (idx - 1);
  }

  ghost predicate IsLock(c: Cell, file: nat, group: nat) {
    c.hash != 0 && c.file == file && c.group == group
  }

  /** A used cell holds a lock that hashes where it says, held by one writer or by readers. */
  ghost predicate CellOk(c: Cell, n: nat)
    requires n >= 1
  {
    c.hash != 0 ==> c.hash == LockHash(c.file, c.group, n) && (c.grpCount == -1 || c.grpCount >= 1)
  }

  ghost predicate CountOk(cells: seq<Cell>, i: nat)
    requires i < |cells|
  {
    cells[i].count == CountHash(cells, i + 1)
  }

  /** No lock is in two cells, and every home cell's count is right. */
  ghost predicate CellsOk(cells: seq<Cell>) {
    && |cells| >= 1
    && (forall i | 0 <= i < |cells| :: CellOk(cells[i], |cells|))
    && (forall i | 0 <= i < |cells| :: CountOk(cells, i))
    && (forall i, j | 0 <= i < j < |cells| :: Apart(cells, i, j))
  }

  /** Two cells do not hold the same lock. */
  ghost predicate Apart(cells: seq<Cell>, i: nat, j: nat)
    requires i < |cells| && j < |cells|
  {
    cells[i].hash != 0 ==> !IsLock(cells[j], cells[i].file, cells[i].group)
  }

  ghost predicate Held(cells: seq<Cell>, file: nat, group: nat) {
    exists i :: 0 <= i < |cells| && IsLock(cells[i], file, group)
  }

  /** The state of a lock: -1 for a writer, the number of readers, or 0 when it is free. */
  ghost function LockState(cells: seq<Cell>, file: nat, group: nat): int {
    if Held(cells, file, group) then
      var i :| 0 <= i < |cells| && IsLock(cells[i], file, group); cells[i].grpCount
    else 0
  }

  /** A cell that holds a lock holds its state. */
  lemma StateAt(cells: seq<Cell>, i: nat)
    requires CellsOk(cells) && i < |cells| && cells[i].hash != 0
    ensures LockState(cells, cells[i].file, cells[i].group) == cells[i].grpCount
  {
    var f, g := cells[i].file, cells[i].group;
    assert IsLock(cells[i], f, g);
    var j :| 0 <= j < |cells| && IsLock(cells[j], f, g) && LockState(cells, f, g) == cells[j].grpCount;
    assert i < j ==> Apart(cells, i, j);
    assert j < i ==> Apart(cells, j, i);
  }

  /** The lock is free, or only read locks are held and another is asked for. */
  predicate Compatible(state: int, write: bool) {
    state == 0 || (state > 0 && !write)
  }

  function Granted(state: int, write: bool): int {
    if write then -1 else state + 1
  }

  /** The state of a lock when one of its grants has been given back. */
  function Returned(state: int): int {
    if state < 0 then 0 else state - 1
  }

  ghost predicate OnlyChanges(cells: seq<Cell>, cells': seq<Cell>, file: nat, group: nat) {
    forall f: nat, g: nat :: (f, g) != (file, group) ==> LockState(cells', f, g) == LockState(cells, f, g)
  }

  /** Rewriting one cell that held this lock, or none, and now holds this lock, or none,
      leaves the other locks alone. */
  lemma OthersKept(cells: seq<Cell>, cells': seq<Cell>, i: nat, file: nat, group: nat)
    requires CellsOk(cells) && CellsOk(cells') && |cells'| == |cells| && i < |cells|
    requires forall j | 0 <= j < |cells| && j != i ::
               cells'[j].hash == cells[j].hash && cells'[j].file == cells[j].file && cells'[j].group == cells[j].group
               && cells'[j].grpCount == cells[j].grpCount
    requires cells[i].hash == 0 || IsLock(cells[i], file, group)
    requires cells'[i].hash == 0 || IsLock(cells'[i], file, group)
    ensures OnlyChanges(cells, cells', file, group)
  {
    forall f: nat, g: nat | (f, g) != (file, group) ensures LockState(cells', f, g) == LockState(cells, f, g) {
      if Held(cells, f, g) {
        var j :| 0 <= j < |cells| && IsLock(cells[j], f, g);
        assert j != i && IsLock(cells'[j], f, g);
        StateAt(cells, j);
        StateAt(cells', j);
      } else if Held(cells', f, g) {
        var j :| 0 <= j < |cells'| && IsLock(cells'[j], f, g);
        assert j != i && IsLock(cells[j], f, g);
      }
    }
  }

  // ------------------------------------------------------------------------
  // The changes made to the table

  /** Put a lock in a free cell and count it in its home cell. */
  function Added(cells: seq<Cell>, i: nat, h: nat, file: nat, group: nat, grpCount: int): seq<Cell>
    requires i < |cells| && 1 <= h <= |cells|
  {
    var c1 := cells[i := Cell(h, cells[i].count, file, group, grpCount)];
    c1[h - 1 := c1[h - 1].(count := c1[h - 1].count + 1)]
  }

  /** Take a lock out of its cell and out of its home cell's count. */
  function Dropped(cells: seq<Cell>, i: nat): seq<Cell>
    requires i < |cells| && 1 <= cells[i].hash <= |cells| && cells[cells[i].hash - 1].count >= 1
  {
    var h := cells[i].hash;
    var c1 := cells[i := cells[i].(hash := 0)];
    c1[h - 1 := c1[h - 1].(count := c1[h - 1].count - 1)]
  }

  lemma {:induction false} CountIgnoresCounts(a: seq<Cell>, b: seq<Cell>, h: nat)
    requires |a| == |b| && forall i | 0 <= i < |a| :: a[i].hash == b[i].hash
    ensures CountHash(a, h) == CountHash(b, h)
  {
    if a != [] {
      assert a[0].hash == b[0].hash;
      forall i | 0 <= i < |a[1..]| ensures a[1..][i].hash == b[1..][i].hash {
        assert a[i + 1].hash == b[i + 1].hash;
      }
      CountIgnoresCounts(a[1..], b[1..], h);
    }
  }

  lemma AddedOk(cells: seq<Cell>, i: nat, file: nat, group: nat, grpCount: int)
    requires CellsOk(cells) && i < |cells| && cells[i].hash == 0 && !Held(cells, file, group)
    requires grpCount == -1 || grpCount >= 1
    ensures var cells' := Added(cells, i, LockHash(file, group, |cells|), file, group, grpCount);
            && CellsOk(cells') && OnlyChanges(cells, cells', file, group) && LockState(cells', file, group) == grpCount
            && LockState(cells, file, group) == 0 && IsLock(cells'[i], file, group)
  {
    var h := LockHash(file, group, |cells|);
    var cells' := Added(cells, i, h, file, group, grpCount);
    AddedCounts(cells, i, h, file, group, grpCount);
    forall j, k | 0 <= j < k < |cells'| ensures Apart(cells', j, k) {
      assert Apart(cells, j, k) && !IsLock(cells[j], file, group) && !IsLock(cells[k], file, group);
    }
    forall k | 0 <= k < |cells'| ensures CellOk(cells'[k], |cells'|) {
      assert CellOk(cells[k], |cells|);
    }
    OthersKept(cells, cells', i, file, group);
    StateAt(cells', i);
  }

  lemma AddedCounts(cells: seq<Cell>, i: nat, h: nat, file: nat, group: nat, grpCount: int)
    requires (forall k | 0 <= k < |cells| :: CountOk(cells, k)) && i < |cells| && cells[i].hash == 0 && 1 <= h <= |cells|
    ensures var cells' := Added(cells, i, h, file, group, grpCount); forall k | 0 <= k < |cells'| :: CountOk(cells', k)
  {
    var c1 := cells[i := Cell(h, cells[i].count, file, group, grpCount)];
    var cells' := Added(cells, i, h, file, group, grpCount);
    forall k | 0 <= k < |cells'| ensures CountOk(cells', k) {
      assert CountOk(cells, k);
      CountAround(cells, i, c1[i], k + 1);
      CountIgnoresCounts(c1, cells', k + 1);
    }
  }

  /** There is something to count down. */
  lemma HomeCount(cells: seq<Cell>, i: nat)
    requires CellsOk(cells) && i < |cells| && cells[i].hash != 0
    ensures 1 <= cells[i].hash <= |cells| && cells[cells[i].hash - 1].count >= 1
  {
    assert CellOk(cells[i], |cells|);
    var h := cells[i].hash;
    assert CountOk(cells, h - 1);
    CountNone(cells, h);
  }

  lemma DroppedOk(cells: seq<Cell>, i: nat)
    requires CellsOk(cells) && i < |cells| && cells[i].hash != 0
    requires 1 <= cells[i].hash <= |cells| && cells[cells[i].hash - 1].count >= 1
    ensures var cells' := Dropped(cells, i);
            && CellsOk(cells') && OnlyChanges(cells, cells', cells[i].file, cells[i].group)
            && LockState(cells', cells[i].file, cells[i].group) == 0
  {
    var file, group := cells[i].file, cells[i].group;
    var cells' := Dropped(cells, i);
    DroppedCounts(cells, i);
    forall j, k | 0 <= j < k < |cells'| ensures Apart(cells', j, k) {
      assert Apart(cells, j, k);
    }
    forall k | 0 <= k < |cells'| ensures CellOk(cells'[k], |cells'|) {
      assert CellOk(cells[k], |cells|);
    }
    OthersKept(cells, cells', i, file, group);
    forall k | 0 <= k < |cells'| ensures !IsLock(cells'[k], file, group) {
      if k < i {
        assert Apart(cells, k, i);
      } else if k > i {
        assert Apart(cells, i, k);
      }
    }
  }

  lemma DroppedCounts(cells: seq<Cell>, i: nat)
    requires (forall k | 0 <= k < |cells| :: CountOk(cells, k)) && i < |cells|
    requires 1 <= cells[i].hash <= |cells| && cells[cells[i].hash - 1].count >= 1
    ensures var cells' := Dropped(cells, i); forall k | 0 <= k < |cells'| :: CountOk(cells', k)
  {
    var c1, cells' := cells[i := cells[i].(hash := 0)], Dropped(cells, i);
    forall k | 0 <= k < |cells'| ensures CountOk(cells', k) {
      assert CountOk(cells, k);
      CountAround(cells, i, c1[i], k + 1);
      CountIgnoresCounts(c1, cells', k + 1);
    }
  }

  lemma RecountedOk(cells: seq<Cell>, i: nat, grpCount: int)
    requires CellsOk(cells) && i < |cells| && cells[i].hash != 0 && grpCount >= 1
    ensures var cells' := cells[i := cells[i].(grpCount := grpCount)];
            && CellsOk(cells') && OnlyChanges(cells, cells', cells[i].file, cells[i].group)
            && LockState(cells', cells[i].file, cells[i].group) == grpCount
  {
    var cells' := cells[i := cells[i].(grpCount := grpCount)];
    forall k | 0 <= k < |cells'| ensures CountOk(cells', k) && CellOk(cells'[k], |cells'|) {
      assert CountOk(cells, k) && CellOk(cells[k], |cells|);
      CountIgnoresCounts(cells, cells', k + 1);
    }
    forall j, k | 0 <= j < k < |cells'| ensures Apart(cells', j, k) {
      assert Apart(cells, j, k);
    }
    OthersKept(cells, cells', i, cells[i].file, cells[i].group);
    StateAt(cells', i);
  }

  // ------------------------------------------------------------------------
  // Scanning

  /** The first `d` cells visited do not hold the lock; `free` is a free cell if one was met. */
  ghost predicate Scanned(cells: seq<Cell>, idx: nat, d: nat, file: nat, group: nat, free: nat)
    requires 1 <= idx <= |cells| && d <= |cells|
  {
    && (forall j | 0 <= j < d :: !IsLock(Rotated(cells, idx)[j], file, group))
    && (free == 0 ==> UsedUpTo(cells, idx, d))
    && (free != 0 ==> FirstFree(cells, idx, free))
  }

  ghost predicate UsedUpTo(cells: seq<Cell>, idx: nat, d: nat)
    requires 1 <= idx <= |cells| && d <= |cells|
  {
    forall j | 0 <= j < d :: Rotated(cells, idx)[j].hash != 0
  }

  /** The first free cell that a scan from `idx` comes to. */
  ghost predicate FirstFree(cells: seq<Cell>, idx: nat, free: nat)
    requires 1 <= idx <= |cells|
  {
    1 <= free <= |cells| && cells[free - 1].hash == 0
    && exists d: nat :: d < |cells| && free == Steps(idx, d, |cells|) && UsedUpTo(cells, idx, d)
  }

  /** How many locks of this hash are still to be met. */
  ghost function Ahead(cells: seq<Cell>, idx: nat, d: nat): nat
    requires 1 <= idx <= |cells| && d <= |cells|
  {
    CountHash(Rotated(cells, idx)[d..], idx)
  }

  lemma ScanStart(cells: seq<Cell>, idx: nat, file: nat, group: nat)
    requires CellsOk(cells) && 1 <= idx <= |cells|
    ensures Scanned(cells, idx, 0, file, group, 0) && cells[idx - 1].count == Ahead(cells, idx, 0)
  {
    RotatedCount(cells, idx, idx);
    assert CountOk(cells, idx - 1);
    assert Rotated(cells, idx)[0..] == Rotated(cells, idx);
  }

  lemma ScanStep(cells: seq<Cell>, idx: nat, d: nat, file: nat, group: nat, free: nat)
    requires 1 <= idx <= |cells| && d < |cells| && Scanned(cells, idx, d, file, group, free)
    ensures 1 <= Steps(idx, d, |cells|) <= |cells|
    ensures var c := cells[Steps(idx, d, |cells|) - 1];
            && Ahead(cells, idx, d) == (if c.hash == idx then 1 else 0) + Ahead(cells, idx, d + 1)
            && (!IsLock(c, file, group) ==>
                  Scanned(cells, idx, d + 1, file, group, if c.hash == 0 && free == 0 then Steps(idx, d, |cells|) else free))
            && Steps(idx, d + 1, |cells|)
               == (if Steps(idx, d, |cells|) + 1 > |cells| then 1 else Steps(idx, d, |cells|) + 1)
            && (Steps(idx, d + 1, |cells|) == idx <==> d + 1 == |cells|)
  {
    hide UsedUpTo;
    RotatedAt(cells, idx, d);
    var rot := Rotated(cells, idx);
    assert rot[d..][1..] == rot[d + 1..];
    OneMoreUsed(cells, idx, d);
  }

  lemma OneMoreUsed(cells: seq<Cell>, idx: nat, d: nat)
    requires 1 <= idx <= |cells| && d < |cells|
    ensures UsedUpTo(cells, idx, d) && Rotated(cells, idx)[d].hash != 0 ==> UsedUpTo(cells, idx, d + 1)
  {
  }

  lemma FreeMet(cells: seq<Cell>, idx: nat, d: nat, file: nat, group: nat, free: nat)
    requires 1 <= idx <= |cells| && d <= |cells| && Scanned(cells, idx, d, file, group, free)
    ensures free != 0 ==> FirstFree(cells, idx, free) && free <= |cells| && cells[free - 1].hash == 0
  {
  }

  /** A scan that has met no free cell comes to one. */
  lemma FreeHere(cells: seq<Cell>, idx: nat, d: nat, file: nat, group: nat)
    requires 1 <= idx <= |cells| && d < |cells| && Scanned(cells, idx, d, file, group, 0)
    requires 1 <= Steps(idx, d, |cells|) <= |cells| && cells[Steps(idx, d, |cells|) - 1].hash == 0
    ensures FirstFree(cells, idx, Steps(idx, d, |cells|))
  {
  }

  /** Nothing further on hashes here, so the lock is nowhere. */
  lemma ScanDone(cells: seq<Cell>, idx: nat, d: nat, file: nat, group: nat, free: nat)
    requires CellsOk(cells) && idx == LockHash(file, group, |cells|) && d < |cells|
    requires Scanned(cells, idx, d, file, group, free) && Ahead(cells, idx, d) == 0
    ensures !Held(cells, file, group) && Before(cells, idx).hash != idx
  {
    var rot := Rotated(cells, idx);
    CountNone(rot[d..], idx);
    forall i | 0 <= i < |cells| ensures !IsLock(cells[i], file, group) {
      var j := RotatedAll(cells, idx, i);
      assert CellOk(cells[i], |cells|);
      if j >= d {
        assert rot[d..][j - d] == rot[j];
      }
    }
    RotatedAt(cells, idx, |cells| - 1);
    assert rot[d..][|cells| - 1 - d] == rot[|cells| - 1];
  }

  /** The last cell a scan from `idx` comes to. */
  function Before(cells: seq<Cell>, idx: nat): Cell
    requires 1 <= idx <= |cells|
  {
    cells[Steps(idx, |cells| - 1, |cells|) - 1]
  }

  /** The scan came round to where it began while there was a lock of this hash to be met. */
  lemma ScanWrapped(cells: seq<Cell>, idx: nat, file: nat, group: nat, free: nat)
    requires CellsOk(cells) && idx == LockHash(file, group, |cells|)
    requires Scanned(cells, idx, |cells|, file, group, free) && Ahead(cells, idx, |cells| - 1) != 0
    ensures !Held(cells, file, group) && Before(cells, idx).hash == idx
  {
    var rot := Rotated(cells, idx);
    forall i | 0 <= i < |cells| ensures !IsLock(cells[i], file, group) {
      var j := RotatedAll(cells, idx, i);
    }
    RotatedAt(cells, idx, |cells| - 1);
    assert rot[|cells| - 1..] == [rot[|cells| - 1]];
    CountNone(rot[|cells| - 1..], idx);
  }

  /** The scan came round without finding a free cell. */
  lemma NoneFree(cells: seq<Cell>, idx: nat, file: nat, group: nat)
    requires 1 <= idx <= |cells| && Scanned(cells, idx, |cells|, file, group, 0)
    ensures forall i | 0 <= i < |cells| :: cells[i].hash != 0
  {
    forall i | 0 <= i < |cells| ensures cells[i].hash != 0 {
      var j := RotatedAll(cells, idx, i);
    }
  }

  /** When an attempt to set a lock must be repeated. A lock that is held must be waited for
      unless it is shared and sharing is asked for. A lock that is not held is refused when no
      cell is free, and also when the last cell of the scan holds a lock of the same hash, for
      then the scan comes round before it is known to be over. */
  ghost predicate MustWait(cells: seq<Cell>, file: nat, group: nat, write: bool)
    requires |cells| >= 1
  {
    if Held(cells, file, group) then !Compatible(LockState(cells, file, group), write)
    else
      || Before(cells, LockHash(file, group, |cells|)).hash == LockHash(file, group, |cells|)
      || forall i | 0 <= i < |cells| :: cells[i].hash != 0
  }

  /** The table after a grant. */
  ghost function AfterGet(cells: seq<Cell>, slot: nat, file: nat, group: nat, write: bool): seq<Cell>
    requires 1 <= slot <= |cells|
  {
    if Held(cells, file, group) then cells[slot - 1 := cells[slot - 1].(grpCount := cells[slot - 1].grpCount + 1)]
    else Added(cells, slot - 1, LockHash(file, group, |cells|), file, group, if write then -1 else 1)
  }

  /** The table after a grant has been given back. */
  ghost function AfterFree(cells: seq<Cell>, slot: nat): seq<Cell>
    requires 1 <= slot <= |cells|
  {
    var c := cells[slot - 1];
    if (c.grpCount < 0 || c.grpCount == 1) && 1 <= c.hash <= |cells| && cells[c.hash - 1].count >= 1 then Dropped(cells, slot - 1)
    else cells[slot - 1 := c.(grpCount := c.grpCount - 1)]
  }

  // ------------------------------------------------------------------------
  // Grants

  /** A lock is held by one writer and no reader, or by its count of readers and no writer. */
  ghost predicate GrantMatches(grants: multiset<Grant>, cells: seq<Cell>, file: nat, group: nat) {
    && grants[Grant(file, group, true)] == (if LockState(cells, file, group) < 0 then 1 else 0)
    && grants[Grant(file, group, false)]
       == (if LockState(cells, file, group) < 0 then 0 else LockState(cells, file, group))
  }

  ghost predicate GrantsOk(grants: multiset<Grant>, cells: seq<Cell>) {
    forall f: nat, g: nat :: GrantMatches(grants, cells, f, g)
  }

  lemma GrantAdded(grants: multiset<Grant>, cells: seq<Cell>, cells': seq<Cell>, file: nat, group: nat, write: bool)
    requires GrantsOk(grants, cells) && OnlyChanges(cells, cells', file, group)
    requires Compatible(LockState(cells, file, group), write)
    requires LockState(cells', file, group) == Granted(LockState(cells, file, group), write)
    ensures GrantsOk(grants + multiset{Grant(file, group, write)}, cells')
  {
    forall f: nat, g: nat ensures GrantMatches(grants + multiset{Grant(file, group, write)}, cells', f, g) {
      assert GrantMatches(grants, cells, f, g);
    }
  }

  lemma GrantTaken(grants: multiset<Grant>, cells: seq<Cell>, cells': seq<Cell>, file: nat, group: nat, write: bool)
    requires GrantsOk(grants, cells) && OnlyChanges(cells, cells', file, group)
    requires Grant(file, group, write) in grants
    requires LockState(cells', file, group) == Returned(LockState(cells, file, group))
    ensures GrantsOk(grants - multiset{Grant(file, group, write)}, cells')
  {
    assert GrantMatches(grants, cells, file, group);
    forall f: nat, g: nat ensures GrantMatches(grants - multiset{Grant(file, group, write)}, cells', f, g) {
      assert GrantMatches(grants, cells, f, g);
    }
  }

  /** A writer is alone: no other grant of its lock is out. */
  lemma WriterAlone(grants: multiset<Grant>, cells: seq<Cell>, file: nat, group: nat)
    requires GrantsOk(grants, cells) && Grant(file, group, true) in grants
    ensures grants[Grant(file, group, true)] == 1 && Grant(file, group, false) !in grants
  {
    assert GrantMatches(grants, cells, file, group);
  }

  // ------------------------------------------------------------------------
  // The table

  class LockTable {
    const size: nat
    const cells: array<Cell>

    /** The grants that have not been given back. */
    ghost var grants: multiset<Grant>

    ghost predicate Valid()
      reads this, cells
    {
      cells.Length == size >= 1 && CellsOk(cells[..]) && GrantsOk(grants, cells[..])
    }

    ghost function StateOf(file: nat, group: nat): int
      reads cells
    {
      LockState(cells[..], file, group)
    }

    constructor (n: nat)
      requires n >= 1
      ensures Valid() && size == n && grants == multiset{} && fresh(cells)
      ensures forall f: nat, g: nat :: StateOf(f, g) == 0
      ensures forall i | 0 <= i < n :: cells[i] == Cell(0, 0, 0, 0, 0)
    {
      size := n;
      cells := new Cell[n](i => Cell(0, 0, 0, 0, 0));
      grants := multiset{};
      new;
      forall i | 0 <= i < n ensures CountOk(cells[..], i) {
        CountNone(cells[..], i + 1);
      }
    }

    /** One attempt to set a lock: the slot it is in, or 0 when the caller must wait. The scan
        starts at the home cell and stops when it has met as many locks of that hash as the home
        cell counts. */
    method GetLock(file: nat, group: nat, write: bool) returns (slot: nat)
      requires Valid()
      modifies this, cells
      ensures Valid()
      ensures slot == 0 <==> old(MustWait(cells[..], file, group, write))
      ensures slot == 0 ==> cells[..] == old(cells[..]) && grants == old(grants)
      ensures slot != 0 ==>
                && slot <= size && IsLock(cells[slot - 1], file, group)
                && Compatible(old(StateOf(file, group)), write)
                && StateOf(file, group) == Granted(old(StateOf(file, group)), write)
                && OnlyChanges(old(cells[..]), cells[..], file, group)
                && grants == old(grants) + multiset{Grant(file, group, write)}
                && cells[..] == AfterGet(old(cells[..]), slot, file, group, write)
                && (old(Held(cells[..], file, group)) || FirstFree(old(cells[..]), LockHash(file, group, size), slot))
    {
      hide CellsOk, CountHash, GrantsOk, Rotated, Scanned, OnlyChanges, UsedUpTo, FirstFree;
      var idx := LockHash(file, group, size);
      ghost var all := cells[..];
      ScanStart(all, idx, file, group);
      var scan, active, free: nat := idx, cells[idx - 1].count, 0;
      ghost var d: nat := 0;
      while active != 0
        invariant cells[..] == all && grants == old(grants)
        invariant d < size && scan == Steps(idx, d, size) && active == Ahead(all, idx, d)
        invariant Scanned(all, idx, d, file, group, free)
        decreases size - d
      {
        ScanStep(all, idx, d, file, group, free);
        var c := cells[scan - 1];
        assert c == all[scan - 1];
        if c.hash == idx {
          if c.file == file && c.group == group {
            slot := Share(scan, file, group, write);
            return;
          }
          active := active - 1;
        } else if c.hash == 0 {
          if free == 0 {
            free := scan;
          }
        }
        NotHere(all, idx, scan - 1, file, group);
        scan := if scan + 1 > size then 1 else scan + 1;
        d := d + 1;
        if scan == idx {
          ScanWrapped(all, idx, file, group, free);
          return 0;
        }
      }
      ScanDone(all, idx, d, file, group, free);
      FreeMet(all, idx, d, file, group, free);
      if free == 0 {
        free := FindFree(idx, scan, file, group, d);
        if free == 0 {
          return 0;
        }
      }
      AddLock(free, idx, file, group, write);
      slot := free;
    }

    /** The lock is in the table: count another reader, or wait. */
    method Share(scan: nat, file: nat, group: nat, write: bool) returns (slot: nat)
      requires Valid() && 1 <= scan <= size && IsLock(cells[scan - 1], file, group)
      modifies this, cells
      ensures Valid()
      ensures slot == 0 <==> old(MustWait(cells[..], file, group, write))
      ensures slot == 0 ==> cells[..] == old(cells[..]) && grants == old(grants)
      ensures slot != 0 ==>
                && slot == scan && IsLock(cells[slot - 1], file, group)
                && Compatible(old(StateOf(file, group)), write)
                && StateOf(file, group) == Granted(old(StateOf(file, group)), write)
                && OnlyChanges(old(cells[..]), cells[..], file, group)
                && grants == old(grants) + multiset{Grant(file, group, write)}
                && cells[..] == AfterGet(old(cells[..]), slot, file, group, write)
      ensures old(Held(cells[..], file, group))
    {
      hide CountHash, GrantsOk, OnlyChanges;
      ghost var all := cells[..];
      var c := cells[scan - 1];
      assert c == all[scan - 1] && IsLock(all[scan - 1], file, group);
      assert CellOk(c, |all|);
      StateAt(all, scan - 1);
      if !write {
        if c.grpCount >= 0 {
          cells[scan - 1] := c.(grpCount := c.grpCount + 1);
          assert cells[..] == all[scan - 1 := c.(grpCount := c.grpCount + 1)];
          RecountedOk(all, scan - 1, c.grpCount + 1);
          GrantAdded(grants, all, cells[..], file, group, write);
          grants := grants + multiset{Grant(file, group, write)};
          return scan;
        }
      }
      return 0;
    }

    /** Go on from cell `scan` to find a free cell; 0 if there is none. */
    method FindFree(idx: nat, scan: nat, file: nat, group: nat, ghost d: nat) returns (free: nat)
      requires Valid() && 1 <= idx <= size && d < size && scan == Steps(idx, d, size)
      requires Scanned(cells[..], idx, d, file, group, 0) && !Held(cells[..], file, group)
      ensures free == 0 <==> forall i | 0 <= i < size :: cells[..][i].hash != 0
      ensures free != 0 ==> free <= size && cells[free - 1].hash == 0 && FirstFree(cells[..], idx, free)
    {
      hide CellsOk, CountHash, GrantsOk, Rotated, Scanned, UsedUpTo, FirstFree;
      ghost var all, e := cells[..], d;
      var at := scan;
      while true
        invariant e < size && at == Steps(idx, e, size) && Scanned(all, idx, e, file, group, 0)
        decreases size - e
      {
        ScanStep(all, idx, e, file, group, 0);
        assert cells[at - 1] == all[at - 1];
        if cells[at - 1].hash == 0 {
          assert !(forall i | 0 <= i < size :: cells[..][i].hash != 0) by {
            assert cells[..][at - 1].hash == 0;
          }
          FreeHere(all, idx, e, file, group);
          return at;
        }
        assert !IsLock(all[at - 1], file, group);
        at := if at + 1 > size then 1 else at + 1;
        e := e + 1;
        if at == idx {
          NoneFree(all, idx, file, group);
          return 0;
        }
      }
    }

    /** Set up a new lock in a free cell. */
    method AddLock(free: nat, idx: nat, file: nat, group: nat, write: bool)
      requires Valid() && 1 <= free <= size && cells[free - 1].hash == 0 && idx == LockHash(file, group, size)
      requires !Held(cells[..], file, group)
      modifies this, cells
      ensures Valid() && IsLock(cells[free - 1], file, group)
      ensures old(StateOf(file, group)) == 0 && StateOf(file, group) == Granted(0, write)
      ensures OnlyChanges(old(cells[..]), cells[..], file, group)
      ensures grants == old(grants) + multiset{Grant(file, group, write)}
      ensures cells[..] == AfterGet(old(cells[..]), free, file, group, write)
    {
      hide CellsOk, CountHash, GrantsOk, OnlyChanges;
      ghost var all := cells[..];
      assert all[free - 1].hash == 0;
      var grpCount := if write then -1 else 1;
      AddedOk(all, free - 1, file, group, grpCount);
      cells[free - 1] := Cell(idx, cells[free - 1].count, file, group, grpCount);
      cells[idx - 1] := cells[idx - 1].(count := cells[idx - 1].count + 1);
      assert cells[..] == Added(all, free - 1, idx, file, group, grpCount);
      GrantAdded(grants, all, cells[..], file, group, write);
      grants := grants + multiset{Grant(file, group, write)};
    }

    /** Give a lock back. */
    method FreeLock(slot: nat, ghost write: bool)
      requires Valid() && 1 <= slot <= size && cells[slot - 1].hash != 0
      requires Grant(cells[slot - 1].file, cells[slot - 1].group, write) in grants
      modifies this, cells
      ensures Valid()
      ensures var file, group := old(cells[slot - 1].file), old(cells[slot - 1].group);
              && StateOf(file, group) == Returned(old(StateOf(file, group)))
              && OnlyChanges(old(cells[..]), cells[..], file, group)
              && grants == old(grants) - multiset{Grant(file, group, write)}
              && cells[..] == AfterFree(old(cells[..]), slot)
    {
      hide CellsOk, CountHash, GrantsOk, OnlyChanges;
      ghost var all := cells[..];
      var c := cells[slot - 1];
      assert c == all[slot - 1];
      StateAt(all, slot - 1);
      UsedCell(all, slot - 1);
      if c.grpCount < 0 || c.grpCount == 1 {
        HomeCount(all, slot - 1);
        DroppedOk(all, slot - 1);
        cells[slot - 1] := c.(hash := 0);
        cells[c.hash - 1] := cells[c.hash - 1].(count := cells[c.hash - 1].count - 1);
        assert cells[..] == Dropped(all, slot - 1);
      } else {
        RecountedOk(all, slot - 1, c.grpCount - 1);
        cells[slot - 1] := c.(grpCount := c.grpCount - 1);
        assert cells[..] == all[slot - 1 := c.(grpCount := c.grpCount - 1)];
      }
      GrantTaken(grants, all, cells[..], c.file, c.group, write);
      grants := grants - multiset{Grant(c.file, c.group, write)};
    }
  }

  lemma UsedCell(cells: seq<Cell>, i: nat)
    requires CellsOk(cells) && i < |cells| && cells[i].hash != 0
    ensures cells[i].grpCount == -1 || cells[i].grpCount >= 1
  {
    assert CellOk(cells[i], |cells|);
  }

  /** A cell of another hash does not hold the lock. */
  lemma NotHere(cells: seq<Cell>, idx: nat, i: nat, file: nat, group: nat)
    requires CellsOk(cells) && i < |cells| && idx == LockHash(file, group, |cells|)
    requires cells[i].hash != idx || cells[i].file != file || cells[i].group != group
    ensures !IsLock(cells[i], file, group)
  {
    assert CellOk(cells[i], |cells|);
  }

  // ------------------------------------------------------------------------
  // A lock that is refused though nobody holds it

  /** One more bit. */
  lemma XorUp(a: nat, b: nat, p: nat, q: nat)
    requires p < 2 && q < 2
    ensures Xor(2 * a + p, 2 * b + q) == 2 * Xor(a, b) + if p == q then 0 else 1
  {
    hide Xor;
    var x, y := 2 * a + p, 2 * b + q;
    XorHalves(x, y);
    assert x / 2 == a && y / 2 == b && x % 2 == p && y % 2 == q;
  }

  lemma XorHalves(a: nat, b: nat)
    ensures Xor(a, b) == 2 * Xor(a / 2, b / 2) + (a % 2 + b % 2) % 2
    ensures a + b == 0 ==> Xor(a, b) == 0
  {
  }

  lemma XorThree(a: nat, b: nat, c: nat, p: nat, q: nat, r: nat)
    requires a < 2 && b < 2 && c < 2 && p < 2 && q < 2 && r < 2
    ensures Xor(4 * a + 2 * b + c, 4 * p + 2 * q + r)
            == (if a == p then 0 else 4) + (if b == q then 0 else 2) + (if c == r then 0 else 1)
  {
    hide Xor;
    var zero := a - a;
    XorHalves(zero, zero);
    XorUp(zero, zero, a, p);
    XorUp(a, p, b, q);
    XorUp(2 * a + b, 2 * p + q, c, r);
  }

  /** The home of a lock whose file and group have three bits each, in a table of six cells. */
  lemma HashIs(a: nat, b: nat, c: nat, p: nat, q: nat, r: nat, file: nat, group: nat)
    requires a < 2 && b < 2 && c < 2 && p < 2 && q < 2 && r < 2
    requires file == 4 * a + 2 * b + c && group == 4 * p + 2 * q + r
    ensures var x := (if a == p then 0 else 4) + (if b == q then 0 else 2) + (if c == r then 0 else 1);
            LockHash(file, group, 6) == if x >= 6 then x - 5 else x + 1
  {
    hide Xor;
    XorThree(a, b, c, p, q, r);
  }

  /** A lock that finds its home cell free goes there. */
  lemma TakesHome(cells: seq<Cell>, file: nat, group: nat)
    requires |cells| >= 1 && !Held(cells, file, group)
    requires var h := LockHash(file, group, |cells|); cells[h - 1].hash == 0 && Before(cells, h).hash != h
    ensures !MustWait(cells, file, group, true)
    ensures forall slot | FirstFree(cells, LockHash(file, group, |cells|), slot) :: slot == LockHash(file, group, |cells|)
  {
    hide Xor, LockHash;
    var h := LockHash(file, group, |cells|);
    RotatedAt(cells, h, 0);
  }

  /** The cells while the locks of the two splits are set, and then those of the first given back. */
  function Six(k: nat): (cells: seq<Cell>)
    ensures |cells| == 6
  {
    [ if k >= 2 then Cell(if k < 8 then 1 else 0, if k < 8 then 1 else 0, 2, 2, -1) else Cell(0, 0, 0, 0, 0),
      if k >= 3 then Cell(2, 1, 4, 3, -1) else Cell(0, 0, 0, 0, 0),
      if k >= 5 then Cell(if k < 7 then 3 else 0, if k < 7 then 1 else 0, 2, 0, -1) else Cell(0, 0, 0, 0, 0),
      if k >= 6 then Cell(5, 0, 4, 0, -1) else Cell(0, 0, 0, 0, 0),
      if k >= 1 then Cell(if k < 9 then 5 else 0, if k < 6 then 1 else if k < 9 then 2 else 1, 2, 6, -1) else Cell(0, 0, 0, 0, 0),
      if k >= 4 then Cell(6, 1, 4, 1, -1) else Cell(0, 0, 0, 0, 0) ]
  }

  /** The lock that is set next. */
  function Sixth(k: nat): Grant {
    if k == 0 then Grant(2, 6, true) else if k == 1 then Grant(2, 2, true) else if k == 2 then Grant(4, 3, true)
    else if k == 3 then Grant(4, 1, true) else if k == 4 then Grant(2, 0, true) else Grant(4, 0, true)
  }

  function HomeOfSixth(k: nat): nat {
    if k == 0 then 5 else if k == 1 then 1 else if k == 2 then 2 else if k == 3 then 6 else if k == 4 then 3 else 5
  }

  lemma HashOfSixth(k: nat)
    requires k < 6
    ensures LockHash(Sixth(k).file, Sixth(k).group, 6) == HomeOfSixth(k)
  {
    hide LockHash, Xor;
    var l := Sixth(k);
    if k == 0 {
      HashIs(0, 1, 0, 1, 1, 0, l.file, l.group);
    } else if k == 1 {
      HashIs(0, 1, 0, 0, 1, 0, l.file, l.group);
    } else if k == 2 {
      HashIs(1, 0, 0, 0, 1, 1, l.file, l.group);
    } else if k == 3 {
      HashIs(1, 0, 0, 0, 0, 1, l.file, l.group);
    } else if k == 4 {
      HashIs(0, 1, 0, 0, 0, 0, l.file, l.group);
    } else {
      HashIs(1, 0, 0, 0, 0, 0, l.file, l.group);
    }
  }

  lemma NotInSix(k: nat)
    requires k < 6
    ensures !Held(Six(k), Sixth(k).file, Sixth(k).group)
  {
    hide LockHash, Xor;
  }

  lemma SetInSix(k: nat)
    requires k < 6
    ensures !MustWait(Six(k), Sixth(k).file, Sixth(k).group, true)
    ensures forall slot | FirstFree(Six(k), HomeOfSixth(k), slot) ::
              AfterGet(Six(k), slot, Sixth(k).file, Sixth(k).group, true) == Six(k + 1)
  {
    hide Xor, LockHash, FirstFree, Held;
    HashOfSixth(k);
    NotInSix(k);
    if k < 5 {
      TakesHome(Six(k), Sixth(k).file, Sixth(k).group);
    } else {
      LastOfSix(Six(5));
      OnlyFree(Six(5), 5, 4);
    }
  }

  lemma LastOfSix(cells: seq<Cell>)
    requires cells == Six(5)
    ensures Before(cells, 5).hash == 0 && cells[3].hash == 0 && forall k | 0 <= k < 6 && k != 3 :: cells[k].hash != 0
  {
  }

  lemma OnlyFree(cells: seq<Cell>, h: nat, free: nat)
    requires 1 <= h <= |cells| && forall k | 0 <= k < |cells| && k != free - 1 :: cells[k].hash != 0
    ensures forall slot | FirstFree(cells, h, slot) :: slot == free
  {
    hide UsedUpTo;
  }

  lemma FreedFromSix()
    ensures AfterFree(Six(6), 3) == Six(7) && AfterFree(Six(7), 1) == Six(8) && AfterFree(Six(8), 5) == Six(9)
  {
  }

  lemma RefusedInSix(l: Grant, write: bool)
    requires l == Sixth(0)
    ensures !Held(Six(9), l.file, l.group) && LockState(Six(9), l.file, l.group) == 0
    ensures MustWait(Six(9), l.file, l.group, write)
    ensures Six(9)[0].hash == Six(9)[2].hash == Six(9)[4].hash == 0
  {
    hide Xor, LockHash;
    HashOfSixth(0);
    LastHeader(Six(9));
  }

  lemma LastHeader(cells: seq<Cell>)
    requires cells == Six(9)
    ensures Before(cells, 5).hash == 5
  {
  }

  /** The locks that are given back. */
  lemma InSix()
    ensures var c := Six(6)[2]; c.hash != 0 && Grant(c.file, c.group, true) == Sixth(4)
    ensures var c := Six(7)[0]; c.hash != 0 && Grant(c.file, c.group, true) == Sixth(1)
    ensures var c := Six(8)[4]; c.hash != 0 && Grant(c.file, c.group, true) == Sixth(0)
    ensures Sixth(0) != Sixth(1) && Sixth(0) != Sixth(4) && Sixth(1) != Sixth(4)
  {
  }

  /** Two processes split a file each, and have six locks in a table made for them: the last of these is
      in the last cell of its scan. */
  method SixLocks() returns (t: LockTable)
    ensures fresh(t) && fresh(t.cells) && t.Valid() && t.size == 6 && t.cells[..] == Six(6)
    ensures forall m | 0 <= m < 6 :: Sixth(m) in t.grants
  {
    hide CountHash, GrantsOk, LockHash, CellsOk, OnlyChanges, MustWait, FirstFree, AfterGet, LockState, Held, Sixth, Six;
    t := new LockTable(6);
    NoneOfSix();
    assert t.cells[..] == Six(0);
    var k := 0;
    while k < 6
      invariant k <= 6 && fresh(t) && fresh(t.cells) && t.Valid() && t.size == 6 && t.cells[..] == Six(k)
      invariant forall m | 0 <= m < k :: Sixth(m) in t.grants
    {
      NotInSix(k);
      HashOfSixth(k);
      SetInSix(k);
      WriteLock(k);
      var slot := t.GetLock(Sixth(k).file, Sixth(k).group, true);
      k := k + 1;
    }
  }

  /** When the first process has given back its three, a lock of the same hash that nobody holds is
      refused, though three cells are free, until the second has given its header lock back. */
  method RefusedThoughFree(write: bool) returns (t: LockTable, l: Grant, slot: nat)
    ensures t.Valid() && t.size == 6 && t.StateOf(l.file, l.group) == 0
    ensures t.cells[0].hash == t.cells[2].hash == t.cells[4].hash == 0
    ensures slot == 0
  {
    hide CountHash, GrantsOk, LockHash, CellsOk, OnlyChanges, MustWait, AfterFree, LockState, Held, Sixth, Six;
    t := SixLocks();
    FreedFromSix();
    InSix();
    assert t.cells[2] == t.cells[..][2];
    t.FreeLock(3, true);
    assert t.cells[0] == t.cells[..][0];
    t.FreeLock(1, true);
    assert t.cells[4] == t.cells[..][4];
    t.FreeLock(5, true);
    l := Sixth(0);
    RefusedInSix(l, write);
    assert t.cells[0] == t.cells[..][0] && t.cells[2] == t.cells[..][2];
    slot := t.GetLock(l.file, l.group, write);
  }

  lemma NoneOfSix()
    ensures forall k | 0 <= k < 6 :: Six(0)[k] == Cell(0, 0, 0, 0, 0)
  {
  }

  lemma WriteLock(k: nat)
    ensures Sixth(k) == Grant(Sixth(k).file, Sixth(k).group, true)
  {
  }
}
