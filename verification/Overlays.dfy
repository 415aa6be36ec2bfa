/** The steps as the code takes them, with some blocks changed only in memory, agree with
    the same steps on a disk to which those buffers have been written. */
module Overlays {
  import opened Blocks
  import opened Disks
  import opened Groups

  /** A second buffer in memory, the group it is part of, and the place it will be written
      to, if there is one. */
  datatype Side = NoSide | Side(g: nat, loc: Loc, block: Block)

  predicate Writable(d: Disk, loc: Loc) {
    Within(d, loc) || loc == Prim(|d.primary| + 1)
  }

  /** The disk as it would be with the second buffer written. */
  function Laid(d: Disk, side: Side): Disk
    requires side.Side? ==> Writable(d, side.loc)
  {
    match side
    case NoSide => d
    case Side(_, loc, block) => Put(d, loc, block)
  }

  lemma PutTwice(d: Disk, loc: Loc, a: Block, b: Block)
    requires Writable(d, loc)
    ensures Writable(Put(d, loc, a), loc) && Put(Put(d, loc, a), loc, b) == Put(d, loc, b)
  {
  }

  lemma PutCommutes(d: Disk, x: Loc, a: Block, y: Loc, b: Block)
    requires Within(d, x) && Writable(d, y) && x != y
    ensures Within(Put(d, y, b), x) && Writable(Put(d, x, a), y)
    ensures Put(Put(d, x, a), y, b) == Put(Put(d, y, b), x, a)
  {
  }

  lemma AllocCommutes(d: Disk, x: Loc, a: Block)
    requires d.freeChain <= |d.overflow| && Writable(d, x) && (x.Over? ==> x.n != d.freeChain)
    ensures Writable(Alloc(d).0, x)
    ensures Put(d, x, a).freeChain <= |Put(d, x, a).overflow|
    ensures Alloc(Put(d, x, a)) == (Put(Alloc(d).0, x, a), Alloc(d).1)
  {
    if x.Over? && d.freeChain == 0 {
      assert (d.overflow + [FreeBlock(0)])[x.n - 1 := a] == d.overflow[x.n - 1 := a] + [FreeBlock(0)];
    }
  }

  lemma FreeCommutes(d: Disk, x: Loc, a: Block, b: nat)
    requires 1 <= b <= |d.overflow| && Writable(d, x) && x != Over(b)
    ensures Writable(Free(d, b), x) && b <= |Put(d, x, a).overflow|
    ensures Free(Put(d, x, a), b) == Put(Free(d, b), x, a)
  {
  }

  /** What the code does when the buffer is full: chain on a block, write the buffer. */
  function Spill(d: Disk, loc: Loc, b: Block): (r: (Disk, nat))
    requires d.freeChain <= |d.overflow| && Writable(d, loc) && b.DataBlock?
  {
    var (d1, n) := Alloc(d);
    (Put(d1, loc, Relink(b, n)), n)
  }

  lemma SpillCommutes(d: Disk, s: Loc, sb: Block, loc: Loc, b: Block)
    requires Writable(d, s) && s != loc && (s.Over? ==> s.n != d.freeChain)
    requires Writable(d, loc) && (loc.Over? ==> loc.n != d.freeChain)
    requires Within(d, loc) || Within(d, s)
    requires d.freeChain <= |d.overflow| && b.DataBlock?
    ensures var v := Put(d, s, sb);
            && Writable(v, loc) && v.freeChain <= |v.overflow|
            && Writable(Spill(d, loc, b).0, s)
            && Spill(v, loc, b) == (Put(Spill(d, loc, b).0, s, sb), Spill(d, loc, b).1)
  {
    var (d1, n) := Alloc(d);
    AllocCommutes(d, s, sb);
    if Within(d, loc) {
      PutCommutes(d1, loc, Relink(b, n), s, sb);
    } else {
      PutCommutes(d1, s, sb, loc, Relink(b, n));
    }
  }

  /** Appending to the buffer, with at most one write of it to disk, is appending. */
  lemma AppendLaid(d: Disk, loc: Loc, b: Block, rec: Record, groupSize: nat)
    requires Writable(d, loc) && (loc.Over? ==> loc.n != d.freeChain)
    requires d.freeChain <= |d.overflow| && b.DataBlock? && b.used <= groupSize
    ensures var v := Put(d, loc, b);
            && Within(v, loc) && Get(v, loc) == b && v.freeChain <= |v.overflow|
            && (Size(rec) <= groupSize - b.used ==>
                  Append(v, loc, rec, groupSize)
                  == (Put(d, loc, DataBlock(b.next, b.used + Size(rec), b.recs + [rec])), loc))
            && (Size(rec) > groupSize - b.used ==>
                  var (d2, n) := Spill(d, loc, b);
                  && Writable(d2, Over(n))
                  && Append(v, loc, rec, groupSize)
                     == (Put(d2, Over(n), DataBlock(0, BLOCK_HEADER_SIZE + Size(rec), [rec])), Over(n)))
  {
    PutTwice(d, loc, b, DataBlock(b.next, b.used + Size(rec), b.recs + [rec]));
    AllocCommutes(d, loc, b);
    PutTwice(Alloc(d).0, loc, b, Relink(b, Alloc(d).1));
  }
}
