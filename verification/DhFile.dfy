/** A dynamic-hash file: the operations of the file engine, on blocks read into memory,
    changed, and written back. Every operation is proved to do to the map the file stands
    for what its name says, and to keep every chain sound. */
module DhFiles {
  import opened Addressing
  import opened Blocks
  import opened Layout
  import opened Disks
  import opened Groups
  import opened Tables
  import opened Images
  import opened Overlays
  import opened BigRecs
  import opened Chunks
  import opened Steps
  import opened Updates
  import opened Splits
  import opened Resize
  import opened Creation
  import opened Enumerations
  import opened Sequences

  class DhFile {
    const groupSize: nat
    const naming: Naming
    const readOnly: bool

    /** The two subfiles and the head of the free chain. */
    var primary: seq<Block>
    var overflow: seq<Block>
    var freeChain: nat

    /** The file parameters. */
    var modulus: nat
    var modValue: nat
    var minModulus: nat
    var bigRecSize: int
    var splitLoad: nat
    var mergeLoad: nat
    var loadBytes: int
    var noResize: bool

    /** The record count, or a negative value while it is not known. */
    var recordCount: int

    /** How many selects and resizes are holding off a resize. */
    var inhibitCount: int

    /** How many writes and deletes there have been. */
    var updCt: nat

    /** The select under way: the next group to list, or 0; the update count when it began;
        and the records and bytes it has passed. */
    var selGroup: nat
    var selUpd: nat
    var selRec: nat
    var selBytes: nat

    /** Which chain each overflow block is on. */
    ghost var lay: Map

    /** What the file stands for. */
    ghost var mean: Meaning

    ghost function Dsk(): Disk
      reads `primary, `overflow, `freeChain
    {
      Disk(primary, overflow, freeChain)
    }

    function Par(): Params
      reads `modulus, `modValue
    {
      Params(modulus, modValue)
    }

    /** The records of the file, group by group. */
    ghost function Groups(): seq<seq<Record>>
      reads `primary, `overflow, `freeChain, `lay, `modulus
    {
      AllGroups(Dsk(), lay, modulus)
    }

    /** The file as a map from keys to data. */
    ghost function Contents(): map<Id, Data>
      reads `mean
    {
      mean.m
    }

    ghost predicate Stands(temps: set<Root>)
      reads `primary, `overflow, `freeChain, `lay, `mean, `modulus, `modValue
    {
      Standing(Dsk(), lay, groupSize, naming, Par(), mean, temps)
    }

    function Bounds(): Limits
      reads `minModulus, `splitLoad, `mergeLoad
    {
      Limits(groupSize, minModulus, splitLoad, mergeLoad)
    }

    ghost predicate Configured()
      reads `minModulus, `bigRecSize
    {
      groupSize >= 1024 && groupSize % 4 == 0 && minModulus >= 1 && bigRecSize <= groupSize - BLOCK_HEADER_SIZE
    }

    /** The disk stands for the map, every chain is sound, and the totals are exact. */
    ghost predicate Valid()
      reads this
    {
      && Configured()
      && Stands({})
      && loadBytes == mean.bytes
      && (recordCount >= 0 ==> recordCount == mean.count)
    }

    /** Every block of every group has room for the bytes that its records must store. */
    lemma BlocksHold(g: nat, i: nat)
      requires Valid() && 1 <= g <= modulus
      ensures Group(g) in lay.paths
      ensures i <= |lay.paths[Group(g)]| ==>
                var b := GroupBlocks(Dsk(), lay.paths[Group(g)], g)[i];
                b.DataBlock? && 8 + ContentBytes(b.recs) <= b.used <= groupSize
    {
      hide Partition, IsPow2, TableOk, LargeTied, TotalBytes, TotalCount, Bytes, Packed;
      GroupsStand(Dsk(), lay, groupSize, naming, Par(), mean, {});
      var path := lay.paths[Group(g)];
      assert RootOk(Dsk(), lay, Group(g), groupSize);
      if i <= |path| {
        assert Packed(GroupBlocks(Dsk(), path, g)[i], groupSize);
        PackedHolds(GroupBlocks(Dsk(), path, g)[i], groupSize);
      }
    }

    /** A large record's chain has as many blocks as its data needs, of groupSize - 12 bytes each. */
    lemma LargeTakes(k: Id)
      requires Valid() && k in mean.large
      ensures BigOf(k) in lay.paths
      ensures var n, blocks := |mean.large[k].1|, |lay.paths[BigOf(k)]|;
              blocks >= 1 && (blocks - 1) * (groupSize - 12) < n <= blocks * (groupSize - 12)
    {
      hide Standing;
      LargeStands(Dsk(), lay, groupSize, naming, Par(), mean, {}, k);
    }

    /** The load counts the bytes that must be stored, and less than four more for each record. */
    lemma LoadHolds()
      requires Valid()
      ensures TotalContent(Groups()) <= loadBytes <= TotalContent(Groups()) + 3 * |Contents()|
    {
      hide Image, TotalBytes, TotalCount, TotalContent, AllGroups;
      LoadIsContent(Groups());
    }

    /** The group an id is hashed to. */
    method HashGroup(id: Id) returns (group: nat)
      requires Par().Valid()
      ensures group == AddressOf(naming, Par(), Key(naming, id)) == GroupOf(naming.hash(Key(naming, id)), Par())
      ensures 1 <= group <= modulus
    {
      AddressInRange(naming.hash(Key(naming, id)), Par());
      group := GroupOf(naming.hash(Key(naming, id)), Par());
    }

    // ----------------------------------------------------------------------
    // Creating and clearing

    /** Create an empty file. A negative setting asks for its default. */
    constructor (groupSize: int, minModulus: int, bigRecSize: int, mergeLoad: int, splitLoad: int, naming: Naming)
      requires Check(groupSize, minModulus, bigRecSize, mergeLoad, splitLoad).Accepted?
      ensures Valid() && Contents() == map[] && recordCount == 0
      ensures modulus == this.minModulus && inhibitCount == 0 && updCt == 0 && selGroup == 0 && !noResize
      ensures this.naming == naming
      ensures var s := Check(groupSize, minModulus, bigRecSize, mergeLoad, splitLoad).settings;
              && this.groupSize == s.groupSize && this.minModulus == s.minModulus && this.bigRecSize == s.bigRecSize
              && this.mergeLoad == s.mergeLoad && this.splitLoad == s.splitLoad
    {
      hide Standing, IsPow2, Check, DhFile.Stands, Params.Valid;
      AcceptedIsUsable(groupSize, minModulus, bigRecSize, mergeLoad, splitLoad);
      var s := Check(groupSize, minModulus, bigRecSize, mergeLoad, splitLoad).settings;
      this.groupSize, this.naming, readOnly := s.groupSize, naming, false;
      modulus, this.minModulus, this.bigRecSize := s.minModulus, s.minModulus, s.bigRecSize;
      this.splitLoad, this.mergeLoad, loadBytes, freeChain := s.splitLoad, s.mergeLoad, 0, 0;
      recordCount, inhibitCount, updCt, noResize, selGroup := 0, 0, 0, false, 0;
      var m := InitialModValue(s.minModulus);
      modValue := m;
      primary, overflow := [], [];
      new;
      StartEmpty();
    }

    /** Write groups 1 to the modulus, all empty, and cut the subfile off after them. */
    method WriteEmptyGroups()
      modifies `primary
      ensures |primary| == modulus && forall i | 0 <= i < |primary| :: primary[i] == EmptyBlock
    {
      var group := 1;
      while group <= modulus
        invariant 1 <= group <= modulus + 1 && |primary| >= group - 1
        invariant forall i | 0 <= i < group - 1 :: primary[i] == EmptyBlock
      {
        if group == |primary| + 1 {
          primary := primary + [EmptyBlock];
        } else {
          primary := primary[group - 1 := EmptyBlock];
        }
        group := group + 1;
      }
      primary := primary[..modulus];
    }

    /** The file as it is when all its groups are empty and it has no overflow blocks. */
    method StartEmpty()
      requires Par().Valid() && groupSize >= BLOCK_HEADER_SIZE && freeChain == 0
      modifies `primary, `overflow, `lay, `mean
      ensures Stands({}) && mean == Meaning(map[], map[], 0, 0) && |primary| == modulus && overflow == []
    {
      hide Standing, IsPow2;
      WriteEmptyGroups();
      overflow := [];
      EmptyStands(primary, groupSize, naming, Par());
      Adopt(EmptyLayout(modulus), Meaning(map[], map[], 0, 0), {});
    }

    /** Empty the file, ending any select on it. */
    method Clear()
      requires Valid() && (selGroup != 0 ==> inhibitCount > 0)
      modifies `primary, `overflow, `freeChain, `lay, `mean, `loadBytes, `recordCount, `modulus, `modValue,
               `inhibitCount, `selGroup
      ensures Valid() && Contents() == map[] && recordCount == 0
      ensures modulus == minModulus && |primary| == minModulus && overflow == [] && selGroup == 0
      ensures inhibitCount == old(inhibitCount) - (if old(selGroup) != 0 then 1 else 0)
    {
      hide Standing, IsPow2;
      if inhibitCount > 0 {
        if selGroup != 0 {
          inhibitCount, selGroup := inhibitCount - 1, 0;
        }
      }
      modulus, loadBytes, freeChain, recordCount := minModulus, 0, 0, 0;
      modValue := InitialModValue(minModulus);
      StartEmpty();
    }

    // ----------------------------------------------------------------------
    // Blocks

    method WriteBlock(loc: Loc, b: Block)
      requires Writable(Dsk(), loc)
      modifies `primary, `overflow
      ensures Dsk() == Put(old(Dsk()), loc, b)
    {
      match loc
      case Prim(g) =>
        if g == |primary| + 1 {
          primary := primary + [b];
        } else {
          primary := primary[g - 1 := b];
        }
      case Over(n) =>
        overflow := overflow[n - 1 := b];
    }

    method ReadBlock(loc: Loc) returns (b: Block)
      requires Within(Dsk(), loc)
      ensures b == Get(Dsk(), loc)
    {
      b := if loc.Prim? then primary[loc.n - 1] else overflow[loc.n - 1];
    }

    /** Take the head of the free chain, or extend the overflow subfile. */
    method GetOverflow() returns (b: nat)
      requires freeChain <= |overflow|
      modifies `overflow, `freeChain
      ensures (Dsk(), b) == Alloc(old(Dsk()))
    {
      b := freeChain;
      if b != 0 {
        freeChain := overflow[b - 1].next;
      } else {
        overflow := overflow + [FreeBlock(0)];
        b := |overflow|;
      }
    }

    method FreeOverflow(b: nat)
      requires 1 <= b <= |overflow|
      modifies `overflow, `freeChain
      ensures Dsk() == Free(old(Dsk()), b)
    {
      overflow := overflow[b - 1 := FreeBlock(freeChain)];
      freeChain := b;
    }

    // ----------------------------------------------------------------------
    // One group's chain

    /** Look for an id among the records of one block. */
    method SearchBlock(buff: Block, id: Id) returns (found: bool, k: nat)
      requires Packed(buff, groupSize)
      ensures found ==> k < |buff.recs| && Matches(naming, id, buff.recs[k].id)
      ensures !found ==> forall r | r in buff.recs :: !Matches(naming, id, r.id)
    {
      found, k := false, 0;
      var recOffset := BLOCK_HEADER_SIZE;
      while recOffset < buff.used
        invariant k <= |buff.recs| && recOffset == BLOCK_HEADER_SIZE + Bytes(buff.recs[..k])
        invariant forall r | r in buff.recs[..k] :: !Matches(naming, id, r.id)
        decreases buff.used - recOffset
      {
        AtEnd(buff.recs, k);
        var rec := buff.recs[k];
        if Matches(naming, id, rec.id) {
          found := true;
          return;
        }
        BytesAppend(buff.recs[..k], rec);
        assert buff.recs[..k + 1] == buff.recs[..k] + [rec];
        recOffset, k := recOffset + Size(rec), k + 1;
      }
      AtEnd(buff.recs, k);
      assert buff.recs[..k] == buff.recs;
    }

    /** Follow a group's chain until the id is found or the chain ends; `i` counts the blocks
        passed, and `prev` is the one before, numbered 0 when there is none. The byte count of
        every block read is in range. */
    method FindRecord(id: Id, group: nat) returns (found: bool, loc: Loc, prev: Loc, k: nat, buff: Block, ghost i: nat)
      requires Sound(Dsk(), lay, groupSize, {}) && Group(group) in lay.paths
      ensures 1 <= group <= |primary|
      ensures var path := lay.paths[Group(group)];
              && i <= |path| && loc == LocAt(path, group, i) && buff == GroupBlocks(Dsk(), path, group)[i]
              && (if i == 0 then prev.n == 0 else prev == LocAt(path, group, i - 1) && prev.n != 0)
              && (found ==> buff.DataBlock? && k < |buff.recs| && Matches(naming, id, buff.recs[k].id))
              && (!found ==> i == |path| && forall r | r in RecsAt(Dsk(), lay, group) :: !Matches(naming, id, r.id))
    {
      hide Partition, Matches, Bytes, PathOwned, RootOk, Sound;
      ghost var path := lay.paths[Group(group)];
      ghost var bs := GroupBlocks(Dsk(), path, group);
      GroupExists(Dsk(), lay, groupSize, {}, group);
      loc, prev, i := Prim(group), Prim(0), 0;
      while true
        invariant i <= |path| && loc == LocAt(path, group, i)
        invariant if i == 0 then prev.n == 0 else prev == LocAt(path, group, i - 1) && prev.n != 0
        invariant forall r | r in RecsOf(bs[..i]) :: !Matches(naming, id, r.id)
        decreases |path| - i
      {
        LocWithin(Dsk(), lay, groupSize, {}, group, i);
        buff := ReadBlock(loc);
        assert Packed(buff, groupSize);
        assert 0 < buff.used <= groupSize;
        found, k := SearchBlock(buff, id);
        if found {
          return;
        }
        PrefixRecs(bs, i);
        if buff.next == 0 {
          NextOfGroup(Dsk(), lay, groupSize, group, i);
          assert bs[..i + 1] == bs;
          return;
        }
        NextOfGroup(Dsk(), lay, groupSize, group, i);
        prev, loc, i := loc, Over(buff.next), i + 1;
      }
    }

    /** Add a record to the buffer. When the buffer is full it is written, linked to an
        overflow block that takes its place. */
    method AppendStep(loc: Loc, buff: Block, rec: Record) returns (loc': Loc, buff': Block)
      requires freeChain <= |overflow| && Writable(Dsk(), loc) && buff.DataBlock? && buff.used <= groupSize
      modifies `primary, `overflow, `freeChain
      ensures (Dsk(), loc', buff') == AppendReal(old(Dsk()), loc, buff, rec, groupSize)
    {
      if Size(rec) > groupSize - buff.used {
        var n := GetOverflow();
        WriteBlock(loc, Relink(buff, n));
        loc', buff' := Over(n), DataBlock(0, BLOCK_HEADER_SIZE + Size(rec), [rec]);
      } else {
        loc', buff' := loc, DataBlock(buff.next, buff.used + Size(rec), buff.recs + [rec]);
      }
    }

    /** Add a record after the last one of a chain whose last block is in `buff`. */
    method AppendRecord(loc: Loc, buff: Block, rec: Record, ghost side: Side, ghost g: nat, ghost open: set<Root>)
      returns (loc': Loc, buff': Block)
      requires SideGood(Dsk(), lay, side, loc, g)
      requires var v := Put(Laid(Dsk(), side), loc, buff);
               && Sound(v, lay, groupSize, open) && Group(g) in open && Group(g) in lay.paths
               && Opened(v, lay, g, groupSize, |lay.paths[Group(g)]|)
               && loc == LocAt(lay.paths[Group(g)], g, |lay.paths[Group(g)]|)
      requires Size(rec) <= groupSize - BLOCK_HEADER_SIZE
      modifies `primary, `overflow, `freeChain, `lay
      ensures SideGood(Dsk(), lay, side, loc', g)
      ensures Appended(old(Put(Laid(Dsk(), side), loc, buff)), old(lay), Put(Laid(Dsk(), side), loc', buff'), lay,
                       g, groupSize, open, rec)
      ensures loc' == LocAt(lay.paths[Group(g)], g, |lay.paths[Group(g)]|)
      ensures buff.DataBlock?
      ensures |lay.paths[Group(g)]| == |old(lay).paths[Group(g)]| + if Size(rec) > groupSize - buff.used then 1 else 0
      ensures |primary| == old(|primary|) || |primary| == old(|primary|) + 1 == loc.n
      ensures Within(Dsk(), loc') || (loc' == loc && !old(Within(Dsk(), loc)))
    {
      hide RootOk, Partition, Sound, RecsOf, Bytes, AppendReal, GroupBlocks;
      ghost var d, v := Dsk(), Put(Laid(Dsk(), side), loc, buff);
      ghost var l' := AppendSound(v, lay, groupSize, open, g, rec, loc);
      AppendNeeds(d, lay, groupSize, open, g, loc, buff, side);
      AppendRealLaid(d, side, loc, buff, rec, groupSize);
      loc', buff' := AppendStep(loc, buff, rec);
      lay := l';
      assert side.Side? && side.loc.Over? ==> SameRoot(v, old(lay), Put(Laid(Dsk(), side), loc', buff'), lay, Group(side.g));
    }

    /** Move records from the front of one buffer to the end of another while they fit. */
    method MoveFitting(buff: Block, obuff: Block) returns (buff': Block, obuff': Block, ghost k: nat)
      requires Packed(buff, groupSize) && Packed(obuff, groupSize)
      ensures k <= |obuff.recs| && Moved(buff, obuff, k, buff', obuff')
      ensures buff'.used <= groupSize
      ensures k < |obuff.recs| ==> buff'.used + Size(obuff.recs[k]) > groupSize
    {
      hide Size;
      var moved := 0;
      buff' := buff;
      var space := groupSize - buff'.used;
      var orecOffset := BLOCK_HEADER_SIZE;
      while orecOffset < obuff.used
        invariant moved <= |obuff.recs| && orecOffset == BLOCK_HEADER_SIZE + Bytes(obuff.recs[..moved])
        invariant buff'.DataBlock? && space == groupSize - buff'.used >= 0
        invariant buff' == DataBlock(buff.next, buff.used + Bytes(obuff.recs[..moved]), buff.recs + obuff.recs[..moved])
        decreases |obuff.recs| - moved
      {
        AtEnd(obuff.recs, moved);
        var rec := obuff.recs[moved];
        if Size(rec) > space {
          break;
        }
        BytesAppend(obuff.recs[..moved], rec);
        assert obuff.recs[..moved + 1] == obuff.recs[..moved] + [rec];
        buff' := DataBlock(buff'.next, buff'.used + Size(rec), buff'.recs + [rec]);
        space, orecOffset, moved := space - Size(rec), orecOffset + Size(rec), moved + 1;
      }
      AtEnd(obuff.recs, moved);
      obuff' := DataBlock(obuff.next, obuff.used - (orecOffset - BLOCK_HEADER_SIZE), obuff.recs[moved..]);
      k := moved;
    }

    /** Fill the buffer from the block after it. An emptied block is dechained and freed;
        otherwise the buffer is written and the next block takes its place. */
    method CompactStep(loc: Loc, buff: Block, ghost g: nat, ghost i: nat)
      returns (loc': Loc, buff': Block, ghost i': nat)
      requires Within(Dsk(), loc) && Filling(Dsk(), lay, groupSize, g, i, loc, buff) && buff.next != 0
      modifies `primary, `overflow, `freeChain, `lay
      ensures Compacted(old(Dsk()), old(lay), Dsk(), lay, groupSize, g, i, loc, buff, i', loc', buff')
      ensures |lay.paths[Group(g)]| - i' < old(|lay.paths[Group(g)]|) - i
    {
      hide ClosedUp, Sound, Partition;
      NextReadable(Dsk(), lay, groupSize, g, i, loc, buff);
      var ogrp := buff.next;
      var obuff := ReadBlock(Over(ogrp));
      var b, o, k := MoveFitting(buff, obuff);
      CompactEither(Dsk(), lay, groupSize, g, i, loc, buff, obuff, k, b, o);
      if o.used == BLOCK_HEADER_SIZE {
        FreeOverflow(ogrp);
        lay := Release(lay, Group(g), i);
        loc', buff', i' := loc, Relink(b, o.next), i;
      } else {
        WriteBlock(loc, b);
        loc', buff', i' := Over(ogrp), o, i + 1;
      }
    }

    /** Close up a chain from the block in `buff` on: fill each block from the next, free the
        blocks this empties, and stop at the end of the chain. */
    method CompactForward(loc: Loc, buff: Block, ghost g: nat, ghost i: nat)
      returns (loc': Loc, buff': Block, ghost i': nat)
      requires Within(Dsk(), loc) && Filling(Dsk(), lay, groupSize, g, i, loc, buff)
      modifies `primary, `overflow, `freeChain, `lay
      ensures Compacted(old(Dsk()), old(lay), Dsk(), lay, groupSize, g, i, loc, buff, i', loc', buff')
      ensures i' == |lay.paths[Group(g)]|
    {
      ghost var d0, l0 := Dsk(), lay;
      loc', buff', i' := loc, buff, i;
      CompactedStart(d0, l0, groupSize, g, i, loc, buff);
      while buff'.next != 0
        invariant Compacted(d0, l0, Dsk(), lay, groupSize, g, i, loc, buff, i', loc', buff')
        decreases |lay.paths[Group(g)]| - i'
      {
        ghost var d1, l1, i1, loc1, buff1 := Dsk(), lay, i', loc', buff';
        FillingNext(d1, l1, groupSize, g, i', loc', buff');
        loc', buff', i' := CompactStep(loc', buff', g, i');
        CompactedTrans(d0, l0, d1, l1, Dsk(), lay, groupSize, g, i, loc, buff, i1, loc1, buff1, i', loc', buff');
      }
      FillingNext(Dsk(), lay, groupSize, g, i', loc', buff');
    }

    /** Write a record to its group: over an old version of the same size, else at the end of
        the chain, after any old version has been removed and the chain closed up. */
    method PutRecord(id: Id, body: Body, group: nat)
      returns (found: bool, oldSize: nat, oldBody: Body, ghost at: nat)
      requires Sound(Dsk(), lay, groupSize, {}) && Group(group) in lay.paths
      requires Size(Record(id, body)) <= groupSize - BLOCK_HEADER_SIZE
      modifies `primary, `overflow, `freeChain, `lay
      ensures Stored(old(Dsk()), old(lay), Dsk(), lay, groupSize, naming, group, found, at, oldSize, oldBody, Record(id, body))
    {
      hide RootOk, Partition, GroupShape;
      ghost var d0, l0 := Dsk(), lay;
      var rec := Record(id, body);
      oldSize, oldBody := 0, Inline([]);
      var loc, prev, k, buff;
      ghost var i;
      found, loc, prev, k, buff, i := FindRecord(id, group);
      at := PlaceOf(d0, l0, group, i, k);
      if found {
        var oldRec := buff.recs[k];
        oldSize, oldBody := Size(oldRec), oldRec.body;
        RecordAtPlace(d0, l0, groupSize, group, i, k);
        if oldSize == Size(rec) {
          ReplaceStep(d0, l0, groupSize, group, i, k, loc, buff, Record(oldRec.id, body));
          WriteBlock(loc, DataBlock(buff.next, buff.used, buff.recs[k := Record(oldRec.id, body)]));
          return;
        }
        loc, buff := TakeOut(loc, buff, k, group, i);
      } else {
        ReadyUnchanged(d0, l0, groupSize, group, loc, buff);
      }
      AddAtEnd(loc, buff, rec, group, d0, l0, if found then RemoveAt(RecsAt(d0, l0, group), at) else RecsAt(d0, l0, group));
    }

    /** Take a record out of the block in the buffer and close up the chain from there. */
    method TakeOut(loc: Loc, buff: Block, k: nat, ghost g: nat, ghost i: nat) returns (loc': Loc, buff': Block)
      requires Sound(Dsk(), lay, groupSize, {}) && Group(g) in lay.paths && i <= |lay.paths[Group(g)]|
      requires loc == LocAt(lay.paths[Group(g)], g, i) && buff == GroupBlocks(Dsk(), lay.paths[Group(g)], g)[i]
      requires buff.DataBlock? && k < |buff.recs| && PlaceOf(Dsk(), lay, g, i, k) < |RecsAt(Dsk(), lay, g)|
      modifies `primary, `overflow, `freeChain, `lay
      ensures Ready(old(Dsk()), old(lay), Dsk(), lay, groupSize, g, loc', buff',
                    old(RemoveAt(RecsAt(Dsk(), lay, g), PlaceOf(Dsk(), lay, g, i, k))))
      ensures i == 0 || |buff.recs| > 1 ==> |lay.paths[Group(g)]| == 0 || buff'.recs != []
      ensures Tight(GroupBlocks(Put(Dsk(), loc', buff'), lay.paths[Group(g)], g), groupSize, i)
    {
      hide TightAt, Sound, RecsOf, Bytes, RootOk, Partition, RecsAt;
      ghost var d0, l0 := Dsk(), lay;
      ghost var recs := RemoveAt(RecsAt(d0, l0, g), PlaceOf(d0, l0, g, i, k));
      DeleteStep(d0, l0, groupSize, g, i, k, loc, buff);
      var b := DataBlock(buff.next, buff.used - Size(buff.recs[k]), RemoveAt(buff.recs, k));
      ghost var i';
      loc', buff', i' := CompactForward(loc, b, g, i);
      ReadyCompacted(d0, l0, Dsk(), lay, groupSize, g, i, loc, b, recs, i', loc', buff');
    }

    /** Append a record to the last block of a chain and write the last affected block. */
    method AddAtEnd(loc: Loc, buff: Block, rec: Record, ghost g: nat, ghost d0: Disk, ghost l0: Map,
                    ghost recs: seq<Record>)
      requires Ready(d0, l0, Dsk(), lay, groupSize, g, loc, buff, recs)
      requires Size(rec) <= groupSize - BLOCK_HEADER_SIZE
      modifies `primary, `overflow, `freeChain, `lay
      ensures Sound(Dsk(), lay, groupSize, {}) && Evolved(d0, l0, Dsk(), lay, g)
      ensures RecsAt(Dsk(), lay, g) == recs + [rec]
    {
      ghost var v, l := Put(Dsk(), loc, buff), lay;
      var loc', buff' := AppendRecord(loc, buff, rec, NoSide, g, {Group(g)});
      AppendFinal(d0, l0, v, l, Put(Dsk(), loc', buff'), lay, groupSize, g, rec);
      WriteBlock(loc', buff');
    }

    /** Remove a record from its group. An overflow block that this empties is unlinked and
        freed; otherwise the chain is closed up from the block on. */
    method RemoveRecord(id: Id, group: nat)
      returns (found: bool, oldSize: nat, oldBody: Body, ghost at: nat)
      requires Sound(Dsk(), lay, groupSize, {}) && Group(group) in lay.paths
      modifies `primary, `overflow, `freeChain, `lay
      ensures Erased(old(Dsk()), old(lay), Dsk(), lay, groupSize, naming, group, id, found, at, oldSize, oldBody)
      ensures Group(group) in lay.paths
      ensures found ==> TidiedUp(old(GroupBlocks(Dsk(), lay.paths[Group(group)], group)),
                                 GroupBlocks(Dsk(), lay.paths[Group(group)], group), groupSize, at)
    {
      hide Tight;
      oldSize, oldBody := 0, Inline([]);
      var loc, prev, k, buff;
      ghost var i;
      found, loc, prev, k, buff, i := FindRecord(id, group);
      at := PlaceOf(Dsk(), lay, group, i, k);
      ghost var bs0 := GroupBlocks(Dsk(), lay.paths[Group(group)], group);
      if found {
        oldSize, oldBody := Size(buff.recs[k]), buff.recs[k].body;
        RecordAtPlace(Dsk(), lay, groupSize, group, i, k);
        OnlyRecord(Dsk(), lay, groupSize, group, i, k, buff);
        if buff.used - oldSize == BLOCK_HEADER_SIZE && prev.n != 0 {
          UnlinkEmptied(loc, prev, buff, k, group, i);
        } else {
          RemoveAndClose(loc, buff, k, group, i);
        }
        assert TidiedFrom(bs0, GroupBlocks(Dsk(), lay.paths[Group(group)], group), groupSize, at, i);
      }
    }

    method UnlinkEmptied(loc: Loc, prev: Loc, buff: Block, ghost k: nat, ghost g: nat, ghost i: nat)
      requires Sound(Dsk(), lay, groupSize, {}) && Group(g) in lay.paths && 0 < i <= |lay.paths[Group(g)]|
      requires loc == LocAt(lay.paths[Group(g)], g, i) && prev == LocAt(lay.paths[Group(g)], g, i - 1)
      requires buff == GroupBlocks(Dsk(), lay.paths[Group(g)], g)[i] && buff.DataBlock? && k < |buff.recs|
      requires buff.used - Size(buff.recs[k]) == BLOCK_HEADER_SIZE
      modifies `primary, `overflow, `freeChain, `lay
      ensures Removed(old(Dsk()), old(lay), Dsk(), lay, groupSize, g, old(PlaceOf(Dsk(), lay, g, i, k)))
      ensures Group(g) in lay.paths && |lay.paths[Group(g)]| == |old(lay).paths[Group(g)]| - 1
    {
      DropStep(Dsk(), lay, groupSize, g, i, k, loc, prev, buff);
      var fwd := buff.next;
      FreeOverflow(loc.n);
      var b := ReadBlock(prev);
      WriteBlock(prev, Relink(b, fwd));
      lay := Release(lay, Group(g), i - 1);
    }

    method RemoveAndClose(loc: Loc, buff: Block, k: nat, ghost g: nat, ghost i: nat)
      requires Sound(Dsk(), lay, groupSize, {}) && Group(g) in lay.paths && i <= |lay.paths[Group(g)]|
      requires loc == LocAt(lay.paths[Group(g)], g, i) && buff == GroupBlocks(Dsk(), lay.paths[Group(g)], g)[i]
      requires buff.DataBlock? && k < |buff.recs| && PlaceOf(Dsk(), lay, g, i, k) < |RecsAt(Dsk(), lay, g)|
      requires i == 0 || buff.used - Size(buff.recs[k]) != BLOCK_HEADER_SIZE
      modifies `primary, `overflow, `freeChain, `lay
      ensures Removed(old(Dsk()), old(lay), Dsk(), lay, groupSize, g, old(PlaceOf(Dsk(), lay, g, i, k)))
      ensures Group(g) in lay.paths && Tight(GroupBlocks(Dsk(), lay.paths[Group(g)], g), groupSize, i)
    {
      hide Tight;
      ghost var d0, l0 := Dsk(), lay;
      OnlyRecord(d0, l0, groupSize, g, i, k, buff);
      var loc', buff' := TakeOut(loc, buff, k, g, i);
      ReadyFinal(d0, l0, Dsk(), lay, groupSize, g, loc', buff', RemoveAt(RecsAt(d0, l0, g), PlaceOf(d0, l0, g, i, k)));
      WriteBlock(loc', buff');
    }

    // ----------------------------------------------------------------------
    // Large records

    /** Write a full block of a large record, linked to an overflow block for what follows. */
    method LinkBigBlock(ogrp: nat, headerLen: nat, piece: Data,
                        ghost d0: Disk, ghost l0: Map, ghost head: nat, ghost total: nat, ghost done: Data)
      returns (next: nat)
      requires Writing(d0, l0, Dsk(), lay, groupSize, head, total, done, ogrp, headerLen)
      requires |piece| + BIG_BLOCK_SIZE == groupSize
      modifies `primary, `overflow, `freeChain, `lay
      ensures Writing(d0, l0, Dsk(), lay, groupSize, head, total, done + piece, next, 0)
    {
      lay := WritingMore(d0, l0, Dsk(), lay, groupSize, head, total, done, ogrp, headerLen, piece);
      next := GetOverflow();
      WriteBlock(Over(ogrp), BigBlock(next, headerLen, piece));
    }

    /** Write data, held in chunks, as a chain of overflow blocks of its own. */
    method WriteBigRec(chunks: seq<Data>) returns (head: nat)
      requires groupSize > BIG_BLOCK_SIZE && Flat(chunks) != []
      requires Sound(Dsk(), lay, groupSize, {}) && Incoming !in lay.paths
      modifies `primary, `overflow, `freeChain, `lay
      ensures Sound(Dsk(), lay, groupSize, {}) && LargeIs(Dsk(), lay, Incoming, head, Flat(chunks)) && head != 0
      ensures SameRoots(old(Dsk()), old(lay), Dsk(), lay, {FreeList, Incoming})
      ensures lay.paths.Keys == old(lay.paths.Keys) + {Incoming} && primary == old(primary)
    {
      hide Sound, Partition, Copied;
      ghost var d0, l0 := Dsk(), lay;
      ghost var total := |Flat(chunks)|;
      var dataLen := |Flat(chunks)|;
      lay := WritingStart(d0, l0, groupSize, total);
      head := GetOverflow();
      var ogrp: nat, headerLen: nat := head, dataLen;
      var c: nat, off: nat := 0, 0;
      ghost var done: Data := [];
      CopiedStart(chunks);
      while dataLen > groupSize - BIG_BLOCK_SIZE
        invariant 0 < dataLen && |done| + dataLen == total && Copied(chunks, c, off, done)
        invariant Writing(d0, l0, Dsk(), lay, groupSize, head, total, done, ogrp, headerLen)
      {
        var n := groupSize - BIG_BLOCK_SIZE;
        var piece;
        piece, c, off := CopyPiece(chunks, c, off, n, done);
        ogrp := LinkBigBlock(ogrp, headerLen, piece, d0, l0, head, total, done);
        dataLen, headerLen, done := dataLen - n, 0, done + piece;
      }
      var piece;
      piece, c, off := CopyPiece(chunks, c, off, dataLen, done);
      CopiedBound(chunks, c, off, done + piece);
      WritingDone(d0, l0, Dsk(), lay, groupSize, head, total, done, ogrp, headerLen, piece);
      WriteBlock(Over(ogrp), BigBlock(0, headerLen, piece));
    }

    /** Collect the bytes of a large record: from each block as many as can be left. */
    method ReadBigRec(head: nat, ghost k: Id) returns (data: Data)
      requires Sound(Dsk(), lay, groupSize, {}) && BigOf(k) in lay.paths && head == Nth(lay.paths[BigOf(k)], 0)
      ensures data == BigDataOf(BlocksOf(overflow, lay.paths[BigOf(k)]))
    {
      ghost var path := lay.paths[BigOf(k)];
      ghost var bs := BlocksOf(overflow, path);
      ghost var i := 0;
      assert RootOk(Dsk(), lay, BigOf(k), groupSize);
      BigLink(Dsk(), lay, groupSize, {}, BigOf(k), 0);
      data := [];
      var grp, dataLen := head, 0;
      while grp != 0
        invariant i <= |path| && grp == Nth(path, i) && (grp == 0 <==> i == |path|)
        invariant data == BigDataOf(bs[..i]) && (data == [] <==> i == 0)
        invariant i > 0 ==> dataLen == |BigDataOf(bs)| - |BigDataOf(bs[..i])|
        decreases |path| - i
      {
        BigLink(Dsk(), lay, groupSize, {}, BigOf(k), i);
        BigSuffix(bs, groupSize, i);
        var b := ReadBlock(Over(grp));
        if data == [] {
          dataLen := b.dataLen;
        }
        var n := if groupSize - BIG_BLOCK_SIZE < dataLen then groupSize - BIG_BLOCK_SIZE else dataLen;
        dataLen := dataLen - n;
        data := data + b.data[..n];
        grp, i := b.next, i + 1;
      }
      assert bs[..i] == bs;
    }

    /** Clear the blocks of a large record and put its chain at the head of the free chain. */
    method FreeBigRec(head: nat)
      requires Sound(Dsk(), lay, groupSize, {}) && Outgoing in lay.paths && head == Nth(lay.paths[Outgoing], 0)
      modifies `primary, `overflow, `freeChain, `lay
      ensures Sound(Dsk(), lay, groupSize, {})
      ensures SameRoots(old(Dsk()), old(lay), Dsk(), lay, {FreeList, Outgoing})
      ensures lay == ReleaseAll(old(lay), Outgoing) && lay.paths.Keys == old(lay.paths.Keys) - {Outgoing}
      ensures freeChain == head && primary == old(primary)
    {
      hide Sound, SameRoots;
      ghost var d0, l0 := Dsk(), lay;
      ghost var path := l0.paths[Outgoing];
      ghost var i := 0;
      ClearingStart(d0, l0, groupSize);
      var grp, next := head, head;
      while true
        invariant i < |path| && next == path[i] && lay == l0
        invariant Clearing(d0, Dsk(), path, i)
        decreases |path| - i
      {
        ClearingNext(d0, l0, Dsk(), groupSize, i);
        grp := next;
        var b := ReadBlock(Over(grp));
        next := b.next;
        if next == 0 {
          break;
        }
        WriteBlock(Over(grp), FreeBlock(next));
        i := i + 1;
      }
      ClearingNext(d0, l0, Dsk(), groupSize, i);
      WriteBlock(Over(grp), FreeBlock(freeChain));
      freeChain := head;
      ReleaseSound(d0, l0, Dsk(), groupSize);
      lay := ReleaseAll(lay, Outgoing);
    }

    // ----------------------------------------------------------------------
    // Writing

    /** From here on the disk is read as standing for this map. */
    ghost method Adopt(l: Map, m: Meaning, temps: set<Root>)
      requires Standing(Dsk(), l, groupSize, naming, Par(), m, temps)
      modifies `lay, `mean
      ensures Stands(temps) && lay == l && mean == m
    {
      lay, mean := l, m;
    }

    /** Choose how the record is held, and write a large record's data as a chain of its own. */
    method PrepareBody(id: Id, chunks: seq<Data>) returns (body: Body)
      requires Configured() && Stands({}) && |id| <= MAX_KEY_LEN
      requires Flat(chunks) != [] || RECORD_HEADER_SIZE + |id| < bigRecSize
      modifies `primary, `overflow, `freeChain, `lay
      ensures Stands(if body.Large? then {Incoming} else {})
      ensures if body.Large? then LargeIs(Dsk(), lay, Incoming, body.head, Flat(chunks)) else Flat(chunks) == body.data
      ensures Size(Record(id, body)) <= groupSize - BLOCK_HEADER_SIZE
      ensures body.Large? <==> RECORD_HEADER_SIZE + |id| + |Flat(chunks)| >= bigRecSize
    {
      hide TableOk, Sound, RecsAt, BigDataOf;
      SizeFits(groupSize, bigRecSize, id, Flat(chunks));
      if RECORD_HEADER_SIZE + |id| + |Flat(chunks)| >= bigRecSize {
        ghost var d, l := Dsk(), lay;
        var head := WriteBigRec(chunks);
        IncomingStands(d, l, Dsk(), lay, groupSize, naming, Par(), mean);
        body := Large(head);
      } else {
        body := Inline(Flat(chunks));
      }
    }

    /** Put a record in its group. The large-record chain of an old version is set aside. The update is
        counted as soon as the group is known and locked. */
    method Place(id: Id, body: Body, ghost data: Data) returns (found: bool, oldSize: nat, oldBody: Body)
      requires Stands(if body.Large? then {Incoming} else {})
      requires if body.Large? then LargeIs(Dsk(), lay, Incoming, body.head, data) else data == body.data
      requires Size(Record(id, body)) <= groupSize - BLOCK_HEADER_SIZE
      modifies `primary, `overflow, `freeChain, `lay, `mean, `updCt
      ensures Stands(if found && oldBody.Large? then {Outgoing} else {}) && Waiting(lay, found, oldBody)
              && updCt == old(updCt) + 1
      ensures Wrote(old(mean), mean, Key(naming, id), data, found, oldSize, Size(Record(id, body)))
    {
      hide IsPow2, Standing, Sound, Wrote, Waiting, LargeIs, AddressOf, Stored, Key, Size;
      updCt := updCt + 1;
      ghost var d0, l0 := Dsk(), lay;
      GroupsStand(d0, l0, groupSize, naming, Par(), mean, if body.Large? then {Incoming} else {});
      var group := HashGroup(id);
      ghost var at;
      found, oldSize, oldBody, at := PutRecord(id, body, group);
      ghost var l2, mean2 := StoreStands(d0, l0, Dsk(), lay, groupSize, naming, Par(), mean, group,
                                         found, at, oldSize, oldBody, Record(id, body), data);
      Adopt(l2, mean2, if found && oldBody.Large? then {Outgoing} else {});
    }

    /** Take a record out of its group. Its large-record chain is set aside. */
    method Displace(id: Id) returns (found: bool, oldSize: nat, oldBody: Body)
      requires Stands({})
      modifies `primary, `overflow, `freeChain, `lay, `mean, `updCt
      ensures Stands(if found && oldBody.Large? then {Outgoing} else {}) && Waiting(lay, found, oldBody)
              && updCt == old(updCt) + 1
      ensures Deleted(old(mean), mean, Key(naming, id), found, oldSize)
    {
      hide IsPow2, Standing, Sound, Deleted, Waiting, AddressOf, Erased, Key;
      updCt := updCt + 1;
      ghost var d0, l0 := Dsk(), lay;
      GroupsStand(d0, l0, groupSize, naming, Par(), mean, {});
      var group := HashGroup(id);
      ghost var at;
      found, oldSize, oldBody, at := RemoveRecord(id, group);
      ghost var l2, mean2 := EraseStands(d0, l0, Dsk(), lay, groupSize, naming, Par(), mean, group, id,
                                         found, at, oldSize, oldBody);
      Adopt(l2, mean2, if found && oldBody.Large? then {Outgoing} else {});
    }

    /** Release the chain of an old version, if it had one. */
    method ReleaseOld(found: bool, oldBody: Body)
      requires Stands(if found && oldBody.Large? then {Outgoing} else {}) && Waiting(lay, found, oldBody)
      modifies `primary, `overflow, `freeChain, `lay
      ensures Stands({})
    {
      if found && oldBody.Large? {
        ghost var d, l := Dsk(), lay;
        FreeBigRec(oldBody.head);
        ReleasedStands(d, l, Dsk(), lay, groupSize, naming, Par(), mean);
      }
    }

    /** Put a record in its group, and release the chain of its old version. */
    method Store(id: Id, body: Body, ghost data: Data) returns (found: bool, oldSize: nat)
      requires Stands(if body.Large? then {Incoming} else {})
      requires if body.Large? then LargeIs(Dsk(), lay, Incoming, body.head, data) else data == body.data
      requires Size(Record(id, body)) <= groupSize - BLOCK_HEADER_SIZE
      modifies `primary, `overflow, `freeChain, `lay, `mean, `updCt
      ensures Stands({}) && updCt == old(updCt) + 1
      ensures Wrote(old(mean), mean, Key(naming, id), data, found, oldSize, Size(Record(id, body)))
    {
      hide Standing;
      var oldBody;
      found, oldSize, oldBody := Place(id, body, data);
      ReleaseOld(found, oldBody);
    }

    /** Take a record out of its group, and release its chain. */
    method Erase(id: Id) returns (found: bool, oldSize: nat)
      requires Stands({})
      modifies `primary, `overflow, `freeChain, `lay, `mean, `updCt
      ensures Stands({}) && updCt == old(updCt) + 1
      ensures Deleted(old(mean), mean, Key(naming, id), found, oldSize)
    {
      hide Standing;
      var oldBody;
      found, oldSize, oldBody := Displace(id);
      ReleaseOld(found, oldBody);
    }

    /** Keep the totals in step with a write. The tests guard against a file header that was
        wrong; while it is right none of them fires. */
    method CountWrite(loadChange: int, found: bool)
      requires Configured() && Stands({}) && loadBytes + loadChange == mean.bytes
      requires recordCount >= 0 ==> recordCount + (if found then 0 else 1) == mean.count
      modifies `loadBytes, `recordCount
      ensures Valid()
    {
      hide Standing;
      NotNegative(Dsk(), lay, groupSize, naming, Par(), mean, {});
      loadBytes := if loadChange >= 0 || -loadChange <= loadBytes then loadBytes + loadChange else 0;
      if !found && recordCount >= 0 {
        recordCount := recordCount + 1;
      }
    }

    method CountDelete(recSize: nat, found: bool)
      requires Configured() && Stands({}) && loadBytes - (if found then recSize else 0) == mean.bytes
      requires recordCount >= 0 ==> recordCount - (if found then 1 else 0) == mean.count
      modifies `loadBytes, `recordCount
      ensures Valid()
    {
      hide Standing;
      NotNegative(Dsk(), lay, groupSize, naming, Par(), mean, {});
      if found {
        loadBytes := if loadBytes >= recSize then loadBytes - recSize else 0;
        if recordCount >= 0 {
          recordCount := if recordCount - 1 < 0 then 0 else recordCount - 1;
        }
      }
    }

    /** Write a record: its id, and its data held in chunks. */
    method WriteRecord(id: Id, chunks: seq<Data>)
      requires Valid() && |id| <= MAX_KEY_LEN
      requires Flat(chunks) != [] || RECORD_HEADER_SIZE + |id| < bigRecSize
      modifies `primary, `overflow, `freeChain, `lay, `mean, `loadBytes, `recordCount, `updCt
      ensures Valid() && Contents() == old(Contents())[Key(naming, id) := Flat(chunks)] && updCt == old(updCt) + 1
    {
      hide Standing;
      var body := PrepareBody(id, chunks);
      var found, oldSize := Store(id, body, Flat(chunks));
      CountWrite(Size(Record(id, body)) - (if found then oldSize else 0), found);
    }

    method DeleteRecord(id: Id) returns (found: bool)
      requires Valid()
      modifies `primary, `overflow, `freeChain, `lay, `mean, `loadBytes, `recordCount, `updCt
      ensures Valid() && Contents() == old(Contents()) - {Key(naming, id)} && updCt == old(updCt) + 1
      ensures found <==> Key(naming, id) in old(Contents())
    {
      hide Standing;
      var oldSize;
      found, oldSize := Erase(id);
      CountDelete(oldSize, found);
    }

    // ----------------------------------------------------------------------
    // Splitting

    /** Move one record to the buffer of the group it is now addressed to. */
    method MoveRecord(rec: Record, isNew: bool, loc0: Loc, t0: Block, loc1: Loc, t1: Block,
                      ghost d0: Disk, ghost l0: Map, ghost src: nat, ghost last: nat,
                      ghost stay: seq<Record>, ghost move: seq<Record>, ghost rest: seq<Block>)
      returns (loc0': Loc, t0': Block, loc1': Loc, t1': Block)
      requires Dividing(d0, l0, Dsk(), lay, groupSize, src, last, loc0, t0, loc1, t1, stay, move, rest)
      requires Size(rec) <= groupSize - BLOCK_HEADER_SIZE
      modifies `primary, `overflow, `freeChain, `lay
      ensures Dividing(d0, l0, Dsk(), lay, groupSize, src, last, loc0', t0', loc1', t1',
                       if isNew then stay else stay + [rec], if isNew then move + [rec] else move, rest)
      ensures PathOf(lay, Source) == old(PathOf(lay, Source))
    {
      hide Draining, Sound, Opened, SameRoots, RecsAt, RecsOf;
      loc0', t0', loc1', t1' := loc0, t0, loc1, t1;
      ghost var d, l := Dsk(), lay;
      DivideReady(d0, l0, d, l, groupSize, src, last, loc0, t0, loc1, t1, stay, move, rest, if isNew then last else src);
      if isNew {
        loc1', t1' := AppendRecord(loc1, t1, rec, Side(src, loc0, t0), last, {Group(last)});
        DividedNew(d0, l0, d, l, groupSize, src, last, loc0, t0, loc1, t1, stay, move, rest, rec, Dsk(), lay, loc1', t1');
        SourceKept(Both(d, loc0, t0, loc1, t1), l, Put(Laid(Dsk(), Side(src, loc0, t0)), loc1', t1'), lay, groupSize, last, rec);
      } else {
        loc0', t0' := AppendRecord(loc0, t0, rec, Side(last, loc1, t1), src, {Group(src)});
        DividedOld(d0, l0, d, l, groupSize, src, last, loc0, t0, loc1, t1, stay, move, rest, rec, Dsk(), lay, loc0', t0');
        SourceKept(Both(d, loc0, t0, loc1, t1), l, Put(Laid(Dsk(), Side(last, loc1, t1)), loc0', t0'), lay, groupSize, src, rec);
      }
    }

    /** Move every record of a source block, in order. */
    method DivideBlock(srcBuff: Block, loc0: Loc, t0: Block, loc1: Loc, t1: Block,
                       ghost d0: Disk, ghost l0: Map, ghost src: nat, last: nat, ghost done: seq<Record>, ghost rest: seq<Block>)
      returns (loc0': Loc, t0': Block, loc1': Loc, t1': Block)
      requires Par().Valid() && Packed(srcBuff, groupSize) && OnlyTo(naming, Par(), srcBuff.recs, src, last) && src != last
      requires DividedSoFar(d0, l0, Dsk(), lay, groupSize, naming, Par(), src, last, loc0, t0, loc1, t1, done, rest)
      modifies `primary, `overflow, `freeChain, `lay
      ensures DividedSoFar(d0, l0, Dsk(), lay, groupSize, naming, Par(), src, last, loc0', t0', loc1', t1',
                       done + srcBuff.recs, rest)
      ensures PathOf(lay, Source) == old(PathOf(lay, Source))
    {
      hide Dividing, Addressed, AddressOf, IsPow2, Size;
      loc0', t0', loc1', t1' := loc0, t0, loc1, t1;
      ghost var path := PathOf(lay, Source);
      var recOffset, k := BLOCK_HEADER_SIZE, 0;
      assert done + srcBuff.recs[..0] == done;
      while recOffset < srcBuff.used
        invariant k <= |srcBuff.recs| && recOffset == BLOCK_HEADER_SIZE + Bytes(srcBuff.recs[..k])
        invariant DividedSoFar(d0, l0, Dsk(), lay, groupSize, naming, Par(), src, last, loc0', t0', loc1', t1',
                           done + srcBuff.recs[..k], rest)
        invariant PathOf(lay, Source) == path
        decreases |srcBuff.recs| - k
      {
        AtEnd(srcBuff.recs, k);
        var rec := srcBuff.recs[k];
        var group := HashGroup(rec.id);
        PackedRecordFits(srcBuff, groupSize, k);
        ghost var sofar := done + srcBuff.recs[..k];
        loc0', t0', loc1', t1' := MoveRecord(rec, group == last, loc0', t0', loc1', t1', d0, l0, src, last,
                                             Addressed(naming, Address(naming, Par()), sofar, src),
                                             Addressed(naming, Address(naming, Par()), sofar, last), rest);
        AddressedOne(naming, Par(), sofar, rec, src, last, group);
        BytesAppend(srcBuff.recs[..k], rec);
        assert srcBuff.recs[..k + 1] == srcBuff.recs[..k] + [rec];
        assert done + srcBuff.recs[..k + 1] == sofar + [rec];
        recOffset, k := recOffset + Size(rec), k + 1;
      }
      AtEnd(srcBuff.recs, k);
      assert srcBuff.recs[..k] == srcBuff.recs;
    }

    /** Move the records of the next overflow block of the source group and free the block. */
    method DivideNext(sgrp: nat, loc0: Loc, t0: Block, loc1: Loc, t1: Block,
                      ghost d0: Disk, ghost l0: Map, ghost src: nat, last: nat, ghost done: seq<Record>, ghost rest: seq<Block>)
      returns (next: nat, loc0': Loc, t0': Block, loc1': Loc, t1': Block)
      requires Par().Valid() && src != last && sgrp == Nth(PathOf(lay, Source), 0) && sgrp != 0
      requires DividedSoFar(d0, l0, Dsk(), lay, groupSize, naming, Par(), src, last, loc0, t0, loc1, t1, done, rest)
      requires AllTo(naming, Par(), rest, src, last)
      modifies `primary, `overflow, `freeChain, `lay
      ensures rest != [] && rest[0].DataBlock? && RecsOf(rest) == rest[0].recs + RecsOf(rest[1..])
      ensures DividedSoFar(d0, l0, Dsk(), lay, groupSize, naming, Par(), src, last, loc0', t0', loc1', t1',
                           done + rest[0].recs, rest[1..])
      ensures next == Nth(PathOf(lay, Source), 0) && AllTo(naming, Par(), rest[1..], src, last)
    {
      hide DividedSoFar, AllTo, OnlyTo, RecsOf, AddressOf, IsPow2;
      SourceNext(d0, l0, Dsk(), lay, groupSize, naming, Par(), src, last, loc0, t0, loc1, t1, done, rest);
      var srcBuff := ReadBlock(Over(sgrp));
      loc0', t0', loc1', t1' := DivideBlock(srcBuff, loc0, t0, loc1, t1, d0, l0, src, last, done, rest);
      SourceDone(d0, l0, Dsk(), lay, groupSize, naming, Par(), src, last, loc0', t0', loc1', t1', done + srcBuff.recs, rest);
      FreeOverflow(sgrp);
      lay := Release(lay, Source, 0);
      next := srcBuff.next;
    }

    /** Start with the primary block of the group to be divided. */
    method DivideFirst(src: nat, last: nat, ghost p: Params)
      returns (next: nat, loc0: Loc, t0: Block, loc1: Loc, t1: Block, ghost done: seq<Record>, ghost rest: seq<Block>)
      requires Standing(Dsk(), lay, groupSize, naming, p, mean, {}) && groupSize >= BLOCK_HEADER_SIZE
      requires Par() == Grow(p) && last == modulus && src == Buddy(Par()) && 1 <= src <= p.modulus
      modifies `primary, `overflow, `freeChain, `lay
      ensures DividedSoFar(old(Dsk()), old(lay), Dsk(), lay, groupSize, naming, Par(), src, last, loc0, t0, loc1, t1, done, rest)
      ensures next == Nth(PathOf(lay, Source), 0) && AllTo(naming, Par(), rest, src, last)
      ensures done + RecsOf(rest) == old(RecsAt(Dsk(), lay, src)) && Par().Valid() && src != last
    {
      hide Standing, RecsAt, RecsOf, AllTo, OnlyTo, DividedSoFar, AddressOf, IsPow2;
      ghost var d0, l0 := Dsk(), lay;
      ghost var l1, rest1 := FirstFacts(d0, l0, groupSize, naming, p, mean, src, last);
      var srcBuff := ReadBlock(Prim(src));
      lay := l1;
      loc0, t0, loc1, t1 := DivideBlock(srcBuff, Prim(src), EmptyBlock, Prim(last), EmptyBlock, d0, l0, src, last, [], rest1);
      assert [] + srcBuff.recs == srcBuff.recs;
      done, rest, next := srcBuff.recs, rest1, srcBuff.next;
    }

    /** Rewrite group `src` as two groups, `src` and the new group `last`. */
    method DivideGroup(src: nat, last: nat, ghost p: Params)
      requires Standing(Dsk(), lay, groupSize, naming, p, mean, {}) && groupSize >= BLOCK_HEADER_SIZE
      requires Par() == Grow(p) && last == modulus && src == Buddy(Par()) && 1 <= src <= p.modulus
      modifies `primary, `overflow, `freeChain, `lay
      ensures Stands({})
      ensures Groups() == SplitGroups(naming, Address(naming, Par()), old(AllGroups(Dsk(), lay, p.modulus)), src)
    {
      hide Standing, RecsAt, RecsOf, DividedSoFar, AllTo, AllGroups, Address, SplitGroups, IsPow2;
      ghost var d0, l0 := Dsk(), lay;
      ghost var recs := RecsAt(d0, l0, src);
      ghost var done, rest;
      var sgrp, loc0, t0, loc1, t1;
      sgrp, loc0, t0, loc1, t1, done, rest := DivideFirst(src, last, p);
      while sgrp != 0
        invariant DividedSoFar(d0, l0, Dsk(), lay, groupSize, naming, Par(), src, last, loc0, t0, loc1, t1, done, rest)
        invariant sgrp == Nth(PathOf(lay, Source), 0) && AllTo(naming, Par(), rest, src, last)
        invariant done + RecsOf(rest) == recs
        decreases |rest|
      {
        sgrp, loc0, t0, loc1, t1 := DivideNext(sgrp, loc0, t0, loc1, t1, d0, l0, src, last, done, rest);
        AddAssoc(done, rest[0].recs, RecsOf(rest[1..]));
        done, rest := done + rest[0].recs, rest[1..];
      }
      SourceEnds(d0, l0, Dsk(), lay, groupSize, naming, p, mean, src, last, loc0, t0, loc1, t1, done, rest);
      WriteBlock(loc0, t0);
      WriteBlock(loc1, t1);
      lay := Close(lay, Source);
    }

    /** Add a group to the file, unless a resize is held off or no longer needed. */
    method Split()
      requires Valid() && inhibitCount >= 0
      modifies `primary, `overflow, `freeChain, `lay, `modulus, `modValue, `inhibitCount
      ensures Valid() && inhibitCount == old(inhibitCount)
      ensures mean.bytes >= 0
      ensures var now := old(inhibitCount) == 0 && MustSplit(Bounds(), mean.bytes, old(modulus));
              && Par() == (if now then Grow(old(Par())) else old(Par()))
              && (now ==> 1 <= Buddy(Par()) <= old(modulus)
                          && Groups() == SplitGroups(naming, Address(naming, Par()), old(Groups()), Buddy(Par())))
              && (!now ==> Groups() == old(Groups()))
    {
      hide Standing, AllGroups, Address, IsPow2, SplitGroups, SplitStillNeeded, GroupOf, SameRoots, RootOk;
      hide Partition, Image, Sound, RecsAt, MustSplit, MightMerge, MayMerge, Decide, Load, MergeStillNeeded;
      StandsFacts(Dsk(), lay, groupSize, naming, Par(), mean);
      DecideByProducts(Bounds(), mean.bytes, modulus);
      if inhibitCount != 0 {
        return;
      }
      if !SplitStillNeeded(Bounds(), loadBytes, modulus) {
        return;
      }
      ghost var p := Par();
      GrowMovesOneGroup(0, p);
      modulus := modulus + 1;
      if modulus > modValue {
        modValue := modValue * 2;
      }
      var group: nat := modulus - 1 - modValue / 2 + 1;
      inhibitCount := inhibitCount + 1;
      DivideGroup(group, modulus, p);
      inhibitCount := inhibitCount - 1;
    }

    // ----------------------------------------------------------------------
    // Merging

    /** Find the last block of a group. */
    method FindEnd(group: nat) returns (loc: Loc, buff: Block)
      requires Sound(Dsk(), lay, groupSize, {}) && Group(group) in lay.paths
      ensures 1 <= group <= |primary|
      ensures var path := lay.paths[Group(group)];
              loc == LocAt(path, group, |path|) && buff == GroupBlocks(Dsk(), path, group)[|path|]
    {
      ghost var path := lay.paths[Group(group)];
      ghost var i := 0;
      GroupExists(Dsk(), lay, groupSize, {}, group);
      loc := Prim(group);
      while true
        invariant i <= |path| && loc == LocAt(path, group, i)
        decreases |path| - i
      {
        BlockOfGroup(Dsk(), lay, groupSize, group, i);
        buff := ReadBlock(loc);
        NextOfGroup(Dsk(), lay, groupSize, group, i);
        if buff.next == 0 {
          break;
        }
        loc, i := Over(buff.next), i + 1;
      }
    }

    /** Add every record of a source block to the target group. */
    method FoldBlock(srcBuff: Block, loc: Loc, t: Block, ghost d0: Disk, ghost l0: Map, ghost tgt: nat, ghost src: nat,
                     ghost recs: seq<Record>, ghost rest: seq<Block>)
      returns (loc': Loc, t': Block)
      requires Packed(srcBuff, groupSize) && Folding(d0, l0, Dsk(), lay, groupSize, tgt, src, loc, t, recs, rest)
      modifies `primary, `overflow, `freeChain, `lay
      ensures Folding(d0, l0, Dsk(), lay, groupSize, tgt, src, loc', t', recs + srcBuff.recs, rest)
      ensures PathOf(lay, Source) == old(PathOf(lay, Source))
    {
      hide Folding;
      loc', t' := loc, t;
      ghost var path := PathOf(lay, Source);
      var srcRecOffset, k := BLOCK_HEADER_SIZE, 0;
      assert recs + srcBuff.recs[..0] == recs;
      while srcRecOffset < srcBuff.used
        invariant k <= |srcBuff.recs| && srcRecOffset == BLOCK_HEADER_SIZE + Bytes(srcBuff.recs[..k])
        invariant Folding(d0, l0, Dsk(), lay, groupSize, tgt, src, loc', t', recs + srcBuff.recs[..k], rest)
        invariant PathOf(lay, Source) == path
        decreases |srcBuff.recs| - k
      {
        AtEnd(srcBuff.recs, k);
        var rec := srcBuff.recs[k];
        PackedRecordFits(srcBuff, groupSize, k);
        loc', t' := FoldRecord(rec, loc', t', d0, l0, tgt, src, recs + srcBuff.recs[..k], rest);
        BytesAppend(srcBuff.recs[..k], rec);
        assert srcBuff.recs[..k + 1] == srcBuff.recs[..k] + [rec];
        assert recs + srcBuff.recs[..k + 1] == recs + srcBuff.recs[..k] + [rec];
        srcRecOffset, k := srcRecOffset + Size(rec), k + 1;
      }
      AtEnd(srcBuff.recs, k);
      assert srcBuff.recs[..k] == srcBuff.recs;
    }

    method FoldRecord(rec: Record, loc: Loc, t: Block, ghost d0: Disk, ghost l0: Map, ghost tgt: nat, ghost src: nat,
                      ghost recs: seq<Record>, ghost rest: seq<Block>)
      returns (loc': Loc, t': Block)
      requires Folding(d0, l0, Dsk(), lay, groupSize, tgt, src, loc, t, recs, rest)
      requires Size(rec) <= groupSize - BLOCK_HEADER_SIZE
      modifies `primary, `overflow, `freeChain, `lay
      ensures Folding(d0, l0, Dsk(), lay, groupSize, tgt, src, loc', t', recs + [rec], rest)
      ensures PathOf(lay, Source) == old(PathOf(lay, Source))
    {
      hide Draining, Sound, Opened, SameRoots, RecsAt, RecsOf;
      ghost var d, l := Dsk(), lay;
      FoldReady(d0, l0, d, l, groupSize, tgt, src, loc, t, recs, rest);
      loc', t' := AppendRecord(loc, t, rec, NoSide, tgt, {Group(tgt)});
      Folded1(d0, l0, d, l, groupSize, tgt, src, loc, t, recs, rest, rec, Dsk(), lay, loc', t');
    }

    /** Add the records of the next overflow block of the source group and free the block. */
    method FoldNext(sgrp: nat, loc: Loc, t: Block, ghost d0: Disk, ghost l0: Map, ghost tgt: nat, ghost src: nat,
                    ghost recs: seq<Record>, ghost rest: seq<Block>)
      returns (next: nat, loc': Loc, t': Block)
      requires Folding(d0, l0, Dsk(), lay, groupSize, tgt, src, loc, t, recs, rest)
      requires sgrp == Nth(PathOf(lay, Source), 0) && sgrp != 0
      modifies `primary, `overflow, `freeChain, `lay
      ensures rest != [] && rest[0].DataBlock? && RecsOf(rest) == rest[0].recs + RecsOf(rest[1..])
      ensures Folding(d0, l0, Dsk(), lay, groupSize, tgt, src, loc', t', recs + rest[0].recs, rest[1..])
      ensures next == Nth(PathOf(lay, Source), 0)
    {
      hide Folding, RecsOf;
      FoldHead(d0, l0, Dsk(), lay, groupSize, tgt, src, loc, t, recs, rest);
      var srcBuff := ReadBlock(Over(sgrp));
      loc', t' := FoldBlock(srcBuff, loc, t, d0, l0, tgt, src, recs, rest);
      FoldFree(d0, l0, Dsk(), lay, groupSize, tgt, src, loc', t', recs + srcBuff.recs, rest);
      FreeOverflow(sgrp);
      lay := Release(lay, Source, 0);
      next := srcBuff.next;
    }

    /** Find the end of the target group and add the primary block of the source group. */
    method FoldFirst(tgt: nat, src: nat, ghost p: Params)
      returns (next: nat, loc: Loc, t: Block, ghost recs: seq<Record>, ghost rest: seq<Block>)
      requires Standing(Dsk(), lay, groupSize, naming, p, mean, {}) && 1 <= tgt < src == p.modulus
      modifies `primary, `overflow, `freeChain, `lay
      ensures Folding(old(Dsk()), old(lay), Dsk(), lay, groupSize, tgt, src, loc, t, recs, rest)
      ensures next == Nth(PathOf(lay, Source), 0)
      ensures recs + RecsOf(rest) == old(RecsAt(Dsk(), lay, tgt)) + old(RecsAt(Dsk(), lay, src))
    {
      hide Standing, RecsAt, RecsOf, Folding, GroupBlocks, Sound;
      ghost var d0, l0 := Dsk(), lay;
      MergeFacts(d0, l0, groupSize, naming, p, mean, tgt, src);
      loc, t := FindEnd(tgt);
      FoldStart(d0, l0, groupSize, tgt, src, loc, t);
      ghost var bs := GroupBlocks(d0, l0.paths[Group(src)], src);
      recs, rest := RecsAt(d0, l0, tgt), bs[1..];
      var srcBuff := ReadBlock(Prim(src));
      lay := Rename(lay, Group(src), Source);
      loc, t := FoldBlock(srcBuff, loc, t, d0, l0, tgt, src, recs, rest);
      AddAssoc(recs, srcBuff.recs, RecsOf(rest));
      recs, next := recs + srcBuff.recs, srcBuff.next;
    }

    /** Add group `src`, the last one, to the end of group `tgt`. */
    method FoldGroup(tgt: nat, src: nat, ghost p: Params)
      requires Standing(Dsk(), lay, groupSize, naming, p, mean, {})
      requires p.modulus >= 2 && Par() == Shrink(p) && src == p.modulus && tgt == Buddy(p) && 1 <= tgt < p.modulus
      modifies `primary, `overflow, `freeChain, `lay
      ensures Stands({}) && Groups() == MergeGroups(old(AllGroups(Dsk(), lay, p.modulus)), tgt)
    {
      hide Standing, RecsAt, RecsOf, Folding, AllGroups, MergeGroups, IsPow2;
      ghost var d0, l0 := Dsk(), lay;
      ghost var all := RecsAt(d0, l0, tgt) + RecsAt(d0, l0, src);
      var sgrp, loc, t;
      ghost var recs, rest;
      sgrp, loc, t, recs, rest := FoldFirst(tgt, src, p);
      while sgrp != 0
        invariant Folding(d0, l0, Dsk(), lay, groupSize, tgt, src, loc, t, recs, rest)
        invariant sgrp == Nth(PathOf(lay, Source), 0) && recs + RecsOf(rest) == all
        decreases |rest|
      {
        sgrp, loc, t := FoldNext(sgrp, loc, t, d0, l0, tgt, src, recs, rest);
        AddAssoc(recs, rest[0].recs, RecsOf(rest[1..]));
        recs, rest := recs + rest[0].recs, rest[1..];
      }
      FoldEnds(d0, l0, Dsk(), lay, groupSize, naming, p, mean, tgt, src, loc, t, recs, rest);
      WriteBlock(loc, t);
      WriteBlock(Prim(src), FreeBlock(0));
      lay := Close(lay, Source);
    }

    /** Remove the last group of the file, unless a resize is held off or no longer needed. */
    method Merge()
      requires Valid() && inhibitCount >= 0
      modifies `primary, `overflow, `freeChain, `lay, `modulus, `modValue, `inhibitCount
      ensures Valid() && inhibitCount == old(inhibitCount)
      ensures mean.bytes >= 0
      ensures var now := old(inhibitCount) == 0 && MightMerge(Bounds(), mean.bytes, old(modulus));
              && Par() == (if now then Shrink(old(Par())) else old(Par()))
              && (now ==> 1 <= Buddy(old(Par())) < old(modulus)
                          && Groups() == MergeGroups(old(Groups()), Buddy(old(Par()))))
              && (!now ==> Groups() == old(Groups()))
    {
      hide Standing, AllGroups, IsPow2, MergeGroups, Load, RootOk, Partition, Sound, GroupOf, Chains, MustSplit;
      StandsFacts(Dsk(), lay, groupSize, naming, Par(), mean);
      DecideByProducts(Bounds(), mean.bytes, modulus);
      if inhibitCount != 0 {
        return;
      }
      if !MergeStillNeeded(Bounds(), loadBytes, modulus) {
        return;
      }
      ghost var p := Par();
      ShrinkFoldsLastGroup(0, p);
      var srcGroup, tgtGroup: nat := modulus, modulus - 1 - modValue / 2 + 1;
      inhibitCount := inhibitCount + 1;
      var n := modValue / 2;
      modulus := modulus - 1;
      if modulus == n {
        modValue := n;
      }
      FoldGroup(tgtGroup, srcGroup, p);
      inhibitCount := inhibitCount - 1;
    }

    // ----------------------------------------------------------------------
    // Reading

    /** The record with this id, under whatever casing it was stored. */
    method Read(id: Id) returns (r: Lookup)
      requires Valid()
      ensures r.Missing? <==> Key(naming, id) !in Contents()
      ensures r.Present? ==> Key(naming, r.actual) == Key(naming, id) && r.data == Contents()[Key(naming, id)]
      ensures r.Present? ==> SameId(naming.noCase, r.actual, id) && r.actual in AllIds(Groups())
      ensures DataUnder(naming, Contents(), id) == if r.Missing? then NoData else HasData(r.data)
    {
      hide AllGroups, AllIds, SameId, TableOk, LargeTied, RecsAt, TotalBytes, TotalCount, IsPow2, AddressOf;
      var group := HashGroup(id);
      ghost var i;
      var found, loc, prev, k, buff;
      found, loc, prev, k, buff, i := FindRecord(id, group);
      LookupFacts(Dsk(), lay, groupSize, naming, Par(), mean, id, group, found, i, k, buff);
      if !found {
        return Missing;
      }
      var data;
      match buff.recs[k].body {
        case Inline(bytes) => data := bytes;
        case Large(head) => data := ReadBigRec(head, Key(naming, id));
      }
      r := Present(buff.recs[k].id, data);
      KeysAreIds(naming, r.actual, id);
    }

    method Exists(id: Id) returns (found: bool)
      requires Valid()
      ensures found <==> Key(naming, id) in Contents()
    {
      hide Sound, TableOk, LargeTied, RecsAt, TotalBytes, TotalCount, IsPow2, AddressOf;
      var group := HashGroup(id);
      ghost var i;
      var loc, prev, k, buff;
      found, loc, prev, k, buff, i := FindRecord(id, group);
      LookupFacts(Dsk(), lay, groupSize, naming, Par(), mean, id, group, found, i, k, buff);
    }

    // ----------------------------------------------------------------------
    // Writing and deleting, with the resize that may follow

    /** The modulus after a resize step, when one is allowed: one group more when the records fill more
        than the split load, one fewer when they fill less than the merge load and need not be split
        again at once. */
    ghost predicate Resized(allowed: bool, was: nat)
      requires was >= 1 && mean.bytes >= 0
      reads this
    {
      modulus == if !allowed then was
                 else if MustSplit(Bounds(), mean.bytes, was) then was + 1
                 else if MayMerge(Bounds(), mean.bytes, was) then was - 1
                 else was
    }

    /** Split or merge if the load calls for it and nothing holds it off. */
    method ResizeIfNeeded()
      requires Valid() && inhibitCount >= 0
      modifies `primary, `overflow, `freeChain, `lay, `modulus, `modValue, `inhibitCount
      ensures Valid() && inhibitCount == old(inhibitCount)
      ensures old(modulus) >= 1 && mean.bytes >= 0
      ensures Resized(inhibitCount == 0 && !noResize, old(modulus))
    {
      hide Standing, AllGroups, Address, IsPow2, SplitGroups, MergeGroups, Load, MustSplit, MightMerge, MayMerge;
      StandsFacts(Dsk(), lay, groupSize, naming, Par(), mean);
      RecheckConfirms(Bounds(), mean.bytes, modulus);
      DecideByProducts(Bounds(), mean.bytes, modulus);
      if inhibitCount == 0 {
        if !noResize {
          match Decide(Bounds(), loadBytes, modulus) {
            case Split => Split();
            case Merge => Merge();
            case Stay =>
          }
        }
      }
    }

    /** The call that makes one resize step whatever the file's flags say. */
    method ForceResize() returns (done: bool)
      requires Valid() && inhibitCount >= 0
      modifies `primary, `overflow, `freeChain, `lay, `modulus, `modValue, `inhibitCount
      ensures Valid() && inhibitCount == old(inhibitCount)
      ensures old(modulus) >= 1 && mean.bytes >= 0
      ensures Resized(inhibitCount == 0, old(modulus))
      ensures done <==> MustSplit(Bounds(), mean.bytes, old(modulus)) || MayMerge(Bounds(), mean.bytes, old(modulus))
      ensures inhibitCount != 0 ==> modulus == old(modulus) && Groups() == old(Groups())
    {
      hide Standing, AllGroups, Address, IsPow2, SplitGroups, MergeGroups, Load, MustSplit, MightMerge, MayMerge;
      StandsFacts(Dsk(), lay, groupSize, naming, Par(), mean);
      RecheckConfirms(Bounds(), mean.bytes, modulus);
      DecideByProducts(Bounds(), mean.bytes, modulus);
      done := true;
      match Decide(Bounds(), loadBytes, modulus) {
        case Split => Split();
        case Merge => Merge();
        case Stay => done := false;
      }
    }

    method Write(id: Id, chunks: seq<Data>)
      requires Valid() && inhibitCount >= 0 && |id| <= MAX_KEY_LEN
      requires Flat(chunks) != [] || RECORD_HEADER_SIZE + |id| < bigRecSize
      modifies `primary, `overflow, `freeChain, `lay, `mean, `loadBytes, `recordCount, `updCt, `modulus, `modValue,
               `inhibitCount
      ensures Valid() && inhibitCount == old(inhibitCount) && updCt == old(updCt) + 1
      ensures Contents() == old(Contents())[Key(naming, id) := Flat(chunks)]
      ensures forall x: Id :: DataUnder(naming, Contents(), x)
                == if SameId(naming.noCase, x, id) then HasData(Flat(chunks)) else DataUnder(naming, old(Contents()), x)
      ensures old(modulus) >= 1 && mean.bytes >= 0
      ensures Resized(inhibitCount == 0 && !noResize, old(modulus))
      ensures old(Selecting()) ==> Selecting()
    {
      hide Standing, AllGroups, TotalBytes, TotalCount, DataUnder, SameId, Key, MustSplit, MayMerge;
      forall x: Id {
        PutDataUnder(naming, Contents(), id, Flat(chunks), x);
      }
      WriteRecord(id, chunks);
      ResizeIfNeeded();
    }

    method Delete(id: Id) returns (found: bool)
      requires Valid() && inhibitCount >= 0
      modifies `primary, `overflow, `freeChain, `lay, `mean, `loadBytes, `recordCount, `updCt, `modulus, `modValue,
               `inhibitCount
      ensures Valid() && inhibitCount == old(inhibitCount) && updCt == old(updCt) + 1
      ensures Contents() == old(Contents()) - {Key(naming, id)}
      ensures found <==> Key(naming, id) in old(Contents())
      ensures forall x: Id :: DataUnder(naming, Contents(), x)
                == if SameId(naming.noCase, x, id) then NoData else DataUnder(naming, old(Contents()), x)
      ensures old(modulus) >= 1 && mean.bytes >= 0
      ensures Resized(inhibitCount == 0 && !noResize, old(modulus))
      ensures old(Selecting()) ==> Selecting()
    {
      hide Standing, AllGroups, TotalBytes, TotalCount, DataUnder, SameId, Key, MustSplit, MayMerge;
      forall x: Id {
        PutDataUnder(naming, Contents(), id, [], x);
      }
      found := DeleteRecord(id);
      ResizeIfNeeded();
    }

    // ----------------------------------------------------------------------
    // Selecting

    /** The ids of the records in a block, with their number and their bytes. */
    method ScanBlock(buff: Block) returns (ids: seq<Id>, count: nat, bytes: nat)
      requires Packed(buff, groupSize)
      ensures ids == IdsOf(buff.recs) && count == |buff.recs| && bytes == Bytes(buff.recs)
    {
      ids, count, bytes := [], 0, 0;
      var recOffset := BLOCK_HEADER_SIZE;
      while recOffset < buff.used
        invariant count <= |buff.recs| && recOffset == BLOCK_HEADER_SIZE + bytes
        invariant ids == IdsOf(buff.recs[..count]) && bytes == Bytes(buff.recs[..count])
        decreases |buff.recs| - count
      {
        AtEnd(buff.recs, count);
        var rec := buff.recs[count];
        assert buff.recs[..count + 1] == buff.recs[..count] + [rec];
        BytesAppend(buff.recs[..count], rec);
        IdsOfAppend(buff.recs[..count], rec);
        ids, count := ids + [rec.id], count + 1;
        bytes, recOffset := bytes + Size(rec), recOffset + Size(rec);
      }
      AtEnd(buff.recs, count);
      assert buff.recs[..count] == buff.recs;
    }

    /** The same for all the blocks of a group. */
    method ScanGroup(group: nat) returns (ids: seq<Id>, count: nat, bytes: nat)
      requires Sound(Dsk(), lay, groupSize, {}) && Group(group) in lay.paths
      ensures ids == IdsOf(RecsAt(Dsk(), lay, group)) && count == |RecsAt(Dsk(), lay, group)|
      ensures bytes == Bytes(RecsAt(Dsk(), lay, group))
    {
      hide Sound, IdsOf, Bytes;
      ghost var path := lay.paths[Group(group)];
      ghost var bs := GroupBlocks(Dsk(), path, group);
      ghost var i: nat := 0;
      GroupExists(Dsk(), lay, groupSize, {}, group);
      var loc := Prim(group);
      ids, count, bytes := [], 0, 0;
      NothingScanned();
      while true
        invariant i <= |path| && loc == LocAt(path, group, i)
        invariant ids == IdsOf(RecsOf(bs[..i])) && count == |RecsOf(bs[..i])| && bytes == Bytes(RecsOf(bs[..i]))
        decreases |path| - i
      {
        BlockOfGroup(Dsk(), lay, groupSize, group, i);
        var buff := ReadBlock(loc);
        var more, n, size := ScanBlock(buff);
        PrefixRecs(bs, i);
        IdsOfConcat(RecsOf(bs[..i]), buff.recs);
        BytesConcat(RecsOf(bs[..i]), buff.recs);
        ids, count, bytes := ids + more, count + n, bytes + size;
        NextOfGroup(Dsk(), lay, groupSize, group, i);
        if buff.next == 0 {
          assert bs[..i + 1] == bs;
          break;
        }
        loc, i := Over(buff.next), i + 1;
      }
    }

    /** What a select under way has counted is right for the groups it has passed, unless the
        file has been written to since it began. */
    ghost predicate Selecting()
      reads this
    {
      selGroup != 0 ==>
        && selGroup <= modulus && inhibitCount > 0 && selUpd <= updCt
        && (selUpd == updCt ==>
              && selRec == TotalCount(Groups()[..selGroup - 1])
              && selBytes == TotalBytes(Groups()[..selGroup - 1]))
    }

    /** Pass one group. */
    method SelectOne() returns (ids: seq<Id>)
      requires Valid() && 1 <= selGroup <= modulus
      modifies `selGroup, `selRec, `selBytes
      ensures Valid() && selGroup == old(selGroup) + 1 && ids == IdsOf(Groups()[old(selGroup) - 1])
      ensures selRec == old(selRec) + |Groups()[old(selGroup) - 1]|
      ensures selBytes == old(selBytes) + Bytes(Groups()[old(selGroup) - 1])
    {
      hide Standing, IdsOf, RecsAt;
      StandsFacts(Dsk(), lay, groupSize, naming, Par(), mean);
      var group := selGroup;
      selGroup := selGroup + 1;
      var count, bytes;
      ids, count, bytes := ScanGroup(group);
      assert Groups()[group - 1] == RecsAt(Dsk(), lay, group);
      selRec, selBytes := selRec + count, selBytes + bytes;
    }

    /** The last group has been passed: the counts that were kept go into the file header if
        nothing has been written meanwhile. */
    method FinishSelect()
      requires Valid() && inhibitCount > 0
      requires selUpd == updCt ==> selRec == TotalCount(Groups()) && selBytes == TotalBytes(Groups())
      modifies `loadBytes, `recordCount, `inhibitCount, `selGroup
      ensures Valid() && selGroup == 0 && inhibitCount == old(inhibitCount) - 1
      ensures selUpd == updCt && !readOnly ==> recordCount == mean.count
    {
      hide Image, TotalBytes, TotalCount, AllGroups;
      if selUpd == updCt && !readOnly {
        recordCount, loadBytes := selRec, selBytes;
      }
      inhibitCount, selGroup := inhibitCount - 1, 0;
    }

    /** Pass groups until one has a record. */
    method PassGroups() returns (ids: seq<Id>)
      requires Valid() && Selecting() && selGroup != 0
      modifies `selGroup, `selRec, `selBytes
      ensures Valid() && old(selGroup) < selGroup <= modulus + 1 == |Groups()| + 1
      ensures ids == AllIds(Groups()[old(selGroup) - 1..selGroup - 1]) && (ids != [] || selGroup == modulus + 1)
      ensures selUpd == updCt ==> selRec == TotalCount(Groups()[..selGroup - 1])
      ensures selUpd == updCt ==> selBytes == TotalBytes(Groups()[..selGroup - 1])
    {
      hide Standing, AllIds, IdsOf, TotalBytes, TotalCount, AllGroups, DhFile.Stands;
      ghost var groups, first := Groups(), selGroup;
      GroupsLength(Dsk(), lay, modulus);
      ids := [];
      NothingListed(groups, first - 1);
      while ids == [] && selGroup <= modulus
        invariant first <= selGroup <= modulus + 1 && ids == AllIds(groups[first - 1..selGroup - 1])
        invariant selUpd == updCt
                  ==> selRec == TotalCount(groups[..selGroup - 1]) && selBytes == TotalBytes(groups[..selGroup - 1])
        invariant ids != [] ==> selGroup > first
        invariant Valid()
        decreases modulus + 1 - selGroup
      {
        NextListed(groups, first - 1, selGroup - 1);
        NextGroup(groups, selGroup - 1);
        ids := SelectOne();
        assert [] + ids == ids;
      }
    }

    /** List the ids of the next group that has any; a group number past the last one, and a
        resize no longer held off, mark the end of the select. */
    method SelectGroup() returns (ids: seq<Id>)
      requires Valid() && Selecting() && selGroup != 0
      modifies `selGroup, `selRec, `selBytes, `loadBytes, `recordCount, `inhibitCount
      ensures Valid() && Selecting()
      ensures |Groups()| == modulus && (selGroup == 0 || old(selGroup) < selGroup <= modulus)
      ensures ids == AllIds(Groups()[old(selGroup) - 1..(if selGroup == 0 then modulus else selGroup - 1)])
      ensures selGroup == 0 || ids != []
      ensures inhibitCount == old(inhibitCount) - (if selGroup == 0 then 1 else 0)
      ensures selGroup == 0 && selUpd == updCt && !readOnly ==> recordCount == mean.count
    {
      hide Standing, AllIds, IdsOf, TotalBytes, TotalCount, AllGroups;
      ids := PassGroups();
      if selGroup > modulus {
        assert Groups()[..modulus] == Groups();
        FinishSelect();
      }
    }

    /** Begin a select and list the first group that has records. */
    method Select() returns (ids: seq<Id>)
      requires Valid() && Selecting() && inhibitCount >= 0
      modifies `selGroup, `selUpd, `selRec, `selBytes, `loadBytes, `recordCount, `inhibitCount
      ensures Valid() && Selecting()
      ensures ids == AllIds(Groups()[..(if selGroup == 0 then modulus else selGroup - 1)])
      ensures selGroup == 0 || ids != []
      ensures inhibitCount == old(inhibitCount) - (if old(selGroup) != 0 then 1 else 0) + (if selGroup == 0 then 0 else 1)
      ensures selGroup == 0 && !readOnly ==> recordCount == mean.count
      ensures selUpd == updCt
    {
      hide Standing, AllIds, AllGroups, IsPow2, Image, RootOk, Sound, Partition, RecsAt;
      StandsFacts(Dsk(), lay, groupSize, naming, Par(), mean);
      GroupsLength(Dsk(), lay, modulus);
      if selGroup != 0 {
        inhibitCount := inhibitCount - 1;
      }
      inhibitCount := inhibitCount + 1;
      selUpd, selRec, selBytes, selGroup := updCt, 0, 0, 1;
      assert Groups()[..0] == [];
      ids := SelectGroup();
    }

    /** How far a select that is asked to list everything gets: an event that arrives at group
        `stopAt` stops it there; 0 stands for no event. */
    ghost function Reach(first: nat, stopAt: nat): nat
      reads `modulus
    {
      if stopAt == 0 || stopAt > modulus then modulus else if stopAt < first then first - 1 else stopAt - 1
    }

    /** List groups until an event, or to the last. */
    method ListUpTo(stopAt: nat) returns (ids: seq<Id>)
      requires Valid() && Selecting() && selGroup != 0
      modifies `selGroup, `selRec, `selBytes
      ensures Valid() && old(selGroup) <= selGroup <= modulus + 1 == |Groups()| + 1
      ensures selGroup - 1 == Reach(old(selGroup), stopAt)
      ensures ids == AllIds(Groups()[old(selGroup) - 1..selGroup - 1])
      ensures selUpd == updCt ==> selRec == TotalCount(Groups()[..selGroup - 1])
      ensures selUpd == updCt ==> selBytes == TotalBytes(Groups()[..selGroup - 1])
    {
      hide Standing, AllIds, IdsOf, TotalBytes, TotalCount, AllGroups, DhFile.Stands;
      ghost var groups, first := Groups(), selGroup;
      GroupsLength(Dsk(), lay, modulus);
      ids := [];
      NothingListed(groups, first - 1);
      while selGroup <= modulus && !(stopAt != 0 && selGroup >= stopAt)
        invariant first <= selGroup <= modulus + 1 && ids == AllIds(groups[first - 1..selGroup - 1])
        invariant selUpd == updCt
                  ==> selRec == TotalCount(groups[..selGroup - 1]) && selBytes == TotalBytes(groups[..selGroup - 1])
        invariant stopAt != 0 ==> selGroup <= stopAt || selGroup == first
        invariant Valid()
        decreases modulus + 1 - selGroup
      {
        NextListed(groups, first - 1, selGroup - 1);
        NextGroup(groups, selGroup - 1);
        var more := SelectOne();
        ids := ids + more;
      }
    }

    /** List all remaining groups. The counts go into the file header even when an event has cut
        the list short, and then they are exact only if no record was left out. */
    method CompleteSelect(stopAt: nat) returns (ids: seq<Id>)
      requires Valid() && Selecting() && selGroup != 0
      modifies `selGroup, `selRec, `selBytes, `loadBytes, `recordCount, `inhibitCount
      ensures Configured() && Stands({}) && selGroup == 0 && inhibitCount == old(inhibitCount) - 1
      ensures old(selGroup) - 1 <= Reach(old(selGroup), stopAt) <= |Groups()| == modulus
      ensures ids == AllIds(Groups()[old(selGroup) - 1..Reach(old(selGroup), stopAt)])
      ensures var all, first, end := old(Groups()), old(selGroup) - 1, Reach(old(selGroup), stopAt);
              && end <= |all|
              && (Valid() <==> !(old(selUpd) == old(updCt) && !readOnly && TotalCount(all[first..end]) != 0)
                               || TotalCount(all[end..]) == 0)
              && (old(selUpd) == old(updCt) && !readOnly && TotalCount(all[first..end]) != 0 ==>
                    recordCount == TotalCount(all[..end]))
    {
      hide Standing, AllIds, IdsOf, TotalBytes, TotalCount, AllGroups;
      ghost var first := selGroup - 1;
      ids := ListUpTo(stopAt);
      NothingLeft(Groups()[first..selGroup - 1]);
      StopSelect(ids != [], selGroup - 1);
    }

    /** For instance: a select that is asked to list everything and interrupted at the second group
        leaves a wrong count when the first two groups have records. */
    method CutShort() returns (ids: seq<Id>)
      requires Valid() && Selecting() && selGroup == 1 && selUpd == updCt && !readOnly && modulus >= 2
      requires |Groups()| == modulus && Groups()[0] != [] && Groups()[1] != []
      modifies `selGroup, `selRec, `selBytes, `loadBytes, `recordCount, `inhibitCount
      ensures !Valid() && selGroup == 0 && 0 < recordCount < mean.count
    {
      hide Standing, AllIds, IdsOf, TotalBytes, TotalCount, AllGroups;
      ghost var groups := Groups();
      SomeCounted(groups, 0, 1);
      SomeCounted(groups, 1, |groups|);
      assert groups[..1] == groups[0..1] && groups[1..] == groups[1..|groups|];
      CountsLeft(Dsk(), lay, groupSize, naming, Par(), mean, 1);
      CountsSum(Dsk(), lay, groupSize, naming, Par(), mean, 1);
      ids := CompleteSelect(2);
    }

    /** End a select that has passed `passed` groups, keeping its counts if it listed anything. */
    method StopSelect(listed: bool, ghost passed: nat)
      requires Valid() && inhibitCount > 0 && passed <= |Groups()|
      requires selUpd == updCt ==> selRec == TotalCount(Groups()[..passed]) && selBytes == TotalBytes(Groups()[..passed])
      modifies `loadBytes, `recordCount, `inhibitCount, `selGroup
      ensures Configured() && Stands({}) && selGroup == 0 && inhibitCount == old(inhibitCount) - 1
      ensures Valid() <==> !(selUpd == updCt && !readOnly && listed) || TotalCount(Groups()[passed..]) == 0
      ensures selUpd == updCt && !readOnly && listed ==> recordCount == TotalCount(Groups()[..passed])
    {
      hide Standing, TotalBytes, TotalCount, AllGroups;
      CountsLeft(Dsk(), lay, groupSize, naming, Par(), mean, passed);
      if listed {
        if selUpd == updCt && !readOnly {
          recordCount, loadBytes := selRec, selBytes;
        }
      }
      inhibitCount, selGroup := inhibitCount - 1, 0;
    }

    /** End a select without its counts. */
    method EndSelect()
      requires Valid() && Selecting()
      modifies `selGroup, `inhibitCount
      ensures Valid() && Selecting() && selGroup == 0
      ensures inhibitCount == old(inhibitCount) - (if old(selGroup) != 0 then 1 else 0)
    {
      hide Standing;
      if selGroup != 0 {
        inhibitCount, selGroup := inhibitCount - 1, 0;
      }
    }

    /** List the whole file: every key once, and the totals recomputed are the ones kept. */
    method SelectAll() returns (ids: seq<Id>)
      requires Valid() && Selecting() && inhibitCount >= 0
      modifies `selGroup, `selUpd, `selRec, `selBytes, `loadBytes, `recordCount, `inhibitCount
      ensures Valid() && selGroup == 0
      ensures ids == AllIds(Groups()) && DifferentKeys(naming, ids) && |ids| == |Contents()|
      ensures forall k :: Lists(naming, ids, k) <==> k in Contents()
      ensures inhibitCount == old(inhibitCount) - (if old(selGroup) != 0 then 1 else 0)
    {
      hide Standing, AllIds, AllGroups, Lists, DifferentKeys, TotalBytes, TotalCount;
      ListingFacts(Dsk(), lay, groupSize, naming, Par(), mean);
      ids := Select();
      ghost var groups := Groups();
      if selGroup != 0 {
        ghost var first := selGroup;
        var rest := CompleteSelect(0);
        assert groups[..first - 1] + groups[first - 1..modulus] == groups;
        IdsConcat(groups[..first - 1], groups[first - 1..modulus]);
        NothingCounted(groups);
        ids := ids + rest;
      } else {
        assert groups[..modulus] == groups;
      }
    }

    // ----------------------------------------------------------------------
    // Runs

    /** Perform any sequence of operations: the file ends up standing for the map that the same
        operations make of the map it stood for. */
    method Run(ops: seq<Op>)
      requires Valid() && Selecting() && inhibitCount >= 0
      requires forall i | 0 <= i < |ops| :: Allowed(ops[i], bigRecSize)
      modifies this
      ensures Valid() && Selecting() && inhibitCount >= 0
      ensures Contents() == AfterAll(naming, old(Contents()), ops)
    {
      hide Standing, AllGroups, TotalBytes, TotalCount;
      ghost var m0 := Contents();
      for i := 0 to |ops|
        invariant Valid() && Selecting() && inhibitCount >= 0 && bigRecSize == old(bigRecSize)
        invariant Contents() == AfterAll(naming, m0, ops[..i])
      {
        AfterNext(naming, m0, ops, i);
        Perform(ops[i]);
      }
      assert ops[..|ops|] == ops;
    }

    method Perform(op: Op)
      requires Valid() && Selecting() && inhibitCount >= 0 && Allowed(op, bigRecSize)
      modifies this
      ensures Valid() && Selecting() && inhibitCount >= 0 && bigRecSize == old(bigRecSize)
      ensures Contents() == AfterOp(naming, old(Contents()), op)
    {
      hide Standing, AllGroups, TotalBytes, TotalCount, AllIds;
      match op {
        case PutOp(id, chunks) => Write(id, chunks);
        case RemoveOp(id) => var _ := Delete(id);
        case ClearOp => Clear();
        case ResizeOp => var _ := ForceResize();
        case ListOp => var _ := SelectAll();
        case NextOp =>
          if selGroup == 0 {
            var _ := Select();
          } else {
            var _ := SelectGroup();
          }
      }
    }
  }

  /** What a program can do to a file. */
  datatype Op = PutOp(id: Id, chunks: seq<Data>) | RemoveOp(id: Id) | ClearOp | ResizeOp | ListOp | NextOp

  predicate Allowed(op: Op, bigRecSize: int) {
    op.PutOp? ==> |op.id| <= MAX_KEY_LEN && (Flat(op.chunks) != [] || RECORD_HEADER_SIZE + |op.id| < bigRecSize)
  }

  /** What each operation does to a map. */
  function AfterOp(n: Naming, m: map<Id, Data>, op: Op): map<Id, Data> {
    match op
    case PutOp(id, chunks) => m[Key(n, id) := Flat(chunks)]
    case RemoveOp(id) => m - {Key(n, id)}
    case ClearOp => map[]
    case _ => m
  }

  function AfterAll(n: Naming, m: map<Id, Data>, ops: seq<Op>): map<Id, Data> {
    if ops == [] then m else AfterOp(n, AfterAll(n, m, ops[..|ops| - 1]), ops[|ops| - 1])
  }

  lemma AfterNext(n: Naming, m: map<Id, Data>, ops: seq<Op>, i: nat)
    requires i < |ops|
    ensures AfterAll(n, m, ops[..i + 1]) == AfterOp(n, AfterAll(n, m, ops[..i]), ops[i])
  {
    assert ops[..i + 1][..i] == ops[..i];
  }

  datatype Lookup = Missing | Present(actual: Id, data: Data)
}
