/** Records, the blocks that hold them, and their sizes in bytes. */
module Blocks {
  import opened Sequences

  newtype byte = x: int | 0 <= x < 256

  type Id = seq<byte>
  type Data = seq<byte>

  const BLOCK_HEADER_SIZE := 8
  const RECORD_HEADER_SIZE := 8
  const BIG_BLOCK_SIZE := 12
  const MAX_KEY_LEN := 255

  /** A record keeps its data beside its id, or names the first block of a large-record chain. */
  datatype Body = Inline(data: Data) | Large(head: nat)

  datatype Record = Record(id: Id, body: Body)

  /** Round up to a four-byte boundary. */
  function Pad4(n: nat): (p: nat)
    ensures n <= p < n + 4 && p % 4 == 0
  {
    n + (4 - n % 4) % 4
  }

  /** The space a record takes in its group block. */
  function Size(r: Record): (s: nat)
    ensures s >= RECORD_HEADER_SIZE
  {
    Pad4(RECORD_HEADER_SIZE + |r.id| + if r.body.Inline? then |r.body.data| else 0)
  }

  /** The bytes that must be stored for a record: eight of header, its id, and its data unless that is
      kept elsewhere. */
  function ContentSize(r: Record): nat {
    8 + |r.id| + if r.body.Inline? then |r.body.data| else 0
  }

  /** A record takes its bytes, rounded up to the next multiple of four. */
  lemma SizeIsContent(r: Record)
    ensures ContentSize(r) <= Size(r) < ContentSize(r) + 4 && Size(r) % 4 == 0
  {
  }

  /** A block of the primary or overflow subfile; `next` is an overflow block number or 0. */
  datatype Block =
    | DataBlock(next: nat, used: nat, recs: seq<Record>)
    | BigBlock(next: nat, dataLen: nat, data: Data)
    | FreeBlock(next: nat)

  const EmptyBlock := DataBlock(0, BLOCK_HEADER_SIZE, [])

  function Bytes(recs: seq<Record>): nat {
    if recs == [] then 0 else Size(recs[0]) + Bytes(recs[1..])
  }

  function ContentBytes(recs: seq<Record>): nat {
    if recs == [] then 0 else ContentSize(recs[0]) + ContentBytes(recs[1..])
  }

  /** The space records take is what they must store and less than four bytes more for each. */
  lemma {:induction false} BytesAreContents(recs: seq<Record>)
    ensures ContentBytes(recs) <= Bytes(recs) <= ContentBytes(recs) + 3 * |recs|
  {
    hide Size, ContentSize;
    if recs != [] {
      SizeIsContent(recs[0]);
      BytesAreContents(recs[1..]);
    }
  }

  lemma {:induction false} BytesConcat(a: seq<Record>, b: seq<Record>)
    ensures Bytes(a + b) == Bytes(a) + Bytes(b)
  {
    if a == [] {
      assert a + b == b;
    } else {
      assert (a + b)[1..] == a[1..] + b;
      BytesConcat(a[1..], b);
    }
  }

  lemma BytesOne(r: Record)
    ensures Bytes([r]) == Size(r)
  {
    assert [r][1..] == [];
    assert Bytes([]) == 0;
  }

  lemma BytesAppend(recs: seq<Record>, r: Record)
    ensures Bytes(recs + [r]) == Bytes(recs) + Size(r)
  {
    BytesConcat(recs, [r]);
    BytesOne(r);
  }

  lemma BytesRemove(recs: seq<Record>, i: nat)
    requires i < |recs|
    ensures Bytes(RemoveAt(recs, i)) == Bytes(recs) - Size(recs[i])
    ensures Size(recs[i]) <= Bytes(recs)
  {
    hide Size;
    assert recs == (recs[..i] + [recs[i]]) + recs[i + 1..];
    BytesConcat(recs[..i] + [recs[i]], recs[i + 1..]);
    BytesAppend(recs[..i], recs[i]);
    BytesConcat(recs[..i], recs[i + 1..]);
  }

  lemma BytesUpdate(recs: seq<Record>, i: nat, r: Record)
    requires i < |recs|
    ensures Bytes(recs[i := r]) == Bytes(recs) - Size(recs[i]) + Size(r)
  {
    var recs' := recs[i := r];
    BytesRemove(recs, i);
    BytesRemove(recs', i);
    assert RemoveAt(recs, i) == RemoveAt(recs', i);
  }

  lemma {:induction false} NoBytesNoRecords(recs: seq<Record>)
    ensures Bytes(recs) == 0 <==> recs == []
  {
  }

  /** The records of a chain of blocks, in chain order. */
  function RecsOf(bs: seq<Block>): seq<Record> {
    if bs == [] then [] else (if bs[0].DataBlock? then bs[0].recs else []) + RecsOf(bs[1..])
  }

  lemma {:induction false} RecsOfConcat(a: seq<Block>, b: seq<Block>)
    ensures RecsOf(a + b) == RecsOf(a) + RecsOf(b)
  {
    if a == [] {
      assert a + b == b;
    } else {
      assert (a + b)[1..] == a[1..] + b;
      RecsOfConcat(a[1..], b);
    }
  }

  lemma RecsOfOne(b: Block)
    requires b.DataBlock?
    ensures RecsOf([b]) == b.recs
  {
    assert [b][1..] == [];
    assert RecsOf([]) == [];
  }

  /** The records of a chain seen from one block of it. */
  lemma RecsOfAround(bs: seq<Block>, i: nat)
    requires i < |bs| && bs[i].DataBlock?
    ensures RecsOf(bs) == RecsOf(bs[..i]) + bs[i].recs + RecsOf(bs[i + 1..])
  {
    hide RecsOf;
    assert bs == bs[..i] + ([bs[i]] + bs[i + 1..]);
    RecsOfConcat(bs[..i], [bs[i]] + bs[i + 1..]);
    RecsOfConcat([bs[i]], bs[i + 1..]);
    RecsOfOne(bs[i]);
  }

  /** A data block whose byte count is exact and within the group size. */
  ghost predicate Packed(b: Block, groupSize: nat) {
    b.DataBlock? && b.used == BLOCK_HEADER_SIZE + Bytes(b.recs) && b.used <= groupSize
  }

  /** Such a block has room for all it holds. */
  lemma PackedHolds(b: Block, groupSize: nat)
    requires Packed(b, groupSize)
    ensures b.DataBlock? && 8 + ContentBytes(b.recs) <= b.used <= groupSize
  {
    BytesAreContents(b.recs);
  }

  lemma PackedRecordFits(b: Block, groupSize: nat, i: nat)
    requires Packed(b, groupSize) && i < |b.recs|
    ensures Size(b.recs[i]) <= groupSize - BLOCK_HEADER_SIZE
  {
    BytesRemove(b.recs, i);
  }

  /** The bytes of a large-record chain, in chain order. */
  function BigDataOf(bs: seq<Block>): Data {
    if bs == [] then [] else (if bs[0].BigBlock? then bs[0].data else []) + BigDataOf(bs[1..])
  }

  lemma {:induction false} BigDataOfConcat(a: seq<Block>, b: seq<Block>)
    ensures BigDataOf(a + b) == BigDataOf(a) + BigDataOf(b)
  {
    if a == [] {
      assert a + b == b;
    } else {
      assert (a + b)[1..] == a[1..] + b;
      BigDataOfConcat(a[1..], b);
    }
  }

  /** A complete large-record chain: every block but the last is full, the last one is not
      empty, and the first block holds the length of the whole record. */
  ghost predicate BigChain(bs: seq<Block>, groupSize: nat) {
    && bs != []
    && bs[0].BigBlock? && bs[0].dataLen == |BigDataOf(bs)|
    && BigFilled(bs, groupSize)
  }

  ghost predicate BigFilled(bs: seq<Block>, groupSize: nat) {
    forall i | 0 <= i < |bs| ::
      && bs[i].BigBlock?
      && 0 < |bs[i].data| <= groupSize - BIG_BLOCK_SIZE
      && (i + 1 < |bs| ==> |bs[i].data| == groupSize - BIG_BLOCK_SIZE)
  }

  /** A large record takes no more blocks than it must: each but the last has groupSize - 12 bytes of it. */
  lemma {:induction false} ChainLength(bs: seq<Block>, groupSize: nat)
    requires bs != [] && BigFilled(bs, groupSize)
    ensures (|bs| - 1) * (groupSize - 12) < |BigDataOf(bs)| <= |bs| * (groupSize - 12)
  {
    assert bs[0].BigBlock? && |bs[0].data| <= groupSize - 12;
    if |bs| == 1 {
      assert BigDataOf(bs[1..]) == [];
    } else {
      var rest, full := bs[1..], groupSize - 12;
      forall i | 0 <= i < |rest|
        ensures rest[i].BigBlock? && 0 < |rest[i].data| <= full && (i + 1 < |rest| ==> |rest[i].data| == full)
      {
        assert rest[i] == bs[i + 1] && (i + 1 < |rest| ==> bs[i + 1 + 1] == rest[i + 1]);
      }
      ChainLength(rest, groupSize);
      assert |bs[0].data| == full && |BigDataOf(bs)| == full + |BigDataOf(rest)|;
      assert (|rest| - 1) * full + full == (|bs| - 1) * full && |rest| * full + full == |bs| * full;
    }
  }
}
