/** Index keys and their left-justified order, index records and their sizes, and sorted lists of
    records as maps. */
module AkOrder {
  import opened Blocks
  import T = Tables
  import opened Sequences

  const DH_AK_NODE_SIZE := 4096
  const TERM_NODE_HEADER_SIZE := 12
  const INT_NODE_HEADER_SIZE := 1004
  const MAX_CHILD := 200
  const AK_BIG_REC_SIZE := 3300

  // ------------------------------------------------------------------------
  // The order of keys

  /** A key as the weights its bytes are compared by. */
  type Rank = seq<int>

  /** Without regard to case the upper-case byte is compared, as a signed character. */
  function Weight(noCase: bool, b: byte): int {
    if !noCase then b as int
    else if T.UpperCase(b) < 128 then T.UpperCase(b) as int
    else T.UpperCase(b) as int - 256
  }

  function RankOf(noCase: bool, id: Id): (r: Rank)
    ensures |r| == |id|
  {
    seq(|id|, i requires 0 <= i < |id| => Weight(noCase, id[i]))
  }

  /** The first byte that differs decides; failing that, the shorter key is the lesser. */
  predicate Less(a: Rank, b: Rank) {
    b != [] && (a == [] || a[0] < b[0] || (a[0] == b[0] && Less(a[1..], b[1..])))
  }

  lemma {:induction false} LessIrreflexive(a: Rank)
    ensures !Less(a, a)
  {
    if a != [] {
      LessIrreflexive(a[1..]);
    }
  }

  lemma {:induction false} LessTransitive(a: Rank, b: Rank, c: Rank)
    requires Less(a, b) && Less(b, c)
    ensures Less(a, c)
  {
    if a != [] && a[0] == b[0] && b[0] == c[0] {
      LessTransitive(a[1..], b[1..], c[1..]);
    }
  }

  lemma {:induction false} LessTotal(a: Rank, b: Rank)
    ensures a == b || Less(a, b) || Less(b, a)
    ensures !(Less(a, b) && Less(b, a))
  {
    if a != [] && b != [] && a[0] == b[0] {
      LessTotal(a[1..], b[1..]);
      assert a == [a[0]] + a[1..] && b == [b[0]] + b[1..];
    }
  }

  /** Not greater is less or equal. */
  lemma NotLess(a: Rank, b: Rank)
    ensures !Less(a, b) <==> b == a || Less(b, a)
  {
    LessTotal(a, b);
    LessIrreflexive(a);
  }

  lemma {:induction false} LessAfter(a: Rank, b: Rank, i: nat)
    requires i <= |a| && i <= |b| && a[..i] == b[..i]
    ensures Less(a, b) <==> Less(a[i..], b[i..])
  {
    if i == 0 {
      assert a[0..] == a && b[0..] == b;
    } else {
      assert a[0] == a[..i][0] == b[..i][0] == b[0];
      assert a[1..][..i - 1] == a[..i][1..] == b[..i][1..] == b[1..][..i - 1];
      LessAfter(a[1..], b[1..], i - 1);
      assert a[1..][i - 1..] == a[i..] && b[1..][i - 1..] == b[i..];
    }
  }

  lemma SameWeight(noCase: bool, a: byte, b: byte)
    ensures Weight(noCase, a) == Weight(noCase, b) <==> if noCase then T.SameLetter(a, b) else a == b
  {
  }

  /** Ids have one rank exactly when they name one record. */
  lemma RanksAreIds(noCase: bool, a: Id, b: Id)
    ensures RankOf(noCase, a) == RankOf(noCase, b) <==> T.SameId(noCase, a, b)
  {
    hide Weight;
    if |a| == |b| {
      forall i | 0 <= i < |a|
        ensures RankOf(noCase, a)[i] == RankOf(noCase, b)[i] <==> if noCase then T.SameLetter(a[i], b[i]) else a[i] == b[i]
      {
        SameWeight(noCase, a[i], b[i]);
      }
    }
  }

  /** Bytes in the order of their values; without regard to case, a letter counts as its capital, and the
      bytes from 128 on come before all others. */
  predicate ByteBefore(noCase: bool, a: byte, b: byte) {
    if !noCase then a < b
    else if a >= 128 then b < 128 || a < b
    else
      && b < 128
      && (if 97 <= a <= 122 then a as int - 32 else a as int) < (if 97 <= b <= 122 then b as int - 32 else b as int)
  }

  /** The ids agree up to a place at which the first has the byte that comes before, or has ended. */
  ghost predicate ComesBefore(noCase: bool, a: Id, b: Id, i: nat) {
    && i <= |a| && i < |b| && T.SameId(noCase, a[..i], b[..i])
    && (i < |a| ==> ByteBefore(noCase, a[i], b[i]))
  }

  ghost predicate Precedes(noCase: bool, a: Id, b: Id) {
    exists i: nat :: ComesBefore(noCase, a, b, i)
  }

  lemma WeightBefore(noCase: bool, a: byte, b: byte)
    ensures Weight(noCase, a) < Weight(noCase, b) <==> ByteBefore(noCase, a, b)
  {
  }

  /** Where two ids first differ, or the end of one of them. */
  lemma {:induction false} FirstDifference(a: Rank, b: Rank) returns (i: nat)
    ensures i <= |a| && i <= |b| && a[..i] == b[..i] && (i < |a| && i < |b| ==> a[i] != b[i])
  {
    i := 0;
    while i < |a| && i < |b| && a[i] == b[i]
      invariant i <= |a| && i <= |b| && a[..i] == b[..i]
    {
      assert a[..i + 1] == a[..i] + [a[i]] && b[..i + 1] == b[..i] + [b[i]];
      i := i + 1;
    }
  }

  lemma RankPrefix(noCase: bool, a: Id, i: nat)
    requires i <= |a|
    ensures RankOf(noCase, a)[..i] == RankOf(noCase, a[..i])
  {
  }

  /** One rank is less exactly when its id comes before the other. */
  lemma LessIsBefore(noCase: bool, a: Id, b: Id)
    ensures Less(RankOf(noCase, a), RankOf(noCase, b)) <==> Precedes(noCase, a, b)
  {
    hide Weight, ByteBefore;
    var r, q := RankOf(noCase, a), RankOf(noCase, b);
    if Less(r, q) {
      var i := FirstDifference(r, q);
      BeforeAt(noCase, a, b, i);
      assert ComesBefore(noCase, a, b, i);
    }
    forall i: nat | ComesBefore(noCase, a, b, i) ensures Less(r, q) {
      RanksAreIds(noCase, a[..i], b[..i]);
      RankPrefix(noCase, a, i);
      RankPrefix(noCase, b, i);
      BeforeAt(noCase, a, b, i);
    }
  }

  lemma BeforeAt(noCase: bool, a: Id, b: Id, i: nat)
    requires i <= |a| && i <= |b| && RankOf(noCase, a)[..i] == RankOf(noCase, b)[..i]
    requires i < |a| && i < |b| ==> RankOf(noCase, a)[i] != RankOf(noCase, b)[i] || ByteBefore(noCase, a[i], b[i])
    ensures Less(RankOf(noCase, a), RankOf(noCase, b)) <==> ComesBefore(noCase, a, b, i)
  {
    hide Weight, ByteBefore, T.SameId;
    LessAfter(RankOf(noCase, a), RankOf(noCase, b), i);
    RankPrefix(noCase, a, i);
    RankPrefix(noCase, b, i);
    RanksAreIds(noCase, a[..i], b[..i]);
    if i < |a| && i < |b| {
      WeightBefore(noCase, a[i], b[i]);
    }
  }

  /** What an index that stands for a map has under an id. */
  function Indexed(noCase: bool, m: map<Rank, Data>, id: Id): T.Answer {
    if RankOf(noCase, id) in m then T.HasData(m[RankOf(noCase, id)]) else T.NoData
  }

  /** What is put under an id is there for every id that names the record, and for no other. */
  lemma PutIndexed(noCase: bool, m: map<Rank, Data>, id: Id, data: Data, x: Id)
    ensures Indexed(noCase, m[RankOf(noCase, id) := data], x)
            == if T.SameId(noCase, x, id) then T.HasData(data) else Indexed(noCase, m, x)
    ensures Indexed(noCase, m - {RankOf(noCase, id)}, x) == if T.SameId(noCase, x, id) then T.NoData else Indexed(noCase, m, x)
  {
    hide RankOf, T.SameId;
    RanksAreIds(noCase, x, id);
  }

  /** The comparison as it is made, byte by byte: negative, zero, or positive. */
  method Compare(s1: Id, s2: Id, noCase: bool) returns (d: int)
    ensures d < 0 <==> Less(RankOf(noCase, s1), RankOf(noCase, s2))
    ensures d == 0 <==> RankOf(noCase, s1) == RankOf(noCase, s2)
  {
    var i := 0;
    ghost var a, b := RankOf(noCase, s1), RankOf(noCase, s2);
    while i < |s1| && i < |s2|
      invariant i <= |s1| && i <= |s2| && a[..i] == b[..i]
    {
      d := Weight(noCase, s1[i]) - Weight(noCase, s2[i]);
      if d != 0 {
        LessAfter(a, b, i);
        assert a[i..][0] == a[i] && b[i..][0] == b[i];
        return;
      }
      assert a[..i + 1] == a[..i] + [a[i]] && b[..i + 1] == b[..i] + [b[i]];
      i := i + 1;
    }
    d := |s1| - |s2|;
    LessAfter(a, b, i);
    if d == 0 {
      assert a == a[..i] && b == b[..i];
      LessIrreflexive(a);
    }
  }

  // ------------------------------------------------------------------------
  // Records

  /** A record as a leaf holds it: the data of a large record is kept elsewhere. */
  predicate LeafSized(r: Record) {
    |r.id| <= MAX_KEY_LEN && (r.body.Inline? ==> RECORD_HEADER_SIZE + |r.id| + |r.body.data| < AK_BIG_REC_SIZE)
  }

  lemma SizeLimit(r: Record)
    requires LeafSized(r)
    ensures Size(r) <= AK_BIG_REC_SIZE
  {
  }

  /** A leaf's records fit its node. */
  predicate Fits(recs: seq<Record>) {
    TERM_NODE_HEADER_SIZE + Bytes(recs) <= DH_AK_NODE_SIZE
  }

  /** The node has 4096 bytes, of which 12 are header, and room for all that is stored in it. */
  lemma FitsHolds(recs: seq<Record>)
    ensures Fits(recs) <==> 12 + Bytes(recs) <= 4096
    ensures Fits(recs) ==> 12 + ContentBytes(recs) <= 4096
  {
    BytesAreContents(recs);
  }

  function KeyRank(noCase: bool, r: Record): Rank {
    RankOf(noCase, r.id)
  }

  // ------------------------------------------------------------------------
  // Sorted lists

  ghost predicate Sorted(noCase: bool, recs: seq<Record>) {
    forall i, j | 0 <= i < j < |recs| :: Less(KeyRank(noCase, recs[i]), KeyRank(noCase, recs[j]))
  }

  /** Where a key belongs: every record before is less, none from there on is. */
  ghost predicate Position(noCase: bool, recs: seq<Record>, k: Rank, p: nat) {
    && p <= |recs|
    && (forall i | 0 <= i < p :: Less(KeyRank(noCase, recs[i]), k))
    && (forall i | p <= i < |recs| :: !Less(KeyRank(noCase, recs[i]), k))
  }

  ghost predicate Hit(noCase: bool, recs: seq<Record>, k: Rank, p: nat) {
    p < |recs| && KeyRank(noCase, recs[p]) == k
  }

  /** In a sorted list one look decides the rest. */
  lemma PositionAt(noCase: bool, recs: seq<Record>, k: Rank, p: nat)
    requires Sorted(noCase, recs) && p <= |recs|
    requires p > 0 ==> Less(KeyRank(noCase, recs[p - 1]), k)
    requires p < |recs| ==> !Less(KeyRank(noCase, recs[p]), k)
    ensures Position(noCase, recs, k, p)
  {
    forall i | 0 <= i < p ensures Less(KeyRank(noCase, recs[i]), k) {
      if i < p - 1 {
        LessTransitive(KeyRank(noCase, recs[i]), KeyRank(noCase, recs[p - 1]), k);
      }
    }
    forall i | p <= i < |recs| ensures !Less(KeyRank(noCase, recs[i]), k) {
      if i > p && Less(KeyRank(noCase, recs[i]), k) {
        LessTransitive(KeyRank(noCase, recs[p]), KeyRank(noCase, recs[i]), k);
      }
    }
  }

  /** The list with the record put where its key belongs, over any record of the same key. */
  function PutAt(recs: seq<Record>, p: nat, hit: bool, r: Record): seq<Record>
    requires p <= |recs| && (hit ==> p < |recs|)
  {
    recs[..p] + [r] + recs[if hit then p + 1 else p..]
  }

  lemma PutSorted(noCase: bool, recs: seq<Record>, p: nat, r: Record)
    requires Sorted(noCase, recs) && Position(noCase, recs, KeyRank(noCase, r), p)
    ensures Sorted(noCase, PutAt(recs, p, Hit(noCase, recs, KeyRank(noCase, r), p), r))
  {
    hide Less, RankOf;
    var k := KeyRank(noCase, r);
    var hit := Hit(noCase, recs, k, p);
    var out := PutAt(recs, p, hit, r);
    var q := if hit then p + 1 else p;
    forall i | q <= i < |recs| ensures Less(k, KeyRank(noCase, recs[i])) {
      if !hit {
        NotLess(KeyRank(noCase, recs[p]), k);
      }
      if i > p {
        assert Less(KeyRank(noCase, recs[p]), KeyRank(noCase, recs[i]));
        if !hit {
          LessTransitive(k, KeyRank(noCase, recs[p]), KeyRank(noCase, recs[i]));
        }
      }
    }
    forall i, j | 0 <= i < j < |out| ensures Less(KeyRank(noCase, out[i]), KeyRank(noCase, out[j])) {
      var i0 := if i > p then i - 1 + (q - p) else i;
      var j0 := if j > p then j - 1 + (q - p) else j;
      assert i < p ==> out[i] == recs[i];
      assert j > p ==> out[j] == recs[j0];
      assert i > p ==> out[i] == recs[i0];
      if i == p {
        assert q <= j0;
      } else if j == p {
        assert Less(KeyRank(noCase, recs[i]), k);
      } else {
        assert j < p ==> out[j] == recs[j];
        assert Less(KeyRank(noCase, recs[i0]), KeyRank(noCase, recs[j0]));
      }
    }
  }

  lemma RemoveSorted(noCase: bool, recs: seq<Record>, p: nat)
    requires Sorted(noCase, recs) && p < |recs|
    ensures Sorted(noCase, RemoveAt(recs, p))
  {
    hide Less, RankOf;
    var out := RemoveAt(recs, p);
    forall i, j | 0 <= i < j < |out| ensures Less(KeyRank(noCase, out[i]), KeyRank(noCase, out[j])) {
      var i0, j0 := if i < p then i else i + 1, if j < p then j else j + 1;
      assert Less(KeyRank(noCase, recs[i0]), KeyRank(noCase, recs[j0]));
    }
  }

  // ------------------------------------------------------------------------
  // Sorted lists as maps

  /** The list holds the data of every key of the map, and nothing else. */
  ghost predicate Maps(noCase: bool, recs: seq<Record>, m: map<Rank, Body>) {
    && (forall r | r in recs :: KeyRank(noCase, r) in m && m[KeyRank(noCase, r)] == r.body)
    && (forall k | k in m :: HasRank(noCase, recs, k))
  }

  ghost predicate HasRank(noCase: bool, recs: seq<Record>, k: Rank) {
    exists r :: r in recs && KeyRank(noCase, r) == k
  }

  /** Looking where the key belongs decides membership. */
  lemma HitDecides(noCase: bool, recs: seq<Record>, m: map<Rank, Body>, k: Rank, p: nat)
    requires Sorted(noCase, recs) && Maps(noCase, recs, m) && Position(noCase, recs, k, p)
    ensures Hit(noCase, recs, k, p) <==> k in m
    ensures Hit(noCase, recs, k, p) ==> recs[p].body == m[k]
  {
    hide Less, RankOf;
    if Hit(noCase, recs, k, p) {
      assert recs[p] in recs;
    } else {
      forall r | r in recs ensures KeyRank(noCase, r) != k {
        var i :| 0 <= i < |recs| && recs[i] == r;
        OthersDiffer(noCase, recs, k, p, r);
      }
    }
  }

  lemma PutMaps(noCase: bool, recs: seq<Record>, m: map<Rank, Body>, p: nat, r: Record)
    requires Sorted(noCase, recs) && Maps(noCase, recs, m) && Position(noCase, recs, KeyRank(noCase, r), p)
    ensures Maps(noCase, PutAt(recs, p, Hit(noCase, recs, KeyRank(noCase, r), p), r), m[KeyRank(noCase, r) := r.body])
  {
    hide Less, RankOf;
    var k := KeyRank(noCase, r);
    var hit := Hit(noCase, recs, k, p);
    var out, q := PutAt(recs, p, hit, r), if hit then p + 1 else p;
    HitDecides(noCase, recs, m, k, p);
    PutMembers(recs, p, hit, r);
    forall x | x in out ensures KeyRank(noCase, x) in m[k := r.body] && m[k := r.body][KeyRank(noCase, x)] == x.body {
      if x != r {
        OthersDiffer(noCase, recs, k, p, x);
      }
    }
    forall x | x in m[k := r.body] ensures HasRank(noCase, out, x) {
      if x == k {
        assert r in out;
      } else {
        assert HasRank(noCase, recs, x);
        var y :| y in recs && KeyRank(noCase, y) == x;
        assert y in out;
      }
    }
  }

  lemma PutMembers(recs: seq<Record>, p: nat, hit: bool, r: Record)
    requires p <= |recs| && (hit ==> p < |recs|)
    ensures forall x :: x in PutAt(recs, p, hit, r) <==> x == r || (exists i :: 0 <= i < |recs| && recs[i] == x && !(hit && i == p))
  {
    var out, q := PutAt(recs, p, hit, r), if hit then p + 1 else p;
    forall x ensures x in out <==> x == r || (exists i :: 0 <= i < |recs| && recs[i] == x && !(hit && i == p)) {
      if x in out && x != r {
        var j :| 0 <= j < |out| && out[j] == x;
        var i := if j < p then j else j - 1 + (q - p);
        assert recs[i] == x;
      }
      if x == r {
        assert out[p] == r;
      }
      if i :| 0 <= i < |recs| && recs[i] == x && !(hit && i == p) {
        assert out[if i < p then i else i + 1 - (q - p)] == x;
      }
    }
  }

  /** Only the record at the key's own place can have the key. */
  lemma OthersDiffer(noCase: bool, recs: seq<Record>, k: Rank, p: nat, x: Record)
    requires Sorted(noCase, recs) && Position(noCase, recs, k, p)
    requires exists i :: 0 <= i < |recs| && recs[i] == x && !(Hit(noCase, recs, k, p) && i == p)
    ensures KeyRank(noCase, x) != k
  {
    hide Less, RankOf;
    var i :| 0 <= i < |recs| && recs[i] == x && !(Hit(noCase, recs, k, p) && i == p);
    LessIrreflexive(k);
    if i > p {
      assert Less(KeyRank(noCase, recs[p]), KeyRank(noCase, recs[i]));
    }
  }

  lemma RemoveMembers(recs: seq<Record>, p: nat)
    requires p < |recs|
    ensures forall x :: x in RemoveAt(recs, p) <==> exists i :: 0 <= i < |recs| && recs[i] == x && i != p
  {
    var out := RemoveAt(recs, p);
    forall x ensures x in out <==> exists i :: 0 <= i < |recs| && recs[i] == x && i != p {
      if x in out {
        var j :| 0 <= j < |out| && out[j] == x;
        assert recs[if j < p then j else j + 1] == x;
      }
      if i :| 0 <= i < |recs| && recs[i] == x && i != p {
        assert out[if i < p then i else i - 1] == x;
      }
    }
  }

  /** A record's own place in a sorted list is where its key belongs. */
  lemma OwnPosition(noCase: bool, recs: seq<Record>, p: nat)
    requires Sorted(noCase, recs) && p < |recs|
    ensures Position(noCase, recs, KeyRank(noCase, recs[p]), p)
  {
    hide Less, RankOf;
    var k := KeyRank(noCase, recs[p]);
    LessIrreflexive(k);
    forall i | p <= i < |recs| ensures !Less(KeyRank(noCase, recs[i]), k) {
      LessTotal(KeyRank(noCase, recs[i]), k);
    }
  }

  lemma RemoveMaps(noCase: bool, recs: seq<Record>, m: map<Rank, Body>, p: nat)
    requires Sorted(noCase, recs) && Maps(noCase, recs, m) && p < |recs|
    ensures Maps(noCase, RemoveAt(recs, p), m - {KeyRank(noCase, recs[p])})
  {
    hide Less, RankOf, Sorted, Position;
    var k, out := KeyRank(noCase, recs[p]), RemoveAt(recs, p);
    RemoveMembers(recs, p);
    OwnPosition(noCase, recs, p);
    forall x | x in out ensures x in recs && KeyRank(noCase, x) != k {
      OthersDiffer(noCase, recs, k, p, x);
    }
    forall x | x in m - {k} ensures HasRank(noCase, out, x) {
      assert HasRank(noCase, recs, x);
      var y :| y in recs && KeyRank(noCase, y) == x;
      assert y in out;
    }
  }
}
