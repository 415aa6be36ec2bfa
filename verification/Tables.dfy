/** The meaning of a file: its groups, as lists of records, represent a finite map from
    ids to data. What each operation does to the groups is matched here with what it does
    to the map. */
module Tables {
  import opened Addressing
  import opened Blocks
  import opened Sequences

  /** How ids are compared and hashed. The hash itself is arbitrary. */
  datatype Naming = Naming(noCase: bool, hash: Id -> nat)

  function UpperCase(b: byte): byte {
    if 97 <= b <= 122 then b - 32 else b
  }

  /** What identifies a record: its id, in upper case when the file ignores case. */
  function Key(n: Naming, id: Id): (k: Id)
    ensures |k| == |id|
  {
    if n.noCase then seq(|id|, i requires 0 <= i < |id| => UpperCase(id[i])) else id
  }

  /** Equal bytes, or one letter of the alphabet in upper and in lower case. */
  predicate SameLetter(a: byte, b: byte) {
    || a == b
    || (65 <= a <= 90 && b as int == a as int + 32)
    || (97 <= a <= 122 && b as int == a as int - 32)
  }

  /** Two ids that name one record: the same bytes, or but for the case of letters. */
  predicate SameId(noCase: bool, a: Id, b: Id) {
    |a| == |b| && forall i | 0 <= i < |a| :: if noCase then SameLetter(a[i], b[i]) else a[i] == b[i]
  }

  lemma SameUpperCase(a: byte, b: byte)
    ensures UpperCase(a) == UpperCase(b) <==> SameLetter(a, b)
  {
  }

  /** Ids have one key exactly when they name one record; in a file that minds case, when they are equal. */
  lemma KeysAreIds(n: Naming, a: Id, b: Id)
    ensures Key(n, a) == Key(n, b) <==> SameId(n.noCase, a, b)
    ensures !n.noCase ==> (Key(n, a) == Key(n, b) <==> a == b)
  {
    hide UpperCase, SameLetter;
    if n.noCase && |a| == |b| {
      forall i | 0 <= i < |a| ensures Key(n, a)[i] == Key(n, b)[i] <==> SameLetter(a[i], b[i]) {
        SameUpperCase(a[i], b[i]);
      }
    }
  }

  /** The key that is hashed has no lower-case letters if the file ignores case, and is the id if not. */
  lemma KeyIsUpperCase(n: Naming, id: Id)
    ensures SameId(n.noCase, Key(n, id), id)
    ensures n.noCase ==> forall i | 0 <= i < |id| :: !(97 <= Key(n, id)[i] <= 122)
  {
  }

  /** What a map has for an id. */
  datatype Answer = NoData | HasData(data: Data)

  function DataUnder(n: Naming, m: map<Id, Data>, id: Id): Answer {
    if Key(n, id) in m then HasData(m[Key(n, id)]) else NoData
  }

  /** What is put under an id is there for every id that names the record, and for no other. */
  lemma PutDataUnder(n: Naming, m: map<Id, Data>, id: Id, data: Data, x: Id)
    ensures DataUnder(n, m[Key(n, id) := data], x) == if SameId(n.noCase, x, id) then HasData(data) else DataUnder(n, m, x)
    ensures DataUnder(n, m - {Key(n, id)}, x) == if SameId(n.noCase, x, id) then NoData else DataUnder(n, m, x)
  {
    hide Key, SameId;
    KeysAreIds(n, x, id);
  }

  /** Which group each key is addressed to. */
  type Addresses = imap<Id, nat>

  ghost function HomeOf(at: Addresses, k: Id): nat {
    if k in at then at[k] else 0
  }

  /** The addresses that given file parameters make. */
  ghost function Address(n: Naming, p: Params): (at: Addresses)
    ensures forall k: Id :: HomeOf(at, k) == AddressOf(n, p, k)
  {
    imap k: Id :: AddressOf(n, p, k)
  }

  function AddressOf(n: Naming, p: Params, k: Id): nat {
    if 1 <= p.modulus <= p.modValue then GroupOf(n.hash(k), p) else 0
  }

  /** The byte-by-byte comparison made while a group is searched. */
  predicate Matches(n: Naming, a: Id, b: Id) {
    |a| == |b| && if n.noCase then forall i | 0 <= i < |a| :: UpperCase(a[i]) == UpperCase(b[i]) else a == b
  }

  lemma MatchesIsSameKey(n: Naming, a: Id, b: Id)
    ensures Matches(n, a, b) <==> Key(n, a) == Key(n, b)
  {
    if n.noCase && Key(n, a) == Key(n, b) {
      forall i | 0 <= i < |a| ensures UpperCase(a[i]) == UpperCase(b[i]) {
        assert Key(n, a)[i] == Key(n, b)[i];
      }
    }
  }

  function KeyOf(n: Naming, r: Record): Id {
    Key(n, r.id)
  }

  // ------------------------------------------------------------------------
  // Lists of records

  ghost predicate Has(n: Naming, recs: seq<Record>, k: Id) {
    exists r :: r in recs && KeyOf(n, r) == k
  }

  ghost predicate DistinctKeys(n: Naming, recs: seq<Record>) {
    forall i, j | 0 <= i < j < |recs| :: KeyOf(n, recs[i]) != KeyOf(n, recs[j])
  }

  lemma ListConcat(n: Naming, a: seq<Record>, b: seq<Record>)
    requires DistinctKeys(n, a) && DistinctKeys(n, b)
    requires forall r, s | r in a && s in b :: KeyOf(n, r) != KeyOf(n, s)
    ensures DistinctKeys(n, a + b)
  {
    var c := a + b;
    forall i, j | 0 <= i < j < |c| ensures KeyOf(n, c[i]) != KeyOf(n, c[j]) {
      if i < |a| <= j {
        assert c[i] in a && c[j] in b;
      }
    }
  }

  lemma ListRemove(n: Naming, recs: seq<Record>, at: nat)
    requires DistinctKeys(n, recs) && at < |recs|
    ensures DistinctKeys(n, RemoveAt(recs, at))
    ensures forall r :: r in RemoveAt(recs, at) <==> r in recs && KeyOf(n, r) != KeyOf(n, recs[at])
  {
    var t := RemoveAt(recs, at);
    forall r | r in recs && KeyOf(n, r) != KeyOf(n, recs[at]) ensures r in t {
      var j :| 0 <= j < |recs| && recs[j] == r;
      assert t[if j < at then j else j - 1] == r;
    }
  }

  lemma ListUpdate(n: Naming, recs: seq<Record>, at: nat, r: Record)
    requires DistinctKeys(n, recs) && at < |recs| && KeyOf(n, r) == KeyOf(n, recs[at])
    ensures DistinctKeys(n, recs[at := r])
    ensures forall x :: x in recs[at := r] <==> x == r || (x in recs && KeyOf(n, x) != KeyOf(n, r))
  {
    var t := recs[at := r];
    forall x | x in recs && KeyOf(n, x) != KeyOf(n, r) ensures x in t {
      var j :| 0 <= j < |recs| && recs[j] == x;
      assert t[j] == x;
    }
    assert t[at] == r;
  }

  // ------------------------------------------------------------------------
  // Groups and the map

  /** A record is in the group its key is addressed to and holds the map's data for that key,
      itself or through its large-record chain; `large` gives the first block and the bytes
      of every such chain. */
  ghost predicate Placed(n: Naming, at: Addresses, r: Record, g: nat, m: map<Id, Data>, large: map<Id, (nat, Data)>) {
    var k := KeyOf(n, r);
    && HomeOf(at, k) == g
    && k in m
    && match r.body
       case Inline(data) => k !in large && m[k] == data
       case Large(head) => k in large && large[k] == (head, m[k])
  }

  ghost predicate GroupTable(n: Naming, at: Addresses, groups: seq<seq<Record>>, g: nat,
                             m: map<Id, Data>, large: map<Id, (nat, Data)>)
    requires 1 <= g <= |groups|
  {
    && DistinctKeys(n, groups[g - 1])
    && forall r | r in groups[g - 1] :: Placed(n, at, r, g, m, large)
  }

  /** The groups represent the map. */
  ghost predicate TableOk(n: Naming, at: Addresses, groups: seq<seq<Record>>, m: map<Id, Data>,
                          large: map<Id, (nat, Data)>) {
    && (forall k :: 1 <= HomeOf(at, k) <= |groups|)
    && (forall g | 1 <= g <= |groups| :: GroupTable(n, at, groups, g, m, large))
    && (forall k | k in m :: Has(n, groups[HomeOf(at, k) - 1], k))
    && large.Keys <= m.Keys
  }

  /** Lookup in the one group an id can be in decides membership in the map. */
  lemma LookupDecides(n: Naming, at: Addresses, groups: seq<seq<Record>>, m: map<Id, Data>,
                      large: map<Id, (nat, Data)>, k: Id)
    requires TableOk(n, at, groups, m, large)
    ensures k in m <==> Has(n, groups[HomeOf(at, k) - 1], k)
  {
    assert GroupTable(n, at, groups, HomeOf(at, k), m, large);
    forall r | r in groups[HomeOf(at, k) - 1] ensures KeyOf(n, r) in m {
      assert Placed(n, at, r, HomeOf(at, k), m, large);
    }
  }

  /** Changing what the map says about one key does not disturb the groups of other keys. */
  lemma OthersKeep(n: Naming, at: Addresses, groups: seq<seq<Record>>, groups': seq<seq<Record>>,
                   m: map<Id, Data>, large: map<Id, (nat, Data)>, m': map<Id, Data>, large': map<Id, (nat, Data)>, k: Id, g: nat)
    requires TableOk(n, at, groups, m, large) && 1 <= g <= |groups| == |groups'| && g != HomeOf(at, k)
    requires groups'[g - 1] == groups[g - 1]
    requires SameBut(m, large, m', large', k)
    ensures GroupTable(n, at, groups', g, m', large')
  {
    assert GroupTable(n, at, groups, g, m, large);
    forall r | r in groups[g - 1] ensures Placed(n, at, r, g, m', large') {
      assert Placed(n, at, r, g, m, large);
    }
  }

  ghost predicate SameBut(m: map<Id, Data>, large: map<Id, (nat, Data)>, m': map<Id, Data>,
                          large': map<Id, (nat, Data)>, k: Id) {
    && (forall x | x != k :: (x in m <==> x in m') && (x in m ==> m'[x] == m[x]))
    && (forall x | x != k :: (x in large <==> x in large') && (x in large ==> large'[x] == large[x]))
    && large'.Keys <= m'.Keys
  }

  /** One group's list is replaced by one that differs only in the record of one key. */
  lemma OneGroupChanges(n: Naming, at: Addresses, groups: seq<seq<Record>>, recs: seq<Record>,
                        m: map<Id, Data>, large: map<Id, (nat, Data)>, m': map<Id, Data>, large': map<Id, (nat, Data)>, k: Id)
    requires TableOk(n, at, groups, m, large) && SameBut(m, large, m', large', k)
    requires DistinctKeys(n, recs)
    requires forall r | r in recs && KeyOf(n, r) == k :: Placed(n, at, r, HomeOf(at, k), m', large')
    requires forall r | KeyOf(n, r) != k :: r in recs <==> r in groups[HomeOf(at, k) - 1]
    requires k in m' ==> Has(n, recs, k)
    ensures TableOk(n, at, groups[HomeOf(at, k) - 1 := recs], m', large')
  {
    var groups' := groups[HomeOf(at, k) - 1 := recs];
    forall g | 1 <= g <= |groups'| ensures GroupTable(n, at, groups', g, m', large') {
      if g == HomeOf(at, k) {
        assert GroupTable(n, at, groups, g, m, large);
        forall r | r in recs ensures Placed(n, at, r, g, m', large') {
          if KeyOf(n, r) != k {
            assert Placed(n, at, r, g, m, large);
          }
        }
      } else {
        OthersKeep(n, at, groups, groups', m, large, m', large', k, g);
      }
    }
    forall x | x in m' ensures Has(n, groups'[HomeOf(at, x) - 1], x) {
      if x != k {
        assert Has(n, groups[HomeOf(at, x) - 1], x);
      }
    }
  }

  /** What a record says about the map, and the chain it needs or does without. */
  ghost predicate Introduces(n: Naming, r: Record, data: Data, large: map<Id, (nat, Data)>, large': map<Id, (nat, Data)>) {
    match r.body
    case Inline(d) => d == data && large' == large - {KeyOf(n, r)}
    case Large(head) => large' == large[KeyOf(n, r) := (head, data)]
  }

  /** Appending a record for a new id to its group adds that id to the map. */
  lemma InsertKeepsTable(n: Naming, at: Addresses, groups: seq<seq<Record>>, m: map<Id, Data>, large: map<Id, (nat, Data)>,
                         r: Record, data: Data, large': map<Id, (nat, Data)>)
    requires TableOk(n, at, groups, m, large) && KeyOf(n, r) !in m && Introduces(n, r, data, large, large')
    ensures var g := HomeOf(at, KeyOf(n, r));
            TableOk(n, at, groups[g - 1 := groups[g - 1] + [r]], m[KeyOf(n, r) := data], large')
  {
    var k := KeyOf(n, r);
    var recs := groups[HomeOf(at, k) - 1];
    assert GroupTable(n, at, groups, HomeOf(at, k), m, large);
    forall x | x in recs ensures KeyOf(n, x) != k {
      assert Placed(n, at, x, HomeOf(at, k), m, large);
    }
    ListConcat(n, recs, [r]);
    assert r in recs + [r];
    OneGroupChanges(n, at, groups, recs + [r], m, large, m[k := data], large', k);
  }

  /** Removing a record from its group removes its id from the map. */
  lemma RemoveKeepsTable(n: Naming, at: Addresses, groups: seq<seq<Record>>, m: map<Id, Data>, large: map<Id, (nat, Data)>,
                         g: nat, i: nat)
    requires TableOk(n, at, groups, m, large) && 1 <= g <= |groups| && i < |groups[g - 1]|
    ensures var k := KeyOf(n, groups[g - 1][i]);
            && k in m && HomeOf(at, k) == g
            && TableOk(n, at, groups[g - 1 := RemoveAt(groups[g - 1], i)], m - {k}, large - {k})
  {
    var recs := groups[g - 1];
    assert GroupTable(n, at, groups, g, m, large);
    assert Placed(n, at, recs[i], g, m, large);
    var k := KeyOf(n, recs[i]);
    ListRemove(n, recs, i);
    OneGroupChanges(n, at, groups, RemoveAt(recs, i), m, large, m - {k}, large - {k}, k);
  }

  /** Overwriting a record with another for the same id changes the data of that id. */
  lemma ReplaceKeepsTable(n: Naming, at: Addresses, groups: seq<seq<Record>>, m: map<Id, Data>, large: map<Id, (nat, Data)>,
                          g: nat, i: nat, r: Record, data: Data, large': map<Id, (nat, Data)>)
    requires TableOk(n, at, groups, m, large) && 1 <= g <= |groups| && i < |groups[g - 1]|
    requires KeyOf(n, groups[g - 1][i]) == KeyOf(n, r) && Introduces(n, r, data, large, large')
    ensures TableOk(n, at, groups[g - 1 := groups[g - 1][i := r]], m[KeyOf(n, r) := data], large')
  {
    var recs, k := groups[g - 1], KeyOf(n, r);
    assert GroupTable(n, at, groups, g, m, large);
    assert Placed(n, at, recs[i], g, m, large);
    ListUpdate(n, recs, i, r);
    OneGroupChanges(n, at, groups, recs[i := r], m, large, m[k := data], large', k);
  }

  // ------------------------------------------------------------------------
  // Splitting and merging

  /** The records of a list whose keys are addressed to group `g`, in their old order. */
  ghost function Addressed(n: Naming, at: Addresses, recs: seq<Record>, g: nat): seq<Record> {
    if recs == [] then []
    else (if HomeOf(at, KeyOf(n, recs[0])) == g then [recs[0]] else []) + Addressed(n, at, recs[1..], g)
  }

  lemma {:induction false} AddressedAppend(n: Naming, at: Addresses, recs: seq<Record>, r: Record, g: nat)
    ensures Addressed(n, at, recs + [r], g) == Addressed(n, at, recs, g) + if HomeOf(at, KeyOf(n, r)) == g then [r] else []
  {
    if recs == [] {
      assert [r][1..] == [];
    } else {
      assert (recs + [r])[1..] == recs[1..] + [r];
      AddressedAppend(n, at, recs[1..], r, g);
    }
  }

  /** Filtering keeps exactly the matching records. */
  lemma {:induction false} AddressedMembers(n: Naming, at: Addresses, recs: seq<Record>, g: nat)
    ensures forall r :: r in Addressed(n, at, recs, g) <==> r in recs && HomeOf(at, KeyOf(n, r)) == g
  {
    if recs != [] {
      AddressedMembers(n, at, recs[1..], g);
      assert recs == [recs[0]] + recs[1..];
    }
  }

  lemma {:induction false} AddressedDistinct(n: Naming, at: Addresses, recs: seq<Record>, g: nat)
    requires DistinctKeys(n, recs)
    ensures DistinctKeys(n, Addressed(n, at, recs, g))
  {
    if recs != [] {
      AddressedDistinct(n, at, recs[1..], g);
      AddressedMembers(n, at, recs[1..], g);
      forall r | r in recs[1..] ensures KeyOf(n, r) != KeyOf(n, recs[0]) {
        var i :| 0 <= i < |recs[1..]| && recs[1..][i] == r;
        assert recs[i + 1] == r;
      }
      ListConcat(n, if HomeOf(at, KeyOf(n, recs[0])) == g then [recs[0]] else [], Addressed(n, at, recs[1..], g));
    }
  }

  /** Two filters that share out the addresses share out the bytes and the records. */
  lemma {:induction false} AddressedConserves(n: Naming, at: Addresses, recs: seq<Record>, g: nat, h: nat)
    requires g != h
    requires forall r | r in recs :: HomeOf(at, KeyOf(n, r)) == g || HomeOf(at, KeyOf(n, r)) == h
    ensures Bytes(Addressed(n, at, recs, g)) + Bytes(Addressed(n, at, recs, h)) == Bytes(recs)
    ensures |Addressed(n, at, recs, g)| + |Addressed(n, at, recs, h)| == |recs|
  {
    if recs != [] {
      var a, b := Addressed(n, at, recs[1..], g), Addressed(n, at, recs[1..], h);
      AddressedConserves(n, at, recs[1..], g, h);
      BytesConcat([recs[0]], a);
      BytesConcat([recs[0]], b);
      BytesOne(recs[0]);
      assert recs[0] in recs;
      if HomeOf(at, KeyOf(n, recs[0])) == g {
        assert Addressed(n, at, recs, g) == [recs[0]] + a && Addressed(n, at, recs, h) == [] + b == b;
      } else {
        assert Addressed(n, at, recs, h) == [recs[0]] + b && Addressed(n, at, recs, g) == [] + a == a;
      }
    }
  }

  /** A change of addressing that moves keys of group `src` only, and those only to the
      group `last` that is added at the end. */
  ghost predicate Divides(at: Addresses, at': Addresses, src: nat, last: nat) {
    forall k :: HomeOf(at', k) == HomeOf(at, k) || (HomeOf(at, k) == src && HomeOf(at', k) == last)
  }

  /** The groups after a split: the divided group keeps the records still addressed to it,
      the new group takes the rest, and no other group changes. */
  ghost function SplitGroups(n: Naming, at': Addresses, groups: seq<seq<Record>>, src: nat): seq<seq<Record>>
    requires 1 <= src <= |groups|
  {
    Divided(groups, src, Addressed(n, at', groups[src - 1], src), Addressed(n, at', groups[src - 1], |groups| + 1))
  }

  function Divided(groups: seq<seq<Record>>, src: nat, stay: seq<Record>, move: seq<Record>): seq<seq<Record>>
    requires 1 <= src <= |groups|
  {
    groups[src - 1 := stay] + [move]
  }

  lemma SplitKeepsTable(n: Naming, at: Addresses, at': Addresses, groups: seq<seq<Record>>, src: nat,
                        m: map<Id, Data>, large: map<Id, (nat, Data)>)
    requires TableOk(n, at, groups, m, large) && 1 <= src <= |groups| && Divides(at, at', src, |groups| + 1)
    ensures TableOk(n, at', SplitGroups(n, at', groups, src), m, large)
  {
    var groups' := SplitGroups(n, at', groups, src);
    forall g | 1 <= g <= |groups'| ensures GroupTable(n, at', groups', g, m, large) {
      var old_g := if g == |groups| + 1 then src else g;
      assert GroupTable(n, at, groups, old_g, m, large);
      AddressedMembers(n, at', groups[old_g - 1], g);
      AddressedDistinct(n, at', groups[old_g - 1], g);
      forall r | r in groups'[g - 1] ensures Placed(n, at', r, g, m, large) {
        assert Placed(n, at, r, old_g, m, large);
      }
    }
    forall k | k in m ensures Has(n, groups'[HomeOf(at', k) - 1], k) {
      assert Has(n, groups[HomeOf(at, k) - 1], k);
      AddressedMembers(n, at', groups[src - 1], HomeOf(at', k));
    }
  }

  lemma SplitParts(n: Naming, at: Addresses, at': Addresses, groups: seq<seq<Record>>, src: nat,
                   m: map<Id, Data>, large: map<Id, (nat, Data)>)
    requires TableOk(n, at, groups, m, large) && 1 <= src <= |groups| && Divides(at, at', src, |groups| + 1)
    ensures var stay, move := Addressed(n, at', groups[src - 1], src), Addressed(n, at', groups[src - 1], |groups| + 1);
            |stay| + |move| == |groups[src - 1]| && Bytes(stay) + Bytes(move) == Bytes(groups[src - 1])
  {
    assert GroupTable(n, at, groups, src, m, large);
    forall r | r in groups[src - 1] ensures HomeOf(at', KeyOf(n, r)) == src || HomeOf(at', KeyOf(n, r)) == |groups| + 1 {
      assert Placed(n, at, r, src, m, large);
    }
    AddressedConserves(n, at', groups[src - 1], src, |groups| + 1);
  }

  /** Splitting neither adds nor loses records or bytes. */
  lemma SplitConserves(n: Naming, at: Addresses, at': Addresses, groups: seq<seq<Record>>, src: nat,
                       m: map<Id, Data>, large: map<Id, (nat, Data)>)
    requires TableOk(n, at, groups, m, large) && 1 <= src <= |groups| && Divides(at, at', src, |groups| + 1)
    ensures TotalBytes(SplitGroups(n, at', groups, src)) == TotalBytes(groups)
    ensures TotalCount(SplitGroups(n, at', groups, src)) == TotalCount(groups)
  {
    SplitParts(n, at, at', groups, src, m, large);
    TotalsShared(groups, src, Addressed(n, at', groups[src - 1], src), Addressed(n, at', groups[src - 1], |groups| + 1));
  }

  /** The groups after a merge: the last group's records follow those of group `tgt`. */
  function MergeGroups(groups: seq<seq<Record>>, tgt: nat): seq<seq<Record>>
    requires 1 <= tgt < |groups|
  {
    Folded(groups[..|groups| - 1], tgt, groups[|groups| - 1])
  }

  function Folded(rest: seq<seq<Record>>, tgt: nat, recs: seq<Record>): seq<seq<Record>>
    requires 1 <= tgt <= |rest|
  {
    rest[tgt - 1 := rest[tgt - 1] + recs]
  }

  lemma MergeKeepsTable(n: Naming, at: Addresses, at': Addresses, groups: seq<seq<Record>>, tgt: nat,
                        m: map<Id, Data>, large: map<Id, (nat, Data)>)
    requires TableOk(n, at, groups, m, large) && 1 <= tgt < |groups|
    requires forall k :: HomeOf(at', k) == if HomeOf(at, k) == |groups| then tgt else HomeOf(at, k)
    ensures TableOk(n, at', MergeGroups(groups, tgt), m, large)
  {
    var groups', src := MergeGroups(groups, tgt), |groups|;
    assert GroupTable(n, at, groups, src, m, large);
    forall g | 1 <= g <= |groups'| ensures GroupTable(n, at', groups', g, m, large) {
      assert GroupTable(n, at, groups, g, m, large);
      forall r | r in groups'[g - 1] ensures Placed(n, at', r, g, m, large) {
        assert Placed(n, at, r, g, m, large) || Placed(n, at, r, src, m, large);
      }
      if g == tgt {
        forall r, s | r in groups[tgt - 1] && s in groups[src - 1] ensures KeyOf(n, r) != KeyOf(n, s) {
          assert Placed(n, at, r, tgt, m, large) && Placed(n, at, s, src, m, large);
        }
        ListConcat(n, groups[tgt - 1], groups[src - 1]);
      }
    }
    forall k | k in m ensures Has(n, groups'[HomeOf(at', k) - 1], k) {
      assert Has(n, groups[HomeOf(at, k) - 1], k);
    }
  }

  // ------------------------------------------------------------------------
  // Totals

  /** The bytes and the number of all records. */
  function TotalBytes(groups: seq<seq<Record>>): nat {
    if groups == [] then 0 else Bytes(groups[0]) + TotalBytes(groups[1..])
  }

  function TotalCount(groups: seq<seq<Record>>): nat {
    if groups == [] then 0 else |groups[0]| + TotalCount(groups[1..])
  }

  /** The bytes that must be stored for all records. */
  function TotalContent(groups: seq<seq<Record>>): nat {
    if groups == [] then 0 else ContentBytes(groups[0]) + TotalContent(groups[1..])
  }

  /** The load is those bytes, and less than four more for each record. */
  lemma {:induction false} LoadIsContent(groups: seq<seq<Record>>)
    ensures TotalContent(groups) <= TotalBytes(groups) <= TotalContent(groups) + 3 * TotalCount(groups)
  {
    if groups != [] {
      BytesAreContents(groups[0]);
      LoadIsContent(groups[1..]);
    }
  }

  lemma {:induction false} TotalsUpdate(groups: seq<seq<Record>>, i: nat, recs: seq<Record>)
    requires i < |groups|
    ensures TotalBytes(groups[i := recs]) == TotalBytes(groups) - Bytes(groups[i]) + Bytes(recs)
    ensures TotalCount(groups[i := recs]) == TotalCount(groups) - |groups[i]| + |recs|
    ensures Bytes(groups[i]) <= TotalBytes(groups) && |groups[i]| <= TotalCount(groups)
  {
    if i == 0 {
      assert groups[0 := recs][1..] == groups[1..];
    } else {
      assert groups[i := recs][1..] == groups[1..][i - 1 := recs];
      TotalsUpdate(groups[1..], i - 1, recs);
    }
  }

  lemma {:induction false} TotalsAppend(groups: seq<seq<Record>>, recs: seq<Record>)
    ensures TotalBytes(groups + [recs]) == TotalBytes(groups) + Bytes(recs)
    ensures TotalCount(groups + [recs]) == TotalCount(groups) + |recs|
  {
    if groups == [] {
      assert [recs][1..] == [];
    } else {
      assert (groups + [recs])[1..] == groups[1..] + [recs];
      TotalsAppend(groups[1..], recs);
    }
  }

  lemma TotalsShared(groups: seq<seq<Record>>, src: nat, a: seq<Record>, b: seq<Record>)
    requires 1 <= src <= |groups| && Bytes(a) + Bytes(b) == Bytes(groups[src - 1]) && |a| + |b| == |groups[src - 1]|
    ensures TotalBytes(Divided(groups, src, a, b)) == TotalBytes(groups)
    ensures TotalCount(Divided(groups, src, a, b)) == TotalCount(groups)
  {
    TotalsUpdate(groups, src - 1, a);
    TotalsAppend(groups[src - 1 := a], b);
  }

  lemma TotalsLast(groups: seq<seq<Record>>)
    requires groups != []
    ensures var rest, recs := groups[..|groups| - 1], groups[|groups| - 1];
            && TotalBytes(groups) == TotalBytes(rest) + Bytes(recs)
            && TotalCount(groups) == TotalCount(rest) + |recs|
  {
    var rest, recs := groups[..|groups| - 1], groups[|groups| - 1];
    assert groups == rest + [recs];
    TotalsAppend(rest, recs);
  }

  lemma TotalsFolded(rest: seq<seq<Record>>, tgt: nat, recs: seq<Record>)
    requires 1 <= tgt <= |rest|
    ensures TotalBytes(Folded(rest, tgt, recs)) == TotalBytes(rest) + Bytes(recs)
    ensures TotalCount(Folded(rest, tgt, recs)) == TotalCount(rest) + |recs|
  {
    BytesConcat(rest[tgt - 1], recs);
    TotalsUpdate(rest, tgt - 1, rest[tgt - 1] + recs);
  }

  /** Merging neither adds nor loses records or bytes. */
  lemma MergeConserves(groups: seq<seq<Record>>, tgt: nat)
    requires 1 <= tgt < |groups|
    ensures TotalBytes(MergeGroups(groups, tgt)) == TotalBytes(groups)
    ensures TotalCount(MergeGroups(groups, tgt)) == TotalCount(groups)
  {
    TotalsLast(groups);
    TotalsFolded(groups[..|groups| - 1], tgt, groups[|groups| - 1]);
  }

  /** Linear-hash addressing divides one group when the file grows and folds the last group
      into its buddy when it shrinks. */
  lemma GrowingDivides(n: Naming, p: Params)
    requires p.Valid()
    ensures Grow(p).Valid() && 1 <= Buddy(Grow(p)) <= p.modulus
    ensures Divides(Address(n, p), Address(n, Grow(p)), Buddy(Grow(p)), p.modulus + 1)
  {
    GrowMovesOneGroup(0, p);
    forall k: Id
      ensures HomeOf(Address(n, Grow(p)), k) == HomeOf(Address(n, p), k)
              || (HomeOf(Address(n, p), k) == Buddy(Grow(p)) && HomeOf(Address(n, Grow(p)), k) == p.modulus + 1)
    {
      GrowMovesOneGroup(n.hash(k), p);
    }
  }

  lemma ShrinkingFolds(n: Naming, p: Params)
    requires p.Valid() && p.modulus >= 2
    ensures Shrink(p).Valid() && 1 <= Buddy(p) < p.modulus
    ensures forall k :: HomeOf(Address(n, Shrink(p)), k) == if HomeOf(Address(n, p), k) == p.modulus then Buddy(p) else HomeOf(Address(n, p), k)
  {
    ShrinkFoldsLastGroup(0, p);
    forall k: Id
      ensures HomeOf(Address(n, Shrink(p)), k) == if HomeOf(Address(n, p), k) == p.modulus then Buddy(p) else HomeOf(Address(n, p), k)
    {
      ShrinkFoldsLastGroup(n.hash(k), p);
    }
  }
}
