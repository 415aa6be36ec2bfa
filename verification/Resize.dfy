/** When a file is split or merged, and why the resizing settles. */
module Resize {

  /** The configured thresholds: percentages of the nominal group space. */
  datatype Limits = Limits(groupSize: nat, minModulus: nat, splitLoad: nat, mergeLoad: nat) {
    predicate Valid() {
      groupSize >= 1 && minModulus >= 1
    }
  }

  datatype Decision = Split | Merge | Stay

  /** Percentage of the space of `modulus` groups that the records fill. */
  function Load(loadBytes: nat, groupSize: nat, modulus: nat): nat
    requires groupSize >= 1 && modulus >= 1
  {
    LoadIsDefined(groupSize, modulus);
    loadBytes * 100 / (groupSize * modulus)
  }

  lemma LoadIsDefined(groupSize: nat, modulus: nat)
    requires groupSize >= 1 && modulus >= 1
    ensures groupSize * modulus >= modulus && groupSize * modulus >= 1
  {
  }

  /** The load is the whole part of the percentage. */
  lemma LoadIsPercentage(loadBytes: nat, groupSize: nat, modulus: nat)
    requires groupSize >= 1 && modulus >= 1
    ensures var load := Load(loadBytes, groupSize, modulus);
            load * (groupSize * modulus) <= 100 * loadBytes < (load + 1) * (groupSize * modulus)
  {
    LoadIsDefined(groupSize, modulus);
  }

  /** The load compared with a threshold, without dividing. */
  lemma LoadAgainst(loadBytes: nat, groupSize: nat, modulus: nat, limit: nat)
    requires groupSize >= 1 && modulus >= 1
    ensures Load(loadBytes, groupSize, modulus) >= limit <==> 100 * loadBytes >= limit * (groupSize * modulus)
  {
    hide Load;
    LoadIsPercentage(loadBytes, groupSize, modulus);
    LoadIsDefined(groupSize, modulus);
    var load, space := Load(loadBytes, groupSize, modulus), groupSize * modulus;
    if load >= limit {
      Scaled(limit, load, space);
    } else {
      Scaled(load + 1, limit, space);
    }
  }

  lemma Scaled(a: nat, b: nat, c: nat)
    requires a <= b
    ensures a * c <= b * c
  {
  }

  /** The records fill more than the split load, a whole per cent at least, or groups are missing. */
  predicate MustSplit(l: Limits, loadBytes: nat, modulus: nat) {
    100 * loadBytes >= (l.splitLoad + 1) * (l.groupSize * modulus) || modulus < l.minModulus
  }

  /** They fill less than the merge load of groups that are not all needed. */
  predicate MightMerge(l: Limits, loadBytes: nat, modulus: nat) {
    100 * loadBytes < l.mergeLoad * (l.groupSize * modulus) && modulus > l.minModulus
  }

  /** And would fill less than the split load of one group fewer. */
  predicate MayMerge(l: Limits, loadBytes: nat, modulus: nat)
    requires modulus >= 1
  {
    MightMerge(l, loadBytes, modulus) && 100 * loadBytes < l.splitLoad * (l.groupSize * (modulus - 1))
  }

  /** The test made after a write or delete and by the forced resize call. */
  function Decide(l: Limits, loadBytes: nat, modulus: nat): Decision
    requires l.Valid() && modulus >= 1
  {
    var load := Load(loadBytes, l.groupSize, modulus);
    if load > l.splitLoad || modulus < l.minModulus then Split
    else if load < l.mergeLoad && modulus > l.minModulus
            && Load(loadBytes, l.groupSize, modulus - 1) < l.splitLoad then Merge
    else Stay
  }

  /** The tests that the split and the merge make again once they hold the file table lock. */
  predicate SplitStillNeeded(l: Limits, loadBytes: nat, modulus: nat)
    requires l.Valid() && modulus >= 1
  {
    !(Load(loadBytes, l.groupSize, modulus) <= l.splitLoad && modulus >= l.minModulus)
  }

  predicate MergeStillNeeded(l: Limits, loadBytes: nat, modulus: nat)
    requires l.Valid() && modulus >= 1
  {
    !(Load(loadBytes, l.groupSize, modulus) >= l.mergeLoad || modulus <= l.minModulus)
  }

  /** The modulus after one resize step. */
  function Step(l: Limits, loadBytes: nat, modulus: nat): (next: nat)
    requires l.Valid() && modulus >= 1
    ensures next >= 1
  {
    match Decide(l, loadBytes, modulus)
    case Split => modulus + 1
    case Merge => modulus - 1
    case Stay => modulus
  }

  /** What the tests decide, as products of the settings and the bytes. */
  lemma DecideByProducts(l: Limits, loadBytes: nat, modulus: nat)
    requires l.Valid() && modulus >= 1
    ensures Decide(l, loadBytes, modulus)
            == if MustSplit(l, loadBytes, modulus) then Split else if MayMerge(l, loadBytes, modulus) then Merge else Stay
    ensures SplitStillNeeded(l, loadBytes, modulus) <==> MustSplit(l, loadBytes, modulus)
    ensures MergeStillNeeded(l, loadBytes, modulus) <==> MightMerge(l, loadBytes, modulus)
  {
    hide Load;
    LoadAgainst(loadBytes, l.groupSize, modulus, l.splitLoad + 1);
    LoadAgainst(loadBytes, l.groupSize, modulus, l.mergeLoad);
    if modulus > l.minModulus {
      LoadAgainst(loadBytes, l.groupSize, modulus - 1, l.splitLoad);
    }
  }

  /** The recheck under the lock confirms every decision made without it on the same state. */
  lemma RecheckConfirms(l: Limits, loadBytes: nat, modulus: nat)
    requires l.Valid() && modulus >= 1
    ensures Decide(l, loadBytes, modulus) == Split <==> SplitStillNeeded(l, loadBytes, modulus)
    ensures Decide(l, loadBytes, modulus) == Merge ==> MergeStillNeeded(l, loadBytes, modulus)
  {
  }

  /** With an unchanging record total a step never undoes the step before it. */
  lemma StepNeverReverses(l: Limits, loadBytes: nat, modulus: nat)
    requires l.Valid() && modulus >= 1
    ensures Decide(l, loadBytes, modulus) == Split ==> Decide(l, loadBytes, modulus + 1) != Merge
    ensures Decide(l, loadBytes, modulus) == Merge ==> Decide(l, loadBytes, modulus - 1) != Split
    ensures Decide(l, loadBytes, modulus) == Stay ==> Step(l, loadBytes, modulus) == modulus
  {
  }

  /** A modulus at and beyond which no split can be needed. */
  function Ceiling(l: Limits, loadBytes: nat): nat {
    l.minModulus + loadBytes * 100 + 1
  }

  lemma NoSplitAtCeiling(l: Limits, loadBytes: nat, modulus: nat)
    requires l.Valid() && modulus >= Ceiling(l, loadBytes)
    ensures Decide(l, loadBytes, modulus) != Split
  {
    LoadIsDefined(l.groupSize, modulus);
    SmallQuotientIsZero(loadBytes * 100, l.groupSize * modulus);
  }

  lemma SmallQuotientIsZero(n: nat, d: nat)
    requires n < d
    ensures n / d == 0
  {
  }

  /** Distance that can still be travelled in the direction of the next step. */
  function Distance(l: Limits, loadBytes: nat, modulus: nat): (d: int)
    requires l.Valid() && modulus >= 1
  {
    match Decide(l, loadBytes, modulus)
    case Split => Ceiling(l, loadBytes) - modulus + 1
    case Merge => modulus
    case Stay => 0
  }

  /** The measure strictly falls with every step that changes anything. */
  lemma StepDecreasesDistance(l: Limits, loadBytes: nat, modulus: nat)
    requires l.Valid() && modulus >= 1 && Decide(l, loadBytes, modulus) != Stay
    ensures 0 <= Distance(l, loadBytes, Step(l, loadBytes, modulus)) < Distance(l, loadBytes, modulus)
  {
    StepNeverReverses(l, loadBytes, modulus);
    if modulus >= Ceiling(l, loadBytes) {
      NoSplitAtCeiling(l, loadBytes, modulus);
    }
    var next := Step(l, loadBytes, modulus);
    if next >= Ceiling(l, loadBytes) {
      NoSplitAtCeiling(l, loadBytes, next);
    }
  }

  /** Repeating the forced resize call: the modulus after `n` steps. */
  function After(l: Limits, loadBytes: nat, modulus: nat, n: nat): (m: nat)
    requires l.Valid() && modulus >= 1
    ensures m >= 1
    decreases n
  {
    if n == 0 then modulus else After(l, loadBytes, Step(l, loadBytes, modulus), n - 1)
  }

  /** Repeated resizing reaches a modulus it then keeps, within Distance steps, and on the
      way moves in one direction only. */
  lemma {:induction false} ResizingSettles(l: Limits, loadBytes: nat, modulus: nat)
    requires l.Valid() && modulus >= 1
    ensures var d := Distance(l, loadBytes, modulus);
            && d >= 0
            && Decide(l, loadBytes, After(l, loadBytes, modulus, d)) == Stay
    ensures Decide(l, loadBytes, modulus) == Split ==> forall n: nat :: After(l, loadBytes, modulus, n) >= modulus
    ensures Decide(l, loadBytes, modulus) == Merge ==> forall n: nat :: After(l, loadBytes, modulus, n) <= modulus
    ensures Decide(l, loadBytes, modulus) == Stay ==> forall n: nat :: After(l, loadBytes, modulus, n) == modulus
    decreases if Decide(l, loadBytes, modulus) == Stay then 0 else Distance(l, loadBytes, modulus) + 1
  {
    if Decide(l, loadBytes, modulus) == Stay {
      forall n: nat ensures After(l, loadBytes, modulus, n) == modulus {
        StaysPut(l, loadBytes, modulus, n);
      }
    } else {
      StepDecreasesDistance(l, loadBytes, modulus);
      StepNeverReverses(l, loadBytes, modulus);
      var next := Step(l, loadBytes, modulus);
      if modulus >= Ceiling(l, loadBytes) {
        NoSplitAtCeiling(l, loadBytes, modulus);
      }
      ResizingSettles(l, loadBytes, next);
      var d, d' := Distance(l, loadBytes, modulus), Distance(l, loadBytes, next);
      var rest := After(l, loadBytes, next, d');
      assert After(l, loadBytes, next, d - 1) == After(l, loadBytes, rest, d - 1 - d') by {
        AfterAdds(l, loadBytes, next, d', d - 1 - d');
      }
      StaysPut(l, loadBytes, rest, d - 1 - d');
      forall n: nat ensures n > 0 ==> After(l, loadBytes, modulus, n) == After(l, loadBytes, next, n - 1) {
      }
    }
  }

  lemma {:induction false} StaysPut(l: Limits, loadBytes: nat, modulus: nat, n: nat)
    requires l.Valid() && modulus >= 1 && Decide(l, loadBytes, modulus) == Stay
    ensures After(l, loadBytes, modulus, n) == modulus
  {
    if n > 0 {
      StaysPut(l, loadBytes, modulus, n - 1);
    }
  }

  lemma {:induction false} AfterAdds(l: Limits, loadBytes: nat, modulus: nat, i: nat, j: nat)
    requires l.Valid() && modulus >= 1
    ensures After(l, loadBytes, modulus, i + j) == After(l, loadBytes, After(l, loadBytes, modulus, i), j)
    decreases i
  {
    if i > 0 {
      AfterAdds(l, loadBytes, Step(l, loadBytes, modulus), i - 1, j);
    }
  }
}
