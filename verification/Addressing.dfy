/** Linear-hash addressing: how a hash value picks a group, and how one split or
    merge changes the modulus and its power-of-two companion. */
module Addressing {

  /** The two file parameters that addressing depends on. */
  datatype Params = Params(modulus: nat, modValue: nat) {

    /** modValue is the least power of two that is not below the modulus. */
    ghost predicate Valid() {
      && 1 <= modulus <= modValue
      && IsPow2(modValue)
      && forall p: nat | IsPow2(p) && modulus <= p :: modValue <= p
    }
  }

  ghost predicate IsPow2(n: nat) {
    n == 1 || (n > 1 && n % 2 == 0 && IsPow2(n / 2))
  }

  /** The group a hash value is stored in; groups are numbered from 1. */
  function GroupOf(hash: nat, p: Params): (group: nat)
    requires 1 <= p.modulus <= p.modValue
  {
    var group := hash % p.modValue + 1;
    if group > p.modulus && p.modValue >= 2 then hash % (p.modValue / 2) + 1 else group
  }

  /** Parameters after one group has been added. */
  function Grow(p: Params): Params {
    Params(p.modulus + 1, if p.modulus + 1 > p.modValue then p.modValue * 2 else p.modValue)
  }

  /** Parameters after the last group has been removed. */
  function Shrink(p: Params): Params
    requires p.modulus >= 1
  {
    Params(p.modulus - 1, if p.modulus - 1 == p.modValue / 2 then p.modValue / 2 else p.modValue)
  }

  /** The group that shares its ids with the last group: the one a split divides to
      create the last group, and the one a merge folds the last group into. */
  function Buddy(p: Params): int {
    p.modulus - 1 - p.modValue / 2 + 1
  }

  lemma {:induction false} Pow2Gap(p: nat, q: nat)
    requires IsPow2(p) && IsPow2(q) && p < q
    ensures 2 * p <= q
    decreases q
  {
    if p > 1 {
      Pow2Gap(p / 2, q / 2);
    }
  }

  /** Validity without the quantifier: the modulus lies in the upper half of modValue. */
  lemma {:induction false} ValidMeansUpperHalf(p: Params)
    ensures p.Valid() <==> 1 <= p.modulus <= p.modValue && IsPow2(p.modValue) && p.modValue / 2 < p.modulus
  {
    if 1 <= p.modulus <= p.modValue && IsPow2(p.modValue) {
      if p.modValue / 2 < p.modulus {
        forall q: nat | IsPow2(q) && p.modulus <= q ensures p.modValue <= q {
          if q < p.modValue {
            Pow2Gap(q, p.modValue);
          }
        }
      } else {
        assert IsPow2(p.modValue / 2);
      }
    }
  }

  /** Creation and clearing choose modValue with a doubling loop. */
  method InitialModValue(modulus: nat) returns (modValue: nat)
    requires modulus >= 1
    ensures Params(modulus, modValue).Valid()
  {
    modValue := 1;
    while modValue < modulus
      invariant IsPow2(modValue)
      invariant modValue / 2 < modulus
      decreases modulus - modValue
    {
      modValue := modValue * 2;
      assert modValue / 2 * 2 == modValue;
    }
    ValidMeansUpperHalf(Params(modulus, modValue));
  }

  /** The address is the remainder of the hash value by the power of two, counted from 1, or by half of
      it where that group is not there yet. */
  lemma AddressIsRemainder(hash: nat, p: Params, q: nat, r: nat)
    requires p.Valid() && hash == p.modValue * q + r && r < p.modValue
    ensures GroupOf(hash, p) == if r < p.modulus then r + 1 else r + 1 - p.modValue / 2
  {
    ValidMeansUpperHalf(p);
    UniqueResidue(hash, p.modValue, q, r);
    if r >= p.modulus {
      var half := p.modValue / 2;
      assert p.modValue == 2 * half;
      Twice(half, q);
      UniqueResidue(hash, half, 2 * q + 1, r - half);
    }
  }

  lemma Twice(half: nat, q: nat)
    ensures half * (2 * q + 1) == 2 * half * q + half
  {
  }

  /** Every address is an existing group. */
  lemma AddressInRange(hash: nat, p: Params)
    requires p.Valid()
    ensures 1 <= GroupOf(hash, p) <= p.modulus
  {
    ValidMeansUpperHalf(p);
  }

  /** The residue modulo 2u is the residue modulo u, with or without u added. */
  lemma ResidueHalves(hash: nat, u: nat)
    requires u >= 1
    ensures hash % (2 * u) == hash % u || hash % (2 * u) == hash % u + u
  {
    var q, r := hash / (2 * u), hash % (2 * u);
    assert hash == 2 * u * q + r;
    if r < u {
      UniqueResidue(hash, u, 2 * q, r);
    } else {
      assert hash == u * (2 * q + 1) + (r - u) by {
        assert u * (2 * q + 1) == 2 * u * q + u;
      }
      UniqueResidue(hash, u, 2 * q + 1, r - u);
    }
  }

  lemma UniqueResidue(n: nat, u: nat, q: nat, r: nat)
    requires r < u && n == u * q + r
    ensures n % u == r
  {
    var d := n / u - q;
    assert u * d == r - n % u by {
      assert n == u * (n / u) + n % u;
      Distribute(u, n / u, q);
    }
    NoMultipleBetween(u, d);
  }

  lemma Distribute(u: int, a: int, b: int)
    ensures u * (a - b) == u * a - u * b
  {
  }

  lemma NoMultipleBetween(u: int, d: int)
    requires u >= 0
    ensures d >= 1 ==> u * d >= u
    ensures d <= -1 ==> u * d <= -u
  {
  }

  lemma GrowValid(p: Params)
    requires p.Valid()
    ensures Grow(p).Valid() && 1 <= Buddy(Grow(p)) <= p.modulus
    ensures p.modValue / 2 < p.modulus && (p.modValue >= 2 ==> 2 * (p.modValue / 2) == p.modValue)
  {
    ValidMeansUpperHalf(p);
    var p' := Grow(p);
    assert p'.modValue == p.modValue || p'.modValue / 2 == p.modValue;
    ValidMeansUpperHalf(p');
  }

  /** A split keeps the parameters valid, adds exactly one group, and re-addresses only
      ids of the group it divides, and those only to the group it adds. */
  lemma GrowMovesOneGroup(hash: nat, p: Params)
    requires p.Valid()
    ensures Grow(p).Valid() && 1 <= Buddy(Grow(p)) <= p.modulus
    ensures GroupOf(hash, Grow(p)) == GroupOf(hash, p)
            || (GroupOf(hash, p) == Buddy(Grow(p)) && GroupOf(hash, Grow(p)) == p.modulus + 1)
  {
    hide IsPow2;
    GrowValid(p);
    ResidueHalves(hash, p.modValue);
    if p.modValue >= 2 {
      ResidueHalves(hash, p.modValue / 2);
    }
  }

  /** A merge undoes the parameter step of a split, and a split that of a merge. */
  lemma GrowShrinkInverse(p: Params)
    requires p.Valid()
    ensures Shrink(Grow(p)) == p
    ensures p.modulus >= 2 ==> Shrink(p).Valid() && Grow(Shrink(p)) == p
  {
    ValidMeansUpperHalf(p);
    if p.modulus >= 2 {
      assert p.modValue / 2 * 2 == p.modValue;
      ValidMeansUpperHalf(Shrink(p));
    }
  }

  /** A merge re-addresses exactly the ids of the last group, all to its buddy. */
  lemma ShrinkFoldsLastGroup(hash: nat, p: Params)
    requires p.Valid() && p.modulus >= 2
    ensures Shrink(p).Valid() && 1 <= Buddy(p) < p.modulus
    ensures GroupOf(hash, Shrink(p))
            == if GroupOf(hash, p) == p.modulus then Buddy(p) else GroupOf(hash, p)
  {
    GrowShrinkInverse(p);
    GrowMovesOneGroup(hash, Shrink(p));
    AddressInRange(hash, Shrink(p));
  }

  /** A group number no greater than the modulus is the address of some hash value, so no
      group is unreachable. */
  lemma EveryGroupIsAddressed(group: nat, p: Params)
    requires p.Valid() && 1 <= group <= p.modulus
    ensures GroupOf(group - 1, p) == group
  {
    var hash: nat := group - 1;
    UniqueResidue(hash, p.modValue, 0, hash);
  }
}
