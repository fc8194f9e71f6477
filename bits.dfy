/** Bitwise AND on unbounded naturals, the `&` that the matcher applies to
    32-bit IPv4 and 128-bit IPv6 addresses and netmasks alike. */
module Bits {

  function Pow2(n: nat): (r: nat)
    ensures r >= 1
  {
    if n == 0 then 1 else 2 * Pow2(n - 1)
  }

  /** The all-ones mask of an `nbits`-wide address, `2 ** nbits - 1`. */
  function Ones(nbits: nat): nat {
    Pow2(nbits) - 1
  }

  /** `a & b`, defined bit by bit from the least significant bit up. */
  function And(a: nat, b: nat): nat
    decreases a
  {
    if a == 0 || b == 0 then 0
    else 2 * And(a / 2, b / 2) + (if a % 2 == 1 && b % 2 == 1 then 1 else 0)
  }

  /** Every bit set in `c` is set in `m` (`m & c == c`): the relation between
      a member netmask and the common mask of a matcher. */
  predicate Covers(m: nat, c: nat) {
    And(m, c) == c
  }

  lemma {:induction false} AndComm(a: nat, b: nat)
    ensures And(a, b) == And(b, a)
    decreases a
  {
    if a != 0 && b != 0 {
      AndComm(a / 2, b / 2);
    }
  }

  /** The low bit and the remaining bits of `a & b`. */
  lemma AndSplit(a: nat, b: nat)
    ensures And(a, b) / 2 == And(a / 2, b / 2)
    ensures And(a, b) % 2 == (if a % 2 == 1 && b % 2 == 1 then 1 else 0)
  {
    if a == 0 || b == 0 {
      assert And(a / 2, b / 2) == 0;
    }
  }

  lemma {:induction false} AndAssoc(a: nat, b: nat, c: nat)
    ensures And(And(a, b), c) == And(a, And(b, c))
    decreases a
  {
    if a == 0 || b == 0 || c == 0 {
      if b == 0 {
        assert And(a, b) == 0;
        assert And(b, c) == 0;
      }
      if c == 0 {
        assert And(a, And(b, c)) == 0;
      }
    } else {
      AndAssoc(a / 2, b / 2, c / 2);
      var ab, bc := And(a, b), And(b, c);
      AndSplit(a, b);
      AndSplit(b, c);
      AndSplit(ab, c);
      AndSplit(a, bc);
      assert And(ab, c) == 2 * (And(ab, c) / 2) + And(ab, c) % 2;
      assert And(a, bc) == 2 * (And(a, bc) / 2) + And(a, bc) % 2;
    }
  }

  lemma {:induction false} AndIdem(a: nat)
    ensures And(a, a) == a
    decreases a
  {
    if a != 0 {
      AndIdem(a / 2);
    }
  }

  /** An address of `nbits` bits is unchanged by the all-ones mask. */
  lemma {:induction false} AndOnes(x: nat, nbits: nat)
    requires x < Pow2(nbits)
    ensures And(x, Ones(nbits)) == x
    decreases nbits
  {
    if nbits > 0 && x != 0 {
      AndOnes(x / 2, nbits - 1);
      assert Ones(nbits) / 2 == Ones(nbits - 1);
      assert Ones(nbits) % 2 == 1;
    }
  }

  /** `a & b` never exceeds `a`. */
  lemma {:induction false} AndBound(a: nat, b: nat)
    ensures And(a, b) <= a
    decreases a
  {
    if a != 0 && b != 0 {
      AndBound(a / 2, b / 2);
    }
  }

  /** Masking with `m` and then with a mask `c` it covers is masking with `c`:
      a range's bucket key does not depend on which member address is used. */
  lemma MaskThenCommon(ip: nat, m: nat, c: nat)
    requires Covers(m, c)
    ensures And(And(ip, m), c) == And(ip, c)
  {
    AndAssoc(ip, m, c);
  }

  /** Masking twice with the same mask is masking once. */
  lemma MaskTwice(ip: nat, c: nat)
    ensures And(And(ip, c), c) == And(ip, c)
  {
    AndAssoc(ip, c, c);
    AndIdem(c);
  }

  /** The AND of two masks is covered by each of them. */
  lemma MeetCovered(c: nat, m: nat, k: nat)
    requires Covers(k, c)
    ensures Covers(k, And(c, m)) && Covers(m, And(c, m))
  {
    AndComm(k, And(c, m));
    AndAssoc(c, m, k);
    AndComm(m, k);
    AndAssoc(c, k, m);
    AndComm(c, k);
    AndComm(m, And(c, m));
    AndAssoc(c, m, m);
    AndIdem(m);
  }
}
