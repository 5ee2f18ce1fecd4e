/** The bits of a uint32 as a set of positions, and the mask operations on them. */
module Bits {
  // Position i as a shift amount.
  function Lane(i: nat): (b: bv32)
    requires i < 32
    ensures b < 32 && b as nat == i && (i < 31 ==> b < 31)
  {
    if i == 0 then 0
    else
      var b := Lane(i - 1);
      NextLane(b);
      b + 1
  }

  lemma NextLane(b: bv32)
    requires b < 31
    ensures b + 1 < 32 && (b + 1) as nat == b as nat + 1
  {
  }

  predicate Bit(m: bv32, b: bv32)
    requires b < 32
  {
    (m >> b) & 1 == 1
  }

  predicate Has(m: bv32, i: nat) {
    i < 32 && Bit(m, Lane(i))
  }

  function BitSet(m: bv32): set<nat> {
    set i: nat | i < 32 && Has(m, i)
  }

  lemma LanesDiffer(i: nat, j: nat)
    requires i < 32 && j < 32
    ensures Lane(i) == Lane(j) <==> i == j
  {
    hide Lane;
  }

  lemma LanesOrdered(i: nat, j: nat)
    requires i < 32 && j < 32
    ensures Lane(i) < Lane(j) <==> i < j
  {
    hide Lane;
  }

  // The operations on one bit, by shift amount.

  function SetLane(m: bv32, b: bv32): bv32
    requires b < 32
  {
    m | (1 << b)
  }

  function ClearLane(m: bv32, b: bv32): bv32
    requires b < 32
  {
    m & !(1 << b)
  }

  predicate TestLane(m: bv32, b: bv32)
    requires b < 32
  {
    m & (1 << b) == 1 << b
  }

  function OnesBelow(b: bv32): bv32
    requires b < 32
  {
    (1 << b) - 1
  }

  lemma SetOne(m: bv32, a: bv32, b: bv32)
    requires a < 32 && b < 32
    ensures Bit(SetLane(m, a), b) <==> Bit(m, b) || b == a
  {
  }

  lemma ClearOne(m: bv32, a: bv32, b: bv32)
    requires a < 32 && b < 32
    ensures Bit(ClearLane(m, a), b) <==> Bit(m, b) && b != a
  {
  }

  lemma TestOne(m: bv32, a: bv32)
    requires a < 32
    ensures TestLane(m, a) <==> Bit(m, a)
  {
  }

  lemma OnesBit(n: bv32, b: bv32)
    requires n < 32 && b < 32
    ensures Bit(OnesBelow(n), b) <==> b < n
  {
  }

  lemma ZeroBit(b: bv32)
    requires b < 32
    ensures !Bit(0, b)
  {
  }

  // The same operations by position, as the contract writes them:
  // m | (1 << i), m & ~(1 << i), m & (1 << i) == 2**i and 2**n - 1.

  function SetBit(m: bv32, i: nat): bv32
    requires i < 32
  {
    SetLane(m, Lane(i))
  }

  function ClearBit(m: bv32, i: nat): bv32
    requires i < 32
  {
    ClearLane(m, Lane(i))
  }

  predicate TestBit(m: bv32, i: nat)
    requires i < 32
  {
    TestLane(m, Lane(i))
  }

  function Ones(n: nat): bv32
    requires n < 32
  {
    OnesBelow(Lane(n))
  }

  lemma SetBitHas(m: bv32, i: nat, j: nat)
    requires i < 32 && j < 32
    ensures Has(SetBit(m, i), j) <==> Has(m, j) || j == i
  {
    hide Lane, Bit, SetLane;
    SetOne(m, Lane(i), Lane(j));
    LanesDiffer(i, j);
  }

  lemma ClearBitHas(m: bv32, i: nat, j: nat)
    requires i < 32 && j < 32
    ensures Has(ClearBit(m, i), j) <==> Has(m, j) && j != i
  {
    hide Lane, Bit, ClearLane;
    ClearOne(m, Lane(i), Lane(j));
    LanesDiffer(i, j);
  }

  lemma OnesHas(n: nat, j: nat)
    requires n < 32 && j < 32
    ensures Has(Ones(n), j) <==> j < n
  {
    hide Lane, Bit, OnesBelow;
    OnesBit(Lane(n), Lane(j));
    LanesOrdered(j, n);
  }

  lemma BitSetSet(m: bv32, i: nat)
    requires i < 32
    ensures BitSet(SetBit(m, i)) == BitSet(m) + {i}
  {
    hide SetBit, Has;
    forall j: nat | j < 32
      ensures Has(SetBit(m, i), j) <==> Has(m, j) || j == i
    {
      SetBitHas(m, i, j);
    }
  }

  lemma BitSetClear(m: bv32, i: nat)
    requires i < 32
    ensures BitSet(ClearBit(m, i)) == BitSet(m) - {i}
  {
    hide ClearBit, Has;
    forall j: nat | j < 32
      ensures Has(ClearBit(m, i), j) <==> Has(m, j) && j != i
    {
      ClearBitHas(m, i, j);
    }
  }

  lemma TestBitHas(m: bv32, i: nat)
    requires i < 32
    ensures TestBit(m, i) <==> Has(m, i)
  {
    hide Lane, Bit, TestLane;
    TestOne(m, Lane(i));
  }

  lemma BitSetTest(m: bv32, i: nat)
    requires i < 32
    ensures TestBit(m, i) <==> i in BitSet(m)
  {
    hide TestBit, Has;
    TestBitHas(m, i);
  }

  lemma BitSetOnes(n: nat)
    requires n < 32
    ensures forall j: nat :: j in BitSet(Ones(n)) <==> j < n
  {
    hide Ones, Has;
    forall j: nat | j < 32
      ensures Has(Ones(n), j) <==> j < n
    {
      OnesHas(n, j);
    }
  }

  lemma BitSetZero()
    ensures BitSet(0) == {}
  {
    hide Bit, Lane;
    forall j: nat | j < 32
      ensures !Has(0, j)
    {
      ZeroBit(Lane(j));
    }
  }

  // A mask without bits is zero: its low bits vanish one by one. Equal bits then make equal masks,
  // since their exclusive or has none.

  predicate LowBitsClear(x: bv32, n: bv32)
    requires n <= 32
  {
    x & ((1 << n) - 1) == 0
  }

  lemma NextBitClear(x: bv32, n: bv32)
    requires n < 32 && LowBitsClear(x, n) && !Bit(x, n)
    ensures LowBitsClear(x, n + 1)
  {
  }

  lemma LaneAfter(n: nat)
    requires n < 31
    ensures Lane(n + 1) == Lane(n) + 1
  {
  }

  lemma NoneBelowZero(x: bv32)
    ensures LowBitsClear(x, Lane(0))
  {
  }

  lemma {:induction false} NoneBelow(x: bv32, n: nat)
    requires n < 32 && BitSet(x) == {}
    ensures LowBitsClear(x, Lane(n))
  {
    hide Bit, LowBitsClear, Lane;
    if n == 0 {
      NoneBelowZero(x);
    } else {
      NoneBelow(x, n - 1);
      assert n - 1 in BitSet(x) <==> Has(x, n - 1);
      NextBitClear(x, Lane(n - 1));
      LaneAfter(n - 1);
    }
  }

  lemma LastBit(x: bv32)
    requires LowBitsClear(x, 31) && !Bit(x, 31)
    ensures x == 0
  {
  }

  lemma LastLane()
    ensures Lane(31) == 31
  {
  }

  lemma BitSetEmpty(x: bv32)
    requires BitSet(x) == {}
    ensures x == 0
  {
    hide Bit, LowBitsClear, Lane;
    NoneBelow(x, 31);
    assert 31 in BitSet(x) <==> Has(x, 31);
    LastLane();
    LastBit(x);
  }

  function Xor(m: bv32, k: bv32): bv32 {
    m ^ k
  }

  lemma XorParity(m: bv32, k: bv32, b: bv32)
    requires b < 32
    ensures ((m ^ k) >> b) & 1 == ((m >> b) & 1) ^ ((k >> b) & 1)
  {
  }

  lemma LowBit(m: bv32)
    ensures m & 1 == 0 || m & 1 == 1
  {
  }

  lemma XorBit(m: bv32, k: bv32, b: bv32)
    requires b < 32
    ensures Bit(Xor(m, k), b) <==> (Bit(m, b) != Bit(k, b))
  {
    XorParity(m, k, b);
    LowBit(m >> b);
    LowBit(k >> b);
  }

  lemma XorHas(m: bv32, k: bv32, j: nat)
    requires j < 32
    ensures Has(Xor(m, k), j) <==> (Has(m, j) != Has(k, j))
  {
    hide Bit, Lane, Xor;
    XorBit(m, k, Lane(j));
  }

  lemma XorZero(m: bv32, k: bv32)
    requires Xor(m, k) == 0
    ensures m == k
  {
  }

  lemma BitSetInjective(m: bv32, k: bv32)
    requires BitSet(m) == BitSet(k)
    ensures m == k
  {
    hide Has, Xor;
    forall j: nat | j < 32
      ensures !Has(Xor(m, k), j)
    {
      XorHas(m, k, j);
      assert j in BitSet(m) <==> j in BitSet(k);
    }
    BitSetEmpty(Xor(m, k));
    XorZero(m, k);
  }
}
