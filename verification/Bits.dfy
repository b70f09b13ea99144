/** Single bits of 32-bit words. */
module Bits {
  function And(x: bv32, y: bv32): bv32 { x & y }

  function Or(x: bv32, y: bv32): bv32 { x | y }

  /** x & ~y */
  function Without(x: bv32, y: bv32): bv32 { x & !y }

  function Double(x: bv32): bv32 { x << 1 }

  function Half(x: bv32): bv32 { x >> 1 }

  /** uint32_t{1} << p */
  function Mask(p: nat): bv32 {
    if p == 0 then 1 else Double(Mask(p - 1))
  }

  predicate Bit(s: bv32, p: nat) { And(s, Mask(p)) != 0 }

  // ----- Facts about words -----

  lemma AndComm(x: bv32, y: bv32)
    ensures And(x, y) == And(y, x)
  {
  }

  lemma AndZero(x: bv32)
    ensures And(x, 0) == 0 && And(0, x) == 0
  {
  }

  lemma AndSelf(x: bv32)
    ensures And(x, x) == x
  {
  }

  lemma AndOr(x: bv32, y: bv32, m: bv32)
    ensures And(Or(x, y), m) == Or(And(x, m), And(y, m))
  {
  }

  lemma OrZero(x: bv32)
    ensures Or(x, 0) == x && Or(0, x) == x
  {
  }

  lemma OrSelf(x: bv32)
    ensures Or(x, x) == x
  {
  }

  lemma AndSwap(x: bv32, y: bv32, m: bv32)
    ensures And(And(x, y), m) == And(And(x, m), y)
  {
  }

  lemma WithoutSwap(x: bv32, y: bv32, m: bv32)
    ensures And(Without(x, y), m) == Without(And(x, m), y)
  {
  }

  lemma WithoutZero(y: bv32)
    ensures Without(0, y) == 0
  {
  }

  lemma WithoutApart(m: bv32, y: bv32)
    requires And(y, m) == 0
    ensures Without(m, y) == m
  {
  }

  lemma WithoutInside(m: bv32, y: bv32)
    requires And(y, m) == m
    ensures Without(m, y) == 0
  {
  }

  lemma DoubleLow(x: bv32)
    ensures And(1, Double(x)) == 0
  {
  }

  lemma DoubleApart(x: bv32, y: bv32)
    requires And(x, y) == 0
    ensures And(Double(x), Double(y)) == 0
  {
  }

  lemma DoubleHalf(s: bv32, m: bv32)
    ensures And(s, Double(m)) == Double(And(Half(s), m))
  {
  }

  lemma LowBit(s: bv32)
    ensures And(s, 1) == 0 || And(s, 1) == 1
  {
  }

  // ----- Masks -----

  lemma {:induction false} MasksApart(p: nat, q: nat)
    requires p != q
    ensures And(Mask(p), Mask(q)) == 0
  {
    hide And, Double;
    if p == 0 {
      DoubleLow(Mask(q - 1));
    } else if q == 0 {
      DoubleLow(Mask(p - 1));
      AndComm(Mask(p), Mask(0));
    } else {
      MasksApart(p - 1, q - 1);
      DoubleApart(Mask(p - 1), Mask(q - 1));
    }
  }

  lemma DoubleZero()
    ensures Double(0) == 0
  {
  }

  lemma {:induction false} ZeroStays(p: nat, q: nat)
    requires p <= q && Mask(p) == 0
    ensures Mask(q) == 0
    decreases q
  {
    hide Double;
    DoubleZero();
    if p < q { ZeroStays(p, q - 1); }
  }

  lemma Masks8(p: nat, x: bv32)
    requires Mask(p) == x
    ensures Mask(p + 8) == x << 8
  {
    hide Double;
    Double8(x);
    assert Mask(p + 1) == Double(x) && Mask(p + 2) == Double(Double(x)) && Mask(p + 3) == Double(Double(Double(x)));
    var y := Double(Double(Double(x)));
    assert Mask(p + 4) == Double(y) && Mask(p + 5) == Double(Double(y)) && Mask(p + 6) == Double(Double(Double(y)));
    assert Mask(p + 7) == Double(Mask(p + 6)) && Mask(p + 8) == Double(Mask(p + 7));
  }

  lemma Double8(x: bv32)
    ensures Double(Double(Double(Double(Double(Double(Double(Double(x)))))))) == x << 8
  {
  }

  lemma TopMask()
    ensures Mask(24) == 0x0100_0000 && Mask(31) != 0
  {
    Masks8(0, 1);
    Masks8(8, 1 << 8);
    Masks8(16, (1 << 8) << 8);
    ShiftedOnes();
    hide Double;
    if Mask(31) == 0 { ZeroStays(31, 32); }
    TopNotZero();
  }

  lemma ShiftedOnes()
    ensures ((1 << 8) << 8) << 8 == 0x0100_0000 as bv32
  {
  }

  lemma TopNotZero()
    requires Mask(24) == 0x0100_0000
    ensures Mask(31) != 0
  {
    assert Mask(25) == 0x0200_0000;
    assert Mask(26) == 0x0400_0000;
    assert Mask(27) == 0x0800_0000;
    assert Mask(28) == 0x1000_0000;
    assert Mask(29) == 0x2000_0000;
    assert Mask(30) == 0x4000_0000;
    assert Mask(31) == 0x8000_0000;
  }

  lemma MaskNotZero(p: nat)
    requires p < 32
    ensures Mask(p) != 0
  {
    hide Double, Mask;
    TopMask();
    if Mask(p) == 0 { ZeroStays(p, 31); }
  }

  /** A word either has bit p or not. */
  lemma {:induction false} OneBit(s: bv32, p: nat)
    ensures And(s, Mask(p)) == 0 || And(s, Mask(p)) == Mask(p)
    decreases p
  {
    hide And, Double, Half;
    if p == 0 {
      LowBit(s);
    } else {
      OneBit(Half(s), p - 1);
      DoubleHalf(s, Mask(p - 1));
      DoubleZero();
    }
  }

  // ----- Bits of results -----

  lemma NoBitsInZero(p: nat)
    ensures !Bit(0, p)
  {
    hide And, Mask;
    AndZero(Mask(p));
  }

  /** Setting bit p sets just that bit. */
  lemma BitOr(s: bv32, p: nat, q: nat)
    requires p < 32
    ensures Bit(Or(s, Mask(p)), q) <==> Bit(s, q) || p == q
  {
    hide And, Or, Mask;
    AndOr(s, Mask(p), Mask(q));
    if p == q {
      MaskNotZero(p);
      AndSelf(Mask(p));
      OneBit(s, p);
      OrZero(Mask(p));
      OrSelf(Mask(p));
    } else {
      MasksApart(p, q);
      OrZero(And(s, Mask(q)));
    }
  }

  lemma BitAnd(s: bv32, t: bv32, p: nat)
    ensures Bit(And(s, t), p) <==> Bit(s, p) && Bit(t, p)
  {
    hide And, Mask;
    OneBit(s, p);
    AndSwap(s, t, Mask(p));
    AndZero(t);
    AndComm(Mask(p), t);
    OneBit(t, p);
  }

  lemma BitWithout(s: bv32, t: bv32, p: nat)
    ensures Bit(Without(s, t), p) <==> Bit(s, p) && !Bit(t, p)
  {
    hide And, Mask, Without;
    OneBit(s, p);
    OneBit(t, p);
    WithoutSwap(s, t, Mask(p));
    WithoutZero(t);
    if And(t, Mask(p)) == 0 { WithoutApart(Mask(p), t); } else { WithoutInside(Mask(p), t); }
  }

  // ----- Words are their bits -----

  lemma ShiftZero(x: bv32)
    requires Half(x) == 0 && And(x, 1) == 0
    ensures x == 0
  {
  }

  lemma BitShift(x: bv32, p: nat)
    ensures Bit(x, p + 1) ==> Bit(Half(x), p)
    ensures p < 31 && Bit(Half(x), p) ==> Bit(x, p + 1)
  {
    hide And, Double, Mask, Half;
    assert Mask(p + 1) == Double(Mask(p)) by { MaskStep(p); }
    DoubleHalf(x, Mask(p));
    DoubleZero();
    OneBit(Half(x), p);
    if p < 31 { MaskNotZero(p + 1); }
  }

  lemma MaskStep(p: nat)
    ensures Mask(p + 1) == Double(Mask(p))
  {
    hide Double;
  }

  lemma {:induction false} NoBitsFit(x: bv32, n: nat)
    requires n <= 32 && Fits(x, n)
    requires forall p: nat :: p < n ==> !Bit(x, p)
    ensures x == 0
    decreases n
  {
    hide And, Double, Mask, Half;
    if n > 0 {
      assert !Bit(x, 0);
      MaskZero();
      var half := Half(x);
      forall p: nat | p < n - 1 ensures !Bit(half, p) {
        assert !Bit(x, p + 1);
        BitShift(x, p);
      }
      NoBitsFit(half, n - 1);
      ShiftZero(x);
    }
  }

  lemma MaskZero()
    ensures Mask(0) == 1
  {
  }

  /** x is zero after n halvings. */
  predicate Fits(x: bv32, n: nat) {
    if n == 0 then x == 0 else Fits(Half(x), n - 1)
  }

  lemma Fits8(x: bv32, n: nat)
    requires Fits(x >> 8, n)
    ensures Fits(x, n + 8)
  {
    Half8(x);
    hide Half;
    var a := Half(x);
    var b := Half(a);
    var c := Half(b);
    var d := Half(c);
    var e := Half(d);
    var f := Half(e);
    var g := Half(f);
    assert Fits(g, n + 1);
    assert Fits(f, n + 2);
    assert Fits(e, n + 3);
    assert Fits(d, n + 4);
    assert Fits(c, n + 5);
    assert Fits(b, n + 6);
    assert Fits(a, n + 7);
  }

  lemma Half8(x: bv32)
    ensures Half(Half(Half(Half(Half(Half(Half(Half(x)))))))) == x >> 8
  {
  }

  lemma Fits32(x: bv32)
    ensures Fits(x, 32)
  {
    FourShifts(x);
    assert Fits(x >> 8 >> 8 >> 8 >> 8, 0);
    hide Half, Fits;
    Fits8(x >> 8 >> 8 >> 8, 0);
    Fits8(x >> 8 >> 8, 8);
    Fits8(x >> 8, 16);
    Fits8(x, 24);
  }

  lemma FourShifts(x: bv32)
    ensures x >> 8 >> 8 >> 8 >> 8 == 0
  {
  }

  lemma ZeroIfNoBit(x: bv32)
    requires forall p: nat :: p < 32 ==> !Bit(x, p)
    ensures x == 0
  {
    Fits32(x);
    NoBitsFit(x, 32);
  }

  /** Without(s, t) is zero exactly when each bit of s is a bit of t. */
  lemma SubsetIff(s: bv32, t: bv32)
    ensures Without(s, t) == 0 <==> forall p: nat :: p < 32 && Bit(s, p) ==> Bit(t, p)
  {
    hide And, Mask, Without;
    var x := Without(s, t);
    forall p: nat ensures Bit(x, p) <==> Bit(s, p) && !Bit(t, p) { BitWithout(s, t, p); }
    if x == 0 {
      forall p: nat | p < 32 && Bit(s, p) ensures Bit(t, p) { NoBitsInZero(p); }
    }
    if forall p: nat :: p < 32 && Bit(s, p) ==> Bit(t, p) { ZeroIfNoBit(x); }
  }

  /** And(s, t) is zero exactly when they share no bit. */
  lemma DisjointIff(s: bv32, t: bv32)
    ensures And(s, t) == 0 <==> forall p: nat :: p < 32 && Bit(s, p) ==> !Bit(t, p)
  {
    hide And, Mask;
    var x := And(s, t);
    forall p: nat ensures Bit(x, p) <==> Bit(s, p) && Bit(t, p) { BitAnd(s, t, p); }
    if x == 0 {
      forall p: nat | p < 32 && Bit(s, p) ensures !Bit(t, p) { NoBitsInZero(p); }
    }
    if forall p: nat :: p < 32 && Bit(s, p) ==> !Bit(t, p) { ZeroIfNoBit(x); }
  }
}
