/** Single bits of 64-bit words, by halving. */
module Bits64 {
  function And(x: bv64, y: bv64): bv64 { x & y }

  function Or(x: bv64, y: bv64): bv64 { x | y }

  function Xor(x: bv64, y: bv64): bv64 { x ^ y }

  /** x & ~y */
  function Without(x: bv64, y: bv64): bv64 { x & !y }

  function Half(x: bv64): bv64 { x >> 1 }

  function Double(x: bv64): bv64 { x << 1 }

  predicate Odd(x: bv64) { x & 1 != 0 }

  /** mask & (mask - 1) */
  function ClearLowest(x: bv64): bv64 { x & (x - 1) }

  /** 1ULL << p */
  function Mask(p: nat): bv64 { if p == 0 then 1 else Double(Mask(p - 1)) }

  predicate Bit(x: bv64, p: nat) { if p == 0 then Odd(x) else Bit(Half(x), p - 1) }

  // ----- Facts about words -----

  lemma AndParts(x: bv64, y: bv64)
    ensures Half(And(x, y)) == And(Half(x), Half(y)) && (Odd(And(x, y)) <==> Odd(x) && Odd(y))
  {
  }

  lemma OrParts(x: bv64, y: bv64)
    ensures Half(Or(x, y)) == Or(Half(x), Half(y)) && (Odd(Or(x, y)) <==> Odd(x) || Odd(y))
  {
  }

  lemma XorParts(x: bv64, y: bv64)
    ensures Half(Xor(x, y)) == Xor(Half(x), Half(y)) && (Odd(Xor(x, y)) <==> Odd(x) != Odd(y))
  {
  }

  lemma WithoutParts(x: bv64, y: bv64)
    ensures Half(Without(x, y)) == Without(Half(x), Half(y)) && (Odd(Without(x, y)) <==> Odd(x) && !Odd(y))
  {
  }

  lemma ZeroParts()
    ensures Half(0) == 0 && !Odd(0)
  {
  }

  lemma ClearOdd(x: bv64)
    requires Odd(x)
    ensures Half(ClearLowest(x)) == Half(x) && !Odd(ClearLowest(x))
  {
  }

  lemma ClearEven(x: bv64)
    requires !Odd(x) && x != 0
    ensures Half(ClearLowest(x)) == ClearLowest(Half(x)) && !Odd(ClearLowest(x)) && Half(x) != 0
  {
  }

  lemma DoubleParts(x: bv64)
    ensures !Odd(Double(x)) && (x & 0x8000_0000_0000_0000 == 0 ==> Half(Double(x)) == x)
  {
  }

  // ----- Bits of results -----

  lemma {:induction false} BitAnd(x: bv64, y: bv64, p: nat)
    ensures Bit(And(x, y), p) <==> Bit(x, p) && Bit(y, p)
    decreases p
  {
    hide And, Half, Odd;
    AndParts(x, y);
    if p > 0 { BitAnd(Half(x), Half(y), p - 1); }
  }

  lemma {:induction false} BitOr(x: bv64, y: bv64, p: nat)
    ensures Bit(Or(x, y), p) <==> Bit(x, p) || Bit(y, p)
    decreases p
  {
    hide Or, Half, Odd;
    OrParts(x, y);
    if p > 0 { BitOr(Half(x), Half(y), p - 1); }
  }

  lemma {:induction false} BitXor(x: bv64, y: bv64, p: nat)
    ensures Bit(Xor(x, y), p) <==> Bit(x, p) != Bit(y, p)
    decreases p
  {
    hide Xor, Half, Odd;
    XorParts(x, y);
    if p > 0 { BitXor(Half(x), Half(y), p - 1); }
  }

  lemma {:induction false} BitWithout(x: bv64, y: bv64, p: nat)
    ensures Bit(Without(x, y), p) <==> Bit(x, p) && !Bit(y, p)
    decreases p
  {
    hide Without, Half, Odd;
    WithoutParts(x, y);
    if p > 0 { BitWithout(Half(x), Half(y), p - 1); }
  }

  lemma {:induction false} BitZero(p: nat)
    ensures !Bit(0, p)
  {
    hide Half, Odd;
    ZeroParts();
    if p > 0 { BitZero(p - 1); }
  }

  // ----- The lowest bit -----

  /** x is zero after n halvings. */
  predicate Fits(x: bv64, n: nat) { if n == 0 then x == 0 else Fits(Half(x), n - 1) }

  /** std::countr_zero of a word that is not zero. */
  function TrailingZeros(x: bv64, n: nat): nat
    requires Fits(x, n) && x != 0
  {
    if Odd(x) || n == 0 then 0 else 1 + (EvenHalf(x); TrailingZeros(Half(x), n - 1))
  }

  lemma EvenHalf(x: bv64)
    requires x != 0
    ensures !Odd(x) ==> Half(x) != 0
  {
    if !Odd(x) { ClearEven(x); }
  }

  /** Clearing the lowest bit clears just that bit. */
  lemma {:induction false} LowestCleared(x: bv64, n: nat, p: nat)
    requires Fits(x, n) && x != 0
    ensures TrailingZeros(x, n) < n && Bit(x, TrailingZeros(x, n))
    ensures Bit(ClearLowest(x), p) <==> Bit(x, p) && p != TrailingZeros(x, n)
    decreases n
  {
    hide Half, Odd, ClearLowest;
    if Odd(x) {
      ClearOdd(x);
    } else {
      ClearEven(x);
      LowestCleared(Half(x), n - 1, if p > 0 then p - 1 else 0);
    }
  }

  lemma {:induction false} ClearFits(x: bv64, n: nat)
    requires Fits(x, n) && x != 0
    ensures Fits(ClearLowest(x), n)
    decreases n
  {
    hide Half, Odd, ClearLowest;
    if Odd(x) {
      ClearOdd(x);
    } else {
      ClearEven(x);
      ClearFits(Half(x), n - 1);
    }
  }

  lemma Fits8(x: bv64, n: nat)
    requires Fits(x >> 8, n)
    ensures Fits(x, n + 8)
  {
    Half8(x);
    hide Half;
    var a := Half(x);
    var b := Half(a);
    var c := Half(b);
    var d := Half(c);
    var e := Half(d);
    var f := Half(e);
    var g := Half(f);
    assert Fits(g, n + 1);
    assert Fits(f, n + 2);
    assert Fits(e, n + 3);
    assert Fits(d, n + 4);
    assert Fits(c, n + 5);
    assert Fits(b, n + 6);
    assert Fits(a, n + 7);
  }

  lemma Half8(x: bv64)
    ensures Half(Half(Half(Half(Half(Half(Half(Half(x)))))))) == x >> 8
  {
  }

  lemma EightShifts(x: bv64)
    ensures x >> 8 >> 8 >> 8 >> 8 >> 8 >> 8 >> 8 >> 8 == 0
  {
  }

  /** A word has 64 bits. */
  lemma Fits64(x: bv64)
    ensures Fits(x, 64)
  {
    EightShifts(x);
    var a := x >> 8;
    var b := a >> 8;
    var c := b >> 8;
    var d := c >> 8;
    var e := d >> 8;
    var f := e >> 8;
    var g := f >> 8;
    assert Fits(g >> 8, 0);
    hide Half, Fits;
    Fits8(g, 0);
    Fits8(f, 8);
    Fits8(e, 16);
    Fits8(d, 24);
    Fits8(c, 32);
    Fits8(b, 40);
    Fits8(a, 48);
    Fits8(x, 56);
  }

  // ----- Masks -----

  lemma DoubleApart(x: bv64, y: bv64)
    requires And(x, y) == 0
    ensures And(Double(x), Double(y)) == 0
  {
  }

  lemma DoubleLow(x: bv64)
    ensures And(1, Double(x)) == 0 && And(Double(x), 1) == 0
  {
  }

  lemma {:induction false} MasksApart(p: nat, q: nat)
    requires p != q
    ensures And(Mask(p), Mask(q)) == 0
  {
    hide And, Double;
    if p == 0 {
      DoubleLow(Mask(q - 1));
    } else if q == 0 {
      DoubleLow(Mask(p - 1));
    } else {
      MasksApart(p - 1, q - 1);
      DoubleApart(Mask(p - 1), Mask(q - 1));
    }
  }

  function Shift8(x: bv64): bv64 { x << 8 }

  lemma Mask8(p: nat)
    ensures Mask(p + 8) == Shift8(Mask(p))
  {
    hide Double, Shift8;
    var a := Mask(p + 1);
    var b := Mask(p + 2);
    var c := Mask(p + 3);
    var d := Mask(p + 4);
    var e := Mask(p + 5);
    var f := Mask(p + 6);
    var g := Mask(p + 7);
    assert a == Double(Mask(p));
    assert b == Double(a);
    assert c == Double(b);
    assert d == Double(c);
    assert e == Double(d);
    assert f == Double(e);
    assert g == Double(f);
    Double8(Mask(p));
  }

  lemma Double8(x: bv64)
    ensures Double(Double(Double(Double(Double(Double(Double(Double(x)))))))) == Shift8(x)
  {
  }

  lemma TopMask()
    ensures Mask(63) == 0x8000_0000_0000_0000
  {
    hide Double, Shift8, Mask;
    Mask8(7);
    Mask8(15);
    Mask8(23);
    Mask8(31);
    Mask8(39);
    Mask8(47);
    Mask8(55);
    Mask7();
    TopShift(Mask(7));
  }

  lemma Mask7()
    ensures Mask(7) == 0x80
  {
    assert Mask(1) == 2;
    assert Mask(2) == 4;
    assert Mask(3) == 8;
    assert Mask(4) == 16;
    assert Mask(5) == 32;
    assert Mask(6) == 64;
  }

  lemma TopShift(x: bv64)
    requires x == 0x80
    ensures Shift8(Shift8(Shift8(Shift8(Shift8(Shift8(Shift8(x))))))) == 0x8000_0000_0000_0000
  {
  }

  lemma NotTop(x: bv64)
    requires And(x, 0x8000_0000_0000_0000) == 0
    ensures Half(Double(x)) == x
  {
  }

  /** A mask has one bit. */
  lemma {:induction false} BitMask(p: nat, q: nat)
    requires p < 64
    ensures Bit(Mask(p), q) <==> p == q
    decreases p
  {
    hide And, Half, Double, Odd;
    if p == 0 {
      OneParts();
      if q > 0 { BitZero(q - 1); }
    } else {
      TopMask();
      MasksApart(p - 1, 63);
      NotTop(Mask(p - 1));
      DoubleParts(Mask(p - 1));
      if q > 0 { BitMask(p - 1, q - 1); }
    }
  }

  lemma OneParts()
    ensures Half(1) == 0 && Odd(1)
  {
  }
}
