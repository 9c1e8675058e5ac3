// Bit-field arithmetic of vmm/bit_opt_v2l.c.
//
// Words are naturals below 2^w with w = 32 or 64.  The operators of C are written out bit by
// bit, so that `Mask`, `GetField` and `SetField` can follow the C expressions literally; the
// lemmas then say what every bit of the result is, and what the result is as a number.
module BitOps {
  // ---------------------------------------------------------------------------------------
  // C operators on w-bit words
  // ---------------------------------------------------------------------------------------

  function Pow2(n: nat): (r: nat)
    ensures r > 0
  {
    if n == 0 then 1 else 2 * Pow2(n - 1)
  }

  type u32 = x: int | 0 <= x < 0x1_0000_0000
  type u64 = x: int | 0 <= x < 0x1_0000_0000_0000_0000

  predicate Bit(x: nat, i: nat) {
    if i == 0 then x % 2 == 1 else Bit(x / 2, i - 1)
  }

  function B(b: bool): nat {
    if b then 1 else 0
  }

  function Shl(x: nat, k: nat): nat {
    if k == 0 then x else 2 * Shl(x, k - 1)
  }

  function Shr(x: nat, k: nat): nat {
    if k == 0 then x else Shr(x / 2, k - 1)
  }

  // The low n bits of x: the truncation of C's unsigned arithmetic.
  function Low(n: nat, x: nat): nat {
    if n == 0 then 0 else x % 2 + 2 * Low(n - 1, x / 2)
  }

  function And(n: nat, x: nat, y: nat): nat {
    if n == 0 then 0 else B(x % 2 == 1 && y % 2 == 1) + 2 * And(n - 1, x / 2, y / 2)
  }

  function Or(n: nat, x: nat, y: nat): nat {
    if n == 0 then 0 else B(x % 2 == 1 || y % 2 == 1) + 2 * Or(n - 1, x / 2, y / 2)
  }

  function Not(n: nat, x: nat): nat {
    if n == 0 then 0 else B(x % 2 == 0) + 2 * Not(n - 1, x / 2)
  }

  function Ones(w: nat): nat {
    Pow2(w) - 1
  }

  // ---------------------------------------------------------------------------------------
  // vmm/bit_opt_v2l.c
  // ---------------------------------------------------------------------------------------

  function Mask(w: nat, msb: nat, lsb: nat): nat
    requires msb < w && lsb < w
  {
    And(w, Low(w, Shl(Ones(w), lsb)), Shr(Ones(w), w - 1 - msb))
  }

  function IMask(w: nat, msb: nat, lsb: nat): nat
    requires msb < w && lsb < w
  {
    Not(w, Mask(w, msb, lsb))
  }

  function GetField(w: nat, src: nat, msb: nat, lsb: nat): nat
    requires msb < w && lsb < w
  {
    Shr(And(w, src, Mask(w, msb, lsb)), lsb)
  }

  function GetBit(w: nat, src: nat, n: nat): nat
    requires n < w
  {
    GetField(w, src, n, n)
  }

  // The new value of *src.
  function SetField(w: nat, src: nat, msb: nat, lsb: nat, field: nat): nat
    requires msb < w && lsb < w
  {
    Or(w, And(w, src, IMask(w, msb, lsb)), And(w, Low(w, Shl(field, lsb)), Mask(w, msb, lsb)))
  }

  function SetBit(w: nat, src: nat, n: nat, b: nat): nat
    requires n < w
  {
    if b != 0 then Or(w, src, Mask(w, n, n)) else And(w, src, IMask(w, n, n))
  }

  // ---------------------------------------------------------------------------------------
  // What each operator does to each bit
  // ---------------------------------------------------------------------------------------

  // A word with one more bit at the bottom.
  lemma DoubleBit(x: nat, b: bool, i: nat)
    ensures Bit(2 * x + B(b), i) == if i == 0 then b else Bit(x, i - 1)
  {
    assert (2 * x + B(b)) / 2 == x && (2 * x + B(b)) % 2 == B(b);
  }

  lemma {:induction false} ShlBit(x: nat, k: nat, i: nat)
    ensures Bit(Shl(x, k), i) == (k <= i && Bit(x, i - k))
  {
    if k == 0 {
    } else if i == 0 {
    } else {
      assert Shl(x, k) / 2 == Shl(x, k - 1);
      ShlBit(x, k - 1, i - 1);
    }
  }

  lemma {:induction false} ShrBit(x: nat, k: nat, i: nat)
    ensures Bit(Shr(x, k), i) == Bit(x, i + k)
  {
    if k > 0 {
      ShrBit(x / 2, k - 1, i);
    }
  }

  lemma {:induction false} LowBit(n: nat, x: nat, i: nat)
    ensures Bit(Low(n, x), i) == (i < n && Bit(x, i))
  {
    if n == 0 {
      ZeroBit(i);
    } else {
      assert Low(n, x) == 2 * Low(n - 1, x / 2) + B(Bit(x, 0));
      DoubleBit(Low(n - 1, x / 2), Bit(x, 0), i);
      if i > 0 {
        LowBit(n - 1, x / 2, i - 1);
      }
    }
  }

  lemma {:induction false} ZeroBit(i: nat)
    ensures !Bit(0, i)
  {
    if i > 0 {
      ZeroBit(i - 1);
    }
  }

  lemma {:induction false} AndBit(n: nat, x: nat, y: nat, i: nat)
    ensures Bit(And(n, x, y), i) == (i < n && Bit(x, i) && Bit(y, i))
  {
    if n == 0 {
      ZeroBit(i);
    } else {
      assert And(n, x, y) == 2 * And(n - 1, x / 2, y / 2) + B(Bit(x, 0) && Bit(y, 0));
      DoubleBit(And(n - 1, x / 2, y / 2), Bit(x, 0) && Bit(y, 0), i);
      if i > 0 {
        AndBit(n - 1, x / 2, y / 2, i - 1);
      }
    }
  }

  lemma {:induction false} OrBit(n: nat, x: nat, y: nat, i: nat)
    ensures Bit(Or(n, x, y), i) == (i < n && (Bit(x, i) || Bit(y, i)))
  {
    if n == 0 {
      ZeroBit(i);
    } else {
      assert Or(n, x, y) == 2 * Or(n - 1, x / 2, y / 2) + B(Bit(x, 0) || Bit(y, 0));
      DoubleBit(Or(n - 1, x / 2, y / 2), Bit(x, 0) || Bit(y, 0), i);
      if i > 0 {
        OrBit(n - 1, x / 2, y / 2, i - 1);
      }
    }
  }

  lemma {:induction false} NotBit(n: nat, x: nat, i: nat)
    ensures Bit(Not(n, x), i) == (i < n && !Bit(x, i))
  {
    if n == 0 {
      ZeroBit(i);
    } else {
      assert Not(n, x) == 2 * Not(n - 1, x / 2) + B(!Bit(x, 0));
      DoubleBit(Not(n - 1, x / 2), !Bit(x, 0), i);
      if i > 0 {
        NotBit(n - 1, x / 2, i - 1);
      }
    }
  }

  lemma {:induction false} OnesBit(w: nat, i: nat)
    ensures Bit(Ones(w), i) == (i < w)
  {
    if w == 0 {
      ZeroBit(i);
    } else if i > 0 {
      assert Ones(w) / 2 == Ones(w - 1);
      OnesBit(w - 1, i - 1);
    }
  }

  lemma {:induction false} WordBounds(n: nat, x: nat, y: nat)
    ensures And(n, x, y) < Pow2(n) && Or(n, x, y) < Pow2(n)
  {
    if n > 0 {
      WordBounds(n - 1, x / 2, y / 2);
    }
  }

  // Two words with the same bits are equal.
  lemma {:induction false} BitsDecide(n: nat, x: nat, y: nat)
    requires x < Pow2(n) && y < Pow2(n)
    requires forall i: nat :: i < n ==> Bit(x, i) == Bit(y, i)
    ensures x == y
  {
    if n > 0 {
      assert Bit(x, 0) == Bit(y, 0);
      forall i: nat | i < n - 1
        ensures Bit(x / 2, i) == Bit(y / 2, i)
      {
        assert Bit(x, i + 1) == Bit(y, i + 1);
      }
      BitsDecide(n - 1, x / 2, y / 2);
    }
  }

  // ---------------------------------------------------------------------------------------
  // The field algebra, for every width and every legal msb and lsb
  // ---------------------------------------------------------------------------------------

  lemma MaskBit(w: nat, msb: nat, lsb: nat, i: nat)
    requires msb < w && lsb < w
    ensures Bit(Mask(w, msb, lsb), i) == (lsb <= i <= msb)
  {
    AndBit(w, Low(w, Shl(Ones(w), lsb)), Shr(Ones(w), w - 1 - msb), i);
    LowBit(w, Shl(Ones(w), lsb), i);
    ShlBit(Ones(w), lsb, i);
    ShrBit(Ones(w), w - 1 - msb, i);
    OnesBit(w, i + (w - 1 - msb));
    if lsb <= i {
      OnesBit(w, i - lsb);
    }
  }

  lemma GetFieldBit(w: nat, src: nat, msb: nat, lsb: nat, i: nat)
    requires msb < w && lsb < w
    ensures Bit(GetField(w, src, msb, lsb), i) == (i + lsb <= msb && Bit(src, i + lsb))
  {
    ShrBit(And(w, src, Mask(w, msb, lsb)), lsb, i);
    AndBit(w, src, Mask(w, msb, lsb), i + lsb);
    MaskBit(w, msb, lsb, i + lsb);
  }

  lemma SetFieldBit(w: nat, src: nat, msb: nat, lsb: nat, field: nat, i: nat)
    requires msb < w && lsb < w
    ensures Bit(SetField(w, src, msb, lsb, field), i)
         == if lsb <= i <= msb then Bit(field, i - lsb) else i < w && Bit(src, i)
  {
    var kept := And(w, src, IMask(w, msb, lsb));
    var put := And(w, Low(w, Shl(field, lsb)), Mask(w, msb, lsb));
    OrBit(w, kept, put, i);
    AndBit(w, src, IMask(w, msb, lsb), i);
    NotBit(w, Mask(w, msb, lsb), i);
    MaskBit(w, msb, lsb, i);
    AndBit(w, Low(w, Shl(field, lsb)), Mask(w, msb, lsb), i);
    LowBit(w, Shl(field, lsb), i);
    ShlBit(field, lsb, i);
  }

  // get_bit is the bit.
  lemma GetBitIs(w: nat, src: nat, n: nat)
    requires n < w
    ensures GetBit(w, src, n) != 0 <==> Bit(src, n)
  {
    var g := GetBit(w, src, n);
    GetFieldBit(w, src, n, n, 0);
    FieldBounds(w, src, n, n, 0);
    forall i: nat | i < w
      ensures Bit(g, i) == (i == 0 && Bit(src, n)) && !Bit(0, i)
    {
      GetFieldBit(w, src, n, n, i);
      ZeroBit(i);
    }
    if !Bit(src, n) {
      BitsDecide(w, g, 0);
    }
  }

  lemma FieldBounds(w: nat, src: nat, msb: nat, lsb: nat, field: nat)
    requires msb < w && lsb < w
    ensures GetField(w, src, msb, lsb) < Pow2(w) && SetField(w, src, msb, lsb, field) < Pow2(w)
  {
    WordBounds(w, src, Mask(w, msb, lsb));
    ShrShrinks(And(w, src, Mask(w, msb, lsb)), lsb);
    WordBounds(w, And(w, src, IMask(w, msb, lsb)), And(w, Low(w, Shl(field, lsb)), Mask(w, msb, lsb)));
  }

  lemma {:induction false} ShrShrinks(x: nat, k: nat)
    ensures Shr(x, k) <= x
  {
    if k > 0 {
      ShrShrinks(x / 2, k - 1);
    }
  }

  lemma {:induction false} LowBound(n: nat, x: nat)
    ensures Low(n, x) < Pow2(n)
  {
    if n > 0 {
      LowBound(n - 1, x / 2);
    }
  }

  lemma {:induction false} Pow2Monotone(a: nat, b: nat)
    requires a <= b
    ensures Pow2(a) <= Pow2(b)
  {
    if a < b {
      Pow2Monotone(a, b - 1);
    }
  }

  // Reading a field back gives the written value, truncated to the field's width.
  lemma GetAfterSet(w: nat, src: nat, msb: nat, lsb: nat, field: nat)
    requires lsb <= msb < w
    ensures GetField(w, SetField(w, src, msb, lsb, field), msb, lsb) == Low(msb - lsb + 1, field)
  {
    var s := SetField(w, src, msb, lsb, field);
    var g := GetField(w, s, msb, lsb);
    var f := Low(msb - lsb + 1, field);
    FieldBounds(w, s, msb, lsb, 0);
    LowBound(msb - lsb + 1, field);
    Pow2Monotone(msb - lsb + 1, w);
    forall i: nat | i < w
      ensures Bit(g, i) == Bit(f, i)
    {
      GetFieldBit(w, s, msb, lsb, i);
      SetFieldBit(w, src, msb, lsb, field, i + lsb);
      LowBit(msb - lsb + 1, field, i);
    }
    BitsDecide(w, g, f);
  }

  // Writing one field leaves every disjoint field as it was.
  lemma GetDisjointAfterSet(w: nat, src: nat, msb: nat, lsb: nat, field: nat, m: nat, l: nat)
    requires msb < w && lsb < w && m < w && l < w
    requires msb < l || m < lsb
    ensures GetField(w, SetField(w, src, msb, lsb, field), m, l) == GetField(w, src, m, l)
  {
    var s := SetField(w, src, msb, lsb, field);
    FieldBounds(w, s, m, l, 0);
    FieldBounds(w, src, m, l, 0);
    forall i: nat | i < w
      ensures Bit(GetField(w, s, m, l), i) == Bit(GetField(w, src, m, l), i)
    {
      GetFieldBit(w, s, m, l, i);
      GetFieldBit(w, src, m, l, i);
      SetFieldBit(w, src, msb, lsb, field, i + l);
    }
    BitsDecide(w, GetField(w, s, m, l), GetField(w, src, m, l));
  }

  // Writes of disjoint fields commute.
  lemma SetFieldsCommute(w: nat, src: nat, m1: nat, l1: nat, f1: nat, m2: nat, l2: nat, f2: nat)
    requires m1 < w && l1 < w && m2 < w && l2 < w
    requires m1 < l2 || m2 < l1
    ensures SetField(w, SetField(w, src, m1, l1, f1), m2, l2, f2)
         == SetField(w, SetField(w, src, m2, l2, f2), m1, l1, f1)
  {
    var s1 := SetField(w, src, m1, l1, f1);
    var s2 := SetField(w, src, m2, l2, f2);
    FieldBounds(w, s1, m2, l2, f2);
    FieldBounds(w, s2, m1, l1, f1);
    forall i: nat | i < w
      ensures Bit(SetField(w, s1, m2, l2, f2), i) == Bit(SetField(w, s2, m1, l1, f1), i)
    {
      SetFieldBit(w, s1, m2, l2, f2, i);
      SetFieldBit(w, src, m1, l1, f1, i);
      SetFieldBit(w, s2, m1, l1, f1, i);
      SetFieldBit(w, src, m2, l2, f2, i);
    }
    BitsDecide(w, SetField(w, s1, m2, l2, f2), SetField(w, s2, m1, l1, f1));
  }

  // Only the last of two writes to one field counts, and rewriting a field's own value is a no-op.
  lemma SetFieldOverwrites(w: nat, src: nat, msb: nat, lsb: nat, f1: nat, f2: nat)
    requires lsb <= msb < w && src < Pow2(w)
    ensures SetField(w, SetField(w, src, msb, lsb, f1), msb, lsb, f2) == SetField(w, src, msb, lsb, f2)
    ensures SetField(w, src, msb, lsb, GetField(w, src, msb, lsb)) == src
  {
    var s := SetField(w, src, msb, lsb, f1);
    var own := GetField(w, src, msb, lsb);
    FieldBounds(w, s, msb, lsb, f2);
    FieldBounds(w, src, msb, lsb, f2);
    FieldBounds(w, src, msb, lsb, own);
    forall i: nat | i < w
      ensures Bit(SetField(w, s, msb, lsb, f2), i) == Bit(SetField(w, src, msb, lsb, f2), i)
      ensures Bit(SetField(w, src, msb, lsb, own), i) == Bit(src, i)
    {
      SetFieldBit(w, s, msb, lsb, f2, i);
      SetFieldBit(w, src, msb, lsb, f1, i);
      SetFieldBit(w, src, msb, lsb, f2, i);
      SetFieldBit(w, src, msb, lsb, own, i);
      if lsb <= i {
        GetFieldBit(w, src, msb, lsb, i - lsb);
      }
    }
    BitsDecide(w, SetField(w, s, msb, lsb, f2), SetField(w, src, msb, lsb, f2));
    BitsDecide(w, SetField(w, src, msb, lsb, own), src);
  }

  // set_bit is the one-bit case of set_field.
  lemma SetBitIsSetField(w: nat, src: nat, n: nat, b: nat)
    requires n < w
    ensures SetBit(w, src, n, b) == SetField(w, src, n, n, B(b != 0))
  {
    var v := SetField(w, src, n, n, B(b != 0));
    FieldBounds(w, src, n, n, B(b != 0));
    WordBounds(w, src, Mask(w, n, n));
    WordBounds(w, src, IMask(w, n, n));
    forall i: nat | i < w
      ensures Bit(SetBit(w, src, n, b), i) == Bit(v, i)
    {
      SetFieldBit(w, src, n, n, B(b != 0), i);
      MaskBit(w, n, n, i);
      NotBit(w, Mask(w, n, n), i);
      OrBit(w, src, Mask(w, n, n), i);
      AndBit(w, src, IMask(w, n, n), i);
    }
    BitsDecide(w, SetBit(w, src, n, b), v);
  }

  // ---------------------------------------------------------------------------------------
  // Fields as numbers
  // ---------------------------------------------------------------------------------------

  lemma MulMonotone(a: int, b: int, c: nat)
    requires a <= b
    ensures a * c <= b * c
  {
  }

  lemma DivUnique(x: int, d: int, q: int, r: int)
    requires 0 <= r < d && x == q * d + r
    ensures x / d == q && x % d == r
  {
    var e := x / d - q;
    assert e * d == r - x % d;
    assert e < 1 by {
      if e >= 1 {
        MulMonotone(1, e, d);
      }
    }
    assert e > -1 by {
      if e <= -1 {
        MulMonotone(e, -1, d);
      }
    }
  }

  lemma DoubleSum(x: nat, p: nat, q: nat, r: nat)
    requires x / 2 == q * p + r
    ensures x == q * (2 * p) + (2 * r + x % 2)
  {
    assert q * (2 * p) == 2 * (q * p);
  }

  // Dividing by 2 * p is dividing by 2 and then by p.
  lemma DoubleSplit(x: nat, p: nat)
    requires p > 0
    ensures x / (2 * p) == x / 2 / p && x % (2 * p) == 2 * (x / 2 % p) + x % 2
  {
    var q, r := x / 2 / p, x / 2 % p;
    DoubleSum(x, p, q, r);
    DivUnique(x, 2 * p, q, 2 * r + x % 2);
  }

  lemma {:induction false} ShrIsDiv(x: nat, k: nat)
    ensures Shr(x, k) == x / Pow2(k)
  {
    if k > 0 {
      ShrIsDiv(x / 2, k - 1);
      DoubleSplit(x, Pow2(k - 1));
    }
  }

  lemma {:induction false} LowIsMod(n: nat, x: nat)
    ensures Low(n, x) == x % Pow2(n)
  {
    if n > 0 {
      LowIsMod(n - 1, x / 2);
      DoubleSplit(x, Pow2(n - 1));
    }
  }

  lemma {:induction false} ShlIsMul(x: nat, k: nat)
    ensures Shl(x, k) == x * Pow2(k)
  {
    if k > 0 {
      ShlIsMul(x, k - 1);
    }
  }

  lemma {:induction false} AddBit(x: nat, k: nat, low: nat, i: nat)
    requires low < Pow2(k)
    ensures Bit(x * Pow2(k) + low, i) == if i < k then Bit(low, i) else Bit(x, i - k)
  {
    if k > 0 {
      var p := Pow2(k - 1);
      assert x * Pow2(k) == 2 * (x * p);
      assert (x * Pow2(k) + low) / 2 == x * p + low / 2;
      assert (x * Pow2(k) + low) % 2 == low % 2;
      if i > 0 {
        AddBit(x, k - 1, low / 2, i - 1);
      }
    }
  }

  // get_field is the quotient by 2^lsb, cut to the field's width.
  lemma GetFieldIs(w: nat, src: nat, msb: nat, lsb: nat)
    requires lsb <= msb < w
    ensures GetField(w, src, msb, lsb) == src / Pow2(lsb) % Pow2(msb - lsb + 1)
  {
    var g := GetField(w, src, msb, lsb);
    var f := Low(msb - lsb + 1, Shr(src, lsb));
    FieldBounds(w, src, msb, lsb, 0);
    LowBound(msb - lsb + 1, Shr(src, lsb));
    Pow2Monotone(msb - lsb + 1, w);
    forall i: nat | i < w
      ensures Bit(g, i) == Bit(f, i)
    {
      GetFieldBit(w, src, msb, lsb, i);
      LowBit(msb - lsb + 1, Shr(src, lsb), i);
      ShrBit(src, lsb, i);
    }
    BitsDecide(w, g, f);
    ShrIsDiv(src, lsb);
    LowIsMod(msb - lsb + 1, Shr(src, lsb));
  }

  lemma {:induction false} Pow2Add(a: nat, b: nat)
    ensures Pow2(a + b) == Pow2(a) * Pow2(b)
  {
    if a > 0 {
      Pow2Add(a - 1, b);
    }
  }

  lemma PackBound(x: nat, n: nat, k: nat, low: nat)
    requires x < Pow2(n) && low < Pow2(k)
    ensures x * Pow2(k) + low < Pow2(n + k)
  {
    Pow2Add(n, k);
    MulMonotone(x + 1, Pow2(n), Pow2(k));
  }

  // The powers of two that occur in the descriptor formats.
  lemma Powers()
    ensures Pow2(0) == 1 && Pow2(1) == 2 && Pow2(2) == 4 && Pow2(3) == 8 && Pow2(4) == 0x10
    ensures Pow2(5) == 0x20 && Pow2(6) == 0x40 && Pow2(8) == 0x100
    ensures Pow2(9) == 0x200 && Pow2(10) == 0x400 && Pow2(12) == 0x1000 && Pow2(16) == 0x1_0000
    ensures Pow2(19) == 0x8_0000 && Pow2(20) == 0x10_0000 && Pow2(21) == 0x20_0000
    ensures Pow2(24) == 0x100_0000 && Pow2(25) == 0x200_0000 && Pow2(26) == 0x400_0000
      && Pow2(28) == 0x1000_0000 && Pow2(30) == 0x4000_0000
    ensures Pow2(32) == 0x1_0000_0000 && Pow2(35) == 0x8_0000_0000 && Pow2(40) == 0x100_0000_0000
    ensures Pow2(48) == 0x1_0000_0000_0000 && Pow2(56) == 0x100_0000_0000_0000 && Pow2(64) == 0x1_0000_0000_0000_0000
  {
    assert Pow2(1) == 2 && Pow2(2) == 4 && Pow2(3) == 8 && Pow2(4) == 0x10;
    Pow2Add(4, 4);
    Pow2Add(8, 8);
    Pow2Add(16, 16);
    Pow2Add(32, 32);
    Pow2Add(1, 4);
    Pow2Add(2, 4);
    Pow2Add(1, 24);
    Pow2Add(2, 24);
    Pow2Add(8, 48);
    Pow2Add(1, 8);
    Pow2Add(2, 8);
    Pow2Add(4, 8);
    Pow2Add(3, 16);
    Pow2Add(4, 16);
    Pow2Add(5, 16);
    Pow2Add(8, 16);
    Pow2Add(12, 16);
    Pow2Add(2, 28);
    Pow2Add(3, 32);
    Pow2Add(8, 32);
    Pow2Add(16, 32);
  }

  // Filling a field that is zero, with everything above it zero too, is an addition.
  lemma SetFieldAppends(w: nat, src: nat, msb: nat, lsb: nat, field: nat)
    requires lsb <= msb < w
    requires src < Pow2(lsb) && field < Pow2(msb - lsb + 1)
    ensures SetField(w, src, msb, lsb, field) == field * Pow2(lsb) + src
  {
    var s := SetField(w, src, msb, lsb, field);
    var v := field * Pow2(lsb) + src;
    FieldBounds(w, src, msb, lsb, field);
    PackBound(field, msb - lsb + 1, lsb, src);
    Pow2Monotone(msb + 1, w);
    forall i: nat | i < w
      ensures Bit(s, i) == Bit(v, i)
    {
      AppendedBit(w, src, msb, lsb, field, i);
    }
    BitsDecide(w, s, v);
  }

  lemma AppendedBit(w: nat, src: nat, msb: nat, lsb: nat, field: nat, i: nat)
    requires lsb <= msb < w && i < w
    requires src < Pow2(lsb) && field < Pow2(msb - lsb + 1)
    ensures Bit(SetField(w, src, msb, lsb, field), i) == Bit(field * Pow2(lsb) + src, i)
  {
    SetFieldBit(w, src, msb, lsb, field, i);
    AddBit(field, lsb, src, i);
    if i > msb {
      HighBitsZero(src, lsb, i);
      HighBitsZero(field, msb - lsb + 1, i - lsb);
    }
  }

  // Filling a zero field below a multiple of 2^(msb+1) is an addition as well.
  lemma SetFieldFillsBelow(w: nat, hi: nat, msb: nat, lsb: nat, field: nat)
    requires lsb <= msb < w
    requires hi < Pow2(w - (msb + 1)) && field < Pow2(msb - lsb + 1)
    ensures SetField(w, hi * Pow2(msb + 1), msb, lsb, field) == hi * Pow2(msb + 1) + field * Pow2(lsb)
  {
    var s := SetField(w, hi * Pow2(msb + 1), msb, lsb, field);
    var low := field * Pow2(lsb);
    var v := hi * Pow2(msb + 1) + low;
    FieldBounds(w, hi * Pow2(msb + 1), msb, lsb, field);
    PackBound(field, msb - lsb + 1, lsb, 0);
    PackBound(hi, w - (msb + 1), msb + 1, low);
    forall i: nat | i < w
      ensures Bit(s, i) == Bit(v, i)
    {
      FilledBit(w, hi, msb, lsb, field, i);
    }
    BitsDecide(w, s, v);
  }

  lemma FilledBit(w: nat, hi: nat, msb: nat, lsb: nat, field: nat, i: nat)
    requires lsb <= msb < w && i < w
    requires field < Pow2(msb - lsb + 1)
    ensures Bit(SetField(w, hi * Pow2(msb + 1), msb, lsb, field), i)
         == Bit(hi * Pow2(msb + 1) + field * Pow2(lsb), i)
  {
    PackBound(field, msb - lsb + 1, lsb, 0);
    SetFieldBit(w, hi * Pow2(msb + 1), msb, lsb, field, i);
    AddBit(hi, msb + 1, field * Pow2(lsb), i);
    AddBit(hi, msb + 1, 0, i);
    AddBit(field, lsb, 0, i);
    ZeroBit(i);
  }

  // set_field in general: the part above the field, the truncated value, the part below.
  lemma SetFieldIs(w: nat, src: nat, msb: nat, lsb: nat, field: nat)
    requires lsb <= msb < w && src < Pow2(w)
    ensures SetField(w, src, msb, lsb, field)
         == Shr(src, msb + 1) * Pow2(msb + 1) + (Low(msb - lsb + 1, field) * Pow2(lsb) + Low(lsb, src))
  {
    hide SetField, Low, Shr, Bit, Pow2;
    var f, lo := Low(msb - lsb + 1, field), Low(lsb, src);
    var hi := Shr(src, msb + 1);
    var v := hi * Pow2(msb + 1) + (f * Pow2(lsb) + lo);
    LowBound(msb - lsb + 1, field);
    LowBound(lsb, src);
    PackBound(f, msb - lsb + 1, lsb, lo);
    ShrBound(src, msb + 1, w);
    PackBound(hi, w - (msb + 1), msb + 1, f * Pow2(lsb) + lo);
    FieldBounds(w, src, msb, lsb, field);
    forall i: nat | i < w
      ensures Bit(SetField(w, src, msb, lsb, field), i) == Bit(v, i)
    {
      SetFieldIsBit(w, src, msb, lsb, field, i);
    }
    BitsDecide(w, SetField(w, src, msb, lsb, field), v);
  }

  lemma SetFieldIsBit(w: nat, src: nat, msb: nat, lsb: nat, field: nat, i: nat)
    requires lsb <= msb < w && src < Pow2(w) && i < w
    ensures Bit(SetField(w, src, msb, lsb, field), i)
         == Bit(Shr(src, msb + 1) * Pow2(msb + 1) + (Low(msb - lsb + 1, field) * Pow2(lsb) + Low(lsb, src)), i)
  {
    hide SetField, Low, Shr, Bit, Pow2;
    var f, lo := Low(msb - lsb + 1, field), Low(lsb, src);
    LowBound(msb - lsb + 1, field);
    LowBound(lsb, src);
    PackBound(f, msb - lsb + 1, lsb, lo);
    SetFieldBit(w, src, msb, lsb, field, i);
    AddBit(Shr(src, msb + 1), msb + 1, f * Pow2(lsb) + lo, i);
    AddBit(f, lsb, lo, i);
    LowBit(lsb, src, i);
    if lsb <= i {
      LowBit(msb - lsb + 1, field, i - lsb);
    }
    if msb < i {
      ShrBit(src, msb + 1, i - (msb + 1));
    }
  }

  lemma {:induction false} ShrBound(x: nat, k: nat, w: nat)
    requires x < Pow2(w) && k <= w
    ensures Shr(x, k) < Pow2(w - k)
  {
    if k > 0 {
      ShrBound(x / 2, k - 1, w - 1);
    }
  }

  // Or-ing a value into the zero bits below a shifted one is an addition.
  lemma OrIsSum(w: nat, hi: nat, k: nat, lo: nat)
    requires k <= w && hi < Pow2(w - k) && lo < Pow2(k)
    ensures Or(w, Low(w, Shl(hi, k)), lo) == hi * Pow2(k) + lo
  {
    var up := Low(w, Shl(hi, k));
    var v := hi * Pow2(k) + lo;
    WordBounds(w, up, lo);
    PackBound(hi, w - k, k, lo);
    forall i: nat | i < w
      ensures Bit(Or(w, up, lo), i) == Bit(v, i)
    {
      OrBit(w, up, lo, i);
      LowBit(w, Shl(hi, k), i);
      ShlBit(hi, k, i);
      AddBit(hi, k, lo, i);
      if i >= k {
        HighBitsZero(lo, k, i);
      }
    }
    BitsDecide(w, Or(w, up, lo), v);
  }

  // The same facts with the powers of two given as numbers.
  lemma LowIs(n: nat, x: nat, p: nat)
    requires p == Pow2(n)
    ensures Low(n, x) == x % p
  {
    LowIsMod(n, x);
  }

  lemma ShrIs(x: nat, k: nat, p: nat)
    requires p == Pow2(k)
    ensures Shr(x, k) == x / p
  {
    ShrIsDiv(x, k);
  }

  lemma OrIs(w: nat, hi: nat, k: nat, lo: nat, p: nat)
    requires k <= w && hi < Pow2(w - k) && lo < p && p == Pow2(k)
    ensures Or(w, Low(w, Shl(hi, k)), lo) == hi * p + lo
  {
    OrIsSum(w, hi, k, lo);
  }

  lemma GetIs(w: nat, src: nat, msb: nat, lsb: nat, q: nat, p: nat)
    requires lsb <= msb < w && q == Pow2(lsb) && p == Pow2(msb - lsb + 1)
    ensures GetField(w, src, msb, lsb) == src / q % p
  {
    GetFieldIs(w, src, msb, lsb);
  }

  lemma AppendIs(w: nat, src: nat, msb: nat, lsb: nat, field: nat, q: nat, p: nat)
    requires lsb <= msb < w && q == Pow2(lsb) && p == Pow2(msb - lsb + 1)
    requires src < q && field < p
    ensures SetField(w, src, msb, lsb, field) == field * q + src
  {
    SetFieldAppends(w, src, msb, lsb, field);
  }

  lemma FillIs(w: nat, hi: nat, msb: nat, lsb: nat, field: nat, h: nat, q: nat, p: nat)
    requires lsb <= msb < w && h == Pow2(msb + 1) && q == Pow2(lsb) && p == Pow2(msb - lsb + 1)
    requires hi < Pow2(w - (msb + 1)) && field < p
    ensures SetField(w, hi * h, msb, lsb, field) == hi * h + field * q
  {
    SetFieldFillsBelow(w, hi, msb, lsb, field);
  }

  lemma SetIs(w: nat, src: nat, msb: nat, lsb: nat, field: nat, h: nat, q: nat, p: nat)
    requires lsb <= msb < w && h == Pow2(msb + 1) && q == Pow2(lsb) && p == Pow2(msb - lsb + 1)
    requires src < Pow2(w)
    ensures SetField(w, src, msb, lsb, field) == src / h * h + (field % p * q + src % q)
  {
    SetFieldIs(w, src, msb, lsb, field);
    ShrIs(src, msb + 1, h);
    LowIs(msb - lsb + 1, field, p);
    LowIs(lsb, src, q);
  }

  lemma {:induction false} HighBitsZero(x: nat, n: nat, i: nat)
    requires x < Pow2(n) && n <= i
    ensures !Bit(x, i)
  {
    if i > 0 {
      if n == 0 {
        HighBitsZero(x / 2, 0, i - 1);
      } else {
        HighBitsZero(x / 2, n - 1, i - 1);
      }
    }
  }
}
