/** Exclusive or on non-negative integers, as Python's `^` computes it, and the
    binary digits it works on. */
module BitMath {

  type Byte = b: int | 0 <= b < 256

  function Xor(a: nat, b: nat): nat
    decreases a + b
  {
    if a == 0 && b == 0 then 0
    else (if a % 2 != b % 2 then 1 else 0) + 2 * Xor(a / 2, b / 2)
  }

  function Pow2(n: nat): (p: nat)
    ensures p >= 1
    decreases n
  {
    if n == 0 then 1 else 2 * Pow2(n - 1)
  }

  lemma {:induction false} XorStep(a: nat, b: nat)
    ensures Xor(a, b) / 2 == Xor(a / 2, b / 2)
    ensures Xor(a, b) % 2 == (a + b) % 2
  {
    if a == 0 && b == 0 {
    } else {
      var half := Xor(a / 2, b / 2);
      assert Xor(a, b) == (if a % 2 != b % 2 then 1 else 0) + 2 * half;
    }
  }

  lemma {:induction false} XorComm(a: nat, b: nat)
    ensures Xor(a, b) == Xor(b, a)
    decreases a + b
  {
    if a != 0 || b != 0 {
      XorComm(a / 2, b / 2);
    }
  }

  lemma {:induction false} XorAssoc(a: nat, b: nat, c: nat)
    ensures Xor(Xor(a, b), c) == Xor(a, Xor(b, c))
    decreases a + b + c
  {
    if a != 0 || b != 0 || c != 0 {
      XorStep(a, b);
      XorStep(b, c);
      XorAssoc(a / 2, b / 2, c / 2);
      XorStep(Xor(a, b), c);
      XorStep(a, Xor(b, c));
    }
  }

  lemma {:induction false} XorZero(a: nat)
    ensures Xor(a, 0) == a && Xor(0, a) == a
    decreases a
  {
    if a != 0 {
      XorZero(a / 2);
    }
  }

  lemma {:induction false} XorSame(a: nat, b: nat)
    ensures Xor(a, b) == 0 <==> a == b
    decreases a + b
  {
    if a != 0 || b != 0 {
      XorSame(a / 2, b / 2);
    }
  }

  /** Masking twice with the same key restores the value. */
  lemma XorCancel(a: nat, k: nat)
    ensures Xor(Xor(a, k), k) == a
  {
    XorAssoc(a, k, k);
    XorSame(k, k);
    XorZero(a);
  }

  lemma {:induction false} XorBound(a: nat, b: nat, n: nat)
    requires a < Pow2(n) && b < Pow2(n)
    ensures Xor(a, b) < Pow2(n)
    decreases n
  {
    if n > 0 && (a != 0 || b != 0) {
      XorBound(a / 2, b / 2, n - 1);
    }
  }

  lemma XorByte(a: Byte, b: Byte)
    ensures Xor(a, b) < 256
  {
    assert Pow2(4) == 16 && Pow2(8) == 256;
    XorBound(a, b, 8);
  }

  /** A digit above both operands is copied. */
  lemma {:induction false} XorTop(a: nat, b: nat, n: nat)
    requires a < Pow2(n) && b < Pow2(n)
    ensures Xor(a, Pow2(n) + b) == Pow2(n) + Xor(a, b)
    decreases n
  {
    if n == 0 {
      assert Xor(0, 1) == 1 + 2 * Xor(0, 0);
    } else {
      XorTop(a / 2, b / 2, n - 1);
      XorStep(a, b);
      XorStep(a, Pow2(n) + b);
      assert (Pow2(n) + b) / 2 == Pow2(n - 1) + b / 2;
    }
  }

  /** The `n` lowest binary digits, lowest first. */
  function Digits(w: nat, n: nat): (d: seq<bool>)
    ensures |d| == n
    decreases n
  {
    if n == 0 then [] else [w % 2 == 1] + Digits(w / 2, n - 1)
  }

  lemma {:induction false} DigitsInjective(a: nat, b: nat, n: nat)
    requires a < Pow2(n) && b < Pow2(n) && Digits(a, n) == Digits(b, n)
    ensures a == b
    decreases n
  {
    if n > 0 {
      assert Digits(a / 2, n - 1) == Digits(a, n)[1..] == Digits(b, n)[1..] == Digits(b / 2, n - 1);
      assert (a % 2 == 1) == Digits(a, n)[0] == Digits(b, n)[0] == (b % 2 == 1);
      DigitsInjective(a / 2, b / 2, n - 1);
    }
  }

  /** `w` without its `m` lowest digits. */
  function Above(w: nat, m: nat): nat
    decreases m
  {
    if m == 0 then w else Above(w / 2, m - 1)
  }

  lemma {:induction false} DigitsSplit(w: nat, m: nat, n: nat)
    ensures Digits(w, m + n) == Digits(w, m) + Digits(Above(w, m), n)
    decreases m
  {
    if m > 0 {
      DigitsSplit(w / 2, m - 1, n);
    }
  }

  /** Digits do not see multiples of a higher power of two. */
  lemma {:induction false} DigitsLow(lo: nat, k: nat, m: nat)
    ensures Digits(lo + Pow2(m) * k, m) == Digits(lo, m)
    decreases m
  {
    if m > 0 {
      var pk := Pow2(m - 1) * k;
      assert Pow2(m) * k == 2 * pk;
      DigitsLow(lo / 2, k, m - 1);
    }
  }

  /** How many ones a number holds. */
  function Weight(a: nat): nat
    decreases a
  {
    if a == 0 then 0 else a % 2 + Weight(a / 2)
  }

  lemma WeightStep(a: nat)
    ensures Weight(a) == a % 2 + Weight(a / 2)
  {}

  lemma {:induction false} XorWeight(a: nat, b: nat)
    ensures Weight(Xor(a, b)) % 2 == (Weight(a) + Weight(b)) % 2
    decreases a + b
  {
    if a != 0 || b != 0 {
      XorWeight(a / 2, b / 2);
      var x := Xor(a, b);
      XorStep(a, b);
      WeightStep(x);
      WeightStep(a);
      WeightStep(b);
      ParityAdds(a % 2, b % 2, x % 2, Weight(a / 2), Weight(b / 2), Weight(x / 2));
    }
  }

  lemma ParityAdds(a: nat, b: nat, c: nat, u: nat, v: nat, w: nat)
    requires c % 2 == (a + b) % 2 && w % 2 == (u + v) % 2
    ensures (c + w) % 2 == ((a + u) + (b + v)) % 2
  {}

  // ---- Fields of a counter ------------------------------------------------
  // Remainders and quotients by turns, which keep division out of whatever
  // mentions a frame.

  function Low8(v: nat): (r: nat)
    ensures r < 256 && r <= v
    decreases v
  {
    if v < 256 then v else Low8(v - 256)
  }

  function High8(v: nat): (r: nat)
    ensures r <= v
    decreases v
  {
    if v < 256 then 0 else 1 + High8(v - 256)
  }

  function Low16(v: nat): (r: nat)
    ensures r < 0x10000 && r <= v
    decreases v
  {
    if v < 0x10000 then v else Low16(v - 0x10000)
  }

  function Low32(v: nat): (r: nat)
    ensures r <= v
    decreases v
  {
    if v <= 0xFFFF_FFFF then v else Low32(v - 0x1_0000_0000)
  }

  lemma {:induction false} LowHigh8(v: nat)
    ensures Low8(v) == v % 256 && High8(v) == v / 256
    decreases v
  {
    if v >= 256 { LowHigh8(v - 256); }
  }

  lemma {:induction false} Low16Is(v: nat)
    ensures Low16(v) == v % 0x10000
    decreases v
  {
    if v >= 0x10000 { Low16Is(v - 0x10000); }
  }

  lemma {:induction false} Low32Is(v: nat)
    ensures Low32(v) == v % 0x1_0000_0000
    decreases v
  {
    if v > 0xFFFF_FFFF { Low32Is(v - 0x1_0000_0000); }
  }
}
