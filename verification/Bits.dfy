/** Bit operators on unsigned words, read as natural numbers.

    The wire codecs and the address masks are written with `&`, `|`, `^` and shifts. Those
    operators are defined here bit by bit, and the lemmas say what they compute on the
    operands that occur in the code: low masks, high masks, all-ones words and words whose
    set bits do not overlap. */
module Bits {

  type byte = x: int | 0 <= x < 256

  function Pow2(k: nat): (r: int)
    ensures 1 <= r
  {
    if k == 0 then 1 else 2 * Pow2(k - 1)
  }

  function And(a: nat, b: nat): nat {
    if a == 0 || b == 0 then 0
    else (if a % 2 == 1 && b % 2 == 1 then 1 else 0) + 2 * And(a / 2, b / 2)
  }

  function Or(a: nat, b: nat): nat {
    if a == 0 then b else if b == 0 then a
    else (if a % 2 == 1 || b % 2 == 1 then 1 else 0) + 2 * Or(a / 2, b / 2)
  }

  function Xor(a: nat, b: nat): nat {
    if a == 0 then b else if b == 0 then a
    else (if a % 2 != b % 2 then 1 else 0) + 2 * Xor(a / 2, b / 2)
  }

  // The quotient and the remainder are the only pair that fits.
  lemma DivModUnique(x: int, d: int, q: int, r: int)
    requires 0 <= r < d && x == q * d + r
    ensures x / d == q && x % d == r
  {
    var e := x / d - q;
    assert e * d == r - x % d;
    if e >= 1 {
      MulMono(1, e, d);
      assert false;
    } else if e <= -1 {
      MulMono(e, -1, d);
      assert false;
    }
  }

  lemma MulMono(a: int, b: int, d: int)
    requires a <= b && 0 <= d
    ensures a * d <= b * d
  {
    assert (b - a) * d >= 0;
  }

  lemma {:induction false} Pow2Add(a: nat, b: nat)
    ensures Pow2(a + b) == Pow2(a) * Pow2(b)
  {
    if a > 0 {
      Pow2Add(a - 1, b);
      assert Pow2(a + b) == 2 * Pow2(a - 1 + b);
    }
  }

  lemma {:induction false} Pow2Mono(a: nat, b: nat)
    requires a <= b
    ensures Pow2(a) <= Pow2(b)
  {
    if a < b { Pow2Mono(a, b - 1); }
  }

  // Peeling the lowest bit off a remainder.
  lemma ModStep(x: nat, m: nat)
    requires m > 0
    ensures x % (2 * m) == x % 2 + 2 * ((x / 2) % m)
  {
    var q, r := x / 2 / m, x / 2 % m;
    assert x / 2 == q * m + r;
    assert x == q * (2 * m) + (2 * r + x % 2);
    DivModUnique(x, 2 * m, q, 2 * r + x % 2);
  }

  lemma {:induction false} AndLowMask(x: nat, k: nat)
    ensures And(x, Pow2(k) - 1) == x % Pow2(k)
  {
    if k > 0 {
      AndLowMask(x / 2, k - 1);
      ModStep(x, Pow2(k - 1));
      assert (Pow2(k) - 1) / 2 == Pow2(k - 1) - 1;
    }
  }

  lemma {:induction false} XorOnes(x: nat, w: nat)
    requires x < Pow2(w)
    ensures Xor(x, Pow2(w) - 1) == Pow2(w) - 1 - x
  {
    if w > 0 {
      hide Xor;
      var m := Pow2(w) - 1;
      XorOnes(x / 2, w - 1);
      assert m / 2 == Pow2(w - 1) - 1 && m % 2 == 1;
      XorStep(x, m);
    }
  }

  lemma XorStep(a: nat, b: nat)
    ensures Xor(a, b) == (if a % 2 != b % 2 then 1 else 0) + 2 * Xor(a / 2, b / 2)
  {
  }

  lemma Pow2Step(k: nat)
    requires k > 0
    ensures Pow2(k) == 2 * Pow2(k - 1)
  {
  }

  lemma AndStep(a: nat, b: nat)
    ensures And(a, b) == (if a % 2 == 1 && b % 2 == 1 then 1 else 0) + 2 * And(a / 2, b / 2)
  {
  }

  lemma OrStep(a: nat, b: nat)
    ensures Or(a, b) == (if a % 2 == 1 || b % 2 == 1 then 1 else 0) + 2 * Or(a / 2, b / 2)
  {
  }

  lemma {:induction false} OrDisjoint(x: nat, y: nat, k: nat)
    requires x < Pow2(k)
    ensures Or(x, y * Pow2(k)) == x + y * Pow2(k)
  {
    if k == 0 {
      assert Or(0, y) == y;
    } else {
      hide Or, Pow2;
      Pow2Step(k);
      var half := y * Pow2(k - 1);
      assert y * Pow2(k) == 2 * half;
      OrDisjoint(x / 2, y, k - 1);
      OrStep(x, 2 * half);
    }
  }

  lemma Double(q: nat, h: nat, r: nat)
    ensures q * (2 * h) == 2 * (q * h) && (q * (2 * h) + r) / 2 == q * h + r / 2 && (q * (2 * h) + r) % 2 == r % 2
  {
    assert q * (2 * h) == 2 * (q * h);
  }

  // One more bit below the split.
  lemma AndHighStep(q: nat, h: nat, r: nat, top: nat)
    requires h <= top && And(q * h + r / 2, top - h) == q * h
    ensures And(q * (2 * h) + r, 2 * top - 2 * h) == q * (2 * h)
  {
    hide And;
    Double(q, h, r);
    AndStep(q * (2 * h) + r, 2 * (top - h));
  }

  lemma OrLowStep(q: nat, h: nat, r: nat)
    requires 0 < h && Or(q * h + r / 2, h - 1) == q * h + h - 1
    ensures Or(q * (2 * h) + r, 2 * h - 1) == q * (2 * h) + 2 * h - 1
  {
    hide Or;
    Double(q, h, r);
    OrStep(q * (2 * h) + r, 2 * h - 1);
  }

  // A word split at bit k.
  lemma {:induction false} AndHighMaskOf(q: nat, r: nat, k: nat, w: nat)
    requires k <= w && r < Pow2(k) <= Pow2(w) && q * Pow2(k) + r < Pow2(w)
    ensures And(q * Pow2(k) + r, Pow2(w) - Pow2(k)) == q * Pow2(k)
  {
    if k == 0 {
      AndAll(q, w);
    } else {
      hide And, Pow2;
      Pow2Step(k);
      Pow2Step(w);
      Halved(q, Pow2(k - 1), r, Pow2(w - 1));
      AndHighMaskOf(q, r / 2, k - 1, w - 1);
      AndHighStep(q, Pow2(k - 1), r, Pow2(w - 1));
    }
  }

  lemma Halved(q: nat, h: nat, r: nat, top: nat)
    requires q * (2 * h) + r < 2 * top && r < 2 * h <= 2 * top
    ensures q * h + r / 2 < top && r / 2 < h <= top
  {
    Double(q, h, r);
  }

  lemma AndAll(x: nat, w: nat)
    requires x < Pow2(w)
    ensures And(x, Pow2(w) - 1) == x
  {
    hide And, Pow2;
    AndLowMask(x, w);
    DivModUnique(x, Pow2(w), 0, x);
  }

  lemma AndHighMask(x: nat, k: nat, w: nat)
    requires k <= w && x < Pow2(w)
    ensures Pow2(k) <= Pow2(w)
    ensures And(x, Pow2(w) - Pow2(k)) == x - x % Pow2(k)
  {
    hide And, Pow2;
    Pow2Mono(k, w);
    AndHighMaskOf(x / Pow2(k), x % Pow2(k), k, w);
  }

  // The same for a word split at bit k.
  lemma {:induction false} OrLowMaskOf(q: nat, r: nat, k: nat)
    requires r < Pow2(k)
    ensures Or(q * Pow2(k) + r, Pow2(k) - 1) == q * Pow2(k) + Pow2(k) - 1
  {
    if k > 0 {
      hide Or, Pow2;
      Pow2Step(k);
      OrLowMaskOf(q, r / 2, k - 1);
      OrLowStep(q, Pow2(k - 1), r);
    } else {
      assert Or(q, 0) == q;
    }
  }

  lemma OrLowMask(x: nat, k: nat)
    ensures Or(x, Pow2(k) - 1) == x - x % Pow2(k) + Pow2(k) - 1
  {
    hide Or, Pow2;
    OrLowMaskOf(x / Pow2(k), x % Pow2(k), k);
  }
}
