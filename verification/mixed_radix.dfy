/** Mixed-radix notation: a number as digits with given moduli, most significant first.
    Both address decoders cut an address into such digits. */
module MixedRadix {

  /** Quotient and remainder by repeated subtraction; IsDivMod shows that they are `/` and `%`. */
  function Quot(x: nat, m: nat): nat
    requires m >= 1
  {
    if x < m then 0 else 1 + Quot(x - m, m)
  }

  function Rem(x: nat, m: nat): (r: nat)
    requires m >= 1
    ensures r < m
  {
    if x < m then x else Rem(x - m, m)
  }

  lemma MulAssoc(a: int, b: int, c: int)
    ensures a * (b * c) == (a * b) * c
  {}

  lemma MulDistrib(a: int, b: int, c: int)
    ensures (a + b) * c == a * c + b * c
  {}

  lemma MulMono(a: int, b: int, c: nat)
    requires a <= b
    ensures a * c <= b * c
  {}

  lemma {:induction false} Division(x: nat, m: nat)
    requires m >= 1
    ensures x == Quot(x, m) * m + Rem(x, m)
  {
    if x >= m {
      Division(x - m, m);
      MulDistrib(1, Quot(x - m, m), m);
    }
  }

  lemma {:induction false} DivisionUnique(q: nat, m: nat, r: nat)
    requires r < m
    ensures q * m + r >= 0 && Quot(q * m + r, m) == q && Rem(q * m + r, m) == r
  {
    if q > 0 {
      DivisionUnique(q - 1, m, r);
      MulDistrib(1, q - 1, m);
    }
  }

  lemma IsDivMod(x: nat, m: nat)
    requires m >= 1
    ensures Quot(x, m) == x / m && Rem(x, m) == x % m
  {
    Division(x, m);
    var q, r, e := Quot(x, m), Rem(x, m), x / m - Quot(x, m);
    MulDistrib(q, e, m);
    if e > 0 { MulMono(1, e, m); }
    if e < 0 { MulMono(e, -1, m); }
  }

  /** Dividing twice is dividing by the product. */
  lemma {:induction false} QuotQuot(x: nat, a: nat, b: nat)
    requires a >= 1 && b >= 1
    ensures a * b >= 1 && Quot(Quot(x, a), b) == Quot(x, a * b)
  {
    var q, r := Quot(x, a), Rem(x, a);
    var u, v := Quot(q, b), Rem(q, b);
    Division(x, a);
    Division(q, b);
    NestedQuotient(q, u, v, r, a, b);
  }

  lemma NestedQuotient(q: nat, u: nat, v: nat, r: nat, a: nat, b: nat)
    requires v < b && r < a && q == u * b + v
    ensures a * b >= 1 && q * a + r >= 0 && Quot(q * a + r, a * b) == u
  {
    MulDistrib(u * b, v, a);
    MulAssoc(u, b, a);
    MulMono(v + 1, b, a);
    MulMono(0, v, a);
    MulDistrib(v, 1, a);
    DivisionUnique(u, b * a, v * a + r);
  }

  predicate Positive(ms: seq<nat>) { forall i :: 0 <= i < |ms| ==> ms[i] >= 1 }

  function Prod(ms: seq<nat>): nat {
    if ms == [] then 1 else ms[0] * Prod(ms[1..])
  }

  lemma {:induction false} ProdPositive(ms: seq<nat>)
    requires Positive(ms)
    ensures Prod(ms) >= 1
  {
    if ms != [] {
      ProdPositive(ms[1..]);
      MulMono(1, ms[0], Prod(ms[1..]));
    }
  }

  /** The digit at place i: what division by everything below it and remainder leave. */
  function Digit(x: nat, ms: seq<nat>, i: nat): (d: nat)
    requires i < |ms| && Positive(ms)
    ensures d < ms[i]
  {
    ProdPositive(ms[i + 1..]);
    Rem(Quot(x, Prod(ms[i + 1..])), ms[i])
  }

  predicate Digits(ds: seq<nat>, ms: seq<nat>) {
    |ds| == |ms| && forall i :: 0 <= i < |ds| ==> ds[i] < ms[i]
  }

  function Value(ds: seq<nat>, ms: seq<nat>): nat
    requires |ds| == |ms|
  {
    if ds == [] then 0 else ds[0] * Prod(ms[1..]) + Value(ds[1..], ms[1..])
  }

  lemma {:induction false} ProdAppend(a: seq<nat>, b: seq<nat>)
    ensures Prod(a + b) == Prod(a) * Prod(b)
  {
    if a == [] {
      assert a + b == b;
    } else {
      assert (a + b)[1..] == a[1..] + b;
      ProdAppend(a[1..], b);
      MulAssoc(a[0], Prod(a[1..]), Prod(b));
    }
  }

  /** A digit below w*a is not changed by adding multiples of k*(w*a). */
  lemma DropHigh(d: nat, a: nat, w: nat, k: nat, r: nat)
    requires a >= 1 && w >= 1
    ensures d * (k * (w * a)) + r >= 0
    ensures Rem(Quot(d * (k * (w * a)) + r, a), w) == Rem(Quot(r, a), w)
  {
    var q, t, high := Quot(r, a), Rem(r, a), d * k * w;
    Division(r, a);
    MulAssoc(d, k, w * a);
    MulAssoc(d * k, w, a);
    MulDistrib(high, q, a);
    MulMono(0, d * k, w);
    DivisionUnique(high + q, a, t);
    var u, v := Quot(q, w), Rem(q, w);
    Division(q, w);
    MulDistrib(d * k, u, w);
    MulMono(0, d, k);
    DivisionUnique(d * k + u, w, v);
  }

  lemma {:induction false} ValueBound(ds: seq<nat>, ms: seq<nat>)
    requires Digits(ds, ms)
    ensures Value(ds, ms) < Prod(ms)
  {
    if ds != [] {
      ValueBound(ds[1..], ms[1..]);
      MulMono(ds[0] + 1, ms[0], Prod(ms[1..]));
      MulDistrib(ds[0], 1, Prod(ms[1..]));
    }
  }

  lemma ProdSplit(ms: seq<nat>, i: nat)
    requires 0 < i < |ms|
    ensures Prod(ms[1..]) == Prod(ms[1..i]) * (ms[i] * Prod(ms[i + 1..]))
  {
    assert ms[1..] == ms[1..i] + ms[i..];
    ProdAppend(ms[1..i], ms[i..]);
    assert ms[i..][1..] == ms[i + 1..];
  }

  /** A lower digit does not see what is added above it. */
  lemma LowerDigit(d: nat, r: nat, ms: seq<nat>, i: nat)
    requires 0 < i < |ms| && Positive(ms)
    ensures d * Prod(ms[1..]) + r >= 0
    ensures Digit(d * Prod(ms[1..]) + r, ms, i) == Digit(r, ms[1..], i - 1)
  {
    assert ms[1..][i - 1 + 1..] == ms[i + 1..];
    ProdSplit(ms, i);
    ProdPositive(ms[i + 1..]);
    DropHigh(d, Prod(ms[i + 1..]), ms[i], Prod(ms[1..i]), r);
  }

  /** Reading the digits of a number written from digits gives them back. */
  lemma {:induction false} DigitOfValue(ds: seq<nat>, ms: seq<nat>, i: nat)
    requires Digits(ds, ms) && i < |ds|
    ensures Digit(Value(ds, ms), ms, i) == ds[i]
  {
    var r := Value(ds[1..], ms[1..]);
    ValueBound(ds[1..], ms[1..]);
    if i == 0 {
      DivisionUnique(ds[0], Prod(ms[1..]), r);
    } else {
      LowerDigit(ds[0], r, ms, i);
      DigitOfValue(ds[1..], ms[1..], i - 1);
    }
  }

  /** A number below the product of the moduli is written by its own digits. */
  lemma {:induction false} ValueOfDigits(x: nat, ds: seq<nat>, ms: seq<nat>)
    requires Positive(ms) && |ds| == |ms| && x < Prod(ms)
    requires forall i :: 0 <= i < |ds| ==> ds[i] == Digit(x, ms, i)
    ensures Value(ds, ms) == x
  {
    if ds != [] {
      ProdPositive(ms[1..]);
      var p := Prod(ms[1..]);
      var q, r := Quot(x, p), Rem(x, p);
      Division(x, p);
      if q >= ms[0] { MulMono(ms[0], q, p); }
      assert ds[0] == q;
      forall i | 0 <= i < |ds| - 1 ensures ds[1..][i] == Digit(r, ms[1..], i) {
        LowerDigit(q, r, ms, i + 1);
      }
      ValueOfDigits(r, ds[1..], ms[1..]);
    }
  }
}
