/** Amounts in the short form in which unspent outputs are stored. */
module Amounts {
  import opened Coins

  /** Conversion to an unsigned 64-bit integer. */
  function Wrap(v: int): (r: nat)
    ensures r < 0x1_0000_0000_0000_0000
  {
    v % 0x1_0000_0000_0000_0000
  }

  /** `m` with `k` zeros appended. */
  function Append(m: nat, k: nat): nat {
    if k == 0 then m else 10 * Append(m, k - 1)
  }

  /** The amount without its trailing zeros, of which at most nine are dropped, and their number. */
  function Strip(n: nat, e: nat): (nat, nat)
    decreases 9 - e
  {
    if n % 10 == 0 && e < 9 then Strip(n / 10, e + 1) else (n, e)
  }

  /** Leading digits and exponent in one number; the last of the digits is none of ten if the exponent is below nine. */
  function Code(m: nat, e: nat): int {
    if e < 9 then (m / 10 * 9 + m % 10 - 1) * 10 + e else (m - 1) * 10 + 9
  }

  function Compress(n: nat): nat {
    if n == 0 then 0
    else
      var (m, e) := Strip(n, 0);
      StripFacts(n, 0);
      1 + Code(m, e)
  }

  function Mantissa(x: nat): nat {
    if x % 10 < 9 then x / 10 / 9 * 10 + x / 10 % 9 + 1 else x / 10 + 1
  }

  function Decompress(x: nat): nat {
    if x == 0 then 0 else Append(Mantissa(x - 1), (x - 1) % 10)
  }

  lemma {:induction false} StripFacts(n: nat, e: nat)
    requires n > 0 && e <= 9
    ensures var (m, f) := Strip(n, e); e <= f <= 9 && m > 0 && (f < 9 ==> m % 10 != 0) && Append(m, f - e) == n
    decreases 9 - e
  {
    if n % 10 == 0 && e < 9 {
      StripFacts(n / 10, e + 1);
    }
  }

  /** Adding trailing zeros and stripping them again. */
  lemma {:induction false} StripTimes(m: nat, e: nat, k: nat)
    requires m > 0 && k + e <= 9 && (e + k < 9 ==> m % 10 != 0)
    ensures Strip(Append(m, k), e) == (m, e + k)
    decreases k
  {
    if k > 0 {
      StripTimes(m, e + 1, k - 1);
      AppendGrows(m, k - 1);
    }
  }

  lemma CodeParts(m: nat, e: nat)
    requires m > 0 && e <= 9 && (e < 9 ==> m % 10 != 0)
    ensures Code(m, e) >= 0 && Code(m, e) % 10 == e && Mantissa(Code(m, e)) == m
  {
    if e < 9 {
      var k := m / 10 * 9 + m % 10 - 1;
      assert k / 9 == m / 10 && k % 9 == m % 10 - 1;
      TenTimes(k, e);
    } else {
      TenTimes(m - 1, 9);
    }
  }

  lemma TenTimes(k: nat, e: nat)
    requires e < 10
    ensures (k * 10 + e) % 10 == e && (k * 10 + e) / 10 == k
  {
  }

  lemma PartsCode(y: nat)
    ensures Mantissa(y) > 0 && (y % 10 < 9 ==> Mantissa(y) % 10 != 0) && Code(Mantissa(y), y % 10) == y
  {
    if y % 10 < 9 {
      TenTimes(y / 10 / 9, y / 10 % 9 + 1);
    }
  }

  /** Compressing and decompressing undo each other, both ways round: a bijection on the natural numbers. */
  lemma DecompressCompress(n: nat)
    ensures Decompress(Compress(n)) == n
  {
    hide Code, Mantissa;
    if n > 0 {
      StripFacts(n, 0);
      var (m, e) := Strip(n, 0);
      CodeParts(m, e);
    }
  }

  lemma CompressDecompress(x: nat)
    ensures Compress(Decompress(x)) == x
  {
    hide Code, Mantissa;
    if x > 0 {
      PartsCode(x - 1);
      var (m, e) := (Mantissa(x - 1), (x - 1) % 10);
      StripTimes(m, 0, e);
      AppendGrows(m, e);
    }
  }

  lemma {:induction false} AppendGrows(m: nat, k: nat)
    ensures Append(m, k) >= m && (k > 0 ==> Append(m, k) >= 10 * m)
  {
    if k > 0 {
      AppendGrows(m, k - 1);
    }
  }

  /** An amount of money in short form fits into 64 bits, and into 63. */
  lemma MoneyFits(n: nat)
    requires MoneyRange(n)
    ensures Compress(n) <= 9 * n + 10 < 0x8000_0000_0000_0000
  {
    if n > 0 {
      StripFacts(n, 0);
      var (m, e) := Strip(n, 0);
      AppendGrows(m, e);
    }
  }

  // ---- in 64-bit arithmetic ----

  method CompressAmount(nAmount: nat) returns (x: nat)
    requires nAmount < 0x1_0000_0000_0000_0000
    ensures x == Wrap(Compress(nAmount))
  {
    if nAmount == 0 {
      return 0;
    }
    var n, e := nAmount, 0;
    StripFacts(n, 0);
    while n % 10 == 0 && e < 9
      invariant 0 <= e <= 9 && Strip(n, e) == Strip(nAmount, 0)
      decreases 9 - e
    {
      n := n / 10;
      e := e + 1;
    }
    if e < 9 {
      var d := n % 10;
      assert 1 <= d <= 9;
      n := n / 10;
      x := Wrap(1 + (n * 9 + d - 1) * 10 + e);
    } else {
      x := Wrap(1 + (n - 1) * 10 + 9);
    }
  }

  method DecompressAmount(nAmount: nat) returns (n: nat)
    requires nAmount < 0x1_0000_0000_0000_0000
    ensures n == Wrap(Decompress(nAmount))
  {
    if nAmount == 0 {
      return 0;
    }
    var x := nAmount - 1;
    var e := x % 10;
    x := x / 10;
    n := 0;
    if e < 9 {
      var d := x % 9 + 1;
      x := x / 9;
      n := x * 10 + d;
    } else {
      n := x + 1;
    }
    ghost var m, k := Mantissa(nAmount - 1), e;
    while e > 0
      invariant 0 <= e <= k && n == Wrap(Append(m, k - e))
    {
      WrapTimes(Append(m, k - e), 10);
      n := Wrap(n * 10);
      e := e - 1;
    }
  }

  lemma WrapTimes(a: nat, b: nat)
    ensures Wrap(Wrap(a) * b) == Wrap(a * b)
  {
    var w := 0x1_0000_0000_0000_0000;
    var q, r := a / w, a % w;
    Expand(a, b, w, q, r);
    Residue(r * b, q * b);
  }

  lemma Expand(a: nat, b: nat, w: nat, q: nat, r: nat)
    requires a == q * w + r
    ensures a * b == r * b + w * (q * b)
  {
  }

  lemma Residue(v: nat, k: nat)
    ensures Wrap(v + 0x1_0000_0000_0000_0000 * k) == Wrap(v)
  {
  }
}
