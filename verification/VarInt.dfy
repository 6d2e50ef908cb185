/** Integers of variable length: digits to the base 128, most significant first, the high bit telling of more. */
module VarInt {
  import opened Options
  import opened Octets

  /** What is left of a number that is written and read back: a negative one loses all but its low seven bits. */
  function Kept(n: int): nat {
    if n >= 0 then n else n % 128
  }

  function Digit(n: int, more: bool): Octet {
    n % 128 + if more then 128 else 0
  }

  /** The digits of `n`, of which the last one is marked if more follow. */
  function Digits(n: nat, more: bool): (r: Octets)
    ensures r != []
  {
    (if n <= 127 then [] else Digits(n / 128 - 1, true)) + [Digit(n, more)]
  }

  /** A number of a signed type: a negative one is taken for its last digit. */
  function Written(n: int): Octets {
    if n < 0 then [Digit(n, false)] else Digits(n, false)
  }

  /** Goes on reading when `n` has been read so far. */
  function ReadOn(s: Octets, n: nat): Option<(nat, Octets)> {
    if s == [] then None
    else
      var m := n * 128 + s[0] % 128;
      if s[0] >= 128 then ReadOn(s[1..], m + 1) else Some((m, s[1..]))
  }

  function Read(s: Octets): Option<(nat, Octets)> {
    ReadOn(s, 0)
  }

  // ---- reading in a type of fixed width ----

  const UINT32: nat := 0x1_0000_0000
  const UINT64: nat := 0x1_0000_0000_0000_0000

  /** Goes on reading in an unsigned type of `m` values. */
  function ReadOnMod(s: Octets, n: nat, m: nat): Option<(nat, Octets)>
    requires m > 0
  {
    if s == [] then None
    else
      var k := (n * 128 + s[0] % 128) % m;
      if s[0] >= 128 then ReadOnMod(s[1..], (k + 1) % m, m) else Some((k, s[1..]))
  }

  function ReadMod(s: Octets, m: nat): Option<(nat, Octets)>
    requires m > 0
  {
    ReadOnMod(s, 0, m)
  }

  function ToInt32(v: nat): int {
    if v % UINT32 < 0x8000_0000 then v % UINT32 else v % UINT32 - UINT32
  }

  /** Reading a signed number of 32 bits. */
  function ReadInt32(s: Octets): Option<(int, Octets)> {
    match ReadMod(s, UINT32)
    case None => None
    case Some(r) => Some((ToInt32(r.0), r.1))
  }

  lemma ModAdded(q: int, r: int, m: nat)
    requires m > 0
    ensures (m * q + r) % m == r % m
  {
    var a, b := (m * q + r) / m, r / m;
    assert m * q + r == m * a + (m * q + r) % m && r == m * b + r % m;
    SameQuotient(m, a, (m * q + r) % m, q + b, r % m);
  }

  lemma SameQuotient(m: nat, a: int, x: int, b: int, y: int)
    requires 0 <= x < m && 0 <= y < m && m * a + x == m * b + y
    ensures x == y
  {
    Apart(m, a, b);
    Apart(m, b, a);
  }

  lemma Apart(m: nat, a: int, b: int)
    ensures a < b ==> m * a + m <= m * b
  {
    if a < b {
      Multiple(m, b - a);
      assert m * b == m * a + m * (b - a);
    }
  }

  lemma {:induction false} Multiple(m: nat, k: nat)
    requires k >= 1
    ensures m * k >= m
  {
    if k > 1 {
      Multiple(m, k - 1);
      assert m * k == m * (k - 1) + m;
    }
  }

  /** Reducing before or after taking in a digit is the same. */
  lemma DigitMod(n: nat, d: nat, m: nat)
    requires m > 0
    ensures (n % m * 128 + d) % m == (n * 128 + d) % m
    ensures ((n % m) + 1) % m == (n + 1) % m
  {
    var q, r := n / m, n % m;
    assert n == m * q + r;
    assert n * 128 + d == m * (q * 128) + (r * 128 + d);
    ModAdded(q * 128, r * 128 + d, m);
    ModAdded(q, r + 1, m);
  }

  /** Reading in a type of `m` values gives the number modulo `m`. */
  lemma {:induction false} ReadOnModIs(s: Octets, n: nat, m: nat)
    requires m > 0
    ensures ReadOnMod(s, n % m, m)
         == match ReadOn(s, n) case None => None case Some(r) => Some((r.0 % m, r.1))
    decreases |s|
  {
    if s != [] {
      var k := n * 128 + s[0] % 128;
      DigitMod(n, s[0] % 128, m);
      if s[0] >= 128 {
        DigitMod(k, 0, m);
        ReadOnModIs(s[1..], k + 1, m);
      }
    }
  }

  lemma ReadModIs(s: Octets, m: nat)
    requires m > 0
    ensures ReadMod(s, m) == match Read(s) case None => None case Some(r) => Some((r.0 % m, r.1))
  {
    ReadOnModIs(s, 0, m);
    assert 0 % m == 0;
  }

  /** What fits the type is read back as what is kept of it. */
  lemma ReadWrittenMod(n: int, rest: Octets, m: nat)
    requires Kept(n) < m
    ensures ReadMod(Written(n) + rest, m) == Some((Kept(n), rest))
  {
    hide Written, Read, ReadMod, Kept;
    ReadWritten(n, rest);
    ReadModIs(Written(n) + rest, m);
  }

  lemma ReadWrittenInt(n: int, rest: Octets)
    requires -0x8000_0000 <= n < 0x8000_0000
    ensures ReadInt32(Written(n) + rest) == Some((Kept(n), rest))
  {
    hide Written, ReadMod;
    ReadWrittenMod(n, rest, UINT32);
  }

  lemma {:induction false} ReadOne(d: Octet, rest: Octets, n: nat)
    ensures ReadOn([d] + rest, n)
         == if d >= 128 then ReadOn(rest, n * 128 + d % 128 + 1) else Some((n * 128 + d % 128, rest))
  {
    assert ([d] + rest)[1..] == rest;
  }

  lemma {:induction false} ReadDigits(n: nat, more: bool, rest: Octets)
    ensures ReadOn(Digits(n, more) + rest, 0) == if more then ReadOn(rest, n + 1) else Some((n, rest))
    decreases n
  {
    hide ReadOn;
    var d := Digit(n, more);
    assert d % 128 == n % 128 && (d >= 128 <==> more);
    if n <= 127 {
      assert Digits(n, more) == [d];
      ReadOne(d, rest, 0);
    } else {
      var high := Digits(n / 128 - 1, true);
      ReadDigits(n / 128 - 1, true, [d] + rest);
      ReadOne(d, rest, n / 128);
      assert high + [d] + rest == high + ([d] + rest);
    }
  }

  /** Reading gives back what is kept, and what follows. */
  lemma ReadWritten(n: int, rest: Octets)
    ensures Read(Written(n) + rest) == Some((Kept(n), rest))
  {
    if n < 0 {
      assert (Written(n) + rest)[1..] == rest;
    } else {
      ReadDigits(n, false, rest);
    }
  }

  /** A number comes back exactly if it is not negative. */
  lemma WholeIffNatural(n: int, rest: Octets)
    ensures Read(Written(n) + rest) == Some((n, rest)) <==> n >= 0
  {
    ReadWritten(n, rest);
  }

  /** The number -1 comes back as 127. */
  lemma MinusOne()
    ensures Written(-1) == Written(127) == [127] && Read(Written(-1)) == Some((127, []))
  {
    ReadWritten(-1, []);
    assert Written(-1) + [] == Written(-1);
  }

  lemma {:induction false} DigitsOnto(s: Octets, n: nat)
    requires ReadOn(s, n + 1).Some?
    ensures var (v, rest) := ReadOn(s, n + 1).value; v >= 128 && Digits(n, true) + s == Digits(v, false) + rest
    decreases |s|
  {
    hide Digits;
    var d, tail := s[0], s[1..];
    var m := (n + 1) * 128 + d % 128;
    DigitAppended(n, d);
    assert s == [d] + tail;
    assert Digits(n, true) + s == Digits(m, d >= 128) + tail;
    if d >= 128 {
      DigitsOnto(tail, m);
    }
  }

  lemma {:induction false} DigitAppended(n: nat, d: Octet)
    ensures Digits(n, true) + [d] == Digits((n + 1) * 128 + d % 128, d >= 128)
  {
    hide Digits, Digit;
    var m := (n + 1) * 128 + d % 128;
    Quotient(n, d % 128);
    SameDigit(m, d);
    HighDigits(m, d >= 128, n);
  }

  lemma {:induction false} HighDigits(m: nat, more: bool, high: nat)
    requires m > 127 && m / 128 - 1 == high
    ensures Digits(m, more) == Digits(high, true) + [Digit(m, more)]
  {
  }

  lemma SameDigit(m: nat, d: Octet)
    requires m % 128 == d % 128
    ensures Digit(m, d >= 128) == d
  {
  }

  lemma Quotient(n: nat, low: nat)
    requires low < 128
    ensures ((n + 1) * 128 + low) / 128 - 1 == n && ((n + 1) * 128 + low) % 128 == low
  {
  }

  /** Read without bounds, a number has exactly one encoding. */
  lemma OneEncodingUnbounded(s: Octets)
    requires Read(s).Some?
    ensures s == Written(Read(s).value.0) + Read(s).value.1
  {
    var m := s[0] % 128;
    assert s == [s[0]] + s[1..];
    if s[0] >= 128 {
      assert Digits(m, true) == [s[0]];
      DigitsOnto(s[1..], m);
    } else {
      assert Digits(m, false) == [s[0]];
    }
  }

  /** In a type of `m` values, what is read is the number modulo `m`, and the octets are those that it is written as
      exactly if the number is in the type. */
  lemma OneEncoding(s: Octets, m: nat)
    requires m > 0 && Read(s).Some?
    ensures var (n, rest) := Read(s).value;
            && ReadMod(s, m) == Some((n % m, rest))
            && (s == Written(n % m) + rest <==> n < m)
  {
    hide Written, Read, ReadMod, Kept;
    var (n, rest) := Read(s).value;
    ReadModIs(s, m);
    OneEncodingUnbounded(s);
    if s == Written(n % m) + rest {
      ReadWritten(n % m, rest);
      KeptNatural(n % m);
    }
  }

  lemma KeptNatural(n: nat)
    ensures Kept(n) == n
  {
  }

  /** The octets of 2^32 are read as 0 in 32 bits, which is written otherwise. */
  lemma TwoTo32()
    ensures var s := [0x8e, 0xfe, 0xfe, 0xff, 0x00];
            Read(s) == Some((UINT32, [])) && ReadMod(s, UINT32) == Some((0, [])) && s != Written(0)
  {
    var s: Octets := [0x8e, 0xfe, 0xfe, 0xff, 0x00];
    assert s[1..] == [0xfe, 0xfe, 0xff, 0x00] && s[1..][1..] == [0xfe, 0xff, 0x00];
    assert s[1..][1..][1..] == [0xff, 0x00] && s[1..][1..][1..][1..] == [0x00];
    assert ReadOn([0x00], 0x1ff_ffff + 1) == Some((UINT32, []));
    assert ReadOn([0xff, 0x00], 0x3_fffe + 1) == Some((UINT32, []));
    assert ReadOn([0xfe, 0xff, 0x00], 0x7fe + 1) == Some((UINT32, []));
    assert ReadOn([0xfe, 0xfe, 0xff, 0x00], 0xe + 1) == Some((UINT32, []));
    ReadModIs(s, UINT32);
  }

  // ---- the loops ----

  /** The least number that takes more than `k` digits. */
  function Limit(k: nat): nat {
    if k == 0 then 0 else 128 * Limit(k - 1) + 128
  }

  lemma {:induction false} DigitCount(n: nat, more: bool, k: nat)
    requires n < Limit(k)
    ensures |Digits(n, more)| <= k
    decreases k
  {
    if n > 127 {
      DigitCount(n / 128 - 1, true, k - 1);
    }
  }

  /** The buffers of five bytes for 32-bit numbers and of ten for 64-bit ones are long enough. */
  lemma BufferFits(n: int)
    ensures n < 0x8000_0000 ==> |Written(n)| <= (32 + 6) / 7
    ensures n < 0x1_0000_0000_0000_0000 ==> |Written(n)| <= (64 + 6) / 7
  {
    assert Limit(4) == 0x1020_4080 && Limit(8) == 128 * Limit(7) + 128;
    if 0 <= n < 0x8000_0000 {
      DigitCount(n, false, 5);
    }
    if 0 <= n < 0x1_0000_0000_0000_0000 {
      TenDigits();
      DigitCount(n, false, 10);
    }
  }

  lemma TenDigits()
    ensures Limit(10) > 0x1_0000_0000_0000_0000
  {
    assert Limit(4) == 0x1020_4080;
    assert Limit(8) == 128 * (128 * (128 * (128 * Limit(4) + 128) + 128) + 128) + 128;
    assert Limit(10) == 128 * (128 * Limit(8) + 128) + 128;
  }

  /** Fills a buffer of `size` bytes from the last digit on, then writes it backwards. */
  method WriteVarInt(number: int, size: nat) returns (os: Octets)
    requires |Written(number)| <= size
    ensures os == Written(number)
  {
    var tmp := new Octet[size](_ => 0);
    var len := Fill(number, tmp);
    os := [];
    while |os| < len
      invariant |os| <= len == |Written(number)| && os == Written(number)[..|os|]
    {
      os := os + [tmp[len - 1 - |os|]];
    }
  }

  /** The digits up to the `k`-th of `w` are those of `n`; so is the last of them, and those before it. */
  lemma LastDigit(n: nat, more: bool, w: Octets, k: nat)
    requires k <= |w| && Digits(n, more) == w[..k]
    ensures k > 0 && w[k - 1] == Digit(n, more)
    ensures if n <= 127 then k == 1 else k > 1 && Digits(n / 128 - 1, true) == w[..k - 1]
  {
    hide Digit;
    assert w[..k][..k - 1] == w[..k - 1];
    if n > 127 {
      var high := Digits(n / 128 - 1, true);
      assert (high + [Digit(n, more)])[..|high|] == high;
    }
  }

  method Fill(number: int, tmp: array<Octet>) returns (len: nat)
    requires |Written(number)| <= tmp.Length
    modifies tmp
    ensures len == |Written(number)| && forall i :: 0 <= i < len ==> tmp[i] == Written(number)[len - 1 - i]
  {
    hide Digits, Digit;
    ghost var w := Written(number);
    len := 0;
    var n := number;
    while n > 127
      invariant 0 <= len < |w| && (number < 0 ==> n == number && len == 0)
      invariant number >= 0 ==> n >= 0 && Digits(n, len > 0) == w[..|w| - len]
      invariant forall i :: 0 <= i < len ==> tmp[i] == w[|w| - 1 - i]
      decreases n
    {
      LastDigit(n, len > 0, w, |w| - len);
      tmp[len] := Digit(n, len > 0);
      n := n / 128 - 1;
      len := len + 1;
    }
    if number >= 0 {
      LastDigit(n, len > 0, w, |w| - len);
    }
    tmp[len] := Digit(n, len > 0);
    len := len + 1;
  }

  /** Reads a number in an unsigned type of `m` values. */
  method ReadVarInt(s: Octets, m: nat) returns (n: Option<nat>, rest: Octets)
    requires m > 0
    ensures n.None? <==> ReadMod(s, m).None?
    ensures n.Some? ==> ReadMod(s, m) == Some((n.value, rest))
  {
    rest := s;
    var v: nat := 0;
    while rest != []
      invariant ReadOnMod(rest, v, m) == ReadMod(s, m)
      decreases |rest|
    {
      var chData := rest[0];
      rest := rest[1..];
      v := (v * 128 + chData % 128) % m;
      if chData >= 128 {
        v := (v + 1) % m;
      } else {
        return Some(v), rest;
      }
    }
    n := None;
  }
}
