/** How the unspent outputs of a transaction are written to the database and read back. */
module CoinsCodec {
  import opened Options
  import opened Coins
  import opened Bits
  import opened Amounts
  import opened Octets
  import opened VarInt
  import opened Stored
  import opened ScriptCodec

  predicate Unspent(vout: seq<TxOut>, i: nat) {
    i < |vout| && !vout[i].IsNull()
  }

  // ---- the mask: one bit for each output from the third on ----

  /** Bit `j` of mask byte `b`. */
  predicate InMask(vout: seq<TxOut>, b: nat, j: nat) {
    Unspent(vout, 2 + 8 * b + j)
  }

  /** The first `n` bits of mask byte `b`. */
  function MaskByte(vout: seq<TxOut>, b: nat, n: nat): bv8
    requires n <= 8
  {
    if n == 0 then 0
    else MaskByte(vout, b, n - 1) | (if InMask(vout, b, n - 1) then (1 as bv8) << (n - 1) else 0)
  }

  /** How many mask bytes there are to consider. */
  function MaskBytes(vout: seq<TxOut>): nat {
    if |vout| <= 2 then 0 else (|vout| - 2 + 7) / 8
  }

  function LastUsed(vout: seq<TxOut>, n: nat): (r: nat)
    ensures r <= n && (r > 0 ==> MaskByte(vout, r - 1, 8) != 0)
    ensures forall b :: r <= b < n ==> MaskByte(vout, b, 8) == 0
  {
    if n == 0 || MaskByte(vout, n - 1, 8) != 0 then n else LastUsed(vout, n - 1)
  }

  /** How many of the mask bytes from `b` up to `n` are not zero. */
  function CountUsed(vout: seq<TxOut>, b: nat, n: nat): (r: nat)
    ensures b < n && MaskByte(vout, n - 1, 8) != 0 ==> r > 0
    decreases n - b
  {
    if b >= n then 0 else (if MaskByte(vout, b, 8) != 0 then 1 else 0) + CountUsed(vout, b + 1, n)
  }

  function MaskSize(vout: seq<TxOut>): nat {
    LastUsed(vout, MaskBytes(vout))
  }

  function MaskCode(vout: seq<TxOut>): nat {
    CountUsed(vout, 0, MaskBytes(vout))
  }

  // ---- writing ----

  function OctetOf(b: bv8): Octet {
    b as int
  }

  function ByteOf(o: Octet): bv8 {
    o as bv8
  }

  lemma ByteBack(b: bv8)
    ensures ByteOf(OctetOf(b)) == b
  {
  }

  function MaskOctets(vout: seq<TxOut>, b: nat, n: nat): Octets
    decreases n - b
  {
    if b >= n then [] else [OctetOf(MaskByte(vout, b, 8))] + MaskOctets(vout, b + 1, n)
  }

  /** One output: its amount in short form, then its script. */
  function OutOctets(curve: Curve, out: TxOut): Octets {
    Written(Wrap(Amounts.Compress(Wrap(out.nValue)))) + ScriptCodec.Write(curve, out.scriptPubKey)
  }

  function OutsOctets(curve: Curve, vout: seq<TxOut>, i: nat): Octets
    decreases |vout| - i
  {
    if i >= |vout| then []
    else if vout[i].IsNull() then OutsOctets(curve, vout, i + 1)
    else OutOctets(curve, vout[i]) + OutsOctets(curve, vout, i + 1)
  }

  function HeaderCode(c: Coin): int {
    var fFirst, fSecond := Unspent(c.vout, 0), Unspent(c.vout, 1);
    8 * (MaskCode(c.vout) - if fFirst || fSecond then 0 else 1)
    + (if c.fCoinBase then 1 else 0) + (if fFirst then 2 else 0) + (if fSecond then 4 else 0)
  }

  function Serialized(curve: Curve, c: Coin): Octets {
    Written(c.nVersion)
    + (Written(HeaderCode(c))
       + (MaskOctets(c.vout, 0, MaskSize(c.vout)) + (OutsOctets(curve, c.vout, 0) + Written(c.nHeight))))
  }

  // ---- reading ----

  function ByteBits(byte: bv8): (r: seq<bool>)
    ensures |r| == 8
  {
    seq(8, p requires 0 <= p < 8 => Bit(byte, p))
  }

  /** What was read, put behind what was read before. */
  function Prepend<T>(head: seq<T>, more: Option<(seq<T>, Octets)>): Option<(seq<T>, Octets)> {
    match more
    case None => None
    case Some(m) => Some((head + m.0, m.1))
  }

  lemma PrependJoins<T>(a: seq<T>, b: seq<T>, more: Option<(seq<T>, Octets)>)
    ensures Prepend([], more) == more
    ensures Prepend(a, Prepend(b, more)) == Prepend(a + b, more)
    ensures more.Some? && more.value.0 == [] ==> Prepend(a, more) == Some((a, more.value.1))
  {
    if more.Some? {
      assert [] + more.value.0 == more.value.0;
      assert a + (b + more.value.0) == (a + b) + more.value.0;
      assert a + [] == a;
    }
  }

  lemma PrependNone<T>(a: seq<T>)
    ensures Prepend(a, None) == None
  {
  }

  /** Reads mask bytes until `n` of them were not zero. */
  function ReadMask(s: Octets, n: nat): Option<(seq<bool>, Octets)>
    decreases |s|
  {
    if n == 0 then Some(([], s))
    else if s == [] then None
    else
      Prepend(ByteBits(ByteOf(s[0])), ReadMask(s[1..], if ByteOf(s[0]) != 0 then n - 1 else n))
  }

  /** Conversion to a signed 64-bit integer. */
  function ToInt64(v: nat): int {
    if v < 0x8000_0000_0000_0000 then v else v - 0x1_0000_0000_0000_0000
  }

  function ReadOut(curve: Curve, s: Octets): Option<(TxOut, Octets)> {
    match ReadMod(s, UINT64)
    case None => None
    case Some(amount) =>
      match ScriptCodec.Read(curve, amount.1)
      case None => None
      case Some(script) => Some((TxOut(ToInt64(Wrap(Amounts.Decompress(Wrap(amount.0)))), script.0), script.1))
  }

  function ReadOuts(curve: Curve, s: Octets, vAvail: seq<bool>): Option<(seq<TxOut>, Octets)>
    decreases |vAvail|
  {
    if vAvail == [] then Some(([], s))
    else if !vAvail[0] then
      Prepend([NULL_OUT], ReadOuts(curve, s, vAvail[1..]))
    else
      match ReadOut(curve, s)
      case None => None
      case Some(out) => Prepend([out.0], ReadOuts(curve, out.1, vAvail[1..]))
  }

  function Unserialized(curve: Curve, s: Octets): Option<(Coin, Octets)> {
    match ReadInt32(s)
    case None => None
    case Some(version) =>
      match ReadMod(version.1, UINT32)
      case None => None
      case Some(head) =>
        match ReadBody(curve, head.1, head.0)
        case None => None
        case Some(body) =>
          match ReadInt32(body.1)
          case None => None
          case Some(height) => Some((Coin(head.0 % 2 == 1, Trim(body.0), height.0, version.0), height.1))
  }

  /** What stands between header code and height. */
  function ReadBody(curve: Curve, s: Octets, nCode: nat): Option<(seq<TxOut>, Octets)> {
    var (first, second) := (nCode / 2 % 2 == 1, nCode / 4 % 2 == 1);
    match ReadMask(s, nCode / 8 + if first || second then 0 else 1)
    case None => None
    case Some(mask) => ReadOuts(curve, mask.1, [first, second] + mask.0)
  }

  // ---- the mask tells which outputs are unspent ----

  lemma {:induction false} MaskBit(vout: seq<TxOut>, b: nat, n: nat, j: nat)
    requires n <= 8 && j < 8
    ensures Bit(MaskByte(vout, b, n), j) == (j < n && InMask(vout, b, j))
  {
    hide Bit;
    if n == 0 {
      NoBits();
    } else {
      MaskBit(vout, b, n - 1, j);
      SetBit(MaskByte(vout, b, n - 1), n - 1, InMask(vout, b, n - 1), j);
    }
  }

  lemma {:induction false} MaskByteZero(vout: seq<TxOut>, b: nat)
    ensures MaskByte(vout, b, 8) == 0 <==> forall j :: 0 <= j < 8 ==> !InMask(vout, b, j)
  {
    hide Bit, MaskByte;
    NoBits();
    forall j | 0 <= j < 8 ensures Bit(MaskByte(vout, b, 8), j) == InMask(vout, b, j) {
      MaskBit(vout, b, 8, j);
    }
    if forall j :: 0 <= j < 8 ==> !InMask(vout, b, j) {
      SameBits(MaskByte(vout, b, 8), 0);
    }
  }

  /** Beyond the mask everything is spent. */
  lemma BeyondMask(vout: seq<TxOut>, i: nat)
    requires i >= 2 + 8 * MaskSize(vout)
    ensures !Unspent(vout, i)
  {
    hide MaskByte;
    if i < |vout| {
      var b, j := (i - 2) / 8, (i - 2) % 8;
      assert i == 2 + 8 * b + j;
      assert b < MaskBytes(vout);
      MaskByteZero(vout, b);
      assert !InMask(vout, b, j);
    }
  }

  function MaskBits(vout: seq<TxOut>, b: nat, n: nat): seq<bool>
    decreases n - b
  {
    if b >= n then [] else ByteBits(MaskByte(vout, b, 8)) + MaskBits(vout, b + 1, n)
  }

  lemma {:induction false} MaskBitsAt(vout: seq<TxOut>, b: nat, n: nat)
    requires b <= n
    ensures |MaskBits(vout, b, n)| == 8 * (n - b)
    ensures forall p :: 0 <= p < 8 * (n - b) ==> MaskBits(vout, b, n)[p] == Unspent(vout, 2 + 8 * b + p)
    decreases n - b
  {
    hide MaskByte;
    if b < n {
      MaskBitsAt(vout, b + 1, n);
      forall p | 0 <= p < 8 * (n - b) ensures MaskBits(vout, b, n)[p] == Unspent(vout, 2 + 8 * b + p) {
        if p < 8 {
          MaskBit(vout, b, 8, p);
          assert InMask(vout, b, p) == Unspent(vout, 2 + 8 * b + p);
        } else {
          assert MaskBits(vout, b + 1, n)[p - 8] == Unspent(vout, 2 + 8 * (b + 1) + (p - 8));
        }
      }
    }
  }

  /** The mask is read to its end and not further: its last byte is not zero. */
  lemma {:induction false} ReadMaskBack(vout: seq<TxOut>, b: nat, n: nat, rest: Octets)
    requires b <= n && (b < n ==> MaskByte(vout, n - 1, 8) != 0)
    ensures ReadMask(MaskOctets(vout, b, n) + rest, CountUsed(vout, b, n)) == Some((MaskBits(vout, b, n), rest))
    decreases n - b
  {
    hide MaskByte, OctetOf, ByteOf;
    if b == n {
      assert MaskOctets(vout, b, n) + rest == rest;
    } else {
      ReadMaskBack(vout, b + 1, n, rest);
      var s := MaskOctets(vout, b, n) + rest;
      ByteBack(MaskByte(vout, b, 8));
      assert s[0] == OctetOf(MaskByte(vout, b, 8)) && s[1..] == MaskOctets(vout, b + 1, n) + rest;
    }
  }

  lemma {:induction false} CountBeyond(vout: seq<TxOut>, b: nat, r: nat, n: nat)
    requires b <= r <= n && forall k :: r <= k < n ==> MaskByte(vout, k, 8) == 0
    ensures CountUsed(vout, b, n) == CountUsed(vout, b, r)
    decreases n - b
  {
    hide MaskByte;
    if b < n {
      CountBeyond(vout, b + 1, if b < r then r else b + 1, n);
    }
  }

  // ---- the outputs ----

  ghost predicate InRange(vout: seq<TxOut>) {
    forall i :: 0 <= i < |vout| && !vout[i].IsNull() ==> OutInRange(vout[i])
  }

  /** An amount of money, and a script of less than 2^32 octets. */
  predicate OutInRange(out: TxOut) {
    MoneyRange(out.nValue) && SizeFits(out.scriptPubKey)
  }

  /** Version and height are 32-bit numbers, and so is the header code. */
  predicate InTypes(c: Coin) {
    && -0x8000_0000 <= c.nVersion < 0x8000_0000 && -0x8000_0000 <= c.nHeight < 0x8000_0000
    && |c.vout| < 0x8000_0000
  }

  /** Spent outputs carry no script. */
  ghost predicate Blank(vout: seq<TxOut>) {
    forall i :: 0 <= i < |vout| && vout[i].IsNull() ==> vout[i] == NULL_OUT
  }

  function OutAt(vout: seq<TxOut>, i: nat): TxOut {
    if i < |vout| then vout[i] else NULL_OUT
  }

  lemma {:induction false} NothingLeft(curve: Curve, vout: seq<TxOut>, i: nat)
    requires forall k: nat :: k >= i ==> !Unspent(vout, k)
    ensures OutsOctets(curve, vout, i) == []
    decreases |vout| - i
  {
    if i < |vout| {
      assert !Unspent(vout, i);
      NothingLeft(curve, vout, i + 1);
    }
  }

  lemma AmountBack(v: int)
    requires MoneyRange(v)
    ensures ToInt64(Wrap(Amounts.Decompress(Wrap(Wrap(Amounts.Compress(Wrap(v))))))) == v
  {
    hide Amounts.Compress, Amounts.Decompress;
    MoneyFits(v);
    DecompressCompress(v);
  }

  lemma ReadOutBack(curve: Curve, out: TxOut, rest: Octets)
    requires Sound(curve) && OutInRange(out)
    ensures ReadOut(curve, OutOctets(curve, out) + rest) == Some((out, rest))
  {
    hide Amounts.Compress, Amounts.Decompress, ToInt64, Written, ReadMod, ScriptCodec.Read, ScriptCodec.Write, Sound;
    var amount := Wrap(Amounts.Compress(Wrap(out.nValue)));
    var script := ScriptCodec.Write(curve, out.scriptPubKey);
    AmountBack(out.nValue);
    KeptNatural(amount);
    ReadWrittenMod(amount, script + rest, UINT64);
    ScriptCodec.RoundTrip(curve, out.scriptPubKey, rest);
    assert OutOctets(curve, out) + rest == Written(amount) + (script + rest);
  }

  lemma {:induction false} ReadOutsBack(curve: Curve, vout: seq<TxOut>, i: nat, vAvail: seq<bool>, rest: Octets)
    returns (outs: seq<TxOut>)
    requires Sound(curve) && InRange(vout) && Blank(vout)
    requires forall p :: 0 <= p < |vAvail| ==> vAvail[p] == Unspent(vout, i + p)
    requires forall k: nat :: k >= i + |vAvail| ==> !Unspent(vout, k)
    ensures ReadOuts(curve, OutsOctets(curve, vout, i) + rest, vAvail) == Some((outs, rest))
    ensures |outs| == |vAvail| && forall p :: 0 <= p < |outs| ==> outs[p] == OutAt(vout, i + p)
    decreases |vAvail|
  {
    hide ReadOut, OutOctets, Sound;
    if vAvail == [] {
      NothingLeft(curve, vout, i);
      assert OutsOctets(curve, vout, i) + rest == rest;
      outs := [];
    } else {
      forall p | 0 <= p < |vAvail| - 1 ensures vAvail[1..][p] == Unspent(vout, i + 1 + p) {
        assert vAvail[p + 1] == Unspent(vout, i + (p + 1));
      }
      var more := ReadOutsBack(curve, vout, i + 1, vAvail[1..], rest);
      outs := [OutAt(vout, i)] + more;
      assert vAvail[0] == Unspent(vout, i + 0);
      if vAvail[0] {
        var after := OutsOctets(curve, vout, i + 1) + rest;
        assert OutsOctets(curve, vout, i) + rest == OutOctets(curve, vout[i]) + after;
        ReadOutBack(curve, vout[i], after);
      } else {
        PastEnd(curve, vout, i);
      }
    }
  }

  lemma PastEnd(curve: Curve, vout: seq<TxOut>, i: nat)
    requires !Unspent(vout, i)
    ensures OutsOctets(curve, vout, i) == OutsOctets(curve, vout, i + 1)
  {
  }

  // ---- the round trip ----

  /** Sequences that agree, spent outputs being appended to the shorter one, are trimmed to the same. */
  lemma {:induction false} TrimAgree(a: seq<TxOut>, b: seq<TxOut>)
    requires forall i: nat :: OutAt(a, i) == OutAt(b, i)
    ensures Trim(a) == Trim(b)
    decreases |a| + |b|
  {
    if |a| < |b| {
      assert OutAt(a, |b| - 1) == OutAt(b, |b| - 1);
      ShorterAgrees(a, b);
      TrimAgree(a, b[..|b| - 1]);
    } else if |b| < |a| {
      assert OutAt(a, |a| - 1) == OutAt(b, |a| - 1);
      ShorterAgrees(b, a);
      TrimAgree(a[..|a| - 1], b);
    } else {
      forall i | 0 <= i < |a| ensures a[i] == b[i] {
        assert OutAt(a, i) == OutAt(b, i);
      }
      assert a == b;
    }
  }

  lemma ShorterAgrees(a: seq<TxOut>, b: seq<TxOut>)
    requires |a| < |b| && forall i: nat :: OutAt(a, i) == OutAt(b, i)
    ensures forall i: nat :: OutAt(a, i) == OutAt(b[..|b| - 1], i)
  {
    forall i: nat ensures OutAt(a, i) == OutAt(b[..|b| - 1], i) {
      assert OutAt(a, i) == OutAt(b, i);
    }
  }

  /** Reading back what was written of a record with an unspent output gives that record without the spent outputs at
      its end, and of a negative version what is kept of it; what follows in the stream is left. */
  lemma RoundTrip(curve: Curve, c: Coin, rest: Octets)
    requires Sound(curve) && InTypes(c) && !c.IsPruned() && InRange(c.vout) && Blank(c.vout)
    ensures 0 <= HeaderCode(c) < UINT32
    ensures Unserialized(curve, Serialized(curve, c) + rest) == Some((StoredCoin(c.(vout := Trim(c.vout))), rest))
  {
    hide MaskByte, MaskOctets, MaskBits, OutsOctets, ReadMask, ReadOuts, Trim, CountUsed, LastUsed, InRange, Blank,
         MaskBytes, HeaderCode, Unspent, Written, ReadMod, ReadInt32, ReadBody, Sound, Kept;
    var vout, head := c.vout, HeaderCode(c);
    var last := Written(c.nHeight) + rest;
    HeaderParts(c);
    var outs := BodyBack(curve, c, last);
    TrimAgree(outs, vout);
    var mask, body := MaskOctets(vout, 0, MaskSize(vout)), OutsOctets(curve, vout, 0);
    ReadWrittenInt(c.nHeight, rest);
    HeaderFits(c);
    KeptNatural(head);
    ReadWrittenMod(head, mask + (body + last), UINT32);
    ReadWrittenInt(c.nVersion, Written(head) + (mask + (body + last)));
    Assembled(Written(c.nVersion), Written(head), mask, body, Written(c.nHeight), rest);
  }

  lemma HeaderFits(c: Coin)
    requires InTypes(c)
    ensures HeaderCode(c) < UINT32
  {
    hide CountUsed;
    CountAtMost(c.vout, 0, MaskBytes(c.vout));
  }

  lemma {:induction false} CountAtMost(vout: seq<TxOut>, b: nat, n: nat)
    requires b <= n
    ensures CountUsed(vout, b, n) <= n - b
    decreases n - b
  {
    hide MaskByte;
    if b < n {
      CountAtMost(vout, b + 1, n);
    }
  }

  lemma Assembled(a: Octets, b: Octets, c: Octets, d: Octets, e: Octets, rest: Octets)
    ensures (a + (b + (c + (d + e)))) + rest == a + (b + (c + (d + (e + rest))))
  {
    assert (d + e) + rest == d + (e + rest);
    assert (c + (d + e)) + rest == c + ((d + e) + rest);
    assert (b + (c + (d + e))) + rest == b + ((c + (d + e)) + rest);
  }

  /** Mask and outputs are read back, in as many places as the mask tells of. */
  lemma BodyBack(curve: Curve, c: Coin, rest: Octets) returns (outs: seq<TxOut>)
    requires Sound(curve) && !c.IsPruned() && InRange(c.vout) && Blank(c.vout) && HeaderCode(c) >= 0
    ensures ReadBody(curve, MaskOctets(c.vout, 0, MaskSize(c.vout)) + (OutsOctets(curve, c.vout, 0) + rest),
                     HeaderCode(c))
         == Some((outs, rest))
    ensures forall i: nat :: OutAt(outs, i) == OutAt(c.vout, i)
  {
    hide MaskByte, MaskOctets, MaskBits, OutsOctets, ReadMask, ReadOuts, CountUsed, LastUsed, InRange, Blank,
         MaskBytes, HeaderCode, Unspent, Sound;
    var vout := c.vout;
    var n := MaskSize(vout);
    var tail := OutsOctets(curve, vout, 0) + rest;
    HeaderParts(c);
    CountBeyond(vout, 0, n, MaskBytes(vout));
    LastIsUsed(vout);
    ReadMaskBack(vout, 0, n, tail);
    var vAvail := [Unspent(vout, 0), Unspent(vout, 1)] + MaskBits(vout, 0, n);
    AvailableAt(vout);
    forall k: nat | k >= 0 + |vAvail| ensures !Unspent(vout, k) {
      BeyondMask(vout, k);
    }
    outs := ReadOutsBack(curve, vout, 0, vAvail, rest);
    forall i: nat ensures OutAt(outs, i) == OutAt(vout, i) {
      if i < |outs| {
        assert outs[i] == OutAt(vout, 0 + i);
      } else {
        SpentIsBlank(vout, i);
      }
    }
  }

  lemma {:induction false} LastIsUsed(vout: seq<TxOut>)
    ensures MaskSize(vout) <= MaskBytes(vout)
    ensures forall k :: MaskSize(vout) <= k < MaskBytes(vout) ==> MaskByte(vout, k, 8) == 0
    ensures MaskSize(vout) > 0 ==> MaskByte(vout, MaskSize(vout) - 1, 8) != 0
  {
  }

  lemma {:induction false} AvailableAt(vout: seq<TxOut>)
    ensures var vAvail := [Unspent(vout, 0), Unspent(vout, 1)] + MaskBits(vout, 0, MaskSize(vout));
            && |vAvail| == 2 + 8 * MaskSize(vout)
            && forall p :: 0 <= p < |vAvail| ==> vAvail[p] == Unspent(vout, 0 + p)
  {
    hide MaskBits, MaskSize, Unspent;
    AvailableUpTo(vout, MaskSize(vout));
  }

  lemma {:induction false} AvailableUpTo(vout: seq<TxOut>, n: nat)
    ensures var vAvail := [Unspent(vout, 0), Unspent(vout, 1)] + MaskBits(vout, 0, n);
            |vAvail| == 2 + 8 * n && forall p :: 0 <= p < |vAvail| ==> vAvail[p] == Unspent(vout, 0 + p)
  {
    hide MaskBits, Unspent;
    MaskBitsAt(vout, 0, n);
    var bits := MaskBits(vout, 0, n);
    forall p | 0 <= p < 8 * n ensures bits[p] == Unspent(vout, 2 + p) {
      assert bits[p] == Unspent(vout, 2 + 8 * 0 + p);
    }
  }

  lemma SpentIsBlank(vout: seq<TxOut>, i: nat)
    requires Blank(vout) && !Unspent(vout, i)
    ensures OutAt(vout, i) == NULL_OUT
  {
  }

  /** What the header code tells. */
  lemma HeaderParts(c: Coin)
    requires !c.IsPruned()
    ensures var (fFirst, fSecond, nCode) := (Unspent(c.vout, 0), Unspent(c.vout, 1), HeaderCode(c));
            && nCode >= 0 && (nCode % 2 == 1) == c.fCoinBase && (nCode / 2 % 2 == 1) == fFirst
            && (nCode / 4 % 2 == 1) == fSecond
            && nCode / 8 + (if fFirst || fSecond then 0 else 1) == MaskCode(c.vout)
  {
    hide MaskCode;
    var fFirst, fSecond := Unspent(c.vout, 0), Unspent(c.vout, 1);
    MaskNotEmpty(c);
    ThreeFlags(MaskCode(c.vout) - if fFirst || fSecond then 0 else 1, c.fCoinBase, fFirst, fSecond);
  }

  /** If the first two outputs are spent, some mask byte is not zero. */
  lemma MaskNotEmpty(c: Coin)
    requires !c.IsPruned()
    ensures Unspent(c.vout, 0) || Unspent(c.vout, 1) || MaskCode(c.vout) > 0
  {
    hide MaskByte, CountUsed, LastUsed;
    var i :| 0 <= i < |c.vout| && !c.vout[i].IsNull();
    if !Unspent(c.vout, 0) && !Unspent(c.vout, 1) {
      if MaskSize(c.vout) == 0 {
        BeyondMask(c.vout, i);
      }
      CountBeyond(c.vout, 0, MaskSize(c.vout), MaskBytes(c.vout));
    }
  }

  lemma ThreeFlags(q: nat, a: bool, b: bool, c: bool)
    ensures var n := 8 * q + (if a then 1 else 0) + (if b then 2 else 0) + (if c then 4 else 0);
            (n % 2 == 1) == a && (n / 2 % 2 == 1) == b && (n / 4 % 2 == 1) == c && n / 8 == q
  {
  }

  /** A trimmed record is read back whole exactly if its version and height are not negative. */
  lemma TrimmedRoundTrip(curve: Curve, c: Coin, rest: Octets)
    requires Sound(curve) && InTypes(c) && c.WellFormed() && c.vout != [] && InRange(c.vout)
    ensures Unserialized(curve, Serialized(curve, c) + rest) == Some((StoredCoin(c), rest))
    ensures Unserialized(curve, Serialized(curve, c) + rest) == Some((c, rest)) <==> c.nVersion >= 0 && c.nHeight >= 0
  {
    hide Serialized, Unserialized, HeaderCode, Sound;
    assert !c.vout[|c.vout| - 1].IsNull();
    RoundTrip(curve, c, rest);
    CoinWhole(c);
  }

  /** Two trimmed records are written alike exactly if what is kept of them is the same. */
  lemma WrittenAlike(curve: Curve, c: Coin, d: Coin)
    requires Sound(curve) && InTypes(c) && InTypes(d)
    requires c.WellFormed() && c.vout != [] && InRange(c.vout) && d.WellFormed() && d.vout != [] && InRange(d.vout)
    ensures Serialized(curve, c) == Serialized(curve, d) <==> StoredCoin(c) == StoredCoin(d)
  {
    if Serialized(curve, c) == Serialized(curve, d) {
      TrimmedRoundTrip(curve, c, []);
      TrimmedRoundTrip(curve, d, []);
    }
    SerializedStored(curve, c);
    SerializedStored(curve, d);
    hide Serialized, Unserialized, StoredCoin, Sound;
  }

  lemma SerializedStored(curve: Curve, c: Coin)
    ensures Serialized(curve, StoredCoin(c)) == Serialized(curve, c)
  {
    WrittenKept(c.nVersion);
    WrittenKept(c.nHeight);
    hide Written, Kept;
  }

  lemma WrittenKept(n: int)
    ensures Written(Kept(n)) == Written(n)
  {
  }

  /** Versions -1 and 127 are written alike, and read back as 127. */
  lemma NegativeVersionLost(curve: Curve, c: Coin)
    requires Sound(curve) && InTypes(c) && c.WellFormed() && c.vout != [] && InRange(c.vout)
    requires c.nVersion == -1 && c.nHeight >= 0
    ensures Serialized(curve, c) == Serialized(curve, c.(nVersion := 127))
    ensures Unserialized(curve, Serialized(curve, c)) == Some((c.(nVersion := 127), []))
  {
    hide Serialized, Unserialized, Sound;
    WrittenAlike(curve, c, c.(nVersion := 127));
    TrimmedRoundTrip(curve, c, []);
    assert Serialized(curve, c) + [] == Serialized(curve, c);
  }

  // ---- the record's own methods ----

  /** Size of the mask and number of its bytes that are not zero. */
  method CalcMaskSize(vout: seq<TxOut>) returns (nBytes: nat, nNonzeroBytes: nat)
    ensures nBytes == MaskSize(vout) && nNonzeroBytes == MaskCode(vout)
  {
    hide MaskByte;
    nNonzeroBytes := 0;
    var nLastUsedByte := 0;
    var b := 0;
    while 2 + b * 8 < |vout|
      invariant b <= MaskBytes(vout) && nLastUsedByte == LastUsed(vout, b)
      invariant nNonzeroBytes + CountUsed(vout, b, MaskBytes(vout)) == MaskCode(vout)
    {
      var fZero := true;
      var i := 0;
      while i < 8 && 2 + b * 8 + i < |vout|
        invariant 0 <= i <= 8 && fZero == forall j :: 0 <= j < i ==> !InMask(vout, b, j)
      {
        assert InMask(vout, b, i) == !vout[2 + b * 8 + i].IsNull();
        if !vout[2 + b * 8 + i].IsNull() {
          fZero := false;
        }
        i := i + 1;
      }
      assert forall j :: i <= j < 8 ==> !InMask(vout, b, j);
      MaskByteZero(vout, b);
      if !fZero {
        nLastUsedByte := b + 1;
        nNonzeroBytes := nNonzeroBytes + 1;
      }
      b := b + 1;
    }
    nBytes := nLastUsedByte;
  }

  method Serialize(curve: Curve, c: CCoins) returns (s: Octets)
    requires !c.Value().IsPruned()
    ensures s == Serialized(curve, c.Value())
  {
    hide MaskByte, MaskCode, MaskSize, InMask, Written;
    var vout := c.vout;
    var nMaskSize, nMaskCode := CalcMaskSize(vout);
    var fFirst := |vout| > 0 && !vout[0].IsNull();
    var fSecond := |vout| > 1 && !vout[1].IsNull();
    HeaderParts(c.Value());
    assert fFirst || fSecond || nMaskCode != 0;
    var nCode := 8 * (nMaskCode - (if fFirst || fSecond then 0 else 1))
                 + (if c.fCoinBase then 1 else 0) + (if fFirst then 2 else 0) + (if fSecond then 4 else 0);
    var mask := SerializeMask(vout, nMaskSize);
    var outs := SerializeOuts(curve, vout);
    s := Written(c.nVersion) + (Written(nCode) + (mask + (outs + Written(c.nHeight))));
  }

  method SerializeMask(vout: seq<TxOut>, nMaskSize: nat) returns (s: Octets)
    ensures s == MaskOctets(vout, 0, nMaskSize)
  {
    hide MaskByte;
    s := [];
    var b := 0;
    while b < nMaskSize
      invariant b <= nMaskSize && s + MaskOctets(vout, b, nMaskSize) == MaskOctets(vout, 0, nMaskSize)
    {
      var chAvail := SerializeMaskByte(vout, b);
      s := s + [OctetOf(chAvail)];
      b := b + 1;
    }
  }

  method SerializeMaskByte(vout: seq<TxOut>, b: nat) returns (chAvail: bv8)
    ensures chAvail == MaskByte(vout, b, 8)
  {
    chAvail := 0;
    var i := 0;
    while i < 8 && 2 + b * 8 + i < |vout|
      invariant 0 <= i <= 8 && chAvail == MaskByte(vout, b, i)
    {
      if !vout[2 + b * 8 + i].IsNull() {
        chAvail := chAvail | ((1 as bv8) << i);
      } else {
        OrZero(chAvail);
      }
      i := i + 1;
    }
    MaskByteEnds(vout, b, i);
  }

  lemma {:induction false} MaskByteEnds(vout: seq<TxOut>, b: nat, i: nat)
    requires i <= 8 && (i == 8 || 2 + b * 8 + i >= |vout|)
    ensures MaskByte(vout, b, 8) == MaskByte(vout, b, i)
    decreases 8 - i
  {
    if i < 8 {
      MaskByteEnds(vout, b, i + 1);
      OrZero(MaskByte(vout, b, i));
    }
  }

  lemma OrZero(x: bv8)
    ensures x | 0 == x
  {
  }

  method SerializeOuts(curve: Curve, vout: seq<TxOut>) returns (s: Octets)
    ensures s == OutsOctets(curve, vout, 0)
  {
    hide Amounts.Compress, Wrap, Written, ScriptCodec.Write;
    s := [];
    var i := 0;
    while i < |vout|
      invariant i <= |vout| && s + OutsOctets(curve, vout, i) == OutsOctets(curve, vout, 0)
    {
      if !vout[i].IsNull() {
        var nVal := CompressAmount(Wrap(vout[i].nValue));
        s := s + (Written(nVal) + ScriptCodec.Write(curve, vout[i].scriptPubKey));
      }
      i := i + 1;
    }
  }

  /** Reads a record; false when the stream ends early. */
  method Unserialize(curve: Curve, c: CCoins, s: Octets) returns (ok: bool, rest: Octets)
    modifies c
    ensures ok <==> Unserialized(curve, s).Some?
    ensures ok ==> Unserialized(curve, s) == Some((c.Value(), rest))
  {
    hide Trim, ReadMask, ReadOuts, ReadMod;
    var nVersion, nCode, nHeight;
    nVersion, rest := ReadVarInt(s, UINT32);
    if nVersion.None? {
      return false, rest;
    }
    c.nVersion := ToInt32(nVersion.value);
    nCode, rest := ReadVarInt(rest, UINT32);
    if nCode.None? {
      return false, rest;
    }
    c.fCoinBase := nCode.value % 2 == 1;
    var vAvail := [nCode.value / 2 % 2 == 1, nCode.value / 4 % 2 == 1];
    var nMaskCode := nCode.value / 8 + if nCode.value / 2 % 2 == 1 || nCode.value / 4 % 2 == 1 then 0 else 1;
    var mask;
    ok, mask, rest := UnserializeMask(rest, nMaskCode);
    if !ok {
      return;
    }
    vAvail := vAvail + mask;
    var vout;
    ok, vout, rest := UnserializeOuts(curve, rest, vAvail);
    if !ok {
      return;
    }
    c.vout := vout;
    nHeight, rest := ReadVarInt(rest, UINT32);
    if nHeight.None? {
      return false, rest;
    }
    c.nHeight := ToInt32(nHeight.value);
    c.Cleanup();
  }

  method UnserializeMask(s: Octets, n: nat) returns (ok: bool, bits: seq<bool>, rest: Octets)
    ensures ok <==> ReadMask(s, n).Some?
    ensures ok ==> ReadMask(s, n) == Some((bits, rest))
  {
    hide Prepend, ByteOf;
    bits, rest := [], s;
    var nMaskCode := n;
    PrependJoins<bool>([], [], ReadMask(s, n));
    while nMaskCode > 0
      invariant ReadMask(s, n) == Prepend(bits, ReadMask(rest, nMaskCode))
      decreases |rest|
    {
      if rest == [] {
        PrependNone(bits);
        return false, bits, rest;
      }
      var chAvail := ByteOf(rest[0]);
      var more := [];
      while |more| < 8
        invariant |more| <= 8 && more == ByteBits(chAvail)[..|more|]
      {
        more := more + [Bit(chAvail, |more|)];
      }
      assert more == ByteBits(chAvail);
      PrependJoins(bits, more, ReadMask(rest[1..], if chAvail != 0 then nMaskCode - 1 else nMaskCode));
      bits := bits + more;
      rest := rest[1..];
      if chAvail != 0 {
        nMaskCode := nMaskCode - 1;
      }
    }
    PrependJoins(bits, [], ReadMask(rest, 0));
    ok := true;
  }

  method UnserializeOuts(curve: Curve, s: Octets, vAvail: seq<bool>) returns (ok: bool, vout: seq<TxOut>, rest: Octets)
    ensures ok <==> ReadOuts(curve, s, vAvail).Some?
    ensures ok ==> ReadOuts(curve, s, vAvail) == Some((vout, rest))
  {
    hide Prepend, ReadOut;
    vout, rest := seq(|vAvail|, _ => NULL_OUT), s;
    var i := 0;
    PrependJoins<TxOut>([], [], ReadOuts(curve, s, vAvail));
    assert vAvail[0..] == vAvail;
    while i < |vAvail|
      invariant i <= |vAvail| == |vout| && forall k :: i <= k < |vout| ==> vout[k] == NULL_OUT
      invariant ReadOuts(curve, s, vAvail) == Prepend(vout[..i], ReadOuts(curve, rest, vAvail[i..]))
    {
      assert vAvail[i..][1..] == vAvail[i + 1..];
      if vAvail[i] {
        var out, left := UnserializeOut(curve, rest);
        if out.None? {
          PrependNone(vout[..i]);
          return false, vout, rest;
        }
        vout := vout[i := out.value];
        rest := left;
      }
      assert vout[..i + 1] == vout[..i] + [vout[i]];
      PrependJoins(vout[..i], [vout[i]], ReadOuts(curve, rest, vAvail[i + 1..]));
      i := i + 1;
    }
    PrependJoins(vout, [], ReadOuts(curve, rest, []));
    assert vout[..i] == vout && vAvail[i..] == [];
    ok := true;
  }

  method UnserializeOut(curve: Curve, s: Octets) returns (out: Option<TxOut>, rest: Octets)
    ensures out.Some? <==> ReadOut(curve, s).Some?
    ensures out.Some? ==> ReadOut(curve, s) == Some((out.value, rest))
  {
    hide Amounts.Decompress, Wrap, ToInt64, ReadMod, ScriptCodec.Read;
    var nVal;
    nVal, rest := ReadVarInt(s, UINT64);
    if nVal.None? {
      return None, rest;
    }
    var nValue := DecompressAmount(Wrap(nVal.value));
    var script := ScriptCodec.Read(curve, rest);
    if script.None? {
      return None, rest;
    }
    out, rest := Some(TxOut(ToInt64(nValue), script.value.0)), script.value.1;
  }

  // ---- undo records ----

  function UndoOctets(curve: Curve, u: TxInUndo): Octets {
    Written((u.nHeight * 2 + if u.fCoinBase then 1 else 0) % UINT32)
    + ((if u.nHeight > 0 then Written(u.nVersion) else []) + OutOctets(curve, u.txout))
  }

  function ReadUndo(curve: Curve, s: Octets): Option<(TxInUndo, Octets)> {
    match ReadMod(s, UINT32)
    case None => None
    case Some(code) =>
      var nHeight, fCoinBase := code.0 / 2, code.0 % 2 == 1;
      match if nHeight > 0 then ReadInt32(code.1) else Some((0, code.1))
      case None => None
      case Some(version) =>
        match ReadOut(curve, version.1)
        case None => None
        case Some(out) => Some((TxInUndo(out.0, fCoinBase, nHeight, version.0), out.1))
  }

  /** An undo record that is written and read back: whole exactly if it has a height and no negative version, or
      neither height nor version. */
  lemma UndoRoundTrip(curve: Curve, u: TxInUndo, rest: Octets)
    requires Sound(curve) && OutInRange(u.txout)
    requires 0 <= u.nHeight < 0x8000_0000 && -0x8000_0000 <= u.nVersion < 0x8000_0000
    ensures ReadUndo(curve, UndoOctets(curve, u) + rest) == Some((StoredUndo(u), rest))
    ensures ReadUndo(curve, UndoOctets(curve, u) + rest) == Some((u, rest)) <==>
            (u.nHeight > 0 && u.nVersion >= 0) || (u.nHeight == 0 && u.nVersion == 0)
  {
    hide Written, ReadMod, ReadInt32, ReadOut, OutOctets, Sound, Kept, OutInRange;
    UndoWhole(u);
    var nCode := u.nHeight * 2 + if u.fCoinBase then 1 else 0;
    var out := OutOctets(curve, u.txout);
    var version := if u.nHeight > 0 then Written(u.nVersion) else [];
    assert UndoOctets(curve, u) + rest == Written(nCode) + (version + (out + rest));
    KeptNatural(nCode);
    ReadWrittenMod(nCode, version + (out + rest), UINT32);
    ReadWrittenInt(u.nVersion, out + rest);
    assert u.nHeight == 0 ==> version + (out + rest) == out + rest;
    ReadOutBack(curve, u.txout, rest);
  }

  /** The undo record of the last output of a transaction with version -1 is read back with version 127. */
  lemma NegativeUndoLost(curve: Curve, u: TxInUndo)
    requires Sound(curve) && OutInRange(u.txout) && 0 < u.nHeight < 0x8000_0000 && u.nVersion == -1
    ensures ReadUndo(curve, UndoOctets(curve, u)) == Some((u.(nVersion := 127), []))
  {
    hide UndoOctets, ReadUndo, Sound;
    UndoRoundTrip(curve, u, []);
    assert UndoOctets(curve, u) + [] == UndoOctets(curve, u);
  }

  /** The undo record that a spend makes is read back whole exactly if the record is not emptied by it, or its version
      is not negative. */
  lemma SpendMakesWritable(c: Coin, n: nat)
    requires c.IsAvailable(n) && c.nHeight >= 1
    ensures StoredUndo(Spend(c, n).1) == Spend(c, n).1 <==> Spend(c, n).0.vout != [] || c.nVersion >= 0
  {
    UndoWhole(Spend(c, n).1);
  }
}
