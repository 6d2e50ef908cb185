/** How the script of an output is written and read back: the common kinds in a short form. */
module ScriptCodec {
  import opened Options
  import opened Octets
  import opened VarInt

  const OP_DUP: Octet := 0x76
  const OP_EQUAL: Octet := 0x87
  const OP_EQUALVERIFY: Octet := 0x88
  const OP_HASH160: Octet := 0xa9
  const OP_CHECKSIG: Octet := 0xac

  const SPECIAL_SCRIPTS: nat := 6

  /** What the curve decides: whether a key of 65 octets is a point on it, and which such key a key of 33 octets
      stands for. */
  datatype Curve = Curve(isFullyValid: Octets -> bool, decompress: Octets -> Option<Octets>)

  /** A point is found again by one coordinate and the parity of the other. */
  ghost predicate Sound(curve: Curve) {
    forall key: Octets :: |key| == 65 && key[0] == 4 && curve.isFullyValid(key) ==>
      curve.decompress([2 + key[64] % 2] + key[1..33]) == Some(key)
  }

  predicate IsToKeyID(script: Octets) {
    && |script| == 25 && script[0] == OP_DUP && script[1] == OP_HASH160 && script[2] == 20
    && script[23] == OP_EQUALVERIFY && script[24] == OP_CHECKSIG
  }

  predicate IsToScriptID(script: Octets) {
    |script| == 23 && script[0] == OP_HASH160 && script[1] == 20 && script[22] == OP_EQUAL
  }

  predicate IsToShortKey(script: Octets) {
    |script| == 35 && script[0] == 33 && script[34] == OP_CHECKSIG && (script[1] == 2 || script[1] == 3)
  }

  /** A key that is no point could not be found again. */
  predicate IsToLongKey(curve: Curve, script: Octets) {
    && |script| == 67 && script[0] == 65 && script[66] == OP_CHECKSIG && script[1] == 4
    && curve.isFullyValid(script[1..66])
  }

  function Compress(curve: Curve, script: Octets): Option<Octets> {
    if IsToKeyID(script) then Some([0] + script[3..23])
    else if IsToScriptID(script) then Some([1] + script[2..22])
    else if IsToShortKey(script) then Some(script[1..34])
    else if IsToLongKey(curve, script) then Some([4 + script[65] % 2] + script[2..34])
    else None
  }

  function SpecialSize(nSize: nat): nat {
    if nSize <= 1 then 20 else if nSize <= 5 then 32 else 0
  }

  /** The script that a short form stands for, or None for a key that is no point. */
  function Decompress(curve: Curve, nSize: nat, body: Octets): Option<Octets>
    requires nSize < SPECIAL_SCRIPTS
  {
    if nSize == 0 then Some([OP_DUP, OP_HASH160, 20] + body + [OP_EQUALVERIFY, OP_CHECKSIG])
    else if nSize == 1 then Some([OP_HASH160, 20] + body + [OP_EQUAL])
    else if nSize <= 3 then Some([33, nSize] + body + [OP_CHECKSIG])
    else
      match curve.decompress([nSize - 2] + body)
      case None => None
      case Some(key) => Some([65] + key + [OP_CHECKSIG])
  }

  function Write(curve: Curve, script: Octets): Octets {
    match Compress(curve, script)
    case Some(short) => short
    case None => Written((|script| + SPECIAL_SCRIPTS) % UINT32) + script
  }

  /** A script that cannot be found again is left empty. */
  function Read(curve: Curve, s: Octets): Option<(Octets, Octets)> {
    match ReadMod(s, UINT32)
    case None => None
    case Some(head) =>
      var (nSize, rest) := head;
      var n := if nSize < SPECIAL_SCRIPTS then SpecialSize(nSize) else nSize - SPECIAL_SCRIPTS;
      if |rest| < n then None
      else if nSize >= SPECIAL_SCRIPTS then Some((rest[..n], rest[n..]))
      else
        var script := Decompress(curve, nSize, rest[..n]);
        Some((if script.Some? then script.value else [], rest[n..]))
  }

  /** A short form begins with its kind, which is all that is read of it as a number. */
  lemma ReadShort(curve: Curve, short: Octets, rest: Octets)
    requires short != [] && short[0] < SPECIAL_SCRIPTS && |short| == 1 + SpecialSize(short[0])
    ensures var script := Decompress(curve, short[0], short[1..]);
            Read(curve, short + rest) == Some((if script.Some? then script.value else [], rest))
  {
    var s := short + rest;
    assert s[1..] == short[1..] + rest;
    assert ReadMod(s, UINT32) == Some((short[0], s[1..]));
    var n := SpecialSize(short[0]);
    assert s[1..][..n] == short[1..] && s[1..][n..] == rest;
  }

  /** The size of the script, with the special kinds before it, is a number of 32 bits. */
  predicate SizeFits(script: Octets) {
    |script| + SPECIAL_SCRIPTS < UINT32
  }

  /** Every script comes back, and what follows is left. */
  lemma RoundTrip(curve: Curve, script: Octets, rest: Octets)
    requires Sound(curve) && SizeFits(script)
    ensures Read(curve, Write(curve, script) + rest) == Some((script, rest))
  {
    hide Sound, Written, ReadMod, Compress, Decompress;
    var short := Compress(curve, script);
    if short.None? {
      var n := |script| + SPECIAL_SCRIPTS;
      KeptNatural(n);
      ReadWrittenMod(n, script + rest, UINT32);
      assert Written(n) + script + rest == Written(n) + (script + rest);
      assert (script + rest)[..|script|] == script && (script + rest)[|script|..] == rest;
    } else {
      CompressedBack(curve, script);
      ReadShort(curve, short.value, rest);
    }
  }

  lemma CompressedBack(curve: Curve, script: Octets)
    requires Sound(curve) && Compress(curve, script).Some?
    ensures var short := Compress(curve, script).value;
            && short != [] && short[0] < SPECIAL_SCRIPTS && |short| == 1 + SpecialSize(short[0])
            && Decompress(curve, short[0], short[1..]) == Some(script)
  {
    var short := Compress(curve, script).value;
    if IsToKeyID(script) {
      assert short[1..] == script[3..23];
      assert [OP_DUP, OP_HASH160, 20] + script[3..23] + [OP_EQUALVERIFY, OP_CHECKSIG] == script;
    } else if IsToScriptID(script) {
      assert short[1..] == script[2..22];
      assert [OP_HASH160, 20] + script[2..22] + [OP_EQUAL] == script;
    } else if IsToShortKey(script) {
      assert [33, short[0]] + short[1..] + [OP_CHECKSIG] == script;
    } else {
      var key := script[1..66];
      assert short[1..] == script[2..34] == key[1..33];
      assert [short[0] - 2] + short[1..] == [2 + key[64] % 2] + key[1..33];
      assert [65] + key + [OP_CHECKSIG] == script;
    }
  }
}
