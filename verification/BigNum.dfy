/** The big numbers of the library, updated in place, and their compact form with sign. */
module BigNum {
  import opened Powers
  import opened Compact

  /** What a compact form stands for, sign included. */
  function Signed(nCompact: nat): int {
    WithSign(Decode(nCompact), SignBit(nCompact))
  }

  function WithSign(v: int, negative: bool): int {
    if negative then -v else v
  }

  /** Bit 24, which tells of a sign. */
  function SignFlag(negative: bool): nat {
    if negative then 0x80_0000 else 0
  }

  class CBigNum {
    var n: nat
    var negative: bool

    function Value(): int
      reads this
    {
      WithSign(n, negative)
    }

    constructor ()
      ensures n == 0 && !negative
    {
      n, negative := 0, false;
    }

    method SetWord(w: nat)
      modifies this
      ensures n == w && !negative
    {
      n, negative := w, false;
    }

    method MulWord(w: nat)
      modifies this`n
      ensures n == old(n) * w
    {
      n := n * w;
    }

    method SubWord(w: nat)
      requires w <= n && !negative
      modifies this`n
      ensures n == old(n) - w
    {
      n := n - w;
    }

    method LeftShift(k: nat)
      modifies this`n
      ensures n == Shl(old(n), k)
    {
      n := Shl(n, k);
    }

    method RightShift(from: CBigNum, k: nat)
      modifies this
      ensures n == Shr(old(from.n), k) && negative == old(from.negative)
    {
      n, negative := Shr(from.n, k), from.negative;
    }

    method SetNegative(b: bool)
      modifies this`negative
      ensures negative == (b && n != 0)
    {
      negative := b && n != 0;
    }

    method Copy(from: CBigNum)
      modifies this
      ensures n == old(from.n) && negative == old(from.negative)
    {
      n, negative := from.n, from.negative;
    }

    method SetCompact(nCompact: nat)
      modifies this
      ensures Value() == Signed(nCompact) && n == Decode(nCompact)
    {
      hide Shl, Shr, SignBit;
      var nSize, fNegative, nWord := nCompact / 0x100_0000, SignBit(nCompact), nCompact % 0x80_0000;
      if nSize <= 3 {
        nWord := Shr(nWord, 8 * (3 - nSize));
        SetWord(nWord);
      } else {
        SetWord(nWord);
        LeftShift(8 * (nSize - 3));
      }
      SetNegative(fNegative);
    }

    method GetCompact() returns (nCompact: nat)
      requires Fits(n)
      ensures nCompact == Encode(n) + SignFlag(negative)
    {
      hide Shl, Shr;
      var nSize := NumBytes(n);
      if nSize <= 3 {
        nCompact := Shl(n, 8 * (3 - nSize));
      } else {
        var bn2 := new CBigNum();
        bn2.RightShift(this, 8 * (nSize - 3));
        nCompact := bn2.n;
      }
      if SignBit(nCompact) {
        nCompact := nCompact / 256;
        nSize := nSize + 1;
      }
      nCompact := nCompact + nSize % 256 * 0x100_0000;
      nCompact := nCompact + SignFlag(negative);
    }
  }

  /** The compact form with sign brings back every number up to its leading bytes. */
  lemma SignedRounding(v: nat, negative: bool)
    requires v > 0 && Fits(v)
    ensures Signed(Encode(v) + SignFlag(negative)) == WithSign(Decode(Encode(v)), negative)
  {
    hide Shl, Shr, Encode, SignBit, Size, Word;
    EncodeCanonical(v);
    SignAdded(Encode(v));
  }

  lemma SignAdded(c: nat)
    requires Canonical(c)
    ensures !SignBit(c) && Size(c + 0x80_0000) == Size(c) && Word(c + 0x80_0000) == Word(c) && SignBit(c + 0x80_0000)
  {
  }
}
