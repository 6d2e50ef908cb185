/** Bits packed into bytes. */
module Bits {

  function Bit(byte: bv8, j: nat): bool
    requires j < 8
  {
    byte & ((1 as bv8) << j) != 0
  }

  /** Bit `j` stands for the `j`th power of two. */
  lemma BitValue(byte: bv8)
    ensures Bit(byte, 0) <==> byte % 2 == 1
    ensures Bit(byte, 1) <==> byte / 2 % 2 == 1
    ensures Bit(byte, 2) <==> byte / 4 % 2 == 1
    ensures Bit(byte, 3) <==> byte / 8 % 2 == 1
    ensures Bit(byte, 4) <==> byte / 16 % 2 == 1
    ensures Bit(byte, 5) <==> byte / 32 % 2 == 1
    ensures Bit(byte, 6) <==> byte / 64 % 2 == 1
    ensures Bit(byte, 7) <==> byte / 128 == 1
  {
  }

  /** The bits, eight to a byte, least significant first, the last byte filled up with zeros. */
  ghost predicate Packed(vBits: seq<bool>, vBytes: seq<bv8>) {
    && |vBytes| == (|vBits| + 7) / 8
    && forall p :: 0 <= p < 8 * |vBytes| ==> Bit(vBytes[p / 8], p % 8) == (p < |vBits| && vBits[p])
  }

  function Unpacked(vBytes: seq<bv8>): (vBits: seq<bool>)
    ensures |vBits| == 8 * |vBytes|
  {
    seq(8 * |vBytes|, p requires 0 <= p < 8 * |vBytes| => Bit(vBytes[p / 8], p % 8))
  }

  /** Reading a byte sequence as bits and writing them is the identity on bytes; the other way round, zeros
      are added. */
  lemma UnpackPacked(vBits: seq<bool>, vBytes: seq<bv8>)
    requires Packed(vBits, vBytes)
    ensures vBits <= Unpacked(vBytes) && |Unpacked(vBytes)| == 8 * ((|vBits| + 7) / 8)
    ensures forall p :: |vBits| <= p < |Unpacked(vBytes)| ==> !Unpacked(vBytes)[p]
  {
    hide Bit;
    assert Unpacked(vBytes)[..|vBits|] == vBits;
  }

  lemma PackUnpacked(vBytes: seq<bv8>, again: seq<bv8>)
    requires Packed(Unpacked(vBytes), again)
    ensures again == vBytes
  {
    hide Bit;
    forall q | 0 <= q < |vBytes| ensures again[q] == vBytes[q] {
      forall j | 0 <= j < 8 ensures Bit(again[q], j) == Bit(vBytes[q], j) {
        assert (8 * q + j) / 8 == q && (8 * q + j) % 8 == j;
        assert Bit(again[(8 * q + j) / 8], (8 * q + j) % 8) == Unpacked(vBytes)[8 * q + j];
      }
      SameBits(again[q], vBytes[q]);
    }
  }

  lemma SameBits(a: bv8, b: bv8)
    requires forall j :: 0 <= j < 8 ==> Bit(a, j) == Bit(b, j)
    ensures a == b
  {
    assert Bit(a, 0) == Bit(b, 0) && Bit(a, 1) == Bit(b, 1) && Bit(a, 2) == Bit(b, 2) && Bit(a, 3) == Bit(b, 3);
    assert Bit(a, 4) == Bit(b, 4) && Bit(a, 5) == Bit(b, 5) && Bit(a, 6) == Bit(b, 6) && Bit(a, 7) == Bit(b, 7);
  }

  lemma SetBit(byte: bv8, j: nat, v: bool, i: nat)
    requires i < 8 && j < 8
    ensures Bit(byte | (if v then (1 as bv8) << j else 0), i) == (Bit(byte, i) || (v && i == j))
  {
  }

  lemma NoBits()
    ensures forall j :: 0 <= j < 8 ==> !Bit(0, j)
  {
  }
}
