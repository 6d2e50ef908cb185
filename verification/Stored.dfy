/** What is left of records that go through a file or the database: numbers are written by digits, which a negative one
    does not survive. */
module Stored {
  import opened VarInt
  import opened Coins

  /** A record of unspent outputs, written and read back. */
  function StoredCoin(c: Coin): Coin {
    c.(nVersion := Kept(c.nVersion), nHeight := Kept(c.nHeight))
  }

  /** An undo record, written and read back: the version is written only with a height. */
  function StoredUndo(u: TxInUndo): TxInUndo {
    u.(nVersion := if u.nHeight > 0 then Kept(u.nVersion) else 0)
  }

  /** A record comes back whole exactly if version and height are not negative. */
  lemma CoinWhole(c: Coin)
    ensures StoredCoin(c) == c <==> c.nVersion >= 0 && c.nHeight >= 0
    ensures StoredCoin(StoredCoin(c)) == StoredCoin(c)
  {
  }

  /** An undo record comes back whole exactly if its version is written and not negative, or is none. */
  lemma UndoWhole(u: TxInUndo)
    requires u.nHeight >= 0
    ensures StoredUndo(u) == u <==> (u.nHeight > 0 && u.nVersion >= 0) || (u.nHeight == 0 && u.nVersion == 0)
    ensures StoredUndo(StoredUndo(u)) == StoredUndo(u)
  {
  }
}
