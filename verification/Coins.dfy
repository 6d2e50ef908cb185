/** Transactions, the per-transaction record of unspent outputs, and undo records. */
module Coins {
  import opened Options
  import opened Octets

  type TxId = nat

  type Script = Octets

  const COIN: int := 100_000_000
  const MAX_MONEY: int := 2_065_000_000 * COIN

  predicate MoneyRange(nValue: int) {
    0 <= nValue <= MAX_MONEY
  }

  /** Output index of the null outpoint, `(unsigned int) -1`. */
  const NULL_INDEX: nat := 0xFFFF_FFFF

  datatype OutPoint = OutPoint(hash: TxId, n: nat) {
    predicate IsNull() {
      hash == 0 && n == NULL_INDEX
    }
  }

  datatype TxIn = TxIn(prevout: OutPoint, scriptSig: Script, nSequence: nat)

  /** A spent output is one whose value is -1. */
  datatype TxOut = TxOut(nValue: int, scriptPubKey: Script) {
    predicate IsNull() {
      nValue == -1
    }
  }

  const NULL_OUT := TxOut(-1, [])

  /** `txid` stands for the transaction's hash. */
  datatype Tx = Tx(txid: TxId, nVersion: int, vin: seq<TxIn>, vout: seq<TxOut>, nLockTime: nat) {
    predicate IsCoinBase() {
      |vin| == 1 && vin[0].prevout.IsNull()
    }
  }

  /** What is left of a transaction: its metadata and its outputs, the spent ones null. */
  datatype Coin = Coin(fCoinBase: bool, vout: seq<TxOut>, nHeight: int, nVersion: int) {
    predicate IsAvailable(nPos: nat) {
      nPos < |vout| && !vout[nPos].IsNull()
    }

    predicate IsPruned() {
      forall i :: 0 <= i < |vout| ==> vout[i].IsNull()
    }

    /** Spent outputs carry no script, and the last output is unspent. */
    ghost predicate WellFormed() {
      Trimmed(vout)
    }
  }

  ghost predicate Trimmed(vout: seq<TxOut>) {
    && (forall i :: 0 <= i < |vout| && vout[i].IsNull() ==> vout[i] == NULL_OUT)
    && (vout != [] ==> !vout[|vout| - 1].IsNull())
  }

  const EMPTY_COIN := Coin(false, [], 0, 0)

  function FromTx(tx: Tx, nHeight: int): Coin {
    Coin(tx.IsCoinBase(), tx.vout, nHeight, tx.nVersion)
  }

  /** What is needed to undo one spend; the metadata is set only if the last output was spent. */
  datatype TxInUndo = TxInUndo(txout: TxOut, fCoinBase: bool, nHeight: int, nVersion: int)

  type TxUndo = seq<TxInUndo>

  // ---- spending one output ----

  function Trim(vout: seq<TxOut>): (r: seq<TxOut>)
    ensures r <= vout
    ensures r != [] ==> !r[|r| - 1].IsNull()
    ensures forall i :: |r| <= i < |vout| ==> vout[i].IsNull()
  {
    if vout != [] && vout[|vout| - 1].IsNull() then Trim(vout[..|vout| - 1]) else vout
  }

  function Spend(c: Coin, n: nat): (r: (Coin, TxInUndo))
    requires c.IsAvailable(n)
  {
    var vout := Trim(c.vout[n := NULL_OUT]);
    (c.(vout := vout),
     if vout == [] then TxInUndo(c.vout[n], c.fCoinBase, c.nHeight, c.nVersion) else TxInUndo(c.vout[n], false, 0, 0))
  }

  /** Puts a spent output back into `c` (None: there is no entry, or only a fully spent one).
      The flag says that nothing unexpected was found. */
  function Restore(c: Option<Coin>, n: nat, undo: TxInUndo): (r: (Coin, bool)) {
    var entry := if c.Some? && !c.value.IsPruned() then c else None;
    var clean := (undo.nHeight != 0) == entry.None?
      && !(entry.Some? && undo.nHeight == 0 && entry.value.IsAvailable(n));
    var start := if undo.nHeight != 0 then Coin(undo.fCoinBase, [], undo.nHeight, undo.nVersion)
                 else if c.Some? then c.value else EMPTY_COIN;
    (start.(vout := Resize(start.vout, n + 1)[n := undo.txout]), clean)
  }

  function Resize(vout: seq<TxOut>, size: nat): (r: seq<TxOut>)
    ensures |r| == if |vout| < size then size else |vout|
    ensures vout <= r && forall i :: |vout| <= i < |r| ==> r[i] == NULL_OUT
  {
    if |vout| < size then vout + seq(size - |vout|, _ => NULL_OUT) else vout
  }

  lemma TrimThenResize(vout: seq<TxOut>, n: nat)
    requires Trimmed(vout) && n < |vout|
    ensures var left := Trim(vout[n := NULL_OUT]);
            && Trimmed(left)
            && (left == [] <==> forall i :: 0 <= i < |left| ==> left[i].IsNull())
            && (forall m: nat :: m < |left| && !left[m].IsNull() <==> m < |vout| && !vout[m].IsNull() && m != n)
            && Resize(left, n + 1)[n := vout[n]] == vout
  {
    var spent := vout[n := NULL_OUT];
    var left := Trim(spent);
    assert forall i :: 0 <= i < |left| ==> left[i] == spent[i];
    var back := Resize(left, n + 1)[n := vout[n]];
    assert n < |vout| - 1 ==> !spent[|vout| - 1].IsNull();
    forall i | 0 <= i < |vout| ensures back[i] == vout[i] {
      if i != n && |left| <= i {
        assert spent[i].IsNull();
      }
    }
  }

  /** Spending keeps a record well-formed, and the undo record brings back exactly what was spent,
      whether the spend emptied the record or not. */
  lemma RestoreUndoesSpend(c: Coin, n: nat)
    requires c.WellFormed() && c.nHeight >= 1 && c.IsAvailable(n)
    ensures var (after, undo) := Spend(c, n);
            && after.WellFormed() && after == c.(vout := after.vout)
            && (undo.nHeight != 0 <==> after.IsPruned())
            && (after.IsPruned() <==> after.vout == [])
            && (forall m :: after.IsAvailable(m) <==> c.IsAvailable(m) && m != n)
            && Restore(if after.vout == [] then None else Some(after), n, undo) == (c, true)
  {
    hide Trim, Resize, Trimmed;
    TrimThenResize(c.vout, n);
    var (after, undo) := Spend(c, n);
    assert after.vout != [] ==> !after.vout[|after.vout| - 1].IsNull();
    if after.vout == [] {
      assert Resize([], n + 1)[n := c.vout[n]] == c.vout;
    }
  }

  // ---- the record as the code updates it ----

  class CCoins {
    var fCoinBase: bool
    var vout: seq<TxOut>
    var nHeight: int
    var nVersion: int

    function Value(): Coin
      reads this
    {
      Coin(fCoinBase, vout, nHeight, nVersion)
    }

    constructor (c: Coin)
      ensures Value() == c
    {
      fCoinBase, vout, nHeight, nVersion := c.fCoinBase, c.vout, c.nHeight, c.nVersion;
    }

    method Cleanup()
      modifies this`vout
      ensures vout == Trim(old(vout))
    {
      while |vout| > 0 && vout[|vout| - 1].IsNull()
        invariant Trim(vout) == Trim(old(vout))
      {
        vout := vout[..|vout| - 1];
      }
    }

    method SpendOutput(n: nat) returns (ok: bool, undo: TxInUndo)
      modifies this
      ensures ok == old(Value().IsAvailable(n))
      ensures ok ==> (Value(), undo) == Spend(old(Value()), n)
      ensures !ok ==> Value() == old(Value())
    {
      undo := TxInUndo(NULL_OUT, false, 0, 0);
      if n >= |vout| || vout[n].IsNull() {
        return false, undo;
      }
      undo := undo.(txout := vout[n]);
      vout := vout[n := NULL_OUT];
      Cleanup();
      if |vout| == 0 {
        undo := undo.(nHeight := nHeight, fCoinBase := fCoinBase, nVersion := nVersion);
      }
      ok := true;
    }
  }
}
