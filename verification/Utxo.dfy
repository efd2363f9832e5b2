/**
 * What a block does to the set of unspent outputs, and how the spend journal undoes it
 * (blockchain/utxoviewpoint.go, blockchain/chain.go).
 */
module Utxo {
  import opened Primitives
  import opened BlockTree
  import Amounts

  datatype OutPoint = OutPoint(txHash: Hash, index: nat)

  /** `unspendable` is the answer of the script engine for the output's script. */
  datatype TxOut = TxOut(value: int, pkScript: seq<byte>, unspendable: bool)

  /** `coinbase` is the answer of IsCoinBase. */
  datatype Tx = Tx(hash: Hash, coinbase: bool, ins: seq<OutPoint>, outs: seq<TxOut>)

  datatype Block = Block(hash: Hash, header: Header, txs: seq<Tx>)

  /** An unspent output (UtxoEntry) or, once a block has spent it, a journal record (SpentTxOut). */
  datatype Txo = Txo(amount: int, pkScript: seq<byte>, height: int, coinbase: bool)

  type Utxos = map<OutPoint, Txo>

  /** The outpoints a transaction creates: all but its provably unspendable outputs. */
  function Outputs(tx: Tx): set<OutPoint> {
    set i | 0 <= i < |tx.outs| && !tx.outs[i].unspendable :: OutPoint(tx.hash, i)
  }

  function Created(tx: Tx, height: int): Utxos {
    map o | o in Outputs(tx) :: Txo(tx.outs[o.index].value, tx.outs[o.index].pkScript, height, tx.coinbase)
  }

  function Inputs(tx: Tx): set<OutPoint> {
    if tx.coinbase then {} else set o | o in tx.ins
  }

  function ConnectTx(u: Utxos, tx: Tx, height: int): Utxos {
    u - Inputs(tx) + Created(tx, height)
  }

  predicate Distinct(ins: seq<OutPoint>) {
    forall i, j :: 0 <= i < j < |ins| ==> ins[i] != ins[j]
  }

  /** CheckTransactionSanity: inputs and outputs are there, no input twice, and all amounts are in range. */
  predicate TxSane(tx: Tx) {
    && |tx.ins| > 0 && |tx.outs| > 0 && Distinct(tx.ins)
    && forall i :: 0 <= i < |tx.outs| ==> 0 <= tx.outs[i].value <= Amounts.MAX_NANO_SOTER
  }

  /** Every input is unspent and used once, and no output replaces one that is still unspent. */
  predicate CanConnectTx(u: Utxos, tx: Tx) {
    && (tx.coinbase || (Distinct(tx.ins) && forall o :: o in tx.ins ==> o in u))
    && Outputs(tx) !! (u - Inputs(tx)).Keys
  }

  const NO_TXO := Txo(0, [], 0, false)

  /** The journal records of one transaction, in the order of its inputs. */
  function TxStxos(u: Utxos, tx: Tx): (s: seq<Txo>)
    ensures |s| == CountIns(tx)
  {
    if tx.coinbase then [] else SpentRecords(u, tx.ins)
  }

  function SpentRecords(u: Utxos, ins: seq<OutPoint>): (s: seq<Txo>)
    ensures |s| == |ins|
    ensures forall i :: 0 <= i < |ins| ==> s[i] == if ins[i] in u then u[ins[i]] else NO_TXO
  {
    if ins == [] then []
    else
      var last := ins[|ins| - 1];
      SpentRecords(u, ins[..|ins| - 1]) + [if last in u then u[last] else NO_TXO]
  }

  function CountIns(tx: Tx): nat {
    if tx.coinbase then 0 else |tx.ins|
  }

  /** Put the spent outputs back, last input first. */
  function Restore(u: Utxos, ins: seq<OutPoint>, stxos: seq<Txo>): Utxos
    requires |ins| == |stxos|
    decreases |ins|
  {
    if ins == [] then u
    else
      var last := |ins| - 1;
      Restore(u[ins[last] := stxos[last]], ins[..last], stxos[..last])
  }

  function DisconnectTx(u: Utxos, tx: Tx, stxos: seq<Txo>): Utxos
    requires |stxos| == CountIns(tx)
  {
    var removed := u - Outputs(tx);
    if tx.coinbase then removed else Restore(removed, tx.ins, stxos)
  }

  // --- Whole blocks

  function ConnectTxs(u: Utxos, txs: seq<Tx>, height: int): Utxos {
    if txs == [] then u
    else ConnectTx(ConnectTxs(u, txs[..|txs| - 1], height), txs[|txs| - 1], height)
  }

  predicate CanConnectTxs(u: Utxos, txs: seq<Tx>, height: int) {
    txs != [] ==>
      && CanConnectTxs(u, txs[..|txs| - 1], height)
      && CanConnectTx(ConnectTxs(u, txs[..|txs| - 1], height), txs[|txs| - 1])
  }

  function CountSpent(txs: seq<Tx>): nat {
    if txs == [] then 0 else CountSpent(txs[..|txs| - 1]) + CountIns(txs[|txs| - 1])
  }

  /** The number of inputs, coinbase or not. */
  function SumIns(txs: seq<Tx>): nat {
    if txs == [] then 0 else SumIns(txs[..|txs| - 1]) + |txs[|txs| - 1].ins|
  }

  function Stxos(u: Utxos, txs: seq<Tx>, height: int): (s: seq<Txo>)
    ensures |s| == CountSpent(txs)
  {
    if txs == [] then []
    else
      var init := txs[..|txs| - 1];
      Stxos(u, init, height) + TxStxos(ConnectTxs(u, init, height), txs[|txs| - 1])
  }

  /** Undo a block's transactions from the last to the first, reading the journal backwards. */
  function DisconnectTxs(u: Utxos, txs: seq<Tx>, stxos: seq<Txo>): Utxos
    requires |stxos| == CountSpent(txs)
    decreases |txs|
  {
    if txs == [] then u
    else
      var last := txs[|txs| - 1];
      var k := |stxos| - CountIns(last);
      DisconnectTxs(DisconnectTx(u, last, stxos[k..]), txs[..|txs| - 1], stxos[..k])
  }

  // --- Disconnecting undoes connecting

  lemma {:induction false} RestoreAt(u: Utxos, ins: seq<OutPoint>, stxos: seq<Txo>)
    requires |ins| == |stxos| && Distinct(ins)
    ensures Restore(u, ins, stxos).Keys == u.Keys + (set o | o in ins)
    ensures forall i :: 0 <= i < |ins| ==> Restore(u, ins, stxos)[ins[i]] == stxos[i]
    ensures forall o :: o in u && o !in ins ==> Restore(u, ins, stxos)[o] == u[o]
    decreases |ins|
  {
    if ins != [] {
      var last := |ins| - 1;
      RestoreAt(u[ins[last] := stxos[last]], ins[..last], stxos[..last]);
      assert ins == ins[..last] + [ins[last]];
    }
  }

  /** The outputs come off again, and what is missing then is what was spent. */
  lemma OutputsOff(u: Utxos, tx: Tx, height: int)
    requires CanConnectTx(u, tx)
    ensures ConnectTx(u, tx, height) - Outputs(tx) == u - Inputs(tx)
  {
  }

  /** Spent outputs come back as their records have them. */
  lemma SpentBack(u: Utxos, ins: seq<OutPoint>)
    requires Distinct(ins) && forall o :: o in ins ==> o in u
    ensures Restore(u - (set o | o in ins), ins, SpentRecords(u, ins)) == u
  {
    var rest := u - (set o | o in ins);
    var back := Restore(rest, ins, SpentRecords(u, ins));
    RestoreAt(rest, ins, SpentRecords(u, ins));
    forall o | o in u ensures o in back && back[o] == u[o] {
      if o in ins {
        var i :| 0 <= i < |ins| && ins[i] == o;
      } else {
        assert o in rest;
      }
    }
    assert back.Keys == u.Keys;
  }

  lemma DisconnectTxUndoes(u: Utxos, tx: Tx, height: int)
    requires CanConnectTx(u, tx)
    ensures DisconnectTx(ConnectTx(u, tx, height), tx, TxStxos(u, tx)) == u
  {
    OutputsOff(u, tx, height);
    if tx.coinbase {
      assert u - {} == u;
    } else {
      SpentBack(u, tx.ins);
    }
  }

  /**
   * Disconnecting a block with its own journal entry restores the set it was connected to, even when
   * its later transactions spend outputs of its earlier ones.
   */
  lemma {:induction false} DisconnectTxsUndoes(u: Utxos, txs: seq<Tx>, height: int)
    requires CanConnectTxs(u, txs, height)
    ensures DisconnectTxs(ConnectTxs(u, txs, height), txs, Stxos(u, txs, height)) == u
  {
    if txs != [] {
      var init, last := txs[..|txs| - 1], txs[|txs| - 1];
      var before, stxos := ConnectTxs(u, init, height), Stxos(u, txs, height);
      var k := |stxos| - CountIns(last);
      assert stxos[..k] == Stxos(u, init, height) && stxos[k..] == TxStxos(before, last);
      DisconnectTxUndoes(before, last, height);
      DisconnectTxsUndoes(u, init, height);
    }
  }

  /** Outputs of blocks above genesis never carry height zero, which marks legacy journal records. */
  predicate AboveGenesis(u: Utxos) {
    forall o :: o in u ==> u[o].height > 0
  }

  lemma {:induction false} ConnectTxsAboveGenesis(u: Utxos, txs: seq<Tx>, height: int)
    requires AboveGenesis(u) && height > 0 && CanConnectTxs(u, txs, height)
    ensures AboveGenesis(ConnectTxs(u, txs, height))
    ensures forall s :: s in Stxos(u, txs, height) ==> s.height > 0
  {
    if txs != [] {
      ConnectTxsAboveGenesis(u, txs[..|txs| - 1], height);
    }
  }
}
