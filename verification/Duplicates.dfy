/**
 * Repeated transactions (blockchain/validate.go).  A transaction that is connected a second time would
 * overwrite outputs of the first that are still unspent.  Either every block is checked for that, or the
 * height in every coinbase makes it impossible: when no coinbase is repeated, no transaction is.
 */
module Duplicates {
  import opened Primitives
  import opened BlockTree
  import opened Utxo
  import opened Ledgers
  import opened UtxoCache

  // --- Transactions connected one after the other

  /** The output is unspent after the first k transactions. */
  predicate Has(txs: seq<Tx>, k: nat, o: OutPoint)
    requires k <= |txs|
  {
    k > 0 && (o in Outputs(txs[k - 1]) || (Has(txs, k - 1, o) && o !in Inputs(txs[k - 1])))
  }

  /** All inputs were unspent when the k-th transaction was connected. */
  predicate FedAt(txs: seq<Tx>, k: nat)
    requires k < |txs|
  {
    txs[k].coinbase || forall o :: o in txs[k].ins ==> Has(txs, k, o)
  }

  ghost predicate AllFed(txs: seq<Tx>) {
    forall k {:trigger FedAt(txs, k)} :: 0 <= k < |txs| ==> FedAt(txs, k)
  }

  predicate SameIfHash(a: Tx, b: Tx) {
    a.hash == b.hash ==> a == b
  }

  /** A hash stands for one transaction, and every transaction but a coinbase has an input. */
  ghost predicate Identified(txs: seq<Tx>) {
    && (forall i, j {:trigger SameIfHash(txs[i], txs[j])} ::
      0 <= i < |txs| && 0 <= j < |txs| ==> SameIfHash(txs[i], txs[j]))
    && (forall i :: 0 <= i < |txs| ==> txs[i].coinbase || txs[i].ins != [])
  }

  predicate Unequal(txs: seq<Tx>, i: nat, j: nat)
    requires i < |txs| && j < |txs|
  {
    txs[i].hash != txs[j].hash
  }

  ghost predicate CoinbasesDiffer(txs: seq<Tx>) {
    forall i, j {:trigger Unequal(txs, i, j)} ::
      0 <= i < j < |txs| && txs[i].coinbase && txs[j].coinbase ==> Unequal(txs, i, j)
  }

  /** No transaction is connected twice. */
  ghost predicate NoRepeat(txs: seq<Tx>) {
    forall i, j {:trigger Unequal(txs, i, j)} :: 0 <= i < j < |txs| ==> Unequal(txs, i, j)
  }

  /** An output that was not there and then is, was created in between. */
  lemma {:induction false} CreatedBetween(txs: seq<Tx>, a: nat, b: nat, o: OutPoint) returns (r: nat)
    requires a <= b <= |txs| && !Has(txs, a, o) && Has(txs, b, o)
    ensures a <= r < b && o in Outputs(txs[r]) && txs[r].hash == o.txHash
    decreases b
  {
    if o in Outputs(txs[b - 1]) {
      r := b - 1;
    } else {
      r := CreatedBetween(txs, a, b - 1, o);
    }
  }

  lemma OriginOf(txs: seq<Tx>, k: nat, o: OutPoint) returns (r: nat)
    requires k <= |txs| && Has(txs, k, o)
    ensures r < k && o in Outputs(txs[r]) && txs[r].hash == o.txHash
  {
    r := CreatedBetween(txs, 0, k, o);
  }

  /**
   * Nothing is connected a second time: its first input would have to be created a second time before that,
   * by a repeated transaction that came earlier.
   */
  lemma {:induction false} NeverTwice(txs: seq<Tx>, p: nat, q: nat)
    requires AllFed(txs) && Identified(txs) && CoinbasesDiffer(txs) && p < q < |txs|
    ensures Unequal(txs, p, q)
    decreases q
  {
    if !Unequal(txs, p, q) {
      assert SameIfHash(txs[p], txs[q]);
      assert FedAt(txs, p) && FedAt(txs, q);
      var o := txs[p].ins[0];
      var first := OriginOf(txs, p, o);
      if o in Outputs(txs[p]) {
        NeverTwice(txs, first, p);
      } else {
        var again := CreatedBetween(txs, p + 1, q, o);
        NeverTwice(txs, first, again);
      }
    }
  }

  /** No transaction is repeated if and only if no coinbase is. */
  lemma RepeatsNeedCoinbases(txs: seq<Tx>)
    requires AllFed(txs) && Identified(txs)
    ensures NoRepeat(txs) <==> CoinbasesDiffer(txs)
  {
    if CoinbasesDiffer(txs) {
      forall i, j | 0 <= i < j < |txs| ensures Unequal(txs, i, j) {
        NeverTwice(txs, i, j);
      }
    }
  }

  predicate OverwritesNone(txs: seq<Tx>, k: nat)
    requires k < |txs|
  {
    forall o :: o in Outputs(txs[k]) ==> !Has(txs, k, o)
  }

  ghost predicate NoneOverwrites(txs: seq<Tx>) {
    forall k {:trigger OverwritesNone(txs, k)} :: 0 <= k < |txs| ==> OverwritesNone(txs, k)
  }

  /** Then no transaction overwrites an unspent output, although nobody checks. */
  lemma NothingOverwritten(txs: seq<Tx>)
    requires AllFed(txs) && Identified(txs) && CoinbasesDiffer(txs)
    ensures NoneOverwrites(txs)
  {
    forall k | 0 <= k < |txs| ensures OverwritesNone(txs, k) {
      forall o | o in Outputs(txs[k]) ensures !Has(txs, k, o) {
        if Has(txs, k, o) {
          var r := OriginOf(txs, k, o);
          NeverTwice(txs, r, k);
        }
      }
    }
  }

  // --- What happens when a coinbase is repeated

  function Coin(h: Hash): Tx {
    Tx(h, true, [OutPoint(ZERO_HASH, 0xffff_ffff)], [TxOut(50, [], false)])
  }

  function Transfer(h: Hash, from: Hash): Tx {
    Tx(h, false, [OutPoint(from, 0)], [TxOut(50, [], false)])
  }

  lemma OneOutput(tx: Tx)
    requires tx == Coin(tx.hash) || (exists h :: tx == Transfer(tx.hash, h))
    ensures Outputs(tx) == {OutPoint(tx.hash, 0)}
  {
  }

  /**
   * A coinbase whose output is spent passes checkBIP0030 a second time, and then the transaction that spent it can
   * be repeated: its second copy overwrites the unspent output of the first.
   */
  lemma RepeatOverwrites(h: Hash, k: Hash)
    requires h != k
    ensures var txs := [Coin(h), Transfer(k, h), Coin(h), Transfer(k, h)];
      && AllFed(txs) && Identified(txs) && OverwritesNone(txs, 0) && OverwritesNone(txs, 1) && OverwritesNone(txs, 2)
      && !OverwritesNone(txs, 3)
  {
    var txs := [Coin(h), Transfer(k, h), Coin(h), Transfer(k, h)];
    var a, b := OutPoint(h, 0), OutPoint(k, 0);
    OneOutput(Coin(h));
    OneOutput(Transfer(k, h));
    assert !Has(txs, 0, a) && !Has(txs, 0, b);
    assert Has(txs, 1, a) && !Has(txs, 1, b);
    assert !Has(txs, 2, a) && Has(txs, 2, b);
    assert Has(txs, 3, a) && Has(txs, 3, b);
    assert FedAt(txs, 0) && FedAt(txs, 1) && FedAt(txs, 2) && FedAt(txs, 3);
  }

  // --- The transactions of a branch

  /** What was connected from the block above genesis up to n. */
  function Connected(blocks: map<Hash, Block>, n: BlockNode): seq<Tx>
    requires n.Node?
    decreases n
  {
    if n.parent.Nil? then [] else Connected(blocks, n.parent) + BlockOf(blocks, n).txs
  }

  /** The outputs the transactions leave are those of u. */
  ghost predicate Leaves(txs: seq<Tx>, u: Utxos) {
    forall o {:trigger Has(txs, |txs|, o)} :: Has(txs, |txs|, o) <==> o in u
  }

  lemma {:induction false} HasBefore(txs: seq<Tx>, more: seq<Tx>, k: nat, o: OutPoint)
    requires k <= |txs|
    ensures Has(txs + more, k, o) <==> Has(txs, k, o)
  {
    if k > 0 {
      HasBefore(txs, more, k - 1, o);
    }
  }

  /** The outputs before the k-th transaction of a block. */
  lemma {:induction false} HasInBlock(before: seq<Tx>, u: Utxos, txs: seq<Tx>, height: int, k: nat, o: OutPoint)
    requires Leaves(before, u) && k <= |txs|
    ensures Has(before + txs, |before| + k, o) <==> o in ConnectTxs(u, txs[..k], height)
  {
    if k == 0 {
      HasBefore(before, txs, |before|, o);
    } else {
      HasInBlock(before, u, txs, height, k - 1, o);
      assert txs[..k][..k - 1] == txs[..k - 1] && txs[..k][k - 1] == txs[k - 1];
      assert (before + txs)[|before| + k - 1] == txs[k - 1];
    }
  }

  /** The unspent outputs of a branch are those its transactions leave. */
  lemma {:induction false} BranchLeaves(blocks: map<Hash, Block>, n: BlockNode)
    requires n.Node?
    ensures Leaves(Connected(blocks, n), LedgerAt(blocks, n).utxos)
  {
    if n.parent.Node? {
      BranchLeaves(blocks, n.parent);
      BlockLeaves(Connected(blocks, n.parent), LedgerAt(blocks, n.parent).utxos, BlockOf(blocks, n).txs, Height(n));
    }
  }

  lemma BlockLeaves(before: seq<Tx>, u: Utxos, txs: seq<Tx>, height: int)
    requires Leaves(before, u)
    ensures Leaves(before + txs, ConnectTxs(u, txs, height))
  {
    SliceAll(txs);
    forall o ensures Has(before + txs, |before + txs|, o) <==> o in ConnectTxs(u, txs, height) {
      HasInBlock(before, u, txs, height, |txs|, o);
    }
  }

  /** The inputs are there and none is used twice: what is checked from BIP0034Height on. */
  predicate FedTx(u: Utxos, tx: Tx) {
    tx.coinbase || (Distinct(tx.ins) && forall o :: o in tx.ins ==> o in u)
  }

  predicate FedTxAt(u: Utxos, txs: seq<Tx>, height: int, k: nat)
    requires k < |txs|
  {
    FedTx(ConnectTxs(u, txs[..k], height), txs[k])
  }

  ghost predicate FedTxs(u: Utxos, txs: seq<Tx>, height: int) {
    forall k {:trigger FedTxAt(u, txs, height, k)} :: 0 <= k < |txs| ==> FedTxAt(u, txs, height, k)
  }

  lemma ConnectsIsFed(u: Utxos, txs: seq<Tx>, height: int)
    requires CanConnectTxs(u, txs, height)
    ensures FedTxs(u, txs, height)
  {
    forall k | 0 <= k < |txs| ensures FedTxAt(u, txs, height, k) {
      CanConnectAt(u, txs, height, k);
    }
  }

  lemma FedInBlock(before: seq<Tx>, u: Utxos, txs: seq<Tx>, height: int, k: nat)
    requires Leaves(before, u) && k < |txs| && FedTxAt(u, txs, height, k)
    ensures FedAt(before + txs, |before| + k)
  {
    if !txs[k].coinbase {
      forall o | o in txs[k].ins ensures Has(before + txs, |before| + k, o) {
        HasInBlock(before, u, txs, height, k, o);
      }
    }
  }

  lemma FedBefore(before: seq<Tx>, txs: seq<Tx>, k: nat)
    requires k < |before| && FedAt(before, k)
    ensures FedAt(before + txs, k)
  {
    forall o ensures Has(before + txs, k, o) <==> Has(before, k, o) {
      HasBefore(before, txs, k, o);
    }
  }

  lemma FedBlock(before: seq<Tx>, u: Utxos, txs: seq<Tx>, height: int)
    requires AllFed(before) && Leaves(before, u) && FedTxs(u, txs, height)
    ensures AllFed(before + txs)
  {
    forall k | 0 <= k < |before + txs| ensures FedAt(before + txs, k) {
      if k < |before| {
        FedBefore(before, txs, k);
      } else {
        assert FedTxAt(u, txs, height, k - |before|);
        FedInBlock(before, u, txs, height, k - |before|);
      }
    }
  }

  lemma {:induction false} FedBranch(blocks: map<Hash, Block>, n: BlockNode)
    requires Replayable(blocks, n)
    ensures AllFed(Connected(blocks, n))
  {
    if n.parent.Node? {
      var u, txs := LedgerAt(blocks, n.parent).utxos, BlockOf(blocks, n).txs;
      FedBranch(blocks, n.parent);
      BranchLeaves(blocks, n.parent);
      ConnectsIsFed(u, txs, Height(n));
      FedBlock(Connected(blocks, n.parent), u, txs, Height(n));
    }
  }

  // --- What hashes stand for

  /** The transaction a hash stands for and, for a coinbase, the height it announces. */
  datatype Ids = Ids(txOf: Hash -> Tx, heightOf: Hash -> int)

  predicate Known(ids: Ids, tx: Tx) {
    ids.txOf(tx.hash) == tx && (tx.coinbase || tx.ins != [])
  }

  predicate AllKnown(ids: Ids, txs: seq<Tx>) {
    forall i {:trigger Known(ids, txs[i])} :: 0 <= i < |txs| ==> Known(ids, txs[i])
  }

  predicate KnownBlock(ids: Ids, b: Block) {
    AllKnown(ids, b.txs)
  }

  /** The coinbase comes first and, from the height `from` on, announces the height of its block. */
  predicate Announces(ids: Ids, from: int, b: Block, height: int) {
    |b.txs| > 0 && FirstIsCoinbase(b.txs) && (height >= from ==> ids.heightOf(b.txs[0].hash) == height)
  }

  /** The hashes of the branch stand for its transactions. */
  ghost predicate KnownBranch(ids: Ids, blocks: map<Hash, Block>, n: BlockNode)
    decreases n
  {
    n.Node? && (n.parent.Node? ==> KnownBranch(ids, blocks, n.parent) && KnownBlock(ids, BlockOf(blocks, n)))
  }

  /** From the height `from` on every coinbase announces its height. */
  ghost predicate AnnouncedBranch(ids: Ids, from: int, blocks: map<Hash, Block>, n: BlockNode)
    decreases n
  {
    n.Node? &&
    (n.parent.Node? ==>
      AnnouncedBranch(ids, from, blocks, n.parent) && Announces(ids, from, BlockOf(blocks, n), Height(n)))
  }

  predicate CoinbaseBelow(ids: Ids, tx: Tx, from: int) {
    tx.coinbase ==> ids.heightOf(tx.hash) < from
  }

  ghost predicate AllCoinbasesBelow(ids: Ids, txs: seq<Tx>, from: int) {
    forall i {:trigger CoinbaseBelow(ids, txs[i], from)} :: 0 <= i < |txs| ==> CoinbaseBelow(ids, txs[i], from)
  }

  /** The coinbases of the branch below the height `from` differ, and none announces that height or a later one. */
  ghost predicate EarlyApart(ids: Ids, from: int, blocks: map<Hash, Block>, n: BlockNode)
    decreases n
  {
    n.Node? ==>
      if Height(n) >= from then EarlyApart(ids, from, blocks, n.parent)
      else CoinbasesDiffer(Connected(blocks, n)) && AllCoinbasesBelow(ids, Connected(blocks, n), from)
  }

  /** When heights are announced from the start, there is nothing to ask. */
  lemma {:induction false} NothingEarly(ids: Ids, blocks: map<Hash, Block>, n: BlockNode)
    ensures EarlyApart(ids, 0, blocks, n)
  {
    if n.Node? {
      NothingEarly(ids, blocks, n.parent);
    }
  }

  lemma KnownAppend(ids: Ids, before: seq<Tx>, txs: seq<Tx>)
    requires AllKnown(ids, before) && AllKnown(ids, txs)
    ensures AllKnown(ids, before + txs)
  {
    forall i | 0 <= i < |before + txs| ensures Known(ids, (before + txs)[i]) {
      assert if i < |before| then Known(ids, before[i]) else Known(ids, txs[i - |before|]);
    }
  }

  lemma {:induction false} BranchKnows(ids: Ids, blocks: map<Hash, Block>, n: BlockNode)
    requires KnownBranch(ids, blocks, n)
    ensures AllKnown(ids, Connected(blocks, n))
  {
    if n.parent.Node? {
      BranchKnows(ids, blocks, n.parent);
      KnownAppend(ids, Connected(blocks, n.parent), BlockOf(blocks, n).txs);
    }
  }

  lemma KnownIdentified(ids: Ids, txs: seq<Tx>)
    requires AllKnown(ids, txs)
    ensures Identified(txs)
  {
    forall i, j | 0 <= i < |txs| && 0 <= j < |txs| ensures SameIfHash(txs[i], txs[j]) {
      assert Known(ids, txs[i]) && Known(ids, txs[j]);
    }
    forall i | 0 <= i < |txs| ensures txs[i].coinbase || txs[i].ins != [] {
      assert Known(ids, txs[i]);
    }
  }

  /** Where a coinbase stands: it announces no more than the height of the branch, and in its last block just that. */
  lemma {:induction false} CoinbaseAt(ids: Ids, from: int, blocks: map<Hash, Block>, n: BlockNode, i: nat)
    requires AnnouncedBranch(ids, from, blocks, n) && EarlyApart(ids, from, blocks, n)
    requires i < |Connected(blocks, n)| && Connected(blocks, n)[i].coinbase
    ensures ids.heightOf(Connected(blocks, n)[i].hash) <= if Height(n) >= from then Height(n) else from - 1
    ensures i >= |Connected(blocks, n)| - |BlockOf(blocks, n).txs| ==>
      && i == |Connected(blocks, n)| - |BlockOf(blocks, n).txs|
      && (Height(n) >= from ==> ids.heightOf(Connected(blocks, n)[i].hash) == Height(n))
  {
    var below := Connected(blocks, n.parent);
    if i >= |below| {
      assert Connected(blocks, n)[i] == BlockOf(blocks, n).txs[i - |below|];
    }
    if Height(n) < from {
      assert CoinbaseBelow(ids, Connected(blocks, n)[i], from);
    } else if i < |below| {
      CoinbaseAt(ids, from, blocks, n.parent, i);
    }
  }

  lemma {:induction false} CoinbasesApart(ids: Ids, from: int, blocks: map<Hash, Block>, n: BlockNode, i: nat, j: nat)
    requires AnnouncedBranch(ids, from, blocks, n) && EarlyApart(ids, from, blocks, n)
    requires i < j < |Connected(blocks, n)| && Connected(blocks, n)[i].coinbase && Connected(blocks, n)[j].coinbase
    ensures Unequal(Connected(blocks, n), i, j)
  {
    var below := Connected(blocks, n.parent);
    if Height(n) >= from {
      CoinbaseAt(ids, from, blocks, n, i);
      CoinbaseAt(ids, from, blocks, n, j);
      if j < |below| {
        CoinbasesApart(ids, from, blocks, n.parent, i, j);
      } else {
        CoinbaseAt(ids, from, blocks, n.parent, i);
      }
    }
  }

  /** Then no coinbase is repeated. */
  lemma HeightsSeparate(ids: Ids, from: int, blocks: map<Hash, Block>, n: BlockNode)
    requires AnnouncedBranch(ids, from, blocks, n) && EarlyApart(ids, from, blocks, n)
    ensures CoinbasesDiffer(Connected(blocks, n))
  {
    var txs := Connected(blocks, n);
    forall i, j | 0 <= i < j < |txs| && txs[i].coinbase && txs[j].coinbase ensures Unequal(txs, i, j) {
      CoinbasesApart(ids, from, blocks, n, i, j);
    }
  }

  // --- No clash

  /** checkBIP0030: no output of the block is unspent before it. */
  ghost predicate AllFresh(u: Utxos, txs: seq<Tx>) {
    forall i {:trigger Outputs(txs[i])} :: 0 <= i < |txs| ==> Outputs(txs[i]) !! u.Keys
  }

  lemma OtherHash(ids: Ids, a: Tx, b: Tx, o: OutPoint)
    requires Known(ids, a) && Known(ids, b) && o in Outputs(a) && o !in Outputs(b)
    ensures b.hash != o.txHash
  {
  }

  lemma HashIsNew(txs: seq<Tx>, h: Hash)
    requires forall i :: 0 <= i < |txs| ==> txs[i].hash != h
    ensures IndexOf(txs, h) == -1
  {
  }

  /** The hash of an unspent output is not one of the block. */
  lemma HashUnused(ids: Ids, before: seq<Tx>, u: Utxos, txs: seq<Tx>, o: OutPoint)
    requires AllKnown(ids, before) && AllKnown(ids, txs) && Leaves(before, u) && AllFresh(u, txs) && o in u
    ensures IndexOf(txs, o.txHash) == -1
  {
    assert Has(before, |before|, o);
    var r := OriginOf(before, |before|, o);
    forall i | 0 <= i < |txs| ensures txs[i].hash != o.txHash {
      assert Known(ids, before[r]) && Known(ids, txs[i]) && Outputs(txs[i]) !! u.Keys;
      OtherHash(ids, before[r], txs[i], o);
    }
    HashIsNew(txs, o.txHash);
  }

  /** With the check, a block reuses no hash of a transaction with unspent outputs. */
  lemma NoClashByRule(ids: Ids, blocks: map<Hash, Block>, n: BlockNode)
    requires n.Node? && n.parent.Node? && KnownBranch(ids, blocks, n)
    requires AllFresh(LedgerAt(blocks, n.parent).utxos, BlockOf(blocks, n).txs)
    ensures NoClash(LedgerAt(blocks, n.parent).utxos, BlockOf(blocks, n).txs)
  {
    var u, txs := LedgerAt(blocks, n.parent).utxos, BlockOf(blocks, n).txs;
    BranchLeaves(blocks, n.parent);
    BranchKnows(ids, blocks, n.parent);
    forall o | o in u ensures IndexOf(txs, o.txHash) == -1 {
      HashUnused(ids, Connected(blocks, n.parent), u, txs, o);
    }
  }

  /** What comes after transactions that are not repeated uses none of their hashes. */
  lemma NoClashAfter(before: seq<Tx>, u: Utxos, txs: seq<Tx>)
    requires Leaves(before, u) && NoRepeat(before + txs)
    ensures NoClash(u, txs)
  {
    forall o | o in u ensures IndexOf(txs, o.txHash) == -1 {
      assert Has(before, |before|, o);
      var r := OriginOf(before, |before|, o);
      forall i | 0 <= i < |txs| ensures txs[i].hash != o.txHash {
        assert Unequal(before + txs, r, |before| + i);
      }
      HashIsNew(txs, o.txHash);
    }
  }

  /** Nor does it when the coinbases announce their heights from some height on and differ below it. */
  lemma NoClashByHeights(ids: Ids, from: int, blocks: map<Hash, Block>, n: BlockNode)
    requires n.Node? && n.parent.Node? && Replayable(blocks, n) && KnownBranch(ids, blocks, n)
    requires AnnouncedBranch(ids, from, blocks, n) && EarlyApart(ids, from, blocks, n)
    ensures NoClash(LedgerAt(blocks, n.parent).utxos, BlockOf(blocks, n).txs)
  {
    BranchLeaves(blocks, n.parent);
    FedBranch(blocks, n);
    BranchKnows(ids, blocks, n);
    KnownIdentified(ids, Connected(blocks, n));
    HeightsSeparate(ids, from, blocks, n);
    RepeatsNeedCoinbases(Connected(blocks, n));
    NoClashAfter(Connected(blocks, n.parent), LedgerAt(blocks, n.parent).utxos, BlockOf(blocks, n).txs);
  }

  // --- Leaving the check out

  predicate FreshAt(u: Utxos, txs: seq<Tx>, height: int, k: nat)
    requires k < |txs|
  {
    forall o :: o in Outputs(txs[k]) ==> o !in ConnectTxs(u, txs[..k], height)
  }

  ghost predicate FreshTxs(u: Utxos, txs: seq<Tx>, height: int) {
    forall k {:trigger FreshAt(u, txs, height, k)} :: 0 <= k < |txs| ==> FreshAt(u, txs, height, k)
  }

  lemma {:induction false} FreshConnects(u: Utxos, txs: seq<Tx>, height: int, k: nat)
    requires FedTxs(u, txs, height) && FreshTxs(u, txs, height) && k <= |txs|
    ensures CanConnectTxs(u, txs[..k], height)
  {
    if k > 0 {
      FreshConnects(u, txs, height, k - 1);
      assert FedTxAt(u, txs, height, k - 1) && FreshAt(u, txs, height, k - 1);
      assert txs[..k][..k - 1] == txs[..k - 1] && txs[..k][k - 1] == txs[k - 1];
    }
  }

  lemma FreshInBlock(before: seq<Tx>, u: Utxos, txs: seq<Tx>, height: int, k: nat)
    requires Leaves(before, u) && k < |txs| && OverwritesNone(before + txs, |before| + k)
    ensures FreshAt(u, txs, height, k)
  {
    forall o | o in Outputs(txs[k]) ensures o !in ConnectTxs(u, txs[..k], height) {
      HasInBlock(before, u, txs, height, k, o);
    }
  }

  lemma BlockFresh(before: seq<Tx>, u: Utxos, txs: seq<Tx>, height: int)
    requires Leaves(before, u) && NoneOverwrites(before + txs)
    ensures FreshTxs(u, txs, height)
  {
    forall k | 0 <= k < |txs| ensures FreshAt(u, txs, height, k) {
      assert OverwritesNone(before + txs, |before| + k);
      FreshInBlock(before, u, txs, height, k);
    }
  }

  /**
   * When the coinbases announce their heights from some height on and differ below it, the check for overwritten
   * outputs makes no difference: a block connects if and only if its inputs are there.
   */
  lemma CheckUnneeded(ids: Ids, from: int, blocks: map<Hash, Block>, n: BlockNode)
    requires n.Node? && n.parent.Node? && Replayable(blocks, n.parent) && KnownBranch(ids, blocks, n)
    requires AnnouncedBranch(ids, from, blocks, n) && EarlyApart(ids, from, blocks, n)
    ensures var u, txs := LedgerAt(blocks, n.parent).utxos, BlockOf(blocks, n).txs;
      CanConnectTxs(u, txs, Height(n)) <==> FedTxs(u, txs, Height(n))
  {
    var u, txs := LedgerAt(blocks, n.parent).utxos, BlockOf(blocks, n).txs;
    var before := Connected(blocks, n.parent);
    if CanConnectTxs(u, txs, Height(n)) {
      ConnectsIsFed(u, txs, Height(n));
    }
    if FedTxs(u, txs, Height(n)) {
      FedBranch(blocks, n.parent);
      BranchLeaves(blocks, n.parent);
      FedBlock(before, u, txs, Height(n));
      BranchKnows(ids, blocks, n);
      KnownIdentified(ids, Connected(blocks, n));
      HeightsSeparate(ids, from, blocks, n);
      NothingOverwritten(Connected(blocks, n));
      BlockFresh(before, u, txs, Height(n));
      FreshConnects(u, txs, Height(n), |txs|);
      SliceAll(txs);
    }
  }
}
