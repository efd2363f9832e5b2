/**
 * Where the entries of the utxo set and the records of the spend journal come from (blockchain/utxoviewpoint.go,
 * blockchain/chainio.go): every one of them describes an output of a transaction of the branch.
 */
module Origins {
  import opened Primitives
  import opened BlockTree
  import opened Utxo
  import opened Ledgers
  import opened Selection
  import opened ChainCore
  import opened Duplicates
  import Replay
  import Lawful

  /** The transaction has that output, and it can be spent. */
  predicate Makes(tx: Tx, o: OutPoint) {
    o.txHash == tx.hash && o.index < |tx.outs| && !tx.outs[o.index].unspendable
  }

  /** The transaction spends that output; the input of a coinbase spends nothing. */
  predicate Takes(tx: Tx, o: OutPoint) {
    !tx.coinbase && o in tx.ins
  }

  /** What is kept about an output: amount and script, the height of its block, and whether a coinbase made it. */
  predicate Describes(t: Txo, tx: Tx, o: OutPoint, height: int, coinbase: bool) {
    && Makes(tx, o) && t.amount == tx.outs[o.index].value && t.pkScript == tx.outs[o.index].pkScript
    && t.height == height && t.coinbase == coinbase
  }

  /** t describes the output of the j-th transaction in the block of m, which is above genesis on the branch of n. */
  predicate MadeAt(blocks: map<Hash, Block>, n: BlockNode, o: OutPoint, t: Txo, m: BlockNode, j: nat) {
    && m in Path(n) && m.Node? && m.parent.Node? && m.hash in blocks && j < |blocks[m.hash].txs|
    && Describes(t, blocks[m.hash].txs[j], o, Height(m), j == 0)
  }

  /** The blocks of the branch above genesis are there, and exactly their first transactions are coinbases. */
  predicate Proper(blocks: map<Hash, Block>, n: BlockNode)
    decreases n
  {
    n.Node? && (n.parent.Node? ==>
      && Proper(blocks, n.parent) && n.hash in blocks
      && forall j :: 0 <= j < |blocks[n.hash].txs| ==> (blocks[n.hash].txs[j].coinbase <==> j == 0))
  }

  // --- Entries

  /** What a transaction leaves. */
  lemma ConnectTxIs(u: Utxos, tx: Tx, height: int, o: OutPoint)
    ensures o in ConnectTx(u, tx, height) <==> Makes(tx, o) || (o in u && !Takes(tx, o))
    ensures Makes(tx, o) ==> Describes(ConnectTx(u, tx, height)[o], tx, o, height, tx.coinbase)
    ensures o in u && !Takes(tx, o) && !Makes(tx, o) ==> ConnectTx(u, tx, height)[o] == u[o]
  {
    assert o in Outputs(tx) <==> Makes(tx, o) by {
      if Makes(tx, o) {
        assert o == OutPoint(tx.hash, o.index);
      }
    }
  }

  /** An output after the first k transactions of a block is one of theirs, or was there before: then j is -1. */
  lemma {:induction false} OriginInBlock(u: Utxos, txs: seq<Tx>, height: int, k: nat, o: OutPoint) returns (j: int)
    requires k <= |txs| && o in ConnectTxs(u, txs[..k], height)
    ensures -1 <= j < k
    ensures j == -1 ==> o in u && ConnectTxs(u, txs[..k], height)[o] == u[o]
    ensures j >= 0 ==> Describes(ConnectTxs(u, txs[..k], height)[o], txs[j], o, height, txs[j].coinbase)
  {
    if k == 0 {
      assert txs[..0] == [];
      j := -1;
    } else {
      var v := ConnectTxs(u, txs[..k - 1], height);
      assert txs[..k][..k - 1] == txs[..k - 1] && txs[..k][k - 1] == txs[k - 1];
      ConnectTxIs(v, txs[k - 1], height, o);
      if Makes(txs[k - 1], o) {
        j := k - 1;
      } else {
        j := OriginInBlock(u, txs, height, k - 1, o);
      }
    }
  }

  /** Every entry of the utxo set describes an output of a block of the branch. */
  lemma {:induction false} EntryOrigin(blocks: map<Hash, Block>, n: BlockNode, o: OutPoint)
    returns (m: BlockNode, j: nat)
    requires Proper(blocks, n) && o in LedgerAt(blocks, n).utxos
    ensures MadeAt(blocks, n, o, LedgerAt(blocks, n).utxos[o], m, j)
    decreases n
  {
    var u, txs := LedgerAt(blocks, n.parent).utxos, BlockOf(blocks, n).txs;
    SliceAll(txs);
    var i := OriginInBlock(u, txs, Height(n), |txs|, o);
    if i >= 0 {
      m, j := n, i;
      assert n in Path(n);
    } else {
      m, j := EntryOrigin(blocks, n.parent, o);
      assert m in Path(n);
    }
  }

  // --- Journal records

  /** The outputs that a block spends, in the order of its transactions and their inputs. */
  function AllIns(txs: seq<Tx>): seq<OutPoint> {
    if txs == [] then []
    else AllIns(txs[..|txs| - 1]) + if txs[|txs| - 1].coinbase then [] else txs[|txs| - 1].ins
  }

  /** The i-th record is the entry of the i-th output as the k-th transaction found it. */
  predicate RecordAt(u: Utxos, txs: seq<Tx>, height: int, i: nat, k: nat) {
    && k < |txs| && i < |AllIns(txs)| == |Stxos(u, txs, height)|
    && var o, v := AllIns(txs)[i], ConnectTxs(u, txs[..k], height);
      o in v && Stxos(u, txs, height)[i] == v[o]
  }

  lemma RecordEarlier(u: Utxos, txs: seq<Tx>, height: int, i: nat, k: nat)
    requires txs != [] && RecordAt(u, txs[..|txs| - 1], height, i, k)
    ensures RecordAt(u, txs, height, i, k)
  {
    RecordCount(u, txs, height);
    assert txs[..|txs| - 1][..k] == txs[..k];
  }

  lemma RecordLast(u: Utxos, txs: seq<Tx>, height: int, i: nat)
    requires txs != [] && CanConnectTx(ConnectTxs(u, txs[..|txs| - 1], height), txs[|txs| - 1])
    requires |AllIns(txs[..|txs| - 1])| <= i < |AllIns(txs)|
    ensures RecordAt(u, txs, height, i, |txs| - 1)
  {
    var init, last := txs[..|txs| - 1], txs[|txs| - 1];
    RecordCount(u, txs, height);
    RecordCount(u, init, height);
    LastRecord(ConnectTxs(u, init, height), last, i - |AllIns(init)|);
  }

  lemma LastRecord(v: Utxos, tx: Tx, i: nat)
    requires CanConnectTx(v, tx) && !tx.coinbase && i < |tx.ins|
    ensures tx.ins[i] in v && TxStxos(v, tx)[i] == v[tx.ins[i]]
  {
    assert tx.ins[i] in tx.ins;
  }

  ghost predicate Recorded(u: Utxos, txs: seq<Tx>, height: int, i: nat) {
    exists k :: RecordAt(u, txs, height, i, k)
  }

  lemma RecordedEarlier(u: Utxos, txs: seq<Tx>, height: int, i: nat)
    requires txs != [] && Recorded(u, txs[..|txs| - 1], height, i)
    ensures Recorded(u, txs, height, i)
  {
    var k :| RecordAt(u, txs[..|txs| - 1], height, i, k);
    RecordEarlier(u, txs, height, i, k);
  }

  /** Every record is the entry of its output at the time that was spent. */
  lemma {:induction false} RecordIs(u: Utxos, txs: seq<Tx>, height: int, i: nat)
    requires CanConnectTxs(u, txs, height) && i < |AllIns(txs)|
    ensures Recorded(u, txs, height, i)
    decreases |txs|
  {
    if i < |AllIns(txs[..|txs| - 1])| {
      RecordIs(u, txs[..|txs| - 1], height, i);
      RecordedEarlier(u, txs, height, i);
    } else {
      RecordLast(u, txs, height, i);
    }
  }

  lemma {:induction false} RecordCount(u: Utxos, txs: seq<Tx>, height: int)
    ensures |Stxos(u, txs, height)| == |AllIns(txs)|
    decreases |txs|
  {
    if txs != [] {
      RecordCount(u, txs[..|txs| - 1], height);
    }
  }

  /** A record of the block of n describes an output of that block or of one below it. */
  lemma SpentOrigin(blocks: map<Hash, Block>, n: BlockNode, i: nat) returns (m: BlockNode, j: nat)
    requires Proper(blocks, n) && n.parent.Node? && Connects(blocks, n) && i < |AllIns(blocks[n.hash].txs)|
    ensures var stxos := Stxos(LedgerAt(blocks, n.parent).utxos, blocks[n.hash].txs, Height(n));
      && |stxos| == |AllIns(blocks[n.hash].txs)|
      && MadeAt(blocks, n, AllIns(blocks[n.hash].txs)[i], stxos[i], m, j)
  {
    var u, txs := LedgerAt(blocks, n.parent).utxos, blocks[n.hash].txs;
    RecordIs(u, txs, Height(n), i);
    var k :| RecordAt(u, txs, Height(n), i, k);
    var own := OriginInBlock(u, txs, Height(n), k, AllIns(txs)[i]);
    if own >= 0 {
      m, j := n, own;
      assert n in Path(n);
    } else {
      m, j := EntryOrigin(blocks, n.parent, AllIns(txs)[i]);
      assert m in Path(n);
    }
  }

  lemma {:induction false} ProperBelow(blocks: map<Hash, Block>, n: BlockNode, m: BlockNode)
    requires Proper(blocks, n) && m in Path(n)
    ensures Proper(blocks, m)
  {
    if m != n {
      ProperBelow(blocks, n.parent, m);
    }
  }

  lemma {:induction false} ConnectsBelow(blocks: map<Hash, Block>, n: BlockNode, m: BlockNode)
    requires Replayable(blocks, n) && m in Path(n) && m.Node? && m.parent.Node?
    ensures Connects(blocks, m)
  {
    if m != n {
      ConnectsBelow(blocks, n.parent, m);
    }
  }

  /** So does every record of the journal that is kept with a branch. */
  lemma RecordOrigin(blocks: map<Hash, Block>, n: BlockNode, b: BlockNode, i: nat) returns (m: BlockNode, j: nat)
    requires Proper(blocks, n) && Replayable(blocks, n) && UniqueHashes(Path(n))
    requires b in Path(n) && b.Node? && b.parent.Node? && b.hash in blocks && i < |AllIns(blocks[b.hash].txs)|
    ensures var journal := LedgerAt(blocks, n).journal;
      && b.hash in journal && |journal[b.hash]| == |AllIns(blocks[b.hash].txs)|
      && MadeAt(blocks, b, AllIns(blocks[b.hash].txs)[i], journal[b.hash][i], m, j)
  {
    JournalPersists(blocks, n, b);
    ProperBelow(blocks, n, b);
    ConnectsBelow(blocks, n, b);
    m, j := SpentOrigin(blocks, b, i);
  }

  // --- Which outputs are unspent

  /** The j-th of the first k transactions makes the output and none after it takes it. */
  predicate LeftBy(txs: seq<Tx>, k: nat, o: OutPoint, j: nat)
    requires k <= |txs|
  {
    j < k && Makes(txs[j], o) && forall i :: j < i < k ==> !Takes(txs[i], o)
  }

  ghost predicate Left(txs: seq<Tx>, k: nat, o: OutPoint)
    requires k <= |txs|
  {
    exists j :: LeftBy(txs, k, o, j)
  }

  lemma LeftStep(txs: seq<Tx>, k: nat, o: OutPoint)
    requires k < |txs|
    ensures Left(txs, k + 1, o) <==> Makes(txs[k], o) || (Left(txs, k, o) && !Takes(txs[k], o))
  {
    if Makes(txs[k], o) {
      assert LeftBy(txs, k + 1, o, k);
    }
    if Left(txs, k, o) && !Takes(txs[k], o) {
      var j :| LeftBy(txs, k, o, j);
      assert LeftBy(txs, k + 1, o, j);
    }
    if Left(txs, k + 1, o) && !Makes(txs[k], o) {
      var j :| LeftBy(txs, k + 1, o, j);
      assert LeftBy(txs, k, o, j);
    }
  }

  lemma {:induction false} HasExactly(txs: seq<Tx>, k: nat, o: OutPoint)
    requires k <= |txs|
    ensures Has(txs, k, o) <==> Left(txs, k, o)
  {
    if k > 0 {
      HasExactly(txs, k - 1, o);
      LeftStep(txs, k - 1, o);
      ConnectTxIs(map[], txs[k - 1], 0, o);
    }
  }

  /** The utxo set of a branch has exactly the outputs that a transaction of the branch made and no later one took. */
  lemma UnspentExactly(blocks: map<Hash, Block>, n: BlockNode, o: OutPoint)
    requires n.Node?
    ensures var txs := Connected(blocks, n); o in LedgerAt(blocks, n).utxos <==> Left(txs, |txs|, o)
  {
    var txs := Connected(blocks, n);
    BranchLeaves(blocks, n);
    HasExactly(txs, |txs|, o);
    assert Has(txs, |txs|, o) <==> o in LedgerAt(blocks, n).utxos;
  }

  // --- In every reachable state

  lemma {:induction false} StoredIsProper(p: Params, c: Core, n: BlockNode)
    requires CoreInv(p, c) && n in c.chain.status
    ensures Proper(c.blocks, n)
    decreases n
  {
    assert InTree(p.genesis, c.chain.status, n) && StoredNode(p, c, n);
    if n.parent.Node? {
      StoredIsProper(p, c, n.parent);
    }
  }

  /** After any sequence of offered blocks, what the node keeps about its best chain describes outputs of that chain. */
  lemma OriginsAlways(p: Params, genesis: Block, offered: seq<Block>, c: Core, tip: BlockNode)
    requires StoredAs(p, p.genesis, genesis) && p.genesis.parent.Nil?
    requires c == Run(p, Initial(p, genesis), offered) && tip == c.chain.tip
    ensures tip.Node?
    ensures forall o :: o in LedgerAt(c.blocks, tip).utxos ==>
      Made(c.blocks, tip, o, LedgerAt(c.blocks, tip).utxos[o])
    ensures forall b :: b in Path(tip) && b.Node? && b.parent.Node? ==> RecordsKnown(c.blocks, tip, b)
  {
    InitialSafe(p, genesis);
    RunSafe(p, Initial(p, genesis), offered);
    assert StoredNode(p, c, tip);
    StoredIsProper(p, c, tip);
    forall o | o in LedgerAt(c.blocks, tip).utxos
      ensures Made(c.blocks, tip, o, LedgerAt(c.blocks, tip).utxos[o]) {
      var m, j := EntryOrigin(c.blocks, tip, o);
    }
    Lawful.ValidReplays(p, c, tip);
    Replay.UniqueOnPath(p, c, tip);
    forall b | b in Path(tip) && b.Node? && b.parent.Node? ensures RecordsKnown(c.blocks, tip, b) {
      KnownRecords(c.blocks, tip, b);
    }
  }

  /** The journal entry of the block of b has one record for each output the block spends, and it describes that. */
  ghost predicate RecordsKnown(blocks: map<Hash, Block>, n: BlockNode, b: BlockNode)
    requires n.Node? && b.Node?
  {
    && b.hash in blocks && b.hash in LedgerAt(blocks, n).journal
    && var ins, stxos := AllIns(blocks[b.hash].txs), LedgerAt(blocks, n).journal[b.hash];
    && |stxos| == |ins|
    && forall i :: 0 <= i < |ins| ==> Made(blocks, b, ins[i], stxos[i])
  }

  ghost predicate Made(blocks: map<Hash, Block>, n: BlockNode, o: OutPoint, t: Txo) {
    exists m, j :: MadeAt(blocks, n, o, t, m, j)
  }

  lemma MadeRecord(blocks: map<Hash, Block>, n: BlockNode, b: BlockNode, i: nat, stxos: seq<Txo>)
    requires Proper(blocks, n) && Replayable(blocks, n) && UniqueHashes(Path(n))
    requires b in Path(n) && b.Node? && b.parent.Node? && b.hash in blocks && i < |AllIns(blocks[b.hash].txs)|
    requires b.hash in LedgerAt(blocks, n).journal && stxos == LedgerAt(blocks, n).journal[b.hash]
    ensures |stxos| == |AllIns(blocks[b.hash].txs)| && Made(blocks, b, AllIns(blocks[b.hash].txs)[i], stxos[i])
  {
    var m, j := RecordOrigin(blocks, n, b, i);
  }

  lemma KnownRecords(blocks: map<Hash, Block>, n: BlockNode, b: BlockNode)
    requires Proper(blocks, n) && Replayable(blocks, n) && UniqueHashes(Path(n))
    requires b in Path(n) && b.Node? && b.parent.Node?
    ensures RecordsKnown(blocks, n, b)
  {
    JournalPersists(blocks, n, b);
    ProperBelow(blocks, n, b);
    ConnectsBelow(blocks, n, b);
    RecordCount(LedgerAt(blocks, b.parent).utxos, blocks[b.hash].txs, Height(b));
    var ins, stxos := AllIns(blocks[b.hash].txs), LedgerAt(blocks, n).journal[b.hash];
    forall i | 0 <= i < |ins| ensures Made(blocks, b, ins[i], stxos[i]) {
      MadeRecord(blocks, n, b, i, stxos);
    }
  }
}
