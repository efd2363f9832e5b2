/**
 * Everything the node keeps about its main chain besides the chain view: the hash and height
 * indexes, the utxo set, the spend journal and the best-state snapshot
 * (blockchain/chain.go, blockchain/chainio.go).
 */
module Ledgers {
  import opened Primitives
  import opened BlockTree
  import opened Utxo

  datatype BestState = BestState(hash: Hash, height: int, bits: uint32, numTxns: nat, totalTxns: int)

  datatype Ledger = Ledger(
    heights: map<Hash, int>,
    hashes: map<int, Hash>,
    utxos: Utxos,
    journal: map<Hash, seq<Txo>>,
    best: BestState)

  /** The writes of connectBlock, given the utxo set after the block and what the block spent. */
  function PutBlock(l: Ledger, n: BlockNode, b: Block, utxos: Utxos, stxos: seq<Txo>): Ledger
    requires n.Node?
  {
    Ledger(
      l.heights[n.hash := Height(n)],
      l.hashes[Height(n) := n.hash],
      utxos,
      l.journal[n.hash := stxos],
      BestState(n.hash, Height(n), n.bits, |b.txs|, l.best.totalTxns + |b.txs|))
  }

  /** The writes of disconnectBlock, given the utxo set before the block and the block below it. */
  function RemoveBlock(l: Ledger, n: BlockNode, b: Block, prev: Block, utxos: Utxos): Ledger
    requires n.Node? && n.parent.Node?
  {
    Ledger(
      l.heights - {n.hash},
      l.hashes - {Height(n)},
      utxos,
      l.journal - {n.hash},
      BestState(n.parent.hash, Height(n.parent), n.parent.bits, |prev.txs|, l.best.totalTxns - |b.txs|))
  }

  /** Connect a block to a ledger from its transactions alone. */
  function ConnectLedger(l: Ledger, n: BlockNode, b: Block): Ledger
    requires n.Node?
  {
    PutBlock(l, n, b, ConnectTxs(l.utxos, b.txs, Height(n)), Stxos(l.utxos, b.txs, Height(n)))
  }

  /** The ledger's last block is the given node, described as its own block describes it. */
  predicate EndsAt(l: Ledger, n: BlockNode, b: Block) {
    n.Node? && l.best == BestState(n.hash, Height(n), n.bits, |b.txs|, l.best.totalTxns)
  }

  /**
   * Connecting a block and disconnecting it with the journal entry read back changes nothing: not the
   * utxo set, not the two indexes, not the journal, not the snapshot.
   */
  lemma DisconnectUndoesConnect(l: Ledger, n: BlockNode, b: Block, prev: Block, after: Ledger)
    requires n.Node? && CanConnectTxs(l.utxos, b.txs, Height(n)) && EndsAt(l, n.parent, prev)
    requires n.hash !in l.heights && Height(n) !in l.hashes && n.hash !in l.journal
    requires after == ConnectLedger(l, n, b)
    ensures n.hash in after.journal && |after.journal[n.hash]| == CountSpent(b.txs)
    ensures RemoveBlock(after, n, b, prev, DisconnectTxs(after.utxos, b.txs, after.journal[n.hash])) == l
  {
    DisconnectTxsUndoes(l.utxos, b.txs, Height(n));
    PutThenRemove(l.heights, n.hash, Height(n));
    PutThenRemove(l.hashes, Height(n), n.hash);
    PutThenRemove(l.journal, n.hash, Stxos(l.utxos, b.txs, Height(n)));
  }

  // --- The ledger of a branch

  const NO_BLOCK := Block(ZERO_HASH, Header(0, ZERO_HASH, ZERO_HASH, 0, 0, 0), [])

  function BlockOf(blocks: map<Hash, Block>, n: BlockNode): Block
    requires n.Node?
  {
    if n.hash in blocks then blocks[n.hash] else NO_BLOCK
  }

  /** Start from genesis, whose outputs are not spendable, and connect every block of the branch. */
  function LedgerAt(blocks: map<Hash, Block>, n: BlockNode): Ledger
    requires n.Node?
    decreases n
  {
    var b := BlockOf(blocks, n);
    if n.parent.Nil? then
      Ledger(map[n.hash := 0], map[0 := n.hash], map[], map[], BestState(n.hash, 0, n.bits, |b.txs|, |b.txs|))
    else
      ConnectLedger(LedgerAt(blocks, n.parent), n, b)
  }

  /** The block of n connects to the state its parent's branch leaves behind. */
  predicate Connects(blocks: map<Hash, Block>, n: BlockNode) {
    && n.Node? && n.parent.Node? && n.hash in blocks
    && CanConnectTxs(LedgerAt(blocks, n.parent).utxos, blocks[n.hash].txs, Height(n))
  }

  /** Every block of the branch connects to the state below it. */
  predicate Replayable(blocks: map<Hash, Block>, n: BlockNode)
    decreases n
  {
    n.Node? && n.hash in blocks && (n.parent.Node? ==> Replayable(blocks, n.parent) && Connects(blocks, n))
  }

  predicate SameBlock(a: map<Hash, Block>, b: map<Hash, Block>, n: BlockNode) {
    n.Node? && n.hash in a && n.hash in b && a[n.hash] == b[n.hash]
  }

  /** The ledger of a branch depends on nothing but the blocks of the branch. */
  lemma {:induction false} LedgerDependsOnPath(a: map<Hash, Block>, b: map<Hash, Block>, n: BlockNode)
    requires n.Node? && forall m :: m in Path(n) ==> SameBlock(a, b, m)
    ensures LedgerAt(a, n) == LedgerAt(b, n)
  {
    assert n in Path(n);
    if n.parent.Node? {
      LedgerDependsOnPath(a, b, n.parent);
    }
  }

  predicate HashesDiffer(a: BlockNode, b: BlockNode) {
    a.Node? && b.Node? && a.hash != b.hash
  }

  predicate UniqueHashes(p: seq<BlockNode>) {
    forall i, j :: 0 <= i < j < |p| ==> HashesDiffer(p[i], p[j])
  }

  function SumTxns(blocks: map<Hash, Block>, n: BlockNode): nat {
    if n.Nil? then 0 else SumTxns(blocks, n.parent) + |BlockOf(blocks, n).txs|
  }

  /** Both indexes say exactly what the path says: no entry is missing, stale or left over. */
  predicate IndexesMirror(p: seq<BlockNode>, l: Ledger) {
    && (forall i :: 0 <= i < |p| ==> p[i].Node? && p[i].hash in l.heights && l.heights[p[i].hash] == i)
    && (forall i :: 0 <= i < |p| ==> i in l.hashes && l.hashes[i] == p[i].hash)
    && (forall h :: h in l.heights ==> 0 <= l.heights[h] < |p| && p[l.heights[h]].hash == h)
    && (forall i :: i in l.hashes ==> 0 <= i < |p|)
  }

  /** The journal has an entry for every block above genesis and for no other. */
  ghost predicate JournalMirrors(l: Ledger) {
    forall h :: h in l.journal <==> h in l.heights && l.heights[h] != 0
  }

  predicate SnapshotMirrors(blocks: map<Hash, Block>, n: BlockNode, l: Ledger) {
    n.Node? && EndsAt(l, n, BlockOf(blocks, n)) && l.best.totalTxns == SumTxns(blocks, n)
  }

  /**
   * On any branch, whatever was connected and disconnected to get there, the two indexes are mutual
   * inverses equal to the path, the journal covers the blocks above genesis, and the snapshot counts
   * the transactions from genesis to the tip.
   */
  lemma {:induction false} LedgerMirrors(blocks: map<Hash, Block>, n: BlockNode)
    requires n.Node? && UniqueHashes(Path(n))
    ensures IndexesMirror(Path(n), LedgerAt(blocks, n))
    ensures JournalMirrors(LedgerAt(blocks, n))
    ensures SnapshotMirrors(blocks, n, LedgerAt(blocks, n))
  {
    if n.parent.Nil? {
      GenesisMirrors(blocks, n);
    } else {
      UniqueInit(Path(n.parent), n);
      LedgerMirrors(blocks, n.parent);
      IndexesStep(Path(n.parent), n, LedgerAt(blocks, n.parent), LedgerAt(blocks, n));
      JournalStep(LedgerAt(blocks, n.parent), n, BlockOf(blocks, n));
    }
  }

  lemma GenesisMirrors(blocks: map<Hash, Block>, n: BlockNode)
    requires n.Node? && n.parent.Nil?
    ensures IndexesMirror(Path(n), LedgerAt(blocks, n))
    ensures JournalMirrors(LedgerAt(blocks, n))
    ensures SnapshotMirrors(blocks, n, LedgerAt(blocks, n))
  {
    GenesisPath(n);
    OneBlockMirrors(Path(n), n, LedgerAt(blocks, n));
    OneBlockSnapshot(blocks, n, LedgerAt(blocks, n));
  }

  lemma GenesisPath(n: BlockNode)
    requires n.Node? && n.parent.Nil?
    ensures Path(n) == [n] && Height(n) == 0
  {
    assert Path(n.parent) == [];
  }

  lemma OneBlockSnapshot(blocks: map<Hash, Block>, n: BlockNode, l: Ledger)
    requires n.Node? && n.parent.Nil?
    requires var k := |BlockOf(blocks, n).txs|; l.best == BestState(n.hash, 0, n.bits, k, k)
    ensures SnapshotMirrors(blocks, n, l)
  {
    GenesisPath(n);
  }

  lemma OneBlockMirrors(p: seq<BlockNode>, n: BlockNode, l: Ledger)
    requires n.Node? && p == [n]
    requires l.heights == map[n.hash := 0] && l.hashes == map[0 := n.hash] && l.journal == map[]
    ensures IndexesMirror(p, l) && JournalMirrors(l)
  {
  }

  lemma UniqueInit(p: seq<BlockNode>, n: BlockNode)
    requires UniqueHashes(p + [n])
    ensures UniqueHashes(p)
  {
    var q := p + [n];
    assert forall i :: 0 <= i < |p| ==> p[i] == q[i];
  }

  lemma JournalStep(l: Ledger, n: BlockNode, b: Block)
    requires n.Node? && n.hash !in l.heights && Height(n) != 0 && JournalMirrors(l)
    ensures JournalMirrors(ConnectLedger(l, n, b))
  {
  }

  lemma NewHash(p: seq<BlockNode>, n: BlockNode, l: Ledger)
    requires n.Node? && UniqueHashes(p + [n]) && IndexesMirror(p, l)
    ensures n.hash !in l.heights && forall i :: 0 <= i < |p| ==> p[i].hash != n.hash
  {
    var q := p + [n];
    forall i | 0 <= i < |p| ensures p[i].hash != n.hash {
      assert HashesDiffer(q[i], q[|p|]);
    }
  }

  lemma HeightsStep(p: seq<BlockNode>, n: BlockNode, l: Ledger, after: Ledger)
    requires n.Node? && IndexesMirror(p, l) && after.heights == l.heights[n.hash := |p|]
    requires forall i :: 0 <= i < |p| ==> p[i].hash != n.hash
    ensures var q := p + [n];
      && (forall i :: 0 <= i < |q| ==> q[i].Node? && q[i].hash in after.heights && after.heights[q[i].hash] == i)
      && (forall h :: h in after.heights ==> 0 <= after.heights[h] < |q| && q[after.heights[h]].hash == h)
  {
    var q := p + [n];
    assert forall i :: 0 <= i < |p| ==> q[i] == p[i];
  }

  lemma HashesStep(p: seq<BlockNode>, n: BlockNode, l: Ledger, after: Ledger)
    requires n.Node? && IndexesMirror(p, l) && after.hashes == l.hashes[|p| := n.hash]
    ensures var q := p + [n];
      && (forall i :: 0 <= i < |q| ==> i in after.hashes && q[i].Node? && after.hashes[i] == q[i].hash)
      && (forall i :: i in after.hashes ==> 0 <= i < |q|)
  {
    var q := p + [n];
    assert forall i :: 0 <= i < |p| ==> q[i] == p[i];
  }

  lemma IndexesStep(p: seq<BlockNode>, n: BlockNode, l: Ledger, after: Ledger)
    requires n.Node? && |p| == Height(n) && UniqueHashes(p + [n]) && IndexesMirror(p, l)
    requires after.heights == l.heights[n.hash := Height(n)] && after.hashes == l.hashes[Height(n) := n.hash]
    ensures n.hash !in l.heights && IndexesMirror(p + [n], after)
  {
    NewHash(p, n, l);
    HeightsStep(p, n, l, after);
    HashesStep(p, n, l, after);
  }

  /** No output of a replayable branch carries height zero, so no journal record looks like a legacy one. */
  lemma {:induction false} LedgerAboveGenesis(blocks: map<Hash, Block>, n: BlockNode)
    requires Replayable(blocks, n)
    ensures AboveGenesis(LedgerAt(blocks, n).utxos)
  {
    if n.parent.Node? {
      LedgerAboveGenesis(blocks, n.parent);
      ConnectTxsAboveGenesis(LedgerAt(blocks, n.parent).utxos, blocks[n.hash].txs, Height(n));
    }
  }

  /** The journal entry of a block stays as it was written while later blocks are connected. */
  lemma {:induction false} JournalPersists(blocks: map<Hash, Block>, tip: BlockNode, n: BlockNode)
    requires n in Path(tip) && n.Node? && n.parent.Node? && tip.Node? && UniqueHashes(Path(tip))
    ensures var l := LedgerAt(blocks, tip);
      && n.hash in l.journal
      && l.journal[n.hash] == Stxos(LedgerAt(blocks, n.parent).utxos, BlockOf(blocks, n).txs, Height(n))
  {
    if n != tip {
      UniqueInit(Path(tip.parent), tip);
      JournalPersists(blocks, tip.parent, n);
      var i :| 0 <= i < |Path(tip.parent)| && Path(tip.parent)[i] == n;
      assert HashesDiffer(Path(tip)[i], Path(tip)[|Path(tip)| - 1]);
    }
  }

  /** Disconnecting the last block of a branch yields the ledger of the branch without it. */
  lemma UndoTip(blocks: map<Hash, Block>, n: BlockNode, utxos: Utxos)
    requires Connects(blocks, n) && UniqueHashes(Path(n))
    requires utxos == LedgerAt(blocks, n.parent).utxos
    ensures RemoveBlock(LedgerAt(blocks, n), n, BlockOf(blocks, n), BlockOf(blocks, n.parent), utxos)
      == LedgerAt(blocks, n.parent)
  {
    var l, b := LedgerAt(blocks, n.parent), BlockOf(blocks, n);
    UniqueInit(Path(n.parent), n);
    LedgerMirrors(blocks, n.parent);
    IndexesStep(Path(n.parent), n, l, LedgerAt(blocks, n));
    DisconnectTxsUndoes(l.utxos, b.txs, Height(n));
    DisconnectUndoesConnect(l, n, b, BlockOf(blocks, n.parent), LedgerAt(blocks, n));
  }
}
