/** The best-chain engine (blockchain/chain.go, blockchain/accept.go). */
module BlockChains {
  import opened Primitives
  import opened BlockTree
  import opened Utxo
  import opened Ledgers
  import opened Selection
  import opened ChainCore
  import opened BlockIndexes
  import opened ChainViews
  import opened Replay
  import opened Rows
  import opened Restart

  function CountSpentOutputs(b: Block): nat
    requires |b.txs| > 0
  {
    SumIns(b.txs[1..])
  }

  /** Counting the inputs after the first transaction counts exactly the journal records of the block. */
  lemma CountsAgree(p: Params, b: Block)
    requires Sane(p, b)
    ensures CountSpentOutputs(b) == CountSpent(b.txs)
  {
    CountsAgreeUpTo(p, b, |b.txs|);
    assert b.txs[1..|b.txs|] == b.txs[1..] && b.txs[..|b.txs|] == b.txs;
  }

  lemma {:induction false} CountsAgreeUpTo(p: Params, b: Block, k: nat)
    requires Sane(p, b) && 1 <= k <= |b.txs|
    ensures SumIns(b.txs[1..k]) == CountSpent(b.txs[..k])
  {
    if k == 1 {
      assert b.txs[1..1] == [] && b.txs[..1][..0] == [];
      assert CountSpent(b.txs[..1]) == CountSpent(b.txs[..1][..0]) + CountIns(b.txs[0]);
    } else {
      CountsAgreeUpTo(p, b, k - 1);
      assert b.txs[1..k][..k - 2] == b.txs[1..k - 1] && b.txs[..k][..k - 1] == b.txs[..k - 1];
    }
  }

  /** Everything kept about the main chain is a function of its tip. */
  ghost predicate Consistent(p: Params, c: Core, ledger: Ledger, row: StateRow) {
    CoreInv(p, c) && LedgerOfTip(c, ledger) && row == RowOfTip(c.chain.tip, ledger)
  }

  ghost predicate LedgerOfTip(c: Core, ledger: Ledger) {
    c.chain.tip.Node? && ledger == LedgerAt(c.blocks, c.chain.tip)
  }

  function RowOfTip(tip: BlockNode, ledger: Ledger): StateRow {
    if tip.Nil? then StateRow(ZERO_HASH, -1, 0, 0)
    else StateRow(tip.hash, Height(tip), ledger.best.totalTxns, WorkSum(tip))
  }

  lemma InitialConsistent(p: Params, genesis: Block)
    requires StoredAs(p, p.genesis, genesis) && p.genesis.parent.Nil?
    ensures var node, numTxns := p.genesis, |genesis.txs|;
      Consistent(p, Initial(p, genesis),
        Ledger(map[node.hash := 0], map[0 := node.hash], map[], map[],
          BestState(node.hash, 0, node.bits, numTxns, numTxns)),
        StateRow(node.hash, 0, numTxns, WorkSum(node)))
  {
    InitialSafe(p, genesis);
    assert Height(p.genesis) == 0;
  }

  class BlockChain {
    const params: Params
    const index: BlockIndex
    const bestChain: ChainView
    /** Raw blocks by hash. */
    var blocks: map<Hash, Block>
    /** The main-chain buckets of the database and the in-memory snapshot of the best state. */
    var ledger: Ledger
    /** The best chain state as it is stored, and the row its bytes stand for. */
    var chainState: seq<byte>
    ghost var stateRow: StateRow

    /** The abstract state the fields stand for. */
    ghost var core: Core

    ghost predicate Shape()
      reads this, index, bestChain, bestChain.backing
    {
      index.Valid() && bestChain.Valid() && bestChain.tip.Node? && chainState == StateBytes(stateRow)
    }

    ghost predicate Tied()
      requires Shape()
      reads this, index, bestChain, bestChain.backing
    {
      && core.index == index.index && core.chain.status == index.status
      && core.chain.tip == bestChain.tip && core.blocks == blocks
    }

    /** What holds between any two calls. */
    ghost predicate Valid()
      reads this, index, bestChain, bestChain.backing
    {
      Shape() && Tied() && index.dirty == {} && Consistent(params, core, ledger, stateRow)
    }

    /**
     * Between any two calls the two main-chain indexes are inverse to each other and equal to the view, the
     * journal covers exactly the blocks above genesis, and the snapshot counts the transactions up to the tip.
     */
    lemma ViewMirrored()
      requires Valid()
      ensures IndexesMirror(bestChain.Contents(), ledger) && JournalMirrors(ledger)
      ensures SnapshotMirrors(blocks, bestChain.tip, ledger)
    {
      MainChainMirrored(params, core, ledger);
    }

    /** Between any two calls the stored chain state has hash, height, size and work of the best chain. */
    lemma StateOfTip()
      requires Valid()
      ensures var tip := bestChain.tip;
        chainState == StateBytes(StateRow(tip.hash, Height(tip), SumTxns(blocks, tip), WorkSum(tip)))
    {
      ViewMirrored();
    }

    /** createChainState. */
    constructor (p: Params, genesis: Block)
      requires StoredAs(p, p.genesis, genesis) && p.genesis.parent.Nil?
      ensures Valid() && fresh(index) && fresh(bestChain) && fresh(bestChain.backing)
      ensures params == p && core == Initial(p, genesis)
    {
      var node := p.genesis;
      var numTxns := |genesis.txs|;
      InitialConsistent(p, genesis);
      params := p;
      index := new BlockIndex.Genesis(node, {DataStored, Flag.Valid});
      bestChain := new ChainView(node);
      blocks := map[node.hash := genesis];
      ledger := Ledger(map[node.hash := 0], map[0 := node.hash], map[], map[],
        BestState(node.hash, 0, node.bits, numTxns, numTxns));
      stateRow := StateRow(node.hash, 0, numTxns, WorkSum(node));
      chainState := StateBytes(StateRow(node.hash, 0, numTxns, WorkSum(node)));
      core := Initial(p, genesis);
    }

    /** dbPutBestState. */
    method PutBestState(snapshot: BestState, workSum: nat)
      modifies this`chainState, this`stateRow
      ensures stateRow == StateRow(snapshot.hash, snapshot.height, snapshot.totalTxns, workSum)
      ensures chainState == StateBytes(stateRow)
    {
      chainState := StateBytes(StateRow(snapshot.hash, snapshot.height, snapshot.totalTxns, workSum));
      stateRow := StateRow(snapshot.hash, snapshot.height, snapshot.totalTxns, workSum);
    }

    /** connectBlock. */
    method ConnectBlock(node: BlockNode, block: Block, view: Utxos, stxos: seq<Txo>) returns (ok: bool)
      requires Shape() && node.Node? && |block.txs| > 0
      modifies this, index, bestChain, bestChain.backing
      ensures Shape() && (bestChain.backing == old(bestChain.backing) || fresh(bestChain.backing))
      ensures core == old(core)
      ensures index.index == old(index.index) && index.status == old(index.status) && blocks == old(blocks)
      ensures ok <==> block.header.prevBlock == old(bestChain.tip).hash && |stxos| == CountSpentOutputs(block)
      ensures ok ==> bestChain.tip == node && ledger == PutBlock(old(ledger), node, block, view, stxos)
      ensures ok ==> stateRow == StateRow(node.hash, Height(node), ledger.best.totalTxns, WorkSum(node))
      ensures ok ==> index.dirty == {}
      ensures !ok ==> bestChain.tip == old(bestChain.tip) && ledger == old(ledger) && stateRow == old(stateRow)
    {
      if block.header.prevBlock != bestChain.Tip().hash || |stxos| != CountSpentOutputs(block) {
        return false;
      }
      index.FlushToDB();
      WriteBlock(node, block, view, stxos);
      bestChain.SetTip(node);
      return true;
    }

    /** What connectBlock writes about the main chain, and the new snapshot. */
    method WriteBlock(node: BlockNode, block: Block, view: Utxos, stxos: seq<Txo>)
      requires node.Node?
      modifies this`ledger, this`chainState, this`stateRow
      ensures ledger == PutBlock(old(ledger), node, block, view, stxos) && chainState == StateBytes(stateRow)
      ensures stateRow == StateRow(node.hash, Height(node), ledger.best.totalTxns, WorkSum(node))
    {
      var numTxns := |block.txs|;
      var state := BestState(node.hash, Height(node), node.bits, numTxns, ledger.best.totalTxns + numTxns);
      PutBestState(state, WorkSum(node));
      ledger := ledger.(heights := ledger.heights[node.hash := Height(node)],
        hashes := ledger.hashes[Height(node) := node.hash]);
      ledger := ledger.(utxos := view);
      ledger := ledger.(journal := ledger.journal[node.hash := stxos]);
      ledger := ledger.(best := state);
    }

    /** disconnectBlock; the row it writes carries the work of the node it removes. */
    method DisconnectBlock(node: BlockNode, block: Block, view: Utxos) returns (ok: bool)
      requires Shape() && node.Node? && node.parent.Node?
      modifies this, index, bestChain, bestChain.backing
      ensures Shape() && (bestChain.backing == old(bestChain.backing) || fresh(bestChain.backing))
      ensures core == old(core)
      ensures index.index == old(index.index) && index.status == old(index.status) && blocks == old(blocks)
      ensures ok <==> node.hash == old(bestChain.tip).hash && node.parent.hash in blocks
      ensures ok ==> bestChain.tip == node.parent
      ensures ok ==> ledger == RemoveBlock(old(ledger), node, block, blocks[node.parent.hash], view)
      ensures ok ==> stateRow == StateRow(node.parent.hash, Height(node.parent), ledger.best.totalTxns, WorkSum(node))
      ensures !ok ==> bestChain.tip == old(bestChain.tip) && ledger == old(ledger) && stateRow == old(stateRow)
    {
      if node.hash != bestChain.Tip().hash {
        return false;
      }
      var prevNode := node.parent;
      if prevNode.hash !in blocks {
        return false;
      }
      var prevBlock := blocks[prevNode.hash];
      index.FlushToDB();
      EraseBlock(node, block, prevBlock, view);
      bestChain.SetTip(prevNode);
      return true;
    }

    /** What disconnectBlock writes about the main chain, and the new snapshot. */
    method EraseBlock(node: BlockNode, block: Block, prevBlock: Block, view: Utxos)
      requires node.Node? && node.parent.Node?
      modifies this`ledger, this`chainState, this`stateRow
      ensures ledger == RemoveBlock(old(ledger), node, block, prevBlock, view) && chainState == StateBytes(stateRow)
      ensures stateRow == StateRow(node.parent.hash, Height(node.parent), ledger.best.totalTxns, WorkSum(node))
    {
      var prevNode := node.parent;
      var newTotalTxns := ledger.best.totalTxns - |block.txs|;
      var state := BestState(prevNode.hash, Height(prevNode), prevNode.bits, |prevBlock.txs|, newTotalTxns);
      PutBestState(state, WorkSum(node));
      ledger := ledger.(heights := ledger.heights - {node.hash}, hashes := ledger.hashes - {Height(node)});
      ledger := ledger.(utxos := view);
      ledger := ledger.(journal := ledger.journal - {node.hash});
      ledger := ledger.(best := state);
    }

    method MarkAll(nodes: seq<BlockNode>, flag: Flag)
      requires index.Valid() && forall i :: 0 <= i < |nodes| ==> nodes[i] in index.status
      modifies index`status, index`dirty
      ensures index.Valid() && index.status == Mark(old(index.status), nodes, flag)
    {
      ghost var before := index.status;
      MarkNone(before, flag);
      for i := 0 to |nodes|
        invariant index.Valid() && index.status == Mark(before, nodes[..i], flag)
      {
        MarkMore(before, nodes, flag, i);
        index.SetStatusFlags(nodes[i], flag);
      }
      assert nodes[..|nodes|] == nodes;
    }

    /**
     * getReorganizeNodes: the branch to attach, lowest first, and the branch to detach, tip first; or
     * two empty lists, after marking what stands on an invalid block.
     */
    method GetReorganizeNodes(node: BlockNode) returns (detach: seq<BlockNode>, attach: seq<BlockNode>)
      requires Shape() && Tied() && Closed(params.genesis, core.chain)
      requires node in index.status && node.Node? && node.parent in index.status
      modifies index`status, index`dirty
      ensures index.Valid()
      ensures ReorganizeNodes(core.chain, node, detach, attach, index.status)
    {
      if KnownInvalid(index.status[node.parent]) {
        index.SetStatusFlags(node, InvalidAncestor);
        return [], [];
      }
      var forkNode := bestChain.FindFork(node);
      ForkReady(params.genesis, core.chain, node);
      var invalidChain;
      attach, invalidChain := CollectAttach(index.status, core.chain.tip, node, forkNode);
      TaintedIs(core.chain, node, attach, invalidChain);
      if invalidChain {
        MarkAll(attach, InvalidAncestor);
        return [], [];
      }
      detach := CollectDetach(bestChain.Tip(), forkNode);
    }

    /** Check one block unless it is marked valid, and mark it when it passes. */
    method CheckNode(n: BlockNode, block: Block, view: Utxos) returns (ok: bool)
      requires index.Valid() && n in index.status && n.Node?
      modifies index`status, index`dirty
      ensures index.Valid()
      ensures ok == (KnownValid(old(index.status)[n])
        || (CanConnectTxs(view, block.txs, Height(n)) && params.connect(n, block, view)))
      ensures index.status == if ok then Mark(old(index.status), [n], Flag.Valid) else old(index.status)
    {
      if KnownValid(index.status[n]) {
        MarkKnown(index.status, n);
        return true;
      }
      ok := CanConnectTxs(view, block.txs, Height(n)) && params.connect(n, block, view);
      if ok {
        index.SetStatusFlags(n, Flag.Valid);
      }
    }

    /** Mark the node that failed and everything above it on the branch. */
    method MarkFailed(attach: seq<BlockNode>, i: nat)
      requires index.Valid() && i < |attach| && forall m :: m in attach ==> m in core.chain.status
      requires index.status == Mark(core.chain.status, attach[..i], Flag.Valid)
      modifies index`status, index`dirty
      ensures index.Valid() && index.status == MarkFailure(core.chain.status, attach, i)
    {
      index.SetStatusFlags(attach[i], ValidateFailed);
      MarkAll(attach[i + 1..], InvalidAncestor);
    }

    /** The next block to attach: check it on top of the state below it, and mark the branch when it fails. */
    method CheckNext(attach: seq<BlockNode>, i: nat, view: Utxos, ghost c: Core, ghost fork: BlockNode,
                     ghost node: BlockNode)
      returns (ok: bool, next: Utxos)
      requires index.Valid() && c == core && blocks == c.blocks && BranchReady(params, c, fork, attach, node)
      requires i < |attach| && Checking(params, c, fork, attach, i, index.status, view)
      modifies index`status, index`dirty
      ensures index.Valid()
      ensures ok ==> Checking(params, c, fork, attach, i + 1, index.status, next)
      ensures !ok ==> (index.status, false) == CheckedBranch(c.chain.status, Good(params, c), attach)
    {
      var n := attach[i];
      CheckStep(params, c, fork, attach, node, i, index.status, view);
      var block := blocks[n.hash];
      ok := CheckNode(n, block, view);
      next := ConnectTxs(view, block.txs, Height(n));
      if !ok {
        MarkFailed(attach, i);
      }
    }

    /**
     * The first phase of reorganizeChain for the blocks to attach: check every block that is not marked
     * valid yet on top of the state below it.  A failure marks the branch and ends the phase.
     */
    method CheckAttach(attach: seq<BlockNode>, start: Utxos, ghost c: Core, ghost fork: BlockNode,
                       ghost node: BlockNode)
      returns (ok: bool)
      requires index.Valid() && c == core && blocks == c.blocks && BranchReady(params, c, fork, attach, node)
      requires Checking(params, c, fork, attach, 0, index.status, start)
      modifies index`status, index`dirty
      ensures index.Valid()
      ensures (index.status, ok) == CheckedBranch(c.chain.status, Good(params, c), attach)
    {
      var view := start;
      ghost var status := index.status;
      for i := 0 to |attach|
        invariant index.Valid() && index.status == status && Checking(params, c, fork, attach, i, status, view)
      {
        ok, view := CheckNext(attach, i, view, c, fork, node);
        if !ok {
          return;
        }
        status := index.status;
      }
      CheckingEnd(params, c, fork, attach, status, view);
      return true;
    }

    /** The second phase of reorganizeChain for the blocks to detach, with what the first phase has loaded. */
    method DetachAll(detach: seq<BlockNode>, detachBlocks: seq<Block>, spent: seq<seq<Txo>>, ghost tip: BlockNode,
                     ghost fork: BlockNode)
      returns (ok: bool)
      requires Shape() && tip == bestChain.tip && ChainSettled(blocks, tip) && ledger == LedgerAt(blocks, tip)
      requires fork in Path(tip) && detach == Detached(tip, fork) && Loaded(blocks, ledger, detach, detachBlocks, spent)
      modifies this, index, bestChain, bestChain.backing
      ensures Shape() && (bestChain.backing == old(bestChain.backing) || fresh(bestChain.backing))
      ensures core == old(core)
      ensures index.index == old(index.index) && index.status == old(index.status) && blocks == old(blocks)
      ensures ok && bestChain.tip == fork && ledger == LedgerAt(blocks, fork)
    {
      ghost var cur := tip;
      SliceAll(detach);
      for i := 0 to |detach|
        invariant Shape() && (bestChain.backing == old(bestChain.backing) || fresh(bestChain.backing))
        invariant core == old(core)
        invariant index.index == old(index.index) && index.status == old(index.status) && blocks == old(blocks)
        invariant OnTheWay(tip, fork, cur, detach[i..]) && bestChain.tip == cur && ledger == LedgerAt(blocks, cur)
      {
        var n := detach[i];
        SliceStep(detach, i);
        WayStep(tip, fork, cur, detach[i..]);
        LoadedReady(blocks, tip, detach, detachBlocks, spent, i);
        var view := DisconnectTxs(ledger.utxos, detachBlocks[i].txs, spent[i]);
        ok := DisconnectBlock(n, detachBlocks[i], view);
        if !ok {
          return;
        }
        cur := cur.parent;
      }
      WayEnd(tip, fork, cur);
      ok := true;
    }

    /** The second phase of reorganizeChain for the blocks to attach. */
    method AttachAll(attach: seq<BlockNode>, ghost fork: BlockNode, ghost node: BlockNode) returns (ok: bool)
      requires Shape() && blocks == core.blocks && Attachable(params, core, fork, attach, node)
      requires bestChain.tip == fork && ledger == LedgerAt(blocks, fork)
      modifies this, index, bestChain, bestChain.backing
      ensures Shape() && (bestChain.backing == old(bestChain.backing) || fresh(bestChain.backing))
      ensures core == old(core)
      ensures index.index == old(index.index) && index.status == old(index.status) && blocks == old(blocks)
      ensures ok && bestChain.tip == node && ledger == LedgerAt(blocks, node)
      ensures attach != [] ==> stateRow == RowOfTip(node, ledger)
    {
      for i := 0 to |attach|
        invariant Shape() && (bestChain.backing == old(bestChain.backing) || fresh(bestChain.backing))
        invariant core == old(core)
        invariant index.index == old(index.index) && index.status == old(index.status) && blocks == old(blocks)
        invariant bestChain.tip == EndAfter(fork, attach, i) && ledger == LedgerAt(blocks, bestChain.tip)
        invariant i > 0 ==> stateRow == RowOfTip(attach[i - 1], ledger)
      {
        var n := attach[i];
        AttachStep(params, core, fork, attach, node, i);
        var block := blocks[n.hash];
        CountsAgree(params, block);
        var stxos := Stxos(ledger.utxos, block.txs, Height(n));
        var view := ConnectTxs(ledger.utxos, block.txs, Height(n));
        ok := ConnectBlock(n, block, view, stxos);
        if !ok {
          return;
        }
      }
      ok := true;
    }

    /** Both loops of the second phase of reorganizeChain. */
    method MoveTip(detach: seq<BlockNode>, detachBlocks: seq<Block>, spent: seq<seq<Txo>>, attach: seq<BlockNode>,
                   ghost tip: BlockNode, ghost fork: BlockNode, ghost node: BlockNode) returns (ok: bool)
      requires Shape() && tip == bestChain.tip && ChainSettled(blocks, tip) && ledger == LedgerAt(blocks, tip)
      requires fork in Path(tip) && detach == Detached(tip, fork) && Loaded(blocks, ledger, detach, detachBlocks, spent)
      requires blocks == core.blocks && Attachable(params, core, fork, attach, node)
      modifies this, index, bestChain, bestChain.backing
      ensures Shape() && (bestChain.backing == old(bestChain.backing) || fresh(bestChain.backing))
      ensures core == old(core)
      ensures index.index == old(index.index) && index.status == old(index.status) && blocks == old(blocks)
      ensures ok && bestChain.tip == node && ledger == LedgerAt(blocks, node)
      ensures attach != [] ==> stateRow == RowOfTip(node, ledger)
    {
      ok := DetachAll(detach, detachBlocks, spent, tip, fork);
      if ok {
        ok := AttachAll(attach, fork, node);
      }
    }

    /** The first phase of reorganizeChain: only flags change, and what the second phase needs is loaded. */
    method CheckBranch(detach: seq<BlockNode>, attach: seq<BlockNode>, ghost tip: BlockNode, ghost fork: BlockNode,
                       ghost node: BlockNode)
      returns (loaded: bool, ok: bool, detachBlocks: seq<Block>, spent: seq<seq<Txo>>)
      requires index.Valid() && ChainSettled(blocks, tip) && ledger == LedgerAt(blocks, tip)
      requires fork in Path(tip) && detach == Detached(tip, fork)
      requires blocks == core.blocks && index.status == core.chain.status
      requires BranchReady(params, core, fork, attach, node)
      modifies index`status, index`dirty
      ensures loaded && index.Valid() && Loaded(blocks, ledger, detach, detachBlocks, spent)
      ensures (index.status, ok) == CheckedBranch(core.chain.status, Good(params, core), attach)
    {
      var view;
      loaded, view, detachBlocks, spent := CheckDetach(blocks, ledger, detach, tip, fork);
      ok := false;
      if !loaded {
        return;
      }
      CheckingStart(params, core, fork, attach, view);
      ok := CheckAttach(attach, view, core, fork, node);
    }

    /** Both phases of reorganizeChain. */
    method SwitchChain(detach: seq<BlockNode>, attach: seq<BlockNode>, ghost tip: BlockNode, ghost fork: BlockNode,
                       ghost node: BlockNode)
      returns (outcome: Outcome)
      requires Shape() && tip == bestChain.tip && ChainSettled(blocks, tip) && ledger == LedgerAt(blocks, tip)
      requires fork in Path(tip) && detach == Detached(tip, fork)
      requires blocks == core.blocks && index.status == core.chain.status
      requires BranchReady(params, core, fork, attach, node)
      modifies this, index, bestChain, bestChain.backing
      ensures Shape() && (bestChain.backing == old(bestChain.backing) || fresh(bestChain.backing))
      ensures core == old(core) && index.index == old(index.index) && blocks == old(blocks)
      ensures (index.status, bestChain.tip, outcome)
        == Switched(core.chain.status, Good(params, core), tip, node, attach)
      ensures ledger == LedgerAt(blocks, bestChain.tip)
      ensures attach != [] && outcome.Accepted? ==> stateRow == RowOfTip(node, ledger)
      ensures outcome.RuleFailed? ==> bestChain.Contents() == old(bestChain.Contents()) && stateRow == old(stateRow)
    {
      var loaded, ok, detachBlocks, spent := CheckBranch(detach, attach, tip, fork, node);
      if !loaded {
        return AssertFailed;
      }
      if !ok {
        return RuleFailed;
      }
      CheckedAttaches(params, core, fork, attach, node);
      ok := MoveTip(detach, detachBlocks, spent, attach, tip, fork, node);
      return if ok then Accepted(true) else AssertFailed;
    }

    /**
     * reorganizeChain.  Everything is checked before anything is changed, so a rule error leaves the
     * view, the ledger and the state row as they were.
     */
    method ReorganizeChain(detach: seq<BlockNode>, attach: seq<BlockNode>, ghost node: BlockNode)
      returns (outcome: Outcome)
      requires Shape() && blocks == core.blocks && core.chain.tip == bestChain.tip && Busy(params, core, node)
      requires WorkSum(node) > WorkSum(core.chain.tip)
      requires ReorganizeNodes(core.chain, node, detach, attach, index.status)
      requires ledger == LedgerAt(blocks, bestChain.tip) && stateRow == RowOfTip(bestChain.tip, ledger)
      modifies this, index, bestChain, bestChain.backing
      ensures Shape() && (bestChain.backing == old(bestChain.backing) || fresh(bestChain.backing))
      ensures core == old(core) && index.index == old(index.index) && blocks == old(blocks)
      ensures (Chain(index.status, bestChain.tip), outcome) == Reorganize(core.chain, Good(params, core), node)
      ensures ledger == LedgerAt(blocks, bestChain.tip) && stateRow == RowOfTip(bestChain.tip, ledger)
      ensures outcome.RuleFailed? ==>
        bestChain.Contents() == old(bestChain.Contents()) && ledger == old(ledger) && stateRow == old(stateRow)
    {
      if detach == [] && attach == [] {
        PlanEmpty(params, core, node, detach, attach, index.status);
        return Accepted(true);
      }
      ghost var fork := Fork(core.chain.tip, node);
      PlanReady(params, core, node, detach, attach, index.status);
      var ok := SameForkPoint(params, core, bestChain.Tip(), detach, attach, fork, node);
      if !ok {
        return AssertFailed;
      }
      outcome := SwitchChain(detach, attach, bestChain.tip, fork, node);
    }

    /** connectBestChain for a block on top of the best chain. */
    method ExtendChain(node: BlockNode, block: Block) returns (outcome: Outcome)
      requires Shape() && Tied() && CanExtend(params, core, node, block)
      requires ledger == LedgerAt(blocks, bestChain.tip) && stateRow == RowOfTip(bestChain.tip, ledger)
      modifies this, index, bestChain, bestChain.backing
      ensures Shape() && (bestChain.backing == old(bestChain.backing) || fresh(bestChain.backing))
      ensures core == old(core) && index.index == old(index.index) && blocks == old(blocks)
      ensures (Chain(index.status, bestChain.tip), outcome) == Extend(core.chain, Good(params, core), node)
      ensures ledger == LedgerAt(blocks, bestChain.tip) && stateRow == RowOfTip(bestChain.tip, ledger)
      ensures index.dirty == {}
    {
      var view := ledger.utxos;
      ExtendBy(params, core, node, block, view);
      var passes := CheckNode(node, block, view);
      if !passes {
        index.SetStatusFlags(node, ValidateFailed);
        index.FlushToDB();
        return RuleFailed;
      }
      index.FlushToDB();
      CountsAgree(params, block);
      var stxos := Stxos(view, block.txs, Height(node));
      view := ConnectTxs(view, block.txs, Height(node));
      var ok := ConnectBlock(node, block, view, stxos);
      return if ok then Accepted(true) else AssertFailed;
    }

    /** connectBestChain for a block that makes a side chain the heaviest. */
    method ReorganizeTo(node: BlockNode) returns (outcome: Outcome)
      requires Shape() && Tied() && Busy(params, core, node) && WorkSum(node) > WorkSum(core.chain.tip)
      requires ledger == LedgerAt(blocks, bestChain.tip) && stateRow == RowOfTip(bestChain.tip, ledger)
      modifies this, index, bestChain, bestChain.backing
      ensures Shape() && (bestChain.backing == old(bestChain.backing) || fresh(bestChain.backing))
      ensures core == old(core) && index.index == old(index.index) && blocks == old(blocks)
      ensures (Chain(index.status, bestChain.tip), outcome) == Reorganize(core.chain, Good(params, core), node)
      ensures ledger == LedgerAt(blocks, bestChain.tip) && stateRow == RowOfTip(bestChain.tip, ledger)
    {
      var detach, attach := GetReorganizeNodes(node);
      outcome := ReorganizeChain(detach, attach, node);
    }

    /** connectBestChain. */
    method ConnectBestChain(node: BlockNode, block: Block) returns (outcome: Outcome)
      requires Shape() && Tied() && index.dirty == {} && Busy(params, core, node)
      requires node.hash in blocks && block == blocks[node.hash]
      requires ledger == LedgerAt(blocks, bestChain.tip) && stateRow == RowOfTip(bestChain.tip, ledger)
      modifies this, index, bestChain, bestChain.backing
      ensures Shape() && (bestChain.backing == old(bestChain.backing) || fresh(bestChain.backing))
      ensures core == old(core) && index.index == old(index.index) && blocks == old(blocks)
      ensures (Chain(index.status, bestChain.tip), outcome) == ConnectBest(core.chain, Good(params, core), node)
      ensures ledger == LedgerAt(blocks, bestChain.tip) && stateRow == RowOfTip(bestChain.tip, ledger)
      ensures index.dirty == {}
    {
      ParentIsTip(params, core, node);
      if block.header.prevBlock == bestChain.Tip().hash {
        ExtendReady(params, core, node);
        outcome := ExtendChain(node, block);
      } else if WorkSum(node) <= WorkSum(bestChain.Tip()) {
        outcome := Accepted(false);
      } else {
        outcome := ReorganizeTo(node);
        index.FlushToDB();
      }
    }

    /** maybeAcceptBlock, for a block that passed checkBlockSanity and is not known yet. */
    method MaybeAcceptBlock(block: Block) returns (outcome: Outcome)
      requires Valid() && block.hash !in index.index && Sane(params, block)
      modifies this, index, bestChain, bestChain.backing
      ensures (core, outcome) == Accept(params, old(core), block)
      ensures Valid() && (bestChain.backing == old(bestChain.backing) || fresh(bestChain.backing))
    {
      if block.header.prevBlock !in index.index {
        return PreviousUnknown;
      }
      var prevNode := index.index[block.header.prevBlock];
      if prevNode in index.status && KnownInvalid(index.status[prevNode]) {
        return PreviousInvalid;
      }
      if !params.context(block, prevNode) {
        return ContextFailed;
      }
      AcceptDone(params, core, block);
      outcome := StoreAndConnect(block, prevNode);
    }

    /** The part of maybeAcceptBlock that stores and indexes the block. */
    method StoreBlock(block: Block, prevNode: BlockNode) returns (newNode: BlockNode)
      requires Shape() && Tied() && block.hash !in index.index
      modifies this, index
      ensures Shape() && Tied() && index.dirty == {} && bestChain.tip == old(bestChain.tip)
      ensures newNode == NewBlockNode(block.hash, block.header, prevNode) && core == AddBlock(old(core), newNode, block)
      ensures ledger == old(ledger) && stateRow == old(stateRow) && bestChain.backing == old(bestChain.backing)
    {
      blocks := blocks[block.hash := block];
      newNode := NewBlockNode(block.hash, block.header, prevNode);
      index.AddNode(newNode, {DataStored});
      index.FlushToDB();
      core := AddBlock(core, newNode, block);
    }

    /** The rest of maybeAcceptBlock: the block is stored, indexed and connected. */
    method StoreAndConnect(block: Block, prevNode: BlockNode) returns (outcome: Outcome)
      requires Valid() && block.hash !in index.index && Sane(params, block)
      requires block.header.prevBlock in index.index && prevNode == index.index[block.header.prevBlock]
      requires !(prevNode in index.status && KnownInvalid(index.status[prevNode])) && params.context(block, prevNode)
      modifies this, index, bestChain, bestChain.backing
      ensures Shape() && Tied() && index.dirty == {} && (core, outcome) == Accept(params, old(core), block)
      ensures LedgerOfTip(core, ledger) && stateRow == RowOfTip(core.chain.tip, ledger)
      ensures bestChain.backing == old(bestChain.backing) || fresh(bestChain.backing)
    {
      ghost var before := core;
      AcceptReady(params, before, NewBlockNode(block.hash, block.header, prevNode), block);
      var newNode := StoreBlock(block, prevNode);
      outcome := ConnectBestChain(newNode, block);
      AcceptIs(params, before, block, newNode, core, Chain(index.status, bestChain.tip), outcome);
      Settle();
    }

    /** The abstract state follows flags and tip. */
    ghost method Settle()
      requires Shape() && core.index == index.index && core.blocks == blocks
      modifies this`core
      ensures Shape() && Tied() && core == old(core).(chain := Chain(index.status, bestChain.tip))
    {
      core := core.(chain := Chain(index.status, bestChain.tip));
    }

    /** The last check of initChainState: whatever is below the tip counts as valid. */
    method MarkAncestors(tip: BlockNode)
      requires index.Valid() && forall m :: m in Path(tip) ==> m in index.status
      modifies index`status, index`dirty
      ensures index.Valid() && index.status == Mark(old(index.status), Path(tip), Flag.Valid)
    {
      ghost var before := index.status;
      var n := tip;
      while n.Node?
        invariant index.Valid() && MarkedAbove(before, index.status, tip, n) && (n.Node? ==> n in Path(tip))
        decreases n
      {
        ghost var status := index.status;
        if !KnownValid(index.status[n]) {
          index.SetStatusFlags(n, Flag.Valid);
        }
        MarkedStep(before, status, tip, n, index.status);
        StepOnPath(tip, n);
        n := n.parent;
      }
      MarkedAll(before, index.status, tip);
    }

    /** The part of initChainState that fills the index. */
    method LoadBlockIndex(keys: seq<seq<byte>>, ghost idx: map<Hash, BlockNode>, ghost c: Chain) returns (ok: bool)
      requires WellFormed(params, idx, c) && Mirrors(index.rows, idx, c.status)
      requires RowsHeld(index.bucket, index.rows) && CursorKeys(keys, index.bucket)
      modifies index`index, index`status, index`dirty
      ensures ok && index.Valid() && index.index == idx && index.status == c.status
    {
      BucketRebuilds(params, idx, c, keys, index.bucket, index.rows);
      var loaded := LoadIndex(params, keys, index.bucket);
      if loaded.None? {
        return false;
      }
      index.Reload(loaded.value.index, loaded.value.status);
      return true;
    }

    /**
     * initChainState on a database whose bytes mirror the index idx and the chain c, whatever is in memory.  The
     * keys of the block index bucket come in the order of its cursor.
     */
    method InitChainState(keys: seq<seq<byte>>, ghost idx: map<Hash, BlockNode>, ghost c: Chain) returns (ok: bool)
      requires bestChain.Valid() && WellFormed(params, idx, c) && Mirrors(index.rows, idx, c.status)
      requires RowsHeld(index.bucket, index.rows) && CursorKeys(keys, index.bucket)
      requires chainState == StateBytes(stateRow) && StateFits(stateRow)
      requires c.tip.Node? && stateRow.hash == c.tip.hash && c.tip.hash in blocks
      modifies this, index, bestChain, bestChain.backing
      ensures Shape() && (bestChain.backing == old(bestChain.backing) || fresh(bestChain.backing))
      ensures ok && core == old(core) && blocks == old(blocks) && stateRow == old(stateRow)
      ensures index.index == idx && index.status == Mark(c.status, Path(c.tip), Flag.Valid) && index.dirty == {}
      ensures bestChain.tip == c.tip
      ensures ledger == old(ledger).(best := BestState(c.tip.hash, Height(c.tip), c.tip.bits, |blocks[c.tip.hash].txs|,
        stateRow.totalTxns))
    {
      StateRoundTrip(stateRow);
      var state := DecodeState(chainState);
      if state.None? {
        return false;
      }
      ok := LoadBlockIndex(keys, idx, c);
      if !ok {
        return;
      }
      TipFound(params, idx, c);
      if state.value.hash !in index.index || state.value.hash !in blocks {
        return false;
      }
      AdoptTip(index.index[state.value.hash], state.value.totalTxns);
      return true;
    }

    /** The part of initChainState that sets the view, the flags and the snapshot. */
    method AdoptTip(tip: BlockNode, totalTxns: int)
      requires index.Valid() && bestChain.Valid() && tip.Node? && tip.hash in blocks
      requires chainState == StateBytes(stateRow)
      requires forall m :: m in Path(tip) ==> m in index.status
      modifies this, index, bestChain, bestChain.backing
      ensures Shape() && (bestChain.backing == old(bestChain.backing) || fresh(bestChain.backing))
      ensures core == old(core) && blocks == old(blocks) && stateRow == old(stateRow) && bestChain.tip == tip
      ensures index.index == old(index.index) && index.dirty == {}
      ensures index.status == Mark(old(index.status), Path(tip), Flag.Valid)
      ensures ledger == old(ledger).(best := BestState(tip.hash, Height(tip), tip.bits, |blocks[tip.hash].txs|,
        totalTxns))
    {
      bestChain.SetTip(tip);
      MarkAncestors(tip);
      ledger := ledger.(best := BestState(tip.hash, Height(tip), tip.bits, |blocks[tip.hash].txs|, totalTxns));
      index.FlushToDB();
    }

    /** Stopping the node between two blocks and starting it from the bytes of the database changes nothing. */
    method Restart(keys: seq<seq<byte>>) returns (ok: bool)
      requires Valid() && CursorKeys(keys, index.bucket) && ledger.best.totalTxns < TWO_64
      requires forall n :: n in index.status ==> Height(n) < 0x8000_0000
      modifies this, index, bestChain, bestChain.backing
      ensures Valid() && (bestChain.backing == old(bestChain.backing) || fresh(bestChain.backing))
      ensures ok && core == old(core) && ledger == old(ledger) && stateRow == old(stateRow)
    {
      RestartReady(params, core, ledger);
      RowsLow(params, core, index.rows);
      ok := InitChainState(keys, core.index, core.chain);
    }
  }

  /** The rows of low blocks have low keys. */
  lemma RowsLow(p: Params, c: Core, rows: map<RowKey, Row>)
    requires CoreInv(p, c) && RowsAgree(rows, c.index, c.chain.status, {})
    requires forall n :: n in c.chain.status ==> Height(n) < 0x8000_0000
    ensures LowRows(rows)
  {
    forall k | k in rows ensures LowKey(k) {
      assert Known(c.index, k);
      assert IndexedAt(c, k.hash);
    }
  }

  lemma MainChainMirrored(p: Params, c: Core, ledger: Ledger)
    requires CoreInv(p, c) && LedgerOfTip(c, ledger)
    ensures IndexesMirror(Path(c.chain.tip), ledger) && JournalMirrors(ledger)
    ensures SnapshotMirrors(c.blocks, c.chain.tip, ledger)
  {
    UniqueOnPath(p, c, c.chain.tip);
    LedgerMirrors(c.blocks, c.chain.tip);
  }

  lemma TipFound(p: Params, idx: map<Hash, BlockNode>, c: Chain)
    requires WellFormed(p, idx, c) && c.tip.Node?
    ensures c.tip.hash in idx && idx[c.tip.hash] == c.tip && forall m :: m in Path(c.tip) ==> m in c.status
  {
    assert Honest(p, idx, c.tip);
    PathInTree(p.genesis, c, c.tip);
  }

  lemma RestartReady(p: Params, c: Core, ledger: Ledger)
    requires CoreInv(p, c) && LedgerOfTip(c, ledger)
    requires forall n :: n in c.chain.status ==> Height(n) < 0x8000_0000
    ensures WellFormed(p, c.index, c.chain) && c.chain.tip.hash in c.blocks
    ensures ledger.best.totalTxns < TWO_64 ==> StateFits(RowOfTip(c.chain.tip, ledger))
    ensures Mark(c.chain.status, Path(c.chain.tip), Flag.Valid) == c.chain.status
    ensures var tip := c.chain.tip;
      ledger.best == BestState(tip.hash, Height(tip), tip.bits, |c.blocks[tip.hash].txs|, ledger.best.totalTxns)
  {
    ReachableWellFormed(p, c);
    AlreadyMarked(c.chain, Good(p, c));
    assert StoredNode(p, c, c.chain.tip);
    UniqueOnPath(p, c, c.chain.tip);
    LedgerMirrors(c.blocks, c.chain.tip);
    WorkShort(c.chain.tip);
  }

  lemma ExtendBy(p: Params, c: Core, n: BlockNode, b: Block, view: Utxos)
    requires CanExtend(p, c, n, b) && view == LedgerAt(c.blocks, c.chain.tip).utxos
    ensures n in Good(p, c) <==>
      KnownValid(c.chain.status[n]) || (CanConnectTxs(view, b.txs, Height(n)) && p.connect(n, b, view))
    ensures LedgerAt(c.blocks, n) == ConnectLedger(LedgerAt(c.blocks, n.parent), n, b)
  {
  }

  lemma AcceptReady(p: Params, c: Core, n: BlockNode, b: Block)
    requires CoreInv(p, c) && b.hash !in c.index && Sane(p, b) && b.header.prevBlock in c.index
    requires n == NewBlockNode(b.hash, b.header, c.index[b.header.prevBlock])
    ensures Busy(p, AddBlock(c, n, b), n) && c.chain.tip.Node?
    ensures LedgerAt(c.blocks, c.chain.tip) == LedgerAt(AddBlock(c, n, b).blocks, c.chain.tip)
  {
    assert IndexedAt(c, b.header.prevBlock);
    AddedIsNew(p, c, n, b);
    AddedPending(p, c, n, b);
    assert Lookup(c.index, c.chain.tip);
    LedgerStable(p, c, n, b, c.chain.tip);
  }

  /** maybeAcceptBlock put together from storing the block and connecting it. */
  lemma AcceptIs(p: Params, c: Core, b: Block, n: BlockNode, stored: Core, chain: Chain, outcome: Outcome)
    requires b.header.prevBlock in c.index && n == NewBlockNode(b.hash, b.header, c.index[b.header.prevBlock])
    requires var prev := c.index[b.header.prevBlock];
      !(prev in c.chain.status && KnownInvalid(c.chain.status[prev])) && p.context(b, prev)
    requires stored == AddBlock(c, n, b) && (chain, outcome) == ConnectBest(stored.chain, Good(p, stored), n)
    ensures Accept(p, c, b) == (stored.(chain := chain), outcome)
  {
  }

  lemma AcceptDone(p: Params, c: Core, b: Block)
    requires CoreInv(p, c) && b.hash !in c.index && Sane(p, b)
    ensures CoreInv(p, Accept(p, c, b).0)
  {
    OfferSafe(p, c, b);
  }

  /** The two assertions on the lists to reorganize; neither ever fails. */
  method SameForkPoint(ghost p: Params, ghost c: Core, tip: BlockNode, detach: seq<BlockNode>, attach: seq<BlockNode>,
                       ghost fork: BlockNode, ghost node: BlockNode)
    returns (ok: bool)
    requires BranchReady(p, c, fork, attach, node) && attach != [] && fork in Path(tip) && tip.Node?
    requires detach == Detached(tip, fork)
    ensures ok
  {
    SameFork(p, c, tip, fork, attach, node);
    if detach != [] && detach[0].hash != tip.hash {
      return false;
    }
    if attach != [] && detach != [] && attach[0].parent.hash != detach[|detach| - 1].parent.hash {
      return false;
    }
    return true;
  }

  lemma PlanEmpty(p: Params, c: Core, node: BlockNode, detach: seq<BlockNode>, attach: seq<BlockNode>, status: Statuses)
    requires Busy(p, c, node) && WorkSum(node) > WorkSum(c.chain.tip)
    requires ReorganizeNodes(c.chain, node, detach, attach, status) && attach == []
    ensures Reorganize(c.chain, Good(p, c), node) == (Chain(status, c.chain.tip), Accepted(true))
  {
    NotOnChain(c.chain.tip, node);
  }

  lemma PlanReady(p: Params, c: Core, node: BlockNode, detach: seq<BlockNode>, attach: seq<BlockNode>, status: Statuses)
    requires Busy(p, c, node) && WorkSum(node) > WorkSum(c.chain.tip)
    requires ReorganizeNodes(c.chain, node, detach, attach, status) && (attach != [] || detach != [])
    ensures var fork := Fork(c.chain.tip, node);
      && ChainSettled(c.blocks, c.chain.tip) && fork in Path(c.chain.tip) && detach == Detached(c.chain.tip, fork)
      && status == c.chain.status && BranchReady(p, c, fork, attach, node) && attach != []
    ensures Reorganize(c.chain, Good(p, c), node) == SwitchTo(c.chain, Good(p, c), node, attach)
  {
    ReorganizeReady(p, c, node);
  }

  /** SwitchTo, with the state taken apart. */
  function Switched(status: Statuses, good: set<BlockNode>, tip: BlockNode, n: BlockNode,
                    branch: seq<BlockNode>): (Statuses, BlockNode, Outcome) {
    var (c, outcome) := SwitchTo(Chain(status, tip), good, n, branch);
    (c.status, c.tip, outcome)
  }

  lemma LoadedReady(blocks: map<Hash, Block>, tip: BlockNode, nodes: seq<BlockNode>, loaded: seq<Block>,
                    spent: seq<seq<Txo>>, i: nat)
    requires ChainSettled(blocks, tip) && i < |nodes| && nodes[i] in Path(tip) && nodes[i].Node?
    requires nodes[i].parent.Node?
    requires Loaded(blocks, LedgerAt(blocks, tip), nodes, loaded, spent)
    ensures |loaded| == |spent| == |nodes| && |spent[i]| == CountSpent(loaded[i].txs) && nodes[i].parent.hash in blocks
    ensures RemoveBlock(LedgerAt(blocks, nodes[i]), nodes[i], loaded[i], blocks[nodes[i].parent.hash],
      DisconnectTxs(LedgerAt(blocks, nodes[i]).utxos, loaded[i].txs, spent[i])) == LedgerAt(blocks, nodes[i].parent)
  {
    assert LoadedAt(blocks, LedgerAt(blocks, tip), nodes[i], loaded[i], spent[i]);
    DetachStep(blocks, tip, nodes[i], spent[i]);
  }

  /** The answer and the marks of getReorganizeNodes. */
  ghost predicate ReorganizeNodes(c: Chain, node: BlockNode, detach: seq<BlockNode>, attach: seq<BlockNode>,
                                  status: Statuses)
    requires node.Node?
  {
    match Tainted(c, node)
    case Some(nodes) => detach == attach == [] && status == Mark(c.status, nodes, InvalidAncestor)
    case None =>
      && status == c.status && attach == Branch(c.tip, node) && detach == Detached(c.tip, Fork(c.tip, node))
  }

  lemma TaintedIs(c: Chain, node: BlockNode, attach: seq<BlockNode>, invalid: bool)
    requires node.Node? && node.parent in c.status && !KnownInvalid(c.status[node.parent])
    requires invalid <==> LastInvalid(c.status, Branch(c.tip, node)) >= 0
    requires attach == if invalid then Branch(c.tip, node)[LastInvalid(c.status, Branch(c.tip, node)) + 1..]
      else Branch(c.tip, node)
    ensures Tainted(c, node) == if invalid then Some(attach) else None
    ensures forall i :: 0 <= i < |attach| ==> attach[i] in Branch(c.tip, node)
  {
  }

  lemma ForkReady(genesis: BlockNode, c: Chain, n: BlockNode)
    requires Closed(genesis, c) && n in c.status
    ensures Fork(c.tip, n).Node? && Fork(c.tip, n) in Path(c.tip)
    ensures forall m :: m in Path(n) ==> m in c.status
    ensures forall m :: m in Branch(c.tip, n) ==> m in c.status
  {
    ForkExists(genesis, c, n);
    PathInTree(genesis, c, n);
    BranchLinked(genesis, c, n);
  }

  /**
   * The first phase of reorganizeChain for the blocks to detach: load them with their journal entries and
   * run the utxo set back to the fork, without touching the chain.
   */
  method CheckDetach(blocks: map<Hash, Block>, ledger: Ledger, detach: seq<BlockNode>, ghost tip: BlockNode,
                     ghost fork: BlockNode)
    returns (ok: bool, view: Utxos, detachBlocks: seq<Block>, spent: seq<seq<Txo>>)
    requires ChainSettled(blocks, tip) && ledger == LedgerAt(blocks, tip)
    requires fork in Path(tip) && detach == Detached(tip, fork)
    ensures ok && fork.Node? && view == LedgerAt(blocks, fork).utxos
    ensures Loaded(blocks, ledger, detach, detachBlocks, spent)
  {
    view, detachBlocks, spent := ledger.utxos, [], [];
    SliceAll(detach);
    ghost var cur := tip;
    for i := 0 to |detach|
      invariant OnTheWay(tip, fork, cur, detach[i..]) && view == LedgerAt(blocks, cur).utxos
      invariant Loaded(blocks, ledger, detach[..i], detachBlocks, spent)
    {
      var n := detach[i];
      SliceStep(detach, i);
      WayStep(tip, fork, cur, detach[i..]);
      JournalReady(blocks, tip, n, ledger.journal);
      if n.hash !in blocks || blocks[n.hash].hash != n.hash {
        return false, view, detachBlocks, spent;
      }
      var block := blocks[n.hash];
      if n.hash !in ledger.journal || |ledger.journal[n.hash]| != CountSpent(block.txs)
        || HasLegacy(ledger.journal[n.hash]) {
        return false, view, detachBlocks, spent;
      }
      var stxos := ledger.journal[n.hash];
      view := DisconnectTxs(view, block.txs, stxos);
      detachBlocks, spent := detachBlocks + [block], spent + [stxos];
      cur := cur.parent;
    }
    WayEnd(tip, fork, cur);
    ok := true;
  }

  /** The cached blocks and journal entries belong to the nodes. */
  predicate Loaded(blocks: map<Hash, Block>, ledger: Ledger, nodes: seq<BlockNode>, loaded: seq<Block>,
                   spent: seq<seq<Txo>>) {
    && |loaded| == |spent| == |nodes|
    && forall i :: 0 <= i < |nodes| ==> LoadedAt(blocks, ledger, nodes[i], loaded[i], spent[i])
  }

  predicate LoadedAt(blocks: map<Hash, Block>, ledger: Ledger, n: BlockNode, b: Block, stxos: seq<Txo>) {
    && n.Node? && n.hash in blocks && b == blocks[n.hash]
    && n.hash in ledger.journal && stxos == ledger.journal[n.hash] && |stxos| == CountSpent(b.txs)
  }

  method CollectDetach(tip: BlockNode, fork: BlockNode) returns (detach: seq<BlockNode>)
    ensures detach == Detached(tip, fork)
  {
    detach := [];
    var n := tip;
    while n.Node? && n != fork
      invariant detach + Detached(n, fork) == Detached(tip, fork)
      decreases n
    {
      MoveAcross(detach, n, Detached(n.parent, fork));
      detach := detach + [n];
      n := n.parent;
    }
  }

  /** Walk from the node down to the fork, or to the first node that is known to be invalid. */
  method CollectAttach(status: Statuses, ghost tip: BlockNode, node: BlockNode, fork: BlockNode)
    returns (attach: seq<BlockNode>, invalid: bool)
    requires fork == Fork(tip, node) && fork in Path(tip) && fork.Node? && forall m :: m in Path(node) ==> m in status
    ensures invalid <==> LastInvalid(status, Branch(tip, node)) >= 0
    ensures attach == if invalid then Branch(tip, node)[LastInvalid(status, Branch(tip, node)) + 1..]
      else Branch(tip, node)
  {
    attach, invalid := [], false;
    var n := node;
    while n.Node? && n != fork
      invariant (n.Node? ==> n in status && n in Path(node)) && Collected(status, tip, node, n, attach)
      decreases n
    {
      if KnownInvalid(status[n]) {
        CollectInvalid(status, tip, node, n, attach);
        return attach, true;
      }
      CollectStep(status, tip, node, n, attach);
      attach := [n] + attach;
      StepOnPath(node, n);
      n := n.parent;
    }
    CollectDone(status, tip, node, n, attach);
  }

  lemma StepOnPath(node: BlockNode, n: BlockNode)
    requires n in Path(node) && n.Node?
    ensures n.parent.Node? ==> n.parent in Path(node)
  {
    if n.parent.Node? {
      assert n.parent in Path(n.parent);
      OnPathTransitive(n.parent, n, node);
    }
  }
}
