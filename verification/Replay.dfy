/** Moving the ledger along a branch, down by disconnecting blocks and up by connecting them. */
module Replay {
  import opened Primitives
  import opened BlockTree
  import opened Utxo
  import opened Ledgers
  import opened Selection
  import opened ChainCore

  /** The state while a stored block n is being connected. */
  ghost predicate Busy(p: Params, c: Core, n: BlockNode) {
    Indexed(c) && Stored(p, c) && Pending(p.genesis, c.chain, Good(p, c), n)
  }

  lemma UniqueOnPath(p: Params, c: Core, n: BlockNode)
    requires Indexed(c) && Closed(p.genesis, c.chain) && n in c.chain.status
    ensures UniqueHashes(Path(n))
  {
    PathInTree(p.genesis, c.chain, n);
    forall i, j | 0 <= i < j < |Path(n)| ensures HashesDiffer(Path(n)[i], Path(n)[j]) {
      PathPrefix(n, i);
      PathPrefix(n, j);
      assert Lookup(c.index, Path(n)[i]) && Lookup(c.index, Path(n)[j]);
    }
  }

  /** Every block of the best chain above genesis connects to the state below it. */
  lemma OnChainConnects(p: Params, c: Core, m: BlockNode)
    requires Closed(p.genesis, c.chain) && Sound(c.chain, Good(p, c)) && m in Path(c.chain.tip)
    ensures m in c.chain.status && m.Node? && (m.parent.Node? ==> Connects(c.blocks, m))
  {
    ValidBelow(c.chain, Good(p, c), c.chain.tip, m);
    assert FlagsSound(c.chain.status, Good(p, c), m);
  }

  /** The utxo half of disconnecting a block of the best chain with its journal entry. */
  lemma UndoUtxos(blocks: map<Hash, Block>, tip: BlockNode, n: BlockNode, stxos: seq<Txo>)
    requires n in Path(tip) && tip.Node? && UniqueHashes(Path(tip)) && Connects(blocks, n)
    requires n.hash in LedgerAt(blocks, tip).journal && stxos == LedgerAt(blocks, tip).journal[n.hash]
    ensures |stxos| == CountSpent(blocks[n.hash].txs)
    ensures DisconnectTxs(LedgerAt(blocks, n).utxos, blocks[n.hash].txs, stxos) == LedgerAt(blocks, n.parent).utxos
  {
    JournalPersists(blocks, tip, n);
    DisconnectTxsUndoes(LedgerAt(blocks, n.parent).utxos, blocks[n.hash].txs, Height(n));
  }

  /** The node the chain ends in after i nodes of a branch have been attached. */
  function EndAfter(fork: BlockNode, branch: seq<BlockNode>, i: nat): BlockNode
    requires i <= |branch|
  {
    if i == 0 then fork else branch[i - 1]
  }

  lemma NextEnd(status: Statuses, fork: BlockNode, branch: seq<BlockNode>, n: BlockNode, i: nat)
    requires Linked(status, fork, branch, n) && i < |branch|
    ensures branch[i] in status && branch[i].Node? && branch[i].parent == EndAfter(fork, branch, i)
    ensures branch[i].parent.Node? && EndAfter(fork, branch, i + 1) == branch[i]
  {
    LinkedAt(status, fork, branch, n, i);
  }

  /** Marking a sequence of nodes one after the other marks them all. */
  lemma MarkMore(status: Statuses, nodes: seq<BlockNode>, flag: Flag, i: nat)
    requires i < |nodes|
    ensures Mark(Mark(status, nodes[..i], flag), [nodes[i]], flag) == Mark(status, nodes[..i + 1], flag)
  {
    assert nodes[..i + 1] == nodes[..i] + [nodes[i]];
  }

  lemma MarkNone(status: Statuses, flag: Flag)
    ensures Mark(status, [], flag) == status
  {
  }

  /** In the check phase a node passes exactly when it passes with the flags from before the phase. */
  lemma SamePasses(status: Statuses, good: set<BlockNode>, branch: seq<BlockNode>, i: nat)
    requires i < |branch| && i <= FirstFailing(status, good, branch) && branch[i] in status
    ensures Passes(Mark(status, branch[..i], Valid), good, branch[i]) <==> Passes(status, good, branch[i])
  {
    if branch[i] in branch[..i] {
      var j :| 0 <= j < i && branch[j] == branch[i];
      assert Passes(status, good, branch[j]);
    }
  }

  // --- The best chain as seen by a reorganize

  /** The block of m is stored and, above genesis, connects to the state below it. */
  predicate Settled(blocks: map<Hash, Block>, m: BlockNode) {
    m.Node? && m.hash in blocks && blocks[m.hash].hash == m.hash && (m.parent.Node? ==> Connects(blocks, m))
  }

  ghost predicate ChainSettled(blocks: map<Hash, Block>, tip: BlockNode) {
    tip.Node? && UniqueHashes(Path(tip)) && forall m :: m in Path(tip) ==> Settled(blocks, m)
  }

  lemma BestIsSettled(p: Params, c: Core)
    requires Indexed(c) && Stored(p, c) && Closed(p.genesis, c.chain) && Sound(c.chain, Good(p, c))
    ensures ChainSettled(c.blocks, c.chain.tip)
  {
    UniqueOnPath(p, c, c.chain.tip);
    assert Lookup(c.index, c.chain.tip);
    forall m | m in Path(c.chain.tip) ensures Settled(c.blocks, m) {
      OnChainConnects(p, c, m);
      assert StoredNode(p, c, m);
    }
  }

  lemma SettledBelow(blocks: map<Hash, Block>, tip: BlockNode, n: BlockNode)
    requires ChainSettled(blocks, tip) && n in Path(tip)
    ensures ChainSettled(blocks, n)
  {
    OnPath(n, tip);
    assert forall i :: 0 <= i < |Path(n)| ==> Path(n)[i] == Path(tip)[i];
    forall m | m in Path(n) ensures Settled(blocks, m) {
      OnPathTransitive(m, n, tip);
    }
  }

  lemma {:induction false} SettledReplays(blocks: map<Hash, Block>, n: BlockNode)
    requires ChainSettled(blocks, n)
    ensures Replayable(blocks, n)
  {
    assert n in Path(n);
    if n.parent.Node? {
      assert n.parent in Path(n) by { assert n.parent in Path(n.parent); }
      SettledBelow(blocks, n, n.parent);
      SettledReplays(blocks, n.parent);
    }
  }

  predicate HasLegacy(stxos: seq<Txo>) {
    exists s :: s in stxos && s.height == 0
  }

  /** What disconnecting reads from the journal for a block of the best chain, and what it yields. */
  lemma JournalReady(blocks: map<Hash, Block>, tip: BlockNode, n: BlockNode, journal: map<Hash, seq<Txo>>)
    requires ChainSettled(blocks, tip) && n in Path(tip) && n.Node? && n.parent.Node?
    requires journal == LedgerAt(blocks, tip).journal
    ensures Settled(blocks, n) && n.hash in journal && |journal[n.hash]| == CountSpent(blocks[n.hash].txs)
    ensures !HasLegacy(journal[n.hash])
    ensures DisconnectTxs(LedgerAt(blocks, n).utxos, blocks[n.hash].txs, journal[n.hash])
      == LedgerAt(blocks, n.parent).utxos
  {
    JournalPersists(blocks, tip, n);
    UndoUtxos(blocks, tip, n, journal[n.hash]);
    assert n.parent in Path(tip) by {
      assert n.parent in Path(n) by { assert n.parent in Path(n.parent); }
      OnPathTransitive(n.parent, n, tip);
    }
    SettledBelow(blocks, tip, n.parent);
    SettledReplays(blocks, n.parent);
    LedgerAboveGenesis(blocks, n.parent);
    ConnectTxsAboveGenesis(LedgerAt(blocks, n.parent).utxos, blocks[n.hash].txs, Height(n));
  }

  /** The node reached after some blocks of tip's branch have been detached, on the way to the fork. */
  ghost predicate OnTheWay(tip: BlockNode, fork: BlockNode, cur: BlockNode, rest: seq<BlockNode>) {
    cur.Node? && cur in Path(tip) && fork in Path(cur) && rest == Detached(cur, fork)
  }

  lemma WayStep(tip: BlockNode, fork: BlockNode, cur: BlockNode, rest: seq<BlockNode>)
    requires OnTheWay(tip, fork, cur, rest) && rest != []
    ensures rest[0] == cur && cur.parent.Node? && OnTheWay(tip, fork, cur.parent, rest[1..])
  {
    assert cur != fork;
    assert fork in Path(cur.parent);
    assert cur.parent in Path(cur) by { assert cur.parent in Path(cur.parent); }
    OnPathTransitive(cur.parent, cur, tip);
  }

  lemma WayEnd(tip: BlockNode, fork: BlockNode, cur: BlockNode)
    requires OnTheWay(tip, fork, cur, [])
    ensures cur == fork
  {
  }

  // --- The branch to attach as seen by a reorganize

  /** A stored branch above the fork, none of whose flags are wrong. */
  ghost predicate BranchReady(p: Params, c: Core, fork: BlockNode, branch: seq<BlockNode>, n: BlockNode) {
    && Stored(p, c) && Sound(c.chain, Good(p, c)) && Linked(c.chain.status, fork, branch, n)
    && fork in c.chain.status && Valid in c.chain.status[fork]
  }

  /** Whether a node passes is what checking it on top of the state below it says. */
  lemma PassesIsCheck(p: Params, c: Core, fork: BlockNode, branch: seq<BlockNode>, n: BlockNode, i: nat)
    requires BranchReady(p, c, fork, branch, n) && i < |branch|
    ensures branch[i].Node? && branch[i].parent == EndAfter(fork, branch, i) && branch[i].parent.Node?
    ensures branch[i] in c.chain.status && branch[i].hash in c.blocks && c.blocks[branch[i].hash].hash == branch[i].hash
    ensures Passes(c.chain.status, Good(p, c), branch[i]) <==> Check(p, c.blocks, branch[i])
  {
    NextEnd(c.chain.status, fork, branch, n, i);
    assert FlagsSound(c.chain.status, Good(p, c), branch[i]) && StoredNode(p, c, branch[i]);
  }

  /** The check phase has accepted the first i nodes of the branch. */
  ghost predicate CheckedTo(p: Params, c: Core, fork: BlockNode, branch: seq<BlockNode>, i: nat, status: Statuses) {
    && i <= FirstFailing(c.chain.status, Good(p, c), branch)
    && status == Mark(c.chain.status, branch[..i], Valid)
  }

  /** The check phase has accepted the first i nodes and its view stands behind them. */
  ghost predicate Checking(p: Params, c: Core, fork: BlockNode, branch: seq<BlockNode>, i: nat, status: Statuses,
                           view: Utxos) {
    && i <= |branch| && CheckedTo(p, c, fork, branch, i, status)
    && EndAfter(fork, branch, i).Node? && view == LedgerAt(c.blocks, EndAfter(fork, branch, i)).utxos
  }

  lemma CheckingStart(p: Params, c: Core, fork: BlockNode, branch: seq<BlockNode>, view: Utxos)
    requires fork.Node? && view == LedgerAt(c.blocks, fork).utxos
    ensures Checking(p, c, fork, branch, 0, c.chain.status, view)
  {
    MarkNone(c.chain.status, Valid);
  }

  lemma CheckingEnd(p: Params, c: Core, fork: BlockNode, branch: seq<BlockNode>, status: Statuses, view: Utxos)
    requires Checking(p, c, fork, branch, |branch|, status, view)
    ensures (status, true) == CheckedBranch(c.chain.status, Good(p, c), branch)
  {
    SliceAll(branch);
  }

  lemma MarkKnown(status: Statuses, n: BlockNode)
    requires n in status && Valid in status[n]
    ensures Mark(status, [n], Valid) == status
  {
    assert status[n] + {Valid} == status[n];
  }

  /** The utxo set moves from one node of the branch to the next by connecting its block. */
  lemma ViewStep(blocks: map<Hash, Block>, fork: BlockNode, branch: seq<BlockNode>, i: nat, view: Utxos)
    requires i < |branch| && branch[i].Node? && branch[i].parent.Node? && branch[i].parent == EndAfter(fork, branch, i)
    requires view == LedgerAt(blocks, EndAfter(fork, branch, i)).utxos
    ensures EndAfter(fork, branch, i + 1) == branch[i]
    ensures ConnectTxs(view, BlockOf(blocks, branch[i]).txs, Height(branch[i])) == LedgerAt(blocks, branch[i]).utxos
    ensures Stxos(view, BlockOf(blocks, branch[i]).txs, Height(branch[i]))
      == LedgerAt(blocks, branch[i]).journal[branch[i].hash]
  {
  }

  /** Checking the next node of the branch decides whether the check phase goes on or ends here. */
  lemma CheckStep(p: Params, c: Core, fork: BlockNode, branch: seq<BlockNode>, n: BlockNode, i: nat, status: Statuses,
                  view: Utxos)
    requires BranchReady(p, c, fork, branch, n) && i < |branch| && Checking(p, c, fork, branch, i, status, view)
    ensures branch[i].Node? && branch[i] in status && branch[i].hash in c.blocks
    ensures var m := branch[i]; var b := c.blocks[m.hash];
      if KnownValid(status[m]) || (CanConnectTxs(view, b.txs, Height(m)) && p.connect(m, b, view))
      then Checking(p, c, fork, branch, i + 1, Mark(status, [m], Valid), ConnectTxs(view, b.txs, Height(m)))
      else FirstFailing(c.chain.status, Good(p, c), branch) == i && status == Mark(c.chain.status, branch[..i], Valid)
  {
    PassesIsCheck(p, c, fork, branch, n, i);
    SamePasses(c.chain.status, Good(p, c), branch, i);
    MarkMore(c.chain.status, branch, Valid, i);
    ViewStep(c.blocks, fork, branch, i, view);
  }

  /** The ledger of the best chain without its last block, by disconnecting that block. */
  lemma DetachStep(blocks: map<Hash, Block>, tip: BlockNode, n: BlockNode, stxos: seq<Txo>)
    requires ChainSettled(blocks, tip) && n in Path(tip) && n.Node? && n.parent.Node?
    requires n.hash in LedgerAt(blocks, tip).journal && stxos == LedgerAt(blocks, tip).journal[n.hash]
    ensures Settled(blocks, n) && n.parent.hash in blocks && |stxos| == CountSpent(blocks[n.hash].txs)
    ensures RemoveBlock(LedgerAt(blocks, n), n, blocks[n.hash], blocks[n.parent.hash],
      DisconnectTxs(LedgerAt(blocks, n).utxos, blocks[n.hash].txs, stxos)) == LedgerAt(blocks, n.parent)
  {
    assert Settled(blocks, n);
    UndoUtxos(blocks, tip, n, stxos);
    SettledBelow(blocks, tip, n);
    assert Settled(blocks, n.parent) by {
      assert n.parent in Path(n) by { assert n.parent in Path(n.parent); }
    }
    UndoTip(blocks, n, LedgerAt(blocks, n.parent).utxos);
  }

  /** The branch is stored and each of its blocks connects to the state below it. */
  ghost predicate Attachable(p: Params, c: Core, fork: BlockNode, branch: seq<BlockNode>, n: BlockNode) {
    && Stored(p, c) && Linked(c.chain.status, fork, branch, n)
    && forall i :: 0 <= i < |branch| ==> Connects(c.blocks, branch[i])
  }

  lemma CheckedAttaches(p: Params, c: Core, fork: BlockNode, branch: seq<BlockNode>, n: BlockNode)
    requires BranchReady(p, c, fork, branch, n) && FirstFailing(c.chain.status, Good(p, c), branch) == |branch|
    ensures Attachable(p, c, fork, branch, n)
  {
    forall i | 0 <= i < |branch| ensures Connects(c.blocks, branch[i]) {
      PassesIsCheck(p, c, fork, branch, n, i);
    }
  }

  /** The ledger of a branch with one block more, by connecting that block. */
  lemma AttachStep(p: Params, c: Core, fork: BlockNode, branch: seq<BlockNode>, n: BlockNode, i: nat)
    requires Attachable(p, c, fork, branch, n) && i < |branch|
    ensures branch[i].Node? && branch[i].parent.Node? && branch[i].parent == EndAfter(fork, branch, i)
    ensures EndAfter(fork, branch, i + 1) == branch[i]
    ensures branch[i].hash in c.blocks && Sane(p, c.blocks[branch[i].hash])
    ensures c.blocks[branch[i].hash].header.prevBlock == branch[i].parent.hash
    ensures LedgerAt(c.blocks, branch[i])
      == ConnectLedger(LedgerAt(c.blocks, branch[i].parent), branch[i], c.blocks[branch[i].hash])
  {
    NextEnd(c.chain.status, fork, branch, n, i);
    assert StoredNode(p, c, branch[i]);
  }

  /** What a reorganize to a pending node starts from, when no block of its branch is known to be invalid. */
  lemma ReorganizeReady(p: Params, c: Core, n: BlockNode)
    requires Busy(p, c, n) && WorkSum(n) > WorkSum(c.chain.tip)
    ensures var fork, branch := Fork(c.chain.tip, n), Branch(c.chain.tip, n);
      && ChainSettled(c.blocks, c.chain.tip) && fork in Path(c.chain.tip)
      && BranchReady(p, c, fork, branch, n) && branch != []
  {
    BestIsSettled(p, c);
    BranchLinked(p.genesis, c.chain, n);
    ValidBelow(c.chain, Good(p, c), c.chain.tip, Fork(c.chain.tip, n));
    NotOnChain(c.chain.tip, n);
  }

  /** The two lists of a reorganize meet at the fork, and the detached one starts at the tip. */
  lemma SameFork(p: Params, c: Core, tip: BlockNode, fork: BlockNode, branch: seq<BlockNode>, n: BlockNode)
    requires BranchReady(p, c, fork, branch, n) && branch != [] && fork in Path(tip)
    ensures branch[0].Node? && branch[0].parent == fork && fork.Node?
    ensures var detach := Detached(tip, fork);
      detach != [] ==> detach[0] == tip && detach[|detach| - 1].Node? && detach[|detach| - 1].parent == fork
  {
    NextEnd(c.chain.status, fork, branch, n, 0);
    LastDetached(tip, fork);
  }

  lemma {:induction false} LastDetached(tip: BlockNode, fork: BlockNode)
    requires fork in Path(tip)
    ensures tip != fork ==> Detached(tip, fork) != [] && Detached(tip, fork)[0] == tip
    ensures tip != fork ==>
      var last := Detached(tip, fork)[|Detached(tip, fork)| - 1]; last.Node? && last.parent == fork
  {
    if tip != fork && tip.parent != fork {
      LastDetached(tip.parent, fork);
      assert Detached(tip, fork) == [tip] + Detached(tip.parent, fork);
    }
  }

  /** The node and its block come right after the best chain. */
  ghost predicate CanExtend(p: Params, c: Core, n: BlockNode, b: Block) {
    && n.Node? && n.parent.Node? && n.parent == c.chain.tip && n in c.chain.status
    && (Valid in c.chain.status[n] ==> n in Good(p, c))
    && n.hash in c.blocks && b == c.blocks[n.hash] && Sane(p, b) && b.header.prevBlock == n.parent.hash
  }

  lemma ExtendReady(p: Params, c: Core, n: BlockNode)
    requires Busy(p, c, n) && n.parent == c.chain.tip
    ensures n.hash in c.blocks && CanExtend(p, c, n, c.blocks[n.hash])
  {
    assert StoredNode(p, c, n) && FlagsSound(c.chain.status, Good(p, c), n);
  }

  /** A pending node extends the best chain exactly when its block names the tip. */
  lemma ParentIsTip(p: Params, c: Core, n: BlockNode)
    requires Busy(p, c, n)
    ensures n.hash in c.blocks && c.chain.tip.Node?
    ensures c.blocks[n.hash].header.prevBlock == c.chain.tip.hash <==> n.parent == c.chain.tip
  {
    assert StoredNode(p, c, n) && Lookup(c.index, c.chain.tip) && Lookup(c.index, n.parent);
  }
}
