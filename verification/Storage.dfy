/**
 * The chain as the database sees it (blockchain/chain.go, blockchain/chainio.go): the utxo bucket and the spend
 * journal hold bytes, and the bucket is read and written through cached views.  The chain the blocks belong to
 * is given by its step functions; what is stored always stands for the ledger of the tip.
 */
module Storage {
  import opened Primitives
  import opened BlockTree
  import opened Utxo
  import opened Ledgers
  import opened Selection
  import opened ChainCore
  import opened Replay
  import opened TxOutCodec
  import opened UtxoCache
  import opened UtxoViews
  import opened UtxoBucket
  import opened Duplicates
  import opened Lawful
  import SpendJournal
  import BlockChains

  /** The bytes under every hash are those of the entry. */
  ghost predicate Encodes(c: Curve, bytes: map<Hash, seq<byte>>, journal: map<Hash, seq<Txo>>) {
    && bytes.Keys == journal.Keys
    && forall h {:trigger EncodesAt(c, bytes, journal, h)} :: h in journal ==> EncodesAt(c, bytes, journal, h)
  }

  predicate EncodesAt(c: Curve, bytes: map<Hash, seq<byte>>, journal: map<Hash, seq<Txo>>, h: Hash) {
    && h in journal && h in bytes && SpendJournal.AllStorable(journal[h]) && SpendJournal.AllTyped(journal[h])
    && bytes[h] == SpendJournal.JournalBytes(c, journal[h])
  }

  lemma EncodesPut(c: Curve, bytes: map<Hash, seq<byte>>, journal: map<Hash, seq<Txo>>, h: Hash, stxos: seq<Txo>)
    requires Encodes(c, bytes, journal) && SpendJournal.AllStorable(stxos) && SpendJournal.AllTyped(stxos)
    ensures Encodes(c, bytes[h := SpendJournal.JournalBytes(c, stxos)], journal[h := stxos])
  {
    var b, j := bytes[h := SpendJournal.JournalBytes(c, stxos)], journal[h := stxos];
    forall k | k in j ensures EncodesAt(c, b, j, k) {
      if k != h { assert EncodesAt(c, bytes, journal, k); }
    }
  }

  lemma EncodesRemove(c: Curve, bytes: map<Hash, seq<byte>>, journal: map<Hash, seq<Txo>>, h: Hash)
    requires Encodes(c, bytes, journal)
    ensures Encodes(c, bytes - {h}, journal - {h})
  {
    forall k | k in journal - {h} ensures EncodesAt(c, bytes - {h}, journal - {h}, k) {
      assert EncodesAt(c, bytes, journal, k);
    }
  }

  /** The view stands for the utxo set after the block of n. */
  ghost predicate Viewing(e: Entries, db: Utxos, blocks: map<Hash, Block>, n: BlockNode) {
    Faithful(e, db) && n.Node? && Abs(e, db) == LedgerAt(blocks, n).utxos
  }

  /** The block of n is stored and sane. */
  predicate SaneAt(p: Params, blocks: map<Hash, Block>, n: BlockNode) {
    n.Node? && n.hash in blocks && blocks[n.hash].hash == n.hash && Sane(p, blocks[n.hash])
  }

  class Store {
    const curve: Curve
    /** The rows of the utxo set and of the spend journal. */
    var bucket: Bucket
    var journal: map<Hash, seq<byte>>
    /** The utxo set the bucket stands for. */
    ghost var utxos: Utxos

    ghost predicate Valid()
      reads this
    {
      PointsDetermined(curve) && BucketHolds(curve, bucket, utxos)
    }

    /** What is stored is the utxo set and the journal of the ledger. */
    ghost predicate Holds(l: Ledger)
      reads this
    {
      Valid() && utxos == l.utxos && Encodes(curve, journal, l.journal)
    }

    /** createChainState leaves both buckets empty, because the outputs of genesis are not spendable. */
    constructor (curve: Curve, ghost p: Params, ghost genesis: Block)
      requires PointsDetermined(curve) && p.genesis.Node? && p.genesis.parent.Nil?
      ensures Holds(LedgerAt(Initial(p, genesis).blocks, p.genesis)) && this.curve == curve
    {
      this.curve := curve;
      bucket, journal, utxos := map[], map[], map[];
    }

    /** What dbFetchUtxoEntry reads. */
    method Fetch() returns (db: Utxos)
      requires Valid()
      ensures db == utxos
    {
      ContentsIs(curve, bucket, utxos);
      db := Contents(curve, bucket);
    }

    /** dbFetchSpendJournalEntry. */
    method FetchSpendJournalEntry(block: Block) returns (entry: SpendJournal.Entry)
      requires |block.txs| > 0
      ensures entry == SpendJournal.DecodeEntry(curve, if block.hash in journal then journal[block.hash] else [],
        SumIns(block.txs[1..]))
    {
      var serialized := if block.hash in journal then journal[block.hash] else [];
      entry := SpendJournal.DeserializeSpendJournalEntry(curve, serialized, block.txs[1..]);
    }

    /** One block to detach in the check phase: its journal entry is read and the view moves below it. */
    method UndoInView(ghost p: Params, blocks: map<Hash, Block>, n: BlockNode, view: UtxoViewpoint,
                      ghost tip: BlockNode, ghost l: Ledger)
      returns (ok: bool, block: Block, stxos: seq<Txo>)
      requires ChainSettled(blocks, tip) && l == LedgerAt(blocks, tip) && Holds(l)
      requires n in Path(tip) && SaneAt(p, blocks, n) && n.parent.Node? && Viewing(view.entries, utxos, blocks, n)
      modifies view
      ensures ok && BlockChains.LoadedAt(blocks, l, n, block, stxos)
      ensures Viewing(view.entries, utxos, blocks, n.parent)
    {
      block := blocks[n.hash];
      JournalReady(blocks, tip, n, l.journal);
      EntryBack(p, curve, journal, l.journal, block);
      var entry := FetchSpendJournalEntry(block);
      if !entry.Entry? {
        return false, block, [];
      }
      stxos := entry.stxos;
      var db := Fetch();
      view.DisconnectInView(db, block.txs, Height(n), stxos);
      ok := true;
    }

    /** The check phase for the blocks to detach: the view ends at the fork, and nothing is written. */
    method CheckDetach(ghost p: Params, blocks: map<Hash, Block>, detach: seq<BlockNode>, ghost tip: BlockNode,
                       ghost fork: BlockNode, ghost l: Ledger)
      returns (ok: bool, view: UtxoViewpoint, detachBlocks: seq<Block>, spent: seq<seq<Txo>>)
      requires ChainSettled(blocks, tip) && l == LedgerAt(blocks, tip) && Holds(l)
      requires SaneChain(p, blocks, tip) && fork in Path(tip) && detach == Detached(tip, fork)
      ensures ok && fresh(view) && Viewing(view.entries, utxos, blocks, fork)
      ensures BlockChains.Loaded(blocks, l, detach, detachBlocks, spent)
    {
      view := new UtxoViewpoint();
      detachBlocks, spent := [], [];
      ViewStart(utxos, blocks, tip);
      SliceAll(detach);
      ghost var cur := tip;
      for i := 0 to |detach|
        invariant fresh(view) && OnTheWay(tip, fork, cur, detach[i..]) && Viewing(view.entries, utxos, blocks, cur)
        invariant BlockChains.Loaded(blocks, l, detach[..i], detachBlocks, spent)
      {
        SliceStep(detach, i);
        WayStep(tip, fork, cur, detach[i..]);
        assert SaneAt(p, blocks, cur);
        var block, stxos;
        ok, block, stxos := UndoInView(p, blocks, detach[i], view, tip, l);
        if !ok {
          return;
        }
        LoadedMore(blocks, l, detach[..i], detachBlocks, spent, detach[i], block, stxos);
        detachBlocks, spent := detachBlocks + [block], spent + [stxos];
        cur := cur.parent;
      }
      WayEnd(tip, fork, cur);
      ok := true;
    }

    /** One block to attach in the check phase: judged by the view, which then moves past it. */
    method CheckNext(p: Params, n: BlockNode, block: Block, view: UtxoViewpoint, known: bool, ghost u: Utxos)
      returns (ok: bool)
      requires Valid() && Faithful(view.entries, utxos) && u == Abs(view.entries, utxos) && Sane(p, block) && n.Node?
      requires known || (CanConnectTxs(u, block.txs, Height(n)) && p.connect(n, block, u)) ==>
        CanConnectTxs(u, block.txs, Height(n)) && ClearInputs(u, block.txs)
      modifies view
      ensures ok == (known || (CanConnectTxs(u, block.txs, Height(n)) && p.connect(n, block, u)))
      ensures ok ==> Faithful(view.entries, utxos)
      ensures ok ==> Abs(view.entries, utxos) == ConnectTxs(u, block.txs, Height(n))
    {
      var db := Fetch();
      var now := Abs(view.entries, db);
      if !known && !(CanConnectTxs(now, block.txs, Height(n)) && p.connect(n, block, now)) {
        return false;
      }
      var stxos;
      ok, stxos := view.ConnectInView(db, block.txs, Height(n));
    }

    /** One round of the check phase, with the flags it leaves behind. */
    method CheckRound(p: Params, c: Core, attach: seq<BlockNode>, i: nat, view: UtxoViewpoint, status: Statuses,
                      ghost ids: Ids, ghost fork: BlockNode, ghost node: BlockNode)
      returns (ok: bool, next: Statuses)
      requires Valid() && BranchReady(p, c, fork, attach, node) && AllLawful(p, ids, c) && i < |attach|
      requires Faithful(view.entries, utxos) && Checking(p, c, fork, attach, i, status, Abs(view.entries, utxos))
      modifies view
      ensures ok ==>
        Faithful(view.entries, utxos) && Checking(p, c, fork, attach, i + 1, next, Abs(view.entries, utxos))
      ensures !ok ==> (next, false) == CheckedBranch(c.chain.status, Good(p, c), attach)
    {
      var n := attach[i];
      ghost var u := Abs(view.entries, utxos);
      CheckStep(p, c, fork, attach, node, i, status, u);
      ClearHere(p, ids, c, fork, attach, node, i, status, u);
      ok := CheckNext(p, n, c.blocks[n.hash], view, KnownValid(status[n]), u);
      next := if ok then Mark(status, [n], Flag.Valid) else MarkFailure(c.chain.status, attach, i);
    }

    /** The check phase for the blocks to attach. */
    method CheckAttach(p: Params, c: Core, attach: seq<BlockNode>, view: UtxoViewpoint, ghost ids: Ids,
                       ghost fork: BlockNode, ghost node: BlockNode)
      returns (ok: bool, status: Statuses)
      requires Valid() && BranchReady(p, c, fork, attach, node) && AllLawful(p, ids, c)
      requires Viewing(view.entries, utxos, c.blocks, fork)
      modifies view
      ensures (status, ok) == CheckedBranch(c.chain.status, Good(p, c), attach)
    {
      status := c.chain.status;
      CheckingStart(p, c, fork, attach, Abs(view.entries, utxos));
      for i := 0 to |attach|
        invariant Faithful(view.entries, utxos) && Checking(p, c, fork, attach, i, status, Abs(view.entries, utxos))
      {
        ok, status := CheckRound(p, c, attach, i, view, status, ids, fork, node);
        if !ok {
          return;
        }
      }
      CheckingEnd(p, c, fork, attach, status, Abs(view.entries, utxos));
      ok := true;
    }

    /** disconnectBlock as far as it concerns the two buckets. */
    method DisconnectBlock(block: Block, view: UtxoViewpoint)
      requires Valid() && Faithful(view.entries, utxos) && AllUtxosStorable(Abs(view.entries, utxos))
      modifies this, view
      ensures Valid() && InStep(view.entries, utxos)
      ensures utxos == Abs(old(view.entries), old(utxos)) && journal == old(journal) - {block.hash}
    {
      CommitSafe(view.entries, utxos);
      bucket := PutUtxoView(curve, bucket, view.entries, utxos);
      utxos := Abs(view.entries, utxos);
      journal := journal - {block.hash};
      view.Commit();
    }

    /** connectBlock as far as it concerns the two buckets. */
    method ConnectBlock(block: Block, view: UtxoViewpoint, stxos: seq<Txo>)
      requires Valid() && Faithful(view.entries, utxos) && AllUtxosStorable(Abs(view.entries, utxos))
      requires SpendJournal.AllTyped(stxos)
      modifies this, view
      ensures Valid() && InStep(view.entries, utxos) && utxos == Abs(old(view.entries), old(utxos))
      ensures journal == old(journal)[block.hash := SpendJournal.JournalBytes(curve, stxos)]
    {
      CommitSafe(view.entries, utxos);
      bucket := PutUtxoView(curve, bucket, view.entries, utxos);
      utxos := Abs(view.entries, utxos);
      var serialized := SpendJournal.SerializeSpendJournalEntry(curve, stxos);
      journal := journal[block.hash := serialized];
      view.Commit();
    }

    /** Take the last block off. */
    method DetachOne(blocks: map<Hash, Block>, n: BlockNode, block: Block, stxos: seq<Txo>, view: UtxoViewpoint,
                     ghost prev: Block)
      requires n.Node? && n.parent.Node? && block.hash == n.hash && |block.txs| > 0 && |stxos| == CountSpent(block.txs)
      requires Holds(LedgerAt(blocks, n)) && InStep(view.entries, utxos)
      requires AllUtxosStorable(LedgerAt(blocks, n.parent).utxos)
      requires RemoveBlock(LedgerAt(blocks, n), n, block, prev,
        DisconnectTxs(LedgerAt(blocks, n).utxos, block.txs, stxos))
        == LedgerAt(blocks, n.parent)
      modifies this, view
      ensures Holds(LedgerAt(blocks, n.parent)) && InStep(view.entries, utxos)
    {
      EncodesRemove(curve, journal, LedgerAt(blocks, n).journal, n.hash);
      var db := Fetch();
      view.DisconnectInView(db, block.txs, Height(n), stxos);
      DisconnectBlock(block, view);
    }

    /** Put the next block on top. */
    method AttachOne(ghost p: Params, c: Core, n: BlockNode, block: Block, view: UtxoViewpoint, ghost ids: Ids)
      returns (ok: bool)
      requires Settling(p, ids, c, n) && Check(p, c.blocks, n) && block == c.blocks[n.hash]
      requires Holds(LedgerAt(c.blocks, n.parent)) && InStep(view.entries, utxos)
      modifies this, view
      ensures ok && Holds(LedgerAt(c.blocks, n)) && InStep(view.entries, utxos)
    {
      SettlingReady(p, ids, c, n);
      var db := Fetch();
      var stxos;
      ok, stxos := view.ConnectInView(db, block.txs, Height(n));
      if !ok {
        return;
      }
      EncodesPut(curve, journal, LedgerAt(c.blocks, n.parent).journal, n.hash, stxos);
      ConnectBlock(block, view, stxos);
    }

    /** The blocks to detach, with what the check phase has loaded. */
    method DetachAll(ghost p: Params, c: Core, detach: seq<BlockNode>, detachBlocks: seq<Block>,
                     spent: seq<seq<Txo>>, view: UtxoViewpoint, ghost fork: BlockNode)
      requires ChainSettled(c.blocks, c.chain.tip) && SurvivingChain(p, c.blocks, c.chain.tip)
      requires fork in Path(c.chain.tip) && detach == Detached(c.chain.tip, fork)
      requires BlockChains.Loaded(c.blocks, LedgerAt(c.blocks, c.chain.tip), detach, detachBlocks, spent)
      requires Holds(LedgerAt(c.blocks, c.chain.tip)) && InStep(view.entries, utxos)
      modifies this, view
      ensures fork.Node? && Holds(LedgerAt(c.blocks, fork)) && InStep(view.entries, utxos)
    {
      ghost var tip := c.chain.tip;
      SliceAll(detach);
      ghost var cur := tip;
      for i := 0 to |detach|
        invariant OnTheWay(tip, fork, cur, detach[i..]) && Holds(LedgerAt(c.blocks, cur))
        invariant InStep(view.entries, utxos)
      {
        SliceStep(detach, i);
        WayStep(tip, fork, cur, detach[i..]);
        assert SurvivingAt(p, c.blocks, cur) && SurvivingAt(p, c.blocks, cur.parent);
        BlockChains.LoadedReady(c.blocks, tip, detach, detachBlocks, spent, i);
        assert BlockChains.LoadedAt(c.blocks, LedgerAt(c.blocks, tip), detach[i], detachBlocks[i], spent[i]);
        DetachOne(c.blocks, detach[i], detachBlocks[i], spent[i], view, c.blocks[detach[i].parent.hash]);
        cur := cur.parent;
      }
      WayEnd(tip, fork, cur);
    }

    /** The blocks to attach. */
    method AttachAll(ghost p: Params, c: Core, attach: seq<BlockNode>, view: UtxoViewpoint, ghost ids: Ids,
                     ghost fork: BlockNode, ghost node: BlockNode)
      returns (ok: bool)
      requires BranchReady(p, c, fork, attach, node) && AllLawful(p, ids, c)
      requires FirstFailing(c.chain.status, Good(p, c), attach) == |attach|
      requires Holds(LedgerAt(c.blocks, fork)) && InStep(view.entries, utxos)
      modifies this, view
      ensures ok && node.Node? && Holds(LedgerAt(c.blocks, node)) && InStep(view.entries, utxos)
    {
      for i := 0 to |attach|
        invariant EndAfter(fork, attach, i).Node? && Holds(LedgerAt(c.blocks, EndAfter(fork, attach, i)))
        invariant InStep(view.entries, utxos)
      {
        AttachReady(p, ids, c, fork, attach, node, i);
        ok := AttachOne(p, c, attach[i], c.blocks[attach[i].hash], view, ids);
        if !ok {
          return;
        }
      }
      ok := true;
    }

    /**
     * Both phases of reorganizeChain.  A rule error leaves both buckets as they were; otherwise they hold the
     * utxo set and the journal of the new branch.
     */
    method SwitchChain(p: Params, c: Core, detach: seq<BlockNode>, attach: seq<BlockNode>, ghost ids: Ids,
                       ghost fork: BlockNode, ghost node: BlockNode)
      returns (ok: bool, status: Statuses)
      requires ChainSettled(c.blocks, c.chain.tip) && SurvivingChain(p, c.blocks, c.chain.tip)
      requires fork in Path(c.chain.tip) && detach == Detached(c.chain.tip, fork)
      requires BranchReady(p, c, fork, attach, node) && AllLawful(p, ids, c)
      requires Holds(LedgerAt(c.blocks, c.chain.tip))
      modifies this
      ensures (status, ok) == CheckedBranch(c.chain.status, Good(p, c), attach)
      ensures ok ==> node.Node? && Holds(LedgerAt(c.blocks, node))
      ensures !ok ==> bucket == old(bucket) && journal == old(journal) && utxos == old(utxos)
    {
      ghost var tip := c.chain.tip;
      SurvivingIsSane(p, c.blocks, tip);
      var loaded, view, detachBlocks, spent := CheckDetach(p, c.blocks, detach, tip, fork, LedgerAt(c.blocks, tip));
      ok, status := CheckAttach(p, c, attach, view, ids, fork, node);
      if !ok {
        return;
      }
      view := new UtxoViewpoint();
      EmptyView(utxos);
      DetachAll(p, c, detach, detachBlocks, spent, view, fork);
      var attached := AttachAll(p, c, attach, view, ids, fork, node);
    }

    /** connectBestChain for a block that makes a side chain the heaviest. */
    method Reorganize(p: Params, c: Core, n: BlockNode, ghost ids: Ids) returns (chain: Chain, outcome: Outcome)
      requires Busy(p, c, n) && AllLawful(p, ids, c) && WorkSum(n) > WorkSum(c.chain.tip)
      requires c.chain.tip.Node? && Holds(LedgerAt(c.blocks, c.chain.tip))
      modifies this
      ensures (chain, outcome) == Selection.Reorganize(c.chain, Good(p, c), n)
      ensures chain.tip.Node? && Holds(LedgerAt(c.blocks, chain.tip))
      ensures outcome.RuleFailed? ==> bucket == old(bucket) && journal == old(journal)
    {
      var tainted := Tainted(c.chain, n);
      if tainted.Some? {
        return Chain(Mark(c.chain.status, tainted.value, InvalidAncestor), c.chain.tip), Accepted(true);
      }
      var fork, attach := Fork(c.chain.tip, n), Branch(c.chain.tip, n);
      ReorganizeReady(p, c, n);
      BestSurvives(p, ids, c, n);
      var ok, status := SwitchChain(p, c, Detached(c.chain.tip, fork), attach, ids, fork, n);
      if !ok {
        return Chain(status, c.chain.tip), RuleFailed;
      }
      return Chain(status, n), Accepted(true);
    }

    /** connectBestChain for a block on top of the best chain. */
    method Extend(p: Params, c: Core, n: BlockNode, ghost ids: Ids) returns (chain: Chain, outcome: Outcome)
      requires Busy(p, c, n) && AllLawful(p, ids, c) && n.parent == c.chain.tip && c.chain.tip.Node?
      requires Holds(LedgerAt(c.blocks, c.chain.tip))
      modifies this
      ensures (chain, outcome) == Selection.Extend(c.chain, Good(p, c), n)
      ensures chain.tip.Node? && Holds(LedgerAt(c.blocks, chain.tip))
    {
      ExtendReady(p, c, n);
      var block := c.blocks[n.hash];
      ExtendSettles(p, ids, c, n);
      BlockChains.ExtendBy(p, c, n, block, utxos);
      var db := Fetch();
      if !(CanConnectTxs(db, block.txs, Height(n)) && p.connect(n, block, db)) {
        return Chain(Mark(c.chain.status, [n], ValidateFailed), c.chain.tip), RuleFailed;
      }
      var view := new UtxoViewpoint();
      EmptyView(utxos);
      var ok := AttachOne(p, c, n, block, view, ids);
      return Chain(Mark(c.chain.status, [n], Flag.Valid), n), Accepted(true);
    }

    /** connectBestChain. */
    method ConnectBest(p: Params, c: Core, n: BlockNode, ghost ids: Ids) returns (chain: Chain, outcome: Outcome)
      requires Busy(p, c, n) && AllLawful(p, ids, c)
      requires c.chain.tip.Node? && Holds(LedgerAt(c.blocks, c.chain.tip))
      modifies this
      ensures (chain, outcome) == Selection.ConnectBest(c.chain, Good(p, c), n)
      ensures chain.status.Keys == c.chain.status.Keys
      ensures chain.tip.Node? && Holds(LedgerAt(c.blocks, chain.tip))
    {
      ConnectBestKeys(c.chain, Good(p, c), n);
      if n.parent == c.chain.tip {
        chain, outcome := Extend(p, c, n, ids);
      } else if WorkSum(n) <= WorkSum(c.chain.tip) {
        chain, outcome := c.chain, Accepted(false);
      } else {
        chain, outcome := Reorganize(p, c, n, ids);
      }
    }

    /** The block is stored, indexed and connected. */
    method ConnectNew(p: Params, c: Core, block: Block, n: BlockNode, ghost ids: Ids) returns (d: Core,
                      outcome: Outcome)
      requires CoreInv(p, c) && AllLawful(p, ids, c)
      requires block.hash !in c.index && Sane(p, block) && Identifies(ids, block) && BelowLimit(c, block)
      requires block.header.prevBlock in c.index && p.context(block, c.index[block.header.prevBlock])
      requires n == NewBlockNode(block.hash, block.header, c.index[block.header.prevBlock])
      requires AllEarly(p, ids, AddBlock(c, n, block))
      requires c.chain.tip.Node? && Holds(LedgerAt(c.blocks, c.chain.tip))
      modifies this
      ensures var stored := AddBlock(c, n, block);
        && d == stored.(chain := d.chain)
        && (d.chain, outcome) == Selection.ConnectBest(stored.chain, Good(p, stored), n)
      ensures AllLawful(p, ids, d) && d.chain.tip.Node? && Holds(LedgerAt(d.blocks, d.chain.tip))
    {
      var stored := AddBlock(c, n, block);
      NewReady(p, ids, c, n, block);
      var chain;
      chain, outcome := ConnectBest(p, stored, n, ids);
      d := stored.(chain := chain);
      FlagsLawful(p, ids, stored, d);
    }

    /**
     * maybeAcceptBlock as far as it concerns the two buckets: the answer is that of the step function, and the
     * buckets hold the utxo set and the journal of the new tip.
     */
    method Accept(p: Params, c: Core, block: Block, ghost ids: Ids) returns (d: Core, outcome: Outcome)
      requires CoreInv(p, c) && AllLawful(p, ids, c)
      requires block.hash !in c.index && Sane(p, block) && Identifies(ids, block) && BelowLimit(c, block)
      requires AllEarly(p, ids, ChainCore.Accept(p, c, block).0)
      requires c.chain.tip.Node? && Holds(LedgerAt(c.blocks, c.chain.tip))
      modifies this
      ensures (d, outcome) == ChainCore.Accept(p, c, block) && CoreInv(p, d) && AllLawful(p, ids, d)
      ensures d.chain.tip.Node? && Holds(LedgerAt(d.blocks, d.chain.tip))
    {
      d := c;
      BlockChains.AcceptDone(p, c, block);
      if block.header.prevBlock !in c.index {
        return c, PreviousUnknown;
      }
      var prev := c.index[block.header.prevBlock];
      if prev in c.chain.status && KnownInvalid(c.chain.status[prev]) {
        return c, PreviousInvalid;
      }
      if !p.context(block, prev) {
        return c, ContextFailed;
      }
      EarlyStored(p, ids, c, NewBlockNode(block.hash, block.header, prev), block);
      d, outcome := ConnectNew(p, c, block, NewBlockNode(block.hash, block.header, prev), ids);
      BlockChains.AcceptIs(p, c, block, NewBlockNode(block.hash, block.header, prev),
        AddBlock(c, NewBlockNode(block.hash, block.header, prev), block), d.chain, outcome);
    }

    /** One block is offered. */
    method Offer(p: Params, c: Core, block: Block, ghost ids: Ids) returns (d: Core)
      requires CoreInv(p, c) && AllLawful(p, ids, c)
      requires Identifies(ids, block) && BelowLimit(c, block) && AllEarly(p, ids, ChainCore.Offer(p, c, block))
      requires c.chain.tip.Node? && Holds(LedgerAt(c.blocks, c.chain.tip))
      modifies this
      ensures d == ChainCore.Offer(p, c, block) && CoreInv(p, d) && AllLawful(p, ids, d)
      ensures d.chain.tip.Node? && Holds(LedgerAt(d.blocks, d.chain.tip))
    {
      if block.hash in c.index || !Sane(p, block) {
        return c;
      }
      var outcome;
      d, outcome := Accept(p, c, block, ids);
    }

    /**
     * From genesis over any sequence of offered blocks: the rows of the utxo set and of the spend journal are
     * exactly those of the best chain.
     */
    method Run(p: Params, genesis: Block, offered: seq<Block>, ghost ids: Ids) returns (c: Core)
      requires StoredAs(p, p.genesis, genesis) && p.genesis.parent.Nil? && Guarded(p, ids)
      requires AllEarly(p, ids, ChainCore.Run(p, Initial(p, genesis), offered))
      requires |offered| < HEIGHT_LIMIT && forall i :: 0 <= i < |offered| ==> Identifies(ids, offered[i])
      requires Holds(LedgerAt(Initial(p, genesis).blocks, p.genesis))
      modifies this
      ensures c == ChainCore.Run(p, Initial(p, genesis), offered)
      ensures c.chain.tip.Node? && Holds(LedgerAt(c.blocks, c.chain.tip))
    {
      c := Initial(p, genesis);
      InitialSafe(p, genesis);
      InitialLawful(p, ids, genesis);
      InitialLow(p, genesis);
      SliceAll(offered);
      for i := 0 to |offered|
        invariant c == ChainCore.Run(p, Initial(p, genesis), offered[..i]) && CoreInv(p, c) && AllLawful(p, ids, c)
        invariant AllLow(c, i) && c.chain.tip.Node? && Holds(LedgerAt(c.blocks, c.chain.tip))
      {
        RunMore(p, Initial(p, genesis), offered, i);
        EarlyAlong(p, ids, Initial(p, genesis), offered, i + 1);
        StillLow(p, c, offered[i], i);
        c := Offer(p, c, offered[i], ids);
      }
    }
  }

  /** An entry is read back for its block. */
  lemma EntryBack(p: Params, c: Curve, bytes: map<Hash, seq<byte>>, journal: map<Hash, seq<Txo>>, b: Block)
    requires PointsDetermined(c) && Encodes(c, bytes, journal) && Sane(p, b) && b.hash in journal
    requires |journal[b.hash]| == CountSpent(b.txs)
    ensures b.hash in bytes
    ensures SpendJournal.DecodeEntry(c, bytes[b.hash], SumIns(b.txs[1..])) == SpendJournal.Entry(journal[b.hash])
  {
    assert EncodesAt(c, bytes, journal, b.hash);
    BlockChains.CountsAgree(p, b);
    SpendJournal.EntryRoundTrip(c, journal[b.hash], b.txs[1..]);
  }

  ghost predicate SaneChain(p: Params, blocks: map<Hash, Block>, tip: BlockNode) {
    forall m {:trigger SaneAt(p, blocks, m)} :: m in Path(tip) ==> SaneAt(p, blocks, m)
  }

  lemma LoadedMore(blocks: map<Hash, Block>, l: Ledger, nodes: seq<BlockNode>, loaded: seq<Block>, spent: seq<seq<Txo>>,
                   n: BlockNode, b: Block, stxos: seq<Txo>)
    requires BlockChains.Loaded(blocks, l, nodes, loaded, spent) && BlockChains.LoadedAt(blocks, l, n, b, stxos)
    ensures BlockChains.Loaded(blocks, l, nodes + [n], loaded + [b], spent + [stxos])
  {
  }

  /** A new view stands for what is stored. */
  lemma ViewStart(db: Utxos, blocks: map<Hash, Block>, tip: BlockNode)
    requires tip.Node? && db == LedgerAt(blocks, tip).utxos
    ensures Viewing(map[], db, blocks, tip)
  {
    EmptyView(db);
  }

  lemma EmptyView(db: Utxos)
    ensures InStep(map[], db)
  {
    var e: Entries := map[];
    forall o ensures SameAt(Abs(e, db), db, o) {
      AbsAt(e, db, o);
    }
    AllSame(Abs(e, db), db);
  }

  /** What the check phase needs to know about the next block. */
  lemma ClearHere(p: Params, ids: Ids, c: Core, fork: BlockNode, branch: seq<BlockNode>, n: BlockNode, i: nat,
                    status: Statuses, view: Utxos)
    requires BranchReady(p, c, fork, branch, n) && AllLawful(p, ids, c) && i < |branch|
    requires Checking(p, c, fork, branch, i, status, view)
    ensures branch[i].Node? && branch[i] in status && branch[i].hash in c.blocks && Sane(p, c.blocks[branch[i].hash])
    ensures var m := branch[i]; var b := c.blocks[m.hash];
      KnownValid(status[m]) || (CanConnectTxs(view, b.txs, Height(m)) && p.connect(m, b, view)) ==>
        CanConnectTxs(view, b.txs, Height(m)) && ClearInputs(view, b.txs)
  {
    PassesIsCheck(p, c, fork, branch, n, i);
    SamePasses(c.chain.status, Good(p, c), branch, i);
    CheckedReplays(p, c, fork, branch, n, i);
    assert StoredNode(p, c, branch[i]);
    if Check(p, c.blocks, branch[i]) {
      NoClashWhenChecked(p, ids, c, branch[i]);
    }
  }

  /** The block of n is about to be connected to a branch that can be connected. */
  ghost predicate Settling(p: Params, ids: Ids, c: Core, n: BlockNode) {
    && ChainCore.Stored(p, c) && Sound(c.chain, Good(p, c)) && AllLawful(p, ids, c)
    && n in c.chain.status && n.Node? && n.parent.Node? && Replayable(c.blocks, n.parent)
  }

  lemma SettlingReady(p: Params, ids: Ids, c: Core, n: BlockNode)
    requires Settling(p, ids, c, n) && Check(p, c.blocks, n)
    ensures var u, b := LedgerAt(c.blocks, n.parent).utxos, c.blocks[n.hash];
      && b.hash == n.hash && Sane(p, b) && FirstIsCoinbase(b.txs) && ClearInputs(u, b.txs)
      && AllUtxosStorable(ConnectTxs(u, b.txs, Height(n)))
      && SpendJournal.AllStorable(Stxos(u, b.txs, Height(n))) && SpendJournal.AllTyped(Stxos(u, b.txs, Height(n)))
    ensures LedgerAt(c.blocks, n) == ConnectLedger(LedgerAt(c.blocks, n.parent), n, c.blocks[n.hash])
  {
    assert StoredNode(p, c, n);
    NoClashWhenChecked(p, ids, c, n);
    BranchSurvives(p, ids, c, n);
  }

  lemma AttachReady(p: Params, ids: Ids, c: Core, fork: BlockNode, branch: seq<BlockNode>, n: BlockNode, i: nat)
    requires BranchReady(p, c, fork, branch, n) && AllLawful(p, ids, c) && i < |branch|
    requires FirstFailing(c.chain.status, Good(p, c), branch) == |branch|
    ensures Settling(p, ids, c, branch[i]) && Check(p, c.blocks, branch[i])
    ensures branch[i].parent == EndAfter(fork, branch, i) && EndAfter(fork, branch, i + 1) == branch[i]
  {
    PassesIsCheck(p, c, fork, branch, n, i);
    CheckedReplays(p, c, fork, branch, n, i);
    assert Passes(c.chain.status, Good(p, c), branch[i]);
  }

  lemma ExtendSettles(p: Params, ids: Ids, c: Core, n: BlockNode)
    requires Busy(p, c, n) && AllLawful(p, ids, c) && n.parent == c.chain.tip
    ensures Settling(p, ids, c, n)
  {
    ValidReplays(p, c, c.chain.tip);
  }

  /** The block of m is stored and sane, and the utxo set after it survives being stored. */
  ghost predicate SurvivingAt(p: Params, blocks: map<Hash, Block>, m: BlockNode) {
    SaneAt(p, blocks, m) && AllUtxosStorable(LedgerAt(blocks, m).utxos)
  }

  ghost predicate SurvivingChain(p: Params, blocks: map<Hash, Block>, tip: BlockNode) {
    forall m {:trigger SurvivingAt(p, blocks, m)} :: m in Path(tip) ==> SurvivingAt(p, blocks, m)
  }

  lemma SurvivingIsSane(p: Params, blocks: map<Hash, Block>, tip: BlockNode)
    requires SurvivingChain(p, blocks, tip)
    ensures SaneChain(p, blocks, tip)
  {
    forall m | m in Path(tip) ensures SaneAt(p, blocks, m) {
      assert SurvivingAt(p, blocks, m);
    }
  }

  lemma BestSurvives(p: Params, ids: Ids, c: Core, n: BlockNode)
    requires Busy(p, c, n) && AllLawful(p, ids, c)
    ensures SurvivingChain(p, c.blocks, c.chain.tip)
  {
    PathInTree(p.genesis, c.chain, c.chain.tip);
    forall m | m in Path(c.chain.tip) ensures SurvivingAt(p, c.blocks, m) {
      assert StoredNode(p, c, m);
      BranchSurvives(p, ids, c, m);
    }
  }

  lemma NewReady(p: Params, ids: Ids, c: Core, n: BlockNode, b: Block)
    requires CoreInv(p, c) && AllLawful(p, ids, c)
    requires b.hash !in c.index && Sane(p, b) && Identifies(ids, b) && BelowLimit(c, b)
    requires b.header.prevBlock in c.index && p.context(b, c.index[b.header.prevBlock])
    requires n == NewBlockNode(b.hash, b.header, c.index[b.header.prevBlock]) && AllEarly(p, ids, AddBlock(c, n, b))
    ensures Busy(p, AddBlock(c, n, b), n) && AllLawful(p, ids, AddBlock(c, n, b)) && c.chain.tip.Node?
    ensures LedgerAt(c.blocks, c.chain.tip) == LedgerAt(AddBlock(c, n, b).blocks, c.chain.tip)
  {
    BlockChains.AcceptReady(p, c, n, b);
    assert IndexedAt(c, b.header.prevBlock);
    StillLawful(p, ids, c, n, b);
  }

  lemma RunMore(p: Params, c: Core, offered: seq<Block>, i: nat)
    requires i < |offered|
    ensures Run(p, c, offered[..i + 1]) == Offer(p, Run(p, c, offered[..i]), offered[i])
  {
    SliceStep(offered, i);
    assert offered[..i + 1][..i] == offered[..i];
  }

  lemma InitialLow(p: Params, genesis: Block)
    requires p.genesis.Node? && p.genesis.parent.Nil?
    ensures AllLow(Initial(p, genesis), 0)
  {
  }
}
