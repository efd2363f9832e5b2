/**
 * What the validation rules imply for what is stored (blockchain/validate.go): no block that passes reuses the
 * hash of a transaction with unspent outputs, and every amount is one that survives compression.
 */
module Lawful {
  import opened Primitives
  import opened BlockTree
  import opened Utxo
  import opened Ledgers
  import opened Selection
  import opened ChainCore
  import opened Replay
  import opened UtxoCache
  import opened Duplicates
  import opened SpendJournal
  import Amounts
  import UtxoBucket

  // --- The rules

  /** Below BIP0034Height checkConnectBlock includes checkBIP0030. */
  ghost predicate ChecksOverwrites(p: Params) {
    forall n, b, u {:trigger p.connect(n, b, u)} ::
      p.connect(n, b, u) && Height(n) < p.bip0034Height ==> AllFresh(u, b.txs)
  }

  /** From BIP0034Height on checkBlockContext includes checkSerializedHeight. */
  ghost predicate ChecksHeights(p: Params, ids: Ids) {
    forall b, prev {:trigger p.context(b, prev)} ::
      p.context(b, prev) && |b.txs| > 0 && Height(prev) + 1 >= p.bip0034Height ==>
        ids.heightOf(b.txs[0].hash) == Height(prev) + 1
  }

  ghost predicate Guarded(p: Params, ids: Ids) {
    ChecksOverwrites(p) && ChecksHeights(p, ids)
  }

  /** The hashes of the block's transactions stand for these transactions. */
  predicate Identifies(ids: Ids, b: Block) {
    forall i :: 0 <= i < |b.txs| ==> ids.txOf(b.txs[i].hash) == b.txs[i]
  }

  lemma SaneIsKnown(p: Params, ids: Ids, b: Block)
    requires Sane(p, b) && Identifies(ids, b)
    ensures KnownBlock(ids, b) && FirstIsCoinbase(b.txs)
  {
    forall i | 0 <= i < |b.txs| ensures Known(ids, b.txs[i]) {
      assert TxSane(b.txs[i]);
    }
  }

  /** Heights are signed 32-bit integers. */
  const HEIGHT_LIMIT := 0x8000_0000

  /** What is known of an indexed block. */
  ghost predicate LawfulNode(p: Params, ids: Ids, blocks: map<Hash, Block>, n: BlockNode) {
    && n.Node? && Height(n) < HEIGHT_LIMIT
    && (n.parent.Node? ==> KnownBlock(ids, BlockOf(blocks, n)))
    && (n.parent.Node? ==> Announces(ids, p.bip0034Height, BlockOf(blocks, n), Height(n)))
  }

  /** If the branch of n reaches BIP0034Height, its coinbases below that height differ from all others. */
  ghost predicate EarlyNode(p: Params, ids: Ids, blocks: map<Hash, Block>, n: BlockNode) {
    Height(n) >= p.bip0034Height ==> EarlyApart(ids, p.bip0034Height, blocks, n)
  }

  ghost predicate AllEarly(p: Params, ids: Ids, c: Core) {
    forall n {:trigger EarlyNode(p, ids, c.blocks, n)} :: n in c.chain.status ==> EarlyNode(p, ids, c.blocks, n)
  }

  ghost predicate AllLawful(p: Params, ids: Ids, c: Core) {
    && (forall n {:trigger LawfulNode(p, ids, c.blocks, n)} :: n in c.chain.status ==> LawfulNode(p, ids, c.blocks, n))
    && Guarded(p, ids) && AllEarly(p, ids, c)
  }

  /** The block may be accepted on top of the block it names without exceeding the limit on heights. */
  predicate BelowLimit(c: Core, b: Block) {
    b.header.prevBlock in c.index ==> Height(c.index[b.header.prevBlock]) + 1 < HEIGHT_LIMIT
  }

  // --- They hold in every state

  lemma InitialLawful(p: Params, ids: Ids, genesis: Block)
    requires p.genesis.Node? && p.genesis.parent.Nil? && Guarded(p, ids)
    ensures AllLawful(p, ids, Initial(p, genesis))
  {
    assert Height(p.genesis) == 0;
    assert EarlyApart(ids, p.bip0034Height, Initial(p, genesis).blocks, p.genesis.parent);
  }

  /** Storing a block that passed checkBlockSanity and checkBlockContext. */
  lemma StillLawful(p: Params, ids: Ids, c: Core, n: BlockNode, b: Block)
    requires CoreInv(p, c) && Fits(p, c, n, b) && AllLawful(p, ids, c)
    requires Identifies(ids, b) && p.context(b, n.parent) && Height(n) < HEIGHT_LIMIT
    requires AllEarly(p, ids, AddBlock(c, n, b))
    ensures AllLawful(p, ids, AddBlock(c, n, b))
  {
    var d := AddBlock(c, n, b);
    forall m | m in d.chain.status ensures LawfulNode(p, ids, d.blocks, m) {
      if m == n {
        SaneIsKnown(p, ids, b);
      } else {
        assert LawfulNode(p, ids, c.blocks, m);
        StillStored(p, c, n, b, m);
      }
    }
  }

  lemma FlagsLawful(p: Params, ids: Ids, c: Core, d: Core)
    requires AllLawful(p, ids, c) && d == c.(chain := d.chain) && d.chain.status.Keys == c.chain.status.Keys
    ensures AllLawful(p, ids, d)
  {
    forall n | n in d.chain.status ensures LawfulNode(p, ids, d.blocks, n) && EarlyNode(p, ids, d.blocks, n) {
      assert LawfulNode(p, ids, c.blocks, n) && EarlyNode(p, ids, c.blocks, n);
    }
  }

  // --- What they imply

  lemma {:induction false} BranchKnown(p: Params, ids: Ids, c: Core, n: BlockNode)
    requires AllLawful(p, ids, c) && Sound(c.chain, Good(p, c)) && n in c.chain.status
    ensures KnownBranch(ids, c.blocks, n) && AnnouncedBranch(ids, p.bip0034Height, c.blocks, n)
    decreases n
  {
    assert LawfulNode(p, ids, c.blocks, n) && FlagsSound(c.chain.status, Good(p, c), n);
    if n.parent.Node? {
      BranchKnown(p, ids, c, n.parent);
    }
  }

  /** A branch marked valid can be connected from genesis on. */
  lemma {:induction false} ValidReplays(p: Params, c: Core, n: BlockNode)
    requires ChainCore.Stored(p, c) && Sound(c.chain, Good(p, c)) && n in c.chain.status && Valid in c.chain.status[n]
    ensures Replayable(c.blocks, n)
    decreases n
  {
    assert FlagsSound(c.chain.status, Good(p, c), n) && StoredNode(p, c, n);
    if n.parent.Node? {
      ValidReplays(p, c, n.parent);
    }
  }

  lemma ReplaysNext(p: Params, c: Core, fork: BlockNode, branch: seq<BlockNode>, n: BlockNode, i: nat)
    requires BranchReady(p, c, fork, branch, n) && i < |branch|
    requires i < FirstFailing(c.chain.status, Good(p, c), branch) && Replayable(c.blocks, EndAfter(fork, branch, i))
    ensures Replayable(c.blocks, branch[i])
  {
    PassesIsCheck(p, c, fork, branch, n, i);
    assert Passes(c.chain.status, Good(p, c), branch[i]);
  }

  /** So can the part of a branch that has been checked. */
  lemma {:induction false} CheckedReplays(p: Params, c: Core, fork: BlockNode, branch: seq<BlockNode>, n: BlockNode,
                                          i: nat)
    requires BranchReady(p, c, fork, branch, n) && i <= |branch|
    requires i <= FirstFailing(c.chain.status, Good(p, c), branch)
    ensures Replayable(c.blocks, EndAfter(fork, branch, i))
  {
    if i == 0 {
      ValidReplays(p, c, fork);
    } else {
      CheckedReplays(p, c, fork, branch, n, i - 1);
      ReplaysNext(p, c, fork, branch, n, i - 1);
    }
  }

  /** A block that passes reuses no hash of a transaction with unspent outputs. */
  lemma NoClashWhenChecked(p: Params, ids: Ids, c: Core, n: BlockNode)
    requires AllLawful(p, ids, c) && Sound(c.chain, Good(p, c)) && n in c.chain.status
    requires Check(p, c.blocks, n) && Replayable(c.blocks, n.parent)
    ensures NoClash(LedgerAt(c.blocks, n.parent).utxos, c.blocks[n.hash].txs)
  {
    BranchKnown(p, ids, c, n);
    if Height(n) < p.bip0034Height {
      assert p.connect(n, c.blocks[n.hash], LedgerAt(c.blocks, n.parent).utxos);
      NoClashByRule(ids, c.blocks, n);
    } else {
      assert EarlyNode(p, ids, c.blocks, n);
      NoClashByHeights(ids, p.bip0034Height, c.blocks, n);
    }
  }

  // --- Runs that reach BIP0034Height

  lemma {:induction false} ConnectedSame(a: map<Hash, Block>, b: map<Hash, Block>, n: BlockNode)
    requires n.Node? && forall m :: m in Path(n) ==> SameBlock(a, b, m)
    ensures Connected(a, n) == Connected(b, n)
  {
    assert n in Path(n);
    if n.parent.Node? {
      ConnectedSame(a, b, n.parent);
    }
  }

  lemma {:induction false} EarlySame(ids: Ids, from: int, a: map<Hash, Block>, b: map<Hash, Block>, n: BlockNode)
    requires forall m :: m in Path(n) ==> SameBlock(a, b, m)
    ensures EarlyApart(ids, from, a, n) <==> EarlyApart(ids, from, b, n)
  {
    if n.Node? {
      ConnectedSame(a, b, n);
      EarlySame(ids, from, a, b, n.parent);
    }
  }

  /** The flags do not matter. */
  lemma EarlyStored(p: Params, ids: Ids, c: Core, n: BlockNode, b: Block)
    requires n.Node? && b.header.prevBlock in c.index
    requires n == NewBlockNode(b.hash, b.header, c.index[b.header.prevBlock])
    requires var d := AddBlock(c, n, b);
      AllEarly(p, ids, d.(chain := ConnectBest(d.chain, Good(p, d), n).0))
    ensures AllEarly(p, ids, AddBlock(c, n, b))
  {
    var d := AddBlock(c, n, b);
    ConnectBestKeys(d.chain, Good(p, d), n);
    forall m | m in d.chain.status ensures EarlyNode(p, ids, d.blocks, m) {
      assert EarlyNode(p, ids, d.(chain := ConnectBest(d.chain, Good(p, d), n).0).blocks, m);
    }
  }

  /** What is asked of a state holds in the state before. */
  lemma EarlyBefore(p: Params, ids: Ids, c: Core, b: Block)
    requires CoreInv(p, c) && AllEarly(p, ids, Offer(p, c, b))
    ensures AllEarly(p, ids, c)
  {
    var d := Offer(p, c, b);
    if d != c {
      assert IndexedAt(c, b.header.prevBlock);
      var n := NewBlockNode(b.hash, b.header, c.index[b.header.prevBlock]);
      ConnectBestKeys(AddBlock(c, n, b).chain, Good(p, AddBlock(c, n, b)), n);
      forall m | m in c.chain.status ensures EarlyNode(p, ids, c.blocks, m) {
        assert EarlyNode(p, ids, d.blocks, m);
        PathInTree(p.genesis, c.chain, m);
        forall k | k in Path(m) ensures SameBlock(c.blocks, d.blocks, k) {
          StillStored(p, c, n, b, k);
        }
        EarlySame(ids, p.bip0034Height, c.blocks, d.blocks, m);
      }
    }
  }

  lemma {:induction false} EarlyAlong(p: Params, ids: Ids, c: Core, offered: seq<Block>, i: nat)
    requires CoreInv(p, c) && AllEarly(p, ids, Run(p, c, offered)) && i <= |offered|
    ensures AllEarly(p, ids, Run(p, c, offered[..i]))
    decreases |offered|
  {
    if i < |offered| {
      var init := offered[..|offered| - 1];
      RunSafe(p, c, init);
      EarlyBefore(p, ids, Run(p, c, init), offered[|offered| - 1]);
      EarlyAlong(p, ids, c, init, i);
      assert init[..i] == offered[..i];
    } else {
      assert offered[..i] == offered;
    }
  }

  // --- Amounts

  predicate Money(t: Txo) {
    0 <= t.amount <= Amounts.MAX_NANO_SOTER && 0 <= t.height < HEIGHT_LIMIT
  }

  predicate AllMoney(u: Utxos) {
    forall o :: o in u ==> Money(u[o])
  }

  predicate SeqMoney(s: seq<Txo>) {
    forall i :: 0 <= i < |s| ==> Money(s[i])
  }

  lemma MoneyTx(u: Utxos, tx: Tx, height: int)
    requires AllMoney(u) && TxSane(tx) && 0 <= height < HEIGHT_LIMIT
    ensures AllMoney(ConnectTx(u, tx, height)) && SeqMoney(TxStxos(u, tx))
  {
  }

  lemma MoneyAppend(s: seq<Txo>, t: seq<Txo>)
    requires SeqMoney(s) && SeqMoney(t)
    ensures SeqMoney(s + t)
  {
  }

  lemma {:induction false} MoneyTxs(u: Utxos, txs: seq<Tx>, height: int)
    requires AllMoney(u) && 0 <= height < HEIGHT_LIMIT && forall i :: 0 <= i < |txs| ==> TxSane(txs[i])
    ensures AllMoney(ConnectTxs(u, txs, height)) && SeqMoney(Stxos(u, txs, height))
  {
    if txs != [] {
      var init, last := txs[..|txs| - 1], txs[|txs| - 1];
      assert TxSane(txs[|txs| - 1]);
      MoneyTxs(u, init, height);
      MoneyTx(ConnectTxs(u, init, height), last, height);
      MoneyAppend(Stxos(u, init, height), TxStxos(ConnectTxs(u, init, height), last));
    }
  }

  /** Every amount kept about a branch is in range. */
  lemma {:induction false} MoneyBranch(p: Params, ids: Ids, c: Core, n: BlockNode)
    requires ChainCore.Stored(p, c) && AllLawful(p, ids, c) && Sound(c.chain, Good(p, c)) && n in c.chain.status
    requires n.Node?
    ensures AllMoney(LedgerAt(c.blocks, n).utxos)
    ensures n.parent.Node? ==> SeqMoney(Stxos(LedgerAt(c.blocks, n.parent).utxos, BlockOf(c.blocks, n).txs, Height(n)))
    decreases n
  {
    assert FlagsSound(c.chain.status, Good(p, c), n) && StoredNode(p, c, n) && LawfulNode(p, ids, c.blocks, n);
    if n.parent.Node? {
      MoneyBranch(p, ids, c, n.parent);
      MoneyTxs(LedgerAt(c.blocks, n.parent).utxos, BlockOf(c.blocks, n).txs, Height(n));
    }
  }

  lemma MoneySurvives(u: Utxos, s: seq<Txo>)
    requires AllMoney(u) && SeqMoney(s)
    ensures UtxoBucket.AllUtxosStorable(u) && AllStorable(s) && AllTyped(s)
  {
    forall o | o in u ensures Storable(u[o]) {
      MoneyIsStorable(u[o]);
    }
    forall i | 0 <= i < |s| ensures Storable(s[i]) {
      MoneyIsStorable(s[i]);
    }
  }

  /** What is stored for a branch survives being stored. */
  lemma BranchSurvives(p: Params, ids: Ids, c: Core, n: BlockNode)
    requires ChainCore.Stored(p, c) && AllLawful(p, ids, c) && Sound(c.chain, Good(p, c)) && n in c.chain.status
    requires n.Node?
    ensures UtxoBucket.AllUtxosStorable(LedgerAt(c.blocks, n).utxos)
    ensures n.parent.Node? ==>
      var stxos := Stxos(LedgerAt(c.blocks, n.parent).utxos, BlockOf(c.blocks, n).txs, Height(n));
      AllStorable(stxos) && AllTyped(stxos)
  {
    MoneyBranch(p, ids, c, n);
    MoneySurvives(LedgerAt(c.blocks, n).utxos,
      if n.parent.Node? then Stxos(LedgerAt(c.blocks, n.parent).utxos, BlockOf(c.blocks, n).txs, Height(n)) else []);
  }

  // --- Heights

  ghost predicate AllLow(c: Core, k: nat) {
    forall n :: n in c.chain.status ==> Height(n) <= k
  }

  /** One more block adds at most one to the greatest height. */
  lemma StillLow(p: Params, c: Core, b: Block, k: nat)
    requires CoreInv(p, c) && AllLow(c, k)
    ensures AllLow(Offer(p, c, b), k + 1)
    ensures k + 1 < HEIGHT_LIMIT ==> BelowLimit(c, b)
  {
    if b.header.prevBlock in c.index {
      assert IndexedAt(c, b.header.prevBlock);
      var n := NewBlockNode(b.hash, b.header, c.index[b.header.prevBlock]);
      var d := AddBlock(c, n, b);
      ConnectBestKeys(d.chain, Good(p, d), n);
    }
  }
}
