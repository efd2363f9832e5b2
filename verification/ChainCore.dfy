/**
 * Offering blocks to the chain (blockchain/accept.go, blockchain/process.go): the block tree, the
 * stored blocks and the selection state, as they evolve over any sequence of offered blocks.  The
 * ledger is not part of this state because it is a function of the tip.
 */
module ChainCore {
  import opened Primitives
  import opened BlockTree
  import opened Utxo
  import opened Ledgers
  import opened Selection

  /**
   * The chain parameters and the validation rules that are not modelled: `context` stands for
   * checkBlockContext and `connect` for what checkConnectBlock demands beyond spendable inputs and
   * fresh outputs.  Both are arbitrary but fixed.
   */
  datatype Params = Params(
    genesis: BlockNode,
    bip0034Height: int,
    hashOf: Header -> Hash,
    context: (Block, BlockNode) -> bool,
    connect: (BlockNode, Block, Utxos) -> bool)

  datatype Core = Core(index: map<Hash, BlockNode>, chain: Chain, blocks: map<Hash, Block>)

  /** checkConnectBlock: does the block of n pass on top of its own branch? */
  predicate Check(p: Params, blocks: map<Hash, Block>, n: BlockNode) {
    Connects(blocks, n) && p.connect(n, blocks[n.hash], LedgerAt(blocks, n.parent).utxos)
  }

  function Good(p: Params, c: Core): set<BlockNode> {
    set n | n in c.chain.status && Check(p, c.blocks, n)
  }

  function AddBlock(c: Core, n: BlockNode, b: Block): Core
    requires n.Node?
  {
    Core(c.index[n.hash := n], Chain(c.chain.status[n := {DataStored}], c.chain.tip), c.blocks[n.hash := b])
  }

  /** maybeAcceptBlock. */
  function Accept(p: Params, c: Core, b: Block): (Core, Outcome) {
    if b.header.prevBlock !in c.index then (c, PreviousUnknown)
    else
      var prev := c.index[b.header.prevBlock];
      if prev in c.chain.status && KnownInvalid(c.chain.status[prev]) then (c, PreviousInvalid)
      else if !p.context(b, prev) then (c, ContextFailed)
      else
        var n := NewBlockNode(b.hash, b.header, prev);
        var stored := AddBlock(c, n, b);
        var (chain, outcome) := ConnectBest(stored.chain, Good(p, stored), n);
        (stored.(chain := chain), outcome)
  }

  /** checkBlockSanity: a block has sane transactions, and only the first of them is a coinbase. */
  predicate Sane(p: Params, b: Block) {
    && b.hash == p.hashOf(b.header)
    && |b.txs| > 0 && (forall i :: 0 <= i < |b.txs| ==> (b.txs[i].coinbase <==> i == 0))
    && forall i {:trigger TxSane(b.txs[i])} :: 0 <= i < |b.txs| ==> TxSane(b.txs[i])
  }

  /** ProcessBlock, without the orphan pool: known and insane blocks are turned away. */
  function Offer(p: Params, c: Core, b: Block): Core {
    if b.hash in c.index || !Sane(p, b) then c else Accept(p, c, b).0
  }

  function Run(p: Params, c: Core, offered: seq<Block>): Core {
    if offered == [] then c else Offer(p, Run(p, c, offered[..|offered| - 1]), offered[|offered| - 1])
  }

  /** createChainState. */
  function Initial(p: Params, genesis: Block): Core
    requires p.genesis.Node?
  {
    Core(map[p.genesis.hash := p.genesis],
         Chain(map[p.genesis := {DataStored, Valid}], p.genesis),
         map[p.genesis.hash := genesis])
  }

  // --- What every reachable state satisfies

  ghost predicate Indexed(c: Core) {
    && (forall h {:trigger IndexedAt(c, h)} :: h in c.index ==> IndexedAt(c, h))
    && (forall n {:trigger Lookup(c.index, n)} :: n in c.chain.status ==> Lookup(c.index, n))
  }

  predicate IndexedAt(c: Core, h: Hash)
    requires h in c.index
  {
    c.index[h].Node? && c.index[h].hash == h && c.index[h] in c.chain.status
  }

  predicate StoredAs(p: Params, n: BlockNode, b: Block) {
    n.Node? && b.hash == n.hash && b.header == HeaderOf(n) && Sane(p, b)
  }

  predicate StoredNode(p: Params, c: Core, n: BlockNode) {
    n.Node? && n.hash in c.blocks && StoredAs(p, n, c.blocks[n.hash])
  }

  ghost predicate Stored(p: Params, c: Core) {
    && (forall n {:trigger StoredNode(p, c, n)} :: n in c.chain.status ==> StoredNode(p, c, n))
    && (forall h :: h in c.blocks ==> h in c.index)
  }

  ghost predicate CoreInv(p: Params, c: Core) {
    Indexed(c) && Stored(p, c) && Inv(p.genesis, c.chain, Good(p, c))
  }

  /** The block is new and belongs below an indexed node. */
  ghost predicate Fits(p: Params, c: Core, n: BlockNode, b: Block) {
    && n.Node? && n.parent.Node? && n.parent in c.chain.status
    && b.hash !in c.index && Sane(p, b) && b.header.prevBlock == n.parent.hash
    && n == NewBlockNode(b.hash, b.header, n.parent)
  }

  lemma StillStored(p: Params, c: Core, n: BlockNode, b: Block, m: BlockNode)
    requires Stored(p, c) && Fits(p, c, n, b) && m in c.chain.status
    ensures SameBlock(c.blocks, AddBlock(c, n, b).blocks, m)
  {
    assert StoredNode(p, c, m);
  }

  lemma LedgerStable(p: Params, c: Core, n: BlockNode, b: Block, m: BlockNode)
    requires CoreInv(p, c) && Fits(p, c, n, b) && m in c.chain.status && m.Node?
    ensures LedgerAt(c.blocks, m) == LedgerAt(AddBlock(c, n, b).blocks, m)
  {
    PathInTree(p.genesis, c.chain, m);
    forall k | k in Path(m) ensures SameBlock(c.blocks, AddBlock(c, n, b).blocks, k) {
      StillStored(p, c, n, b, k);
    }
    LedgerDependsOnPath(c.blocks, AddBlock(c, n, b).blocks, m);
  }

  lemma CheckStable(p: Params, c: Core, n: BlockNode, b: Block, m: BlockNode)
    requires CoreInv(p, c) && Fits(p, c, n, b) && m in c.chain.status
    ensures Check(p, AddBlock(c, n, b).blocks, m) == Check(p, c.blocks, m)
  {
    assert InTree(p.genesis, c.chain.status, m);
    StillStored(p, c, n, b, m);
    if m.parent.Node? {
      LedgerStable(p, c, n, b, m.parent);
    }
  }

  lemma AddedIsNew(p: Params, c: Core, n: BlockNode, b: Block)
    requires CoreInv(p, c) && Fits(p, c, n, b)
    ensures n !in c.chain.status
    ensures Indexed(AddBlock(c, n, b)) && Stored(p, AddBlock(c, n, b))
  {
    AddedIndexed(c, n, b);
    AddedStored(p, c, n, b);
  }

  lemma AddedIndexed(c: Core, n: BlockNode, b: Block)
    requires Indexed(c) && n.Node? && n.hash !in c.index
    ensures n !in c.chain.status && Indexed(AddBlock(c, n, b))
  {
    var d := AddBlock(c, n, b);
    forall h | h in d.index ensures IndexedAt(d, h) {
      if h != n.hash { assert IndexedAt(c, h); }
    }
    assert n !in c.chain.status || Lookup(c.index, n);
    forall m | m in d.chain.status ensures Lookup(d.index, m) {
      if m != n { assert Lookup(c.index, m); }
    }
  }

  lemma AddedStored(p: Params, c: Core, n: BlockNode, b: Block)
    requires Indexed(c) && Stored(p, c) && Fits(p, c, n, b)
    ensures Stored(p, AddBlock(c, n, b))
  {
    var d := AddBlock(c, n, b);
    forall m | m in d.chain.status ensures StoredNode(p, d, m) {
      if m != n {
        assert StoredNode(p, c, m) && Lookup(c.index, m);
      }
    }
  }

  lemma AddedPending(p: Params, c: Core, n: BlockNode, b: Block)
    requires CoreInv(p, c) && Fits(p, c, n, b)
    ensures Pending(p.genesis, AddBlock(c, n, b).chain, Good(p, AddBlock(c, n, b)), n)
  {
    var d := AddBlock(c, n, b).chain;
    AddedIsNew(p, c, n, b);
    AddedClosed(p.genesis, c.chain, d, n);
    AllSound(p, c, n, b, d, Good(p, AddBlock(c, n, b)));
    AddedHeaviest(p.genesis, c.chain, d, n);
  }

  lemma AllSound(p: Params, c: Core, n: BlockNode, b: Block, d: Chain, good: set<BlockNode>)
    requires CoreInv(p, c) && Fits(p, c, n, b) && n !in c.chain.status
    requires d == AddBlock(c, n, b).chain && good == Good(p, AddBlock(c, n, b))
    ensures Sound(d, good)
  {
    forall m | m in d.status ensures FlagsSound(d.status, good, m) {
      if m != n {
        AddedSound(p, c, n, b, m);
      }
    }
    assert FlagsSound(d.status, good, d.tip);
  }

  lemma AddedClosed(genesis: BlockNode, c: Chain, d: Chain, n: BlockNode)
    requires Closed(genesis, c) && n.Node? && n.parent.Node? && n.parent in c.status
    requires d == Chain(c.status[n := {DataStored}], c.tip)
    ensures Closed(genesis, d)
  {
    forall m | m in d.status ensures InTree(genesis, d.status, m) {
      if m != n { assert InTree(genesis, c.status, m); }
    }
  }

  lemma AddedHeaviest(genesis: BlockNode, c: Chain, d: Chain, n: BlockNode)
    requires Closed(genesis, c) && Heaviest(c) && n !in c.status
    requires d == Chain(c.status[n := {DataStored}], c.tip)
    ensures HeaviestBut(d, n)
  {
    forall m | m in d.status && m != n && Clean(d.status, m) ensures WorkSum(m) <= WorkSum(d.tip) {
      CleanBefore(genesis, c, d.status, n, m);
    }
  }

  lemma AddedSound(p: Params, c: Core, n: BlockNode, b: Block, m: BlockNode)
    requires CoreInv(p, c) && Fits(p, c, n, b) && m in c.chain.status && n !in c.chain.status
    ensures FlagsSound(AddBlock(c, n, b).chain.status, Good(p, AddBlock(c, n, b)), m)
  {
    CheckStable(p, c, n, b, m);
    assert FlagsSound(c.chain.status, Good(p, c), m);
    assert m in Good(p, c) <==> m in Good(p, AddBlock(c, n, b));
  }

  /** A node indexed before n was, and its ancestors, kept their flags. */
  lemma {:induction false} CleanBefore(genesis: BlockNode, c: Chain, status: Statuses, n: BlockNode, m: BlockNode)
    requires Closed(genesis, c) && m in c.status && n !in c.status && Clean(status, m)
    requires forall k :: k in c.status ==> k in status && status[k] == c.status[k]
    ensures Clean(c.status, m)
  {
    assert InTree(genesis, c.status, m);
    if m.parent.Node? {
      CleanBefore(genesis, c, status, n, m.parent);
    }
  }

  /** One offered block keeps every invariant and never costs the best chain any work. */
  lemma OfferSafe(p: Params, c: Core, b: Block)
    requires CoreInv(p, c)
    ensures CoreInv(p, Offer(p, c, b))
    ensures WorkSum(c.chain.tip) <= WorkSum(Offer(p, c, b).chain.tip)
  {
    if Offer(p, c, b) != c {
      assert IndexedAt(c, b.header.prevBlock);
      var n := NewBlockNode(b.hash, b.header, c.index[b.header.prevBlock]);
      var stored := AddBlock(c, n, b);
      AddedIsNew(p, c, n, b);
      AddedPending(p, c, n, b);
      ConnectBestSafe(p.genesis, stored.chain, Good(p, stored), n);
      ConnectBestKeys(stored.chain, Good(p, stored), n);
      FlagsAside(p, stored, Offer(p, c, b));
    }
  }

  lemma ConnectBestKeys(c: Chain, good: set<BlockNode>, n: BlockNode)
    requires n.Node?
    ensures ConnectBest(c, good, n).0.status.Keys == c.status.Keys
  {
  }

  /** Flags and tip do not affect what is indexed, what is stored or what passes. */
  lemma FlagsAside(p: Params, c: Core, d: Core)
    requires d == c.(chain := d.chain) && d.chain.status.Keys == c.chain.status.Keys
    requires Indexed(c) && Stored(p, c)
    ensures Indexed(d) && Stored(p, d) && Good(p, d) == Good(p, c)
  {
    forall h | h in d.index ensures IndexedAt(d, h) {
      assert IndexedAt(c, h);
    }
    forall n | n in d.chain.status ensures Lookup(d.index, n) && StoredNode(p, d, n) {
      assert Lookup(c.index, n) && StoredNode(p, c, n);
    }
  }

  lemma InitialSafe(p: Params, genesis: Block)
    requires StoredAs(p, p.genesis, genesis) && p.genesis.parent.Nil?
    ensures CoreInv(p, Initial(p, genesis))
  {
    var c := Initial(p, genesis);
    assert FlagsSound(c.chain.status, Good(p, c), p.genesis) && InTree(p.genesis, c.chain.status, p.genesis);
  }

  lemma {:induction false} RunSafe(p: Params, c: Core, offered: seq<Block>)
    requires CoreInv(p, c)
    ensures CoreInv(p, Run(p, c, offered))
  {
    if offered != [] {
      RunSafe(p, c, offered[..|offered| - 1]);
      OfferSafe(p, Run(p, c, offered[..|offered| - 1]), offered[|offered| - 1]);
    }
  }

  /** Every block of the branch above genesis passes on top of the one below it. */
  ghost predicate ValidBranch(p: Params, c: Core, n: BlockNode) {
    forall m :: m in Path(n) ==> m == p.genesis || Check(p, c.blocks, m)
  }

  /**
   * After any sequence of offered blocks the best chain is a valid chain of the most work among all
   * indexed valid chains.
   */
  lemma BestChainAlways(p: Params, genesis: Block, offered: seq<Block>)
    requires StoredAs(p, p.genesis, genesis) && p.genesis.parent.Nil?
    ensures var c := Run(p, Initial(p, genesis), offered);
      && ValidBranch(p, c, c.chain.tip)
      && forall n :: n in c.chain.status && ValidBranch(p, c, n) ==> WorkSum(n) <= WorkSum(c.chain.tip)
  {
    InitialSafe(p, genesis);
    RunSafe(p, Initial(p, genesis), offered);
    BestIsValid(p, Run(p, Initial(p, genesis), offered));
  }

  /**
   * After any sequence of offered blocks: no indexed branch without a block known to be invalid has more
   * work than the best one; nothing is known to be both valid and invalid; what is known to be valid
   * stands on blocks known to be valid, and the best chain consists of such blocks; and every mark for an
   * invalid ancestor is owed to a block below that failed validation.
   */
  lemma FlagsAlways(p: Params, genesis: Block, offered: seq<Block>)
    requires StoredAs(p, p.genesis, genesis) && p.genesis.parent.Nil?
    ensures var c := Run(p, Initial(p, genesis), offered).chain;
      && (forall n :: n in c.status && NoInvalidOn(c.status, n) ==> WorkSum(n) <= WorkSum(c.tip))
      && (forall n :: n in c.status ==> FlagsMean(c.status, n))
      && c.tip in c.status && KnownValid(c.status[c.tip])
  {
    InitialSafe(p, genesis);
    RunSafe(p, Initial(p, genesis), offered);
    var c := Run(p, Initial(p, genesis), offered);
    forall n | n in c.chain.status ensures FlagsMean(c.chain.status, n) {
      SoundFlagsMean(c.chain, Good(p, c), n);
    }
    forall n | n in c.chain.status && NoInvalidOn(c.chain.status, n) ensures WorkSum(n) <= WorkSum(c.chain.tip) {
      CleanIsPath(c.chain.status, n);
    }
  }

  /** The block is reported to be on the main chain although it is not the tip. */
  predicate WronglyReported(p: Params, c: Core, b: Block) {
    && Accept(p, c, b).1 == Accepted(true)
    && !(b.header.prevBlock in c.index &&
         Accept(p, c, b).0.chain.tip == NewBlockNode(b.hash, b.header, c.index[b.header.prevBlock]))
  }

  /**
   * The block gets past all checks before it is connected and brings enough work, but stands on a branch that
   * is known to be invalid somewhere below its parent.
   */
  ghost predicate OnOverlookedBranch(p: Params, c: Core, b: Block) {
    && b.header.prevBlock in c.index
    && var prev := c.index[b.header.prevBlock];
    && prev in c.chain.status && !KnownInvalid(c.chain.status[prev]) && p.context(b, prev)
    && WorkSum(NewBlockNode(b.hash, b.header, prev)) > WorkSum(c.chain.tip) && !NoInvalidOn(c.chain.status, prev)
  }

  /** After any sequence of offered blocks: exactly which new blocks are wrongly reported. */
  lemma ReportedAlways(p: Params, genesis: Block, offered: seq<Block>, b: Block)
    requires StoredAs(p, p.genesis, genesis) && p.genesis.parent.Nil? && Sane(p, b)
    requires b.hash !in Run(p, Initial(p, genesis), offered).index
    ensures var c := Run(p, Initial(p, genesis), offered); WronglyReported(p, c, b) <==> OnOverlookedBranch(p, c, b)
  {
    var c := Run(p, Initial(p, genesis), offered);
    InitialSafe(p, genesis);
    RunSafe(p, Initial(p, genesis), offered);
    if WronglyReported(p, c, b) {
      WrongIsOverlooked(p, c, b);
    }
    if OnOverlookedBranch(p, c, b) {
      OverlookedIsWrong(p, c, b);
    }
  }

  lemma WrongIsOverlooked(p: Params, c: Core, b: Block)
    requires CoreInv(p, c) && Sane(p, b) && b.hash !in c.index && WronglyReported(p, c, b)
    ensures OnOverlookedBranch(p, c, b)
  {
    ReportedHere(p, c, b);
    assert IndexedAt(c, b.header.prevBlock);
  }

  lemma OverlookedIsWrong(p: Params, c: Core, b: Block)
    requires CoreInv(p, c) && Sane(p, b) && b.hash !in c.index && OnOverlookedBranch(p, c, b)
    ensures WronglyReported(p, c, b)
  {
    assert IndexedAt(c, b.header.prevBlock);
    var prev := c.index[b.header.prevBlock];
    var n := NewBlockNode(b.hash, b.header, prev);
    var d := AddBlock(c, n, b);
    AddedIsNew(p, c, n, b);
    AddedPending(p, c, n, b);
    PathInTree(p.genesis, c.chain, prev);
    SameBelow(c.chain.status, d.chain.status, n);
    TaintedIsReported(p.genesis, d.chain, Good(p, d), n);
  }

  lemma ReportedHere(p: Params, c: Core, b: Block)
    requires CoreInv(p, c) && Sane(p, b) && b.hash !in c.index && Accept(p, c, b).1 == Accepted(true)
    ensures b.header.prevBlock in c.index
    ensures var prev := c.index[b.header.prevBlock];
      Accept(p, c, b).0.chain.tip == NewBlockNode(b.hash, b.header, prev) <==> NoInvalidOn(c.chain.status, prev)
  {
    assert IndexedAt(c, b.header.prevBlock);
    var prev := c.index[b.header.prevBlock];
    var n := NewBlockNode(b.hash, b.header, prev);
    var d := AddBlock(c, n, b);
    AddedIsNew(p, c, n, b);
    AddedPending(p, c, n, b);
    ReportedMain(p.genesis, d.chain, Good(p, d), n);
    PathInTree(p.genesis, c.chain, prev);
    SameBelow(c.chain.status, d.chain.status, n);
  }

  lemma SameBelow(a: Statuses, b: Statuses, n: BlockNode)
    requires n.Node? && n !in a && b == a[n := {DataStored}] && forall m :: m in Path(n.parent) ==> m in a
    ensures NoInvalidOn(b, n) <==> NoInvalidOn(a, n.parent)
  {
    assert forall m :: m in Path(n) <==> m in Path(n.parent) || m == n;
  }

  lemma BestIsValid(p: Params, c: Core)
    requires CoreInv(p, c)
    ensures ValidBranch(p, c, c.chain.tip)
    ensures forall n :: n in c.chain.status && ValidBranch(p, c, n) ==> WorkSum(n) <= WorkSum(c.chain.tip)
  {
    BestChainIsHeaviestValid(p.genesis, c.chain, Good(p, c));
    forall n | n in c.chain.status && ValidBranch(p, c, n) ensures WorkSum(n) <= WorkSum(c.chain.tip) {
      PathInTree(p.genesis, c.chain, n);
      assert forall m :: m in Path(n) ==> m == p.genesis || m in Good(p, c);
    }
  }

  /** Later offers never cost the best chain work. */
  lemma {:induction false} WorkNeverDecreases(p: Params, c: Core, offered: seq<Block>, k: nat)
    requires CoreInv(p, c) && k <= |offered|
    ensures WorkSum(Run(p, c, offered[..k]).chain.tip) <= WorkSum(Run(p, c, offered).chain.tip)
  {
    if k == |offered| {
      assert offered[..k] == offered;
    } else {
      var init := offered[..|offered| - 1];
      WorkNeverDecreases(p, c, init, k);
      assert init[..k] == offered[..k];
      RunSafe(p, c, init);
      OfferSafe(p, Run(p, c, init), offered[|offered| - 1]);
    }
  }

  /**
   * Two nodes that know each other's best chain agree on how much work the best chain has, no matter in
   * which order the blocks arrived or what else either of them knows.
   */
  lemma Convergence(p: Params, c: Core, d: Core)
    requires CoreInv(p, c) && CoreInv(p, d)
    requires c.chain.tip in d.chain.status && d.chain.tip in c.chain.status
    requires forall h :: h in c.blocks && h in d.blocks ==> c.blocks[h] == d.blocks[h]
    ensures WorkSum(c.chain.tip) == WorkSum(d.chain.tip)
  {
    NoHeavier(p, c, d);
    NoHeavier(p, d, c);
  }

  lemma NoHeavier(p: Params, c: Core, d: Core)
    requires CoreInv(p, c) && CoreInv(p, d) && c.chain.tip in d.chain.status
    requires forall h :: h in c.blocks && h in d.blocks ==> c.blocks[h] == d.blocks[h]
    ensures WorkSum(c.chain.tip) <= WorkSum(d.chain.tip)
  {
    BestIsValid(p, c);
    BestIsValid(p, d);
    var tip := c.chain.tip;
    PathInTree(p.genesis, c.chain, tip);
    PathInTree(p.genesis, d.chain, tip);
    forall m | m in Path(tip) ensures m == p.genesis || Check(p, d.blocks, m) {
      if m != p.genesis {
        SameCheck(p, c, d, tip, m);
      }
    }
    assert ValidBranch(p, d, tip);
  }

  /** Nodes that store the same blocks judge a branch they both know alike. */
  lemma SameCheck(p: Params, c: Core, d: Core, tip: BlockNode, m: BlockNode)
    requires Stored(p, c) && Stored(p, d) && m in Path(tip) && Check(p, c.blocks, m)
    requires forall k :: k in Path(tip) ==> k in c.chain.status && k in d.chain.status
    requires forall h :: h in c.blocks && h in d.blocks ==> c.blocks[h] == d.blocks[h]
    ensures Check(p, d.blocks, m)
  {
    OnPath(m, tip);
    assert StoredNode(p, d, m);
    forall k | k in Path(m.parent) ensures SameBlock(c.blocks, d.blocks, k) {
      assert k in Path(m);
      OnPathTransitive(k, m, tip);
      assert StoredNode(p, c, k) && StoredNode(p, d, k);
    }
    LedgerDependsOnPath(c.blocks, d.blocks, m.parent);
  }
}
