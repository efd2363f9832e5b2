/** Rules, blocks and runs that meet what TwoNodes and Storage ask for. */
module Witnesses {
  import opened Primitives
  import opened BlockTree
  import opened Utxo
  import opened Ledgers
  import opened Selection
  import opened ChainCore
  import opened Duplicates
  import opened Lawful
  import TwoNodes
  import Misreport

  // --- Two nodes with different blocks

  lemma RunSingle(p: Params, c: Core, b: Block)
    ensures Run(p, c, [b]) == Offer(p, c, b)
  {
    assert [b][..0] == [];
  }

  lemma RunTwo(p: Params, c: Core, a: Block, b: Block)
    ensures Run(p, c, [a, b]) == Offer(p, Offer(p, c, a), b)
  {
    RunSingle(p, c, a);
    assert [a, b][..1] == [a];
  }

  /** The first block on top of genesis is indexed, whether or not it passes. */
  lemma FirstIndexed(p: Params, genesis: Block, b: Block)
    requires StoredAs(p, p.genesis, genesis) && p.genesis.parent.Nil?
    requires Misreport.Fitting(p, b, p.genesis) && b.hash != genesis.hash
    ensures Run(p, Initial(p, genesis), [b]).index.Keys == {genesis.hash, b.hash}
  {
    RunSingle(p, Initial(p, genesis), b);
  }

  lemma PairApart(genesis: Block, a: Block, x: Block)
    requires genesis.hash != a.hash && genesis.hash != x.hash && a.hash != x.hash
    ensures TwoNodes.Apart([genesis] + [x], [genesis] + [a])
  {
  }

  /** Two nodes, each with a block on genesis that the other does not have. */
  lemma ForkedApart(p: Params, genesis: Block, a: Block, x: Block)
    requires StoredAs(p, p.genesis, genesis) && p.genesis.parent.Nil?
    requires Misreport.Fitting(p, a, p.genesis) && Misreport.Fitting(p, x, p.genesis)
    requires genesis.hash != a.hash && genesis.hash != x.hash && a.hash != x.hash
    ensures TwoNodes.Apart([genesis] + [x], [genesis] + [a])
    ensures var c, d := Run(p, Initial(p, genesis), [a]), Run(p, Initial(p, genesis), [x]);
      a.hash in c.index && a.hash !in d.index && x.hash in d.index && x.hash !in c.index
  {
    PairApart(genesis, a, x);
    FirstIndexed(p, genesis, a);
    FirstIndexed(p, genesis, x);
  }

  lemma ApartExists() returns (p: Params, genesis: Block, a: Block, x: Block)
    ensures StoredAs(p, p.genesis, genesis) && p.genesis.parent.Nil?
    ensures TwoNodes.Apart([genesis] + [x], [genesis] + [a])
    ensures var c, d := Run(p, Initial(p, genesis), [a]), Run(p, Initial(p, genesis), [x]);
      a.hash in c.index && a.hash !in d.index && x.hash in d.index && x.hash !in c.index
  {
    var s;
    p, s := Misreport.StoryExists();
    genesis, a, x := s.genesis, s.a, s.x;
    Misreport.Apart(s);
    ForkedApart(p, genesis, a, x);
  }

  // --- A chain that passes BIP0034Height

  /** The coinbase of the k-th block stands at height k - 1. */
  function Names(): Ids {
    Ids((h: Hash) => if 100 <= h.bytes[0] < 200 then Misreport.Reward(h.bytes[0] - 100) else Misreport.Reward(0),
        (h: Hash) => h.bytes[0] as int - 101)
  }

  /** Overwritten outputs are checked below height 2, and announced heights from there on. */
  ghost function Switching(): Params {
    Misreport.Rules().(
      bip0034Height := 2,
      context := (b: Block, prev: BlockNode) =>
        |b.txs| > 0 && (Height(prev) + 1 >= 2 ==> Names().heightOf(b.txs[0].hash) == Height(prev) + 1),
      connect := (n: BlockNode, b: Block, u: Utxos) => n.Node? && AllFresh(u, b.txs))
  }

  lemma Named(k: byte, prev: Hash)
    requires k < 100
    ensures Identifies(Names(), Misreport.Plain(k, prev))
    ensures Names().heightOf(Misreport.Reward(k).hash) == k - 1
  {
    Misreport.FirstByte(100 + k);
  }

  lemma SwitchingGuarded()
    ensures Guarded(Switching(), Names())
  {
  }

  lemma ExtendPasses(c: Chain, good: set<BlockNode>, m: BlockNode)
    requires m.Node? && m.parent == c.tip && m in c.status && m in good && !KnownInvalid(c.status[m])
    ensures var d := ConnectBest(c, good, m).0; d.status.Keys == c.status.Keys && !KnownInvalid(d.status[m])
  {
    assert Passes(c.status, good, m);
  }

  /** The first block on top of genesis passes. */
  lemma FirstPasses(p: Params, genesis: Block, a: Block, m: BlockNode)
    requires StoredAs(p, p.genesis, genesis) && p.genesis.parent.Nil? && Sane(p, a) && genesis.hash != a.hash
    requires m == NewBlockNode(a.hash, a.header, p.genesis) && a.header.prevBlock == p.genesis.hash
    requires p.context(a, p.genesis) && Check(p, map[genesis.hash := genesis, a.hash := a], m)
    ensures var c := Offer(p, Initial(p, genesis), a);
      && c.chain.status.Keys == {p.genesis, m} && !KnownInvalid(c.chain.status[m])
      && Lookup(c.index, m) && c.index.Keys == {genesis.hash, a.hash}
      && c.blocks == map[genesis.hash := genesis, a.hash := a]
  {
    var c := Initial(p, genesis);
    var d := AddBlock(c, m, a);
    assert d.blocks == map[genesis.hash := genesis, a.hash := a];
    assert m in Good(p, d);
    ExtendPasses(d.chain, Good(p, d), m);
  }

  lemma NextIndexed(p: Params, c: Core, b: Block, m: BlockNode, n: BlockNode)
    requires Sane(p, b) && b.hash !in c.index && Lookup(c.index, m) && b.header.prevBlock == m.hash
    requires n == NewBlockNode(b.hash, b.header, m) && p.context(b, m)
    requires m in c.chain.status && !KnownInvalid(c.chain.status[m])
    ensures Offer(p, c, b).chain.status.Keys == c.chain.status.Keys + {n}
    ensures Offer(p, c, b).blocks == c.blocks[b.hash := b]
  {
    ConnectBestKeys(AddBlock(c, n, b).chain, Good(p, AddBlock(c, n, b)), n);
  }

  /** Where the two blocks end up. */
  lemma BothIndexed(p: Params, genesis: Block, a: Block, b: Block, m: BlockNode, n: BlockNode)
    requires StoredAs(p, p.genesis, genesis) && p.genesis.parent.Nil? && Sane(p, a) && Sane(p, b)
    requires genesis.hash != a.hash && genesis.hash != b.hash && a.hash != b.hash
    requires m == NewBlockNode(a.hash, a.header, p.genesis) && a.header.prevBlock == p.genesis.hash
    requires n == NewBlockNode(b.hash, b.header, m) && b.header.prevBlock == m.hash
    requires p.context(a, p.genesis) && p.context(b, m) && Check(p, map[genesis.hash := genesis, a.hash := a], m)
    ensures var c := Run(p, Initial(p, genesis), [a, b]);
      && c.chain.status.Keys == {p.genesis, m, n}
      && c.blocks == map[genesis.hash := genesis, a.hash := a, b.hash := b]
  {
    RunTwo(p, Initial(p, genesis), a, b);
    FirstPasses(p, genesis, a, m);
    NextIndexed(p, Offer(p, Initial(p, genesis), a), b, m, n);
  }

  lemma ChecksFirst(p: Params, blocks: map<Hash, Block>, m: BlockNode, b: Block)
    requires p == Switching() && m == NewBlockNode(b.hash, b.header, p.genesis)
    requires b == Misreport.Plain(2, Misreport.Id(1))
    requires b.hash in blocks && blocks[b.hash] == b
    ensures Check(p, blocks, m)
  {
    var u, tx := LedgerAt(blocks, p.genesis).utxos, b.txs[0];
    assert u == map[] && Height(m) == 1 && blocks[m.hash].txs == [tx];
    Misreport.CoinbaseConnects(u, tx, 1);
    assert AllFresh(u, b.txs);
  }

  /** One coinbase below the height. */
  lemma EarlyOne(ids: Ids, blocks: map<Hash, Block>, g: BlockNode, m: BlockNode, n: BlockNode, tx: Tx)
    requires g.Node? && g.parent.Nil? && m.Node? && m.parent == g && n.Node? && n.parent == m
    requires BlockOf(blocks, m).txs == [tx] && ids.heightOf(tx.hash) < 2
    ensures EarlyApart(ids, 2, blocks, n)
  {
    assert Connected(blocks, g) == [] && Connected(blocks, m) == [tx];
    assert Height(g) == 0 && Height(m) == 1 && Height(n) == 2;
  }

  lemma EarlyRun(p: Params, ids: Ids, c: Core, m: BlockNode, n: BlockNode, tx: Tx)
    requires p.bip0034Height == 2 && p.genesis.Node? && p.genesis.parent.Nil?
    requires m.Node? && m.parent == p.genesis && n.Node? && n.parent == m
    requires c.chain.status.Keys == {p.genesis, m, n} && BlockOf(c.blocks, m).txs == [tx] && ids.heightOf(tx.hash) < 2
    ensures AllEarly(p, ids, c) && Height(n) == 2
  {
    assert Height(p.genesis) == 0 && Height(m) == 1 && Height(n) == 2;
    EarlyOne(ids, c.blocks, p.genesis, m, n, tx);
  }

  lemma PlainSane(k: byte, prev: Hash)
    requires k < 100
    ensures Sane(Switching(), Misreport.Plain(k, prev))
  {
  }

  lemma InContext(k: byte, prev: BlockNode)
    requires k < 100 && Height(prev) == k - 2
    ensures prev.Node? ==> Switching().context(Misreport.Plain(k, prev.hash), prev)
  {
    if prev.Node? {
      Named(k, prev.hash);
    }
  }

  /** The two blocks are in order. */
  lemma InOrder(p: Params, genesis: Block, a: Block, b: Block, m: BlockNode, n: BlockNode)
    requires p == Switching() && genesis == Misreport.Plain(1, ZERO_HASH)
    requires a == Misreport.Plain(2, Misreport.Id(1)) && b == Misreport.Plain(3, Misreport.Id(2))
    requires m == NewBlockNode(a.hash, a.header, p.genesis) && n == NewBlockNode(b.hash, b.header, m)
    ensures StoredAs(p, p.genesis, genesis) && Sane(p, a) && Sane(p, b)
    ensures genesis.hash != a.hash && genesis.hash != b.hash && a.hash != b.hash
    ensures p.context(a, p.genesis) && p.context(b, m)
  {
    PlainSane(1, ZERO_HASH);
    PlainSane(2, Misreport.Id(1));
    PlainSane(3, Misreport.Id(2));
    Misreport.IdsDiffer(1, 2);
    Misreport.IdsDiffer(1, 3);
    Misreport.IdsDiffer(2, 3);
    assert Height(p.genesis) == 0 && Height(m) == 1;
    InContext(2, p.genesis);
    InContext(3, m);
  }

  /** Rules that switch at height 2, and a run that passes that height and meets all that is asked of runs. */
  lemma SwitchingExists() returns (p: Params, ids: Ids, genesis: Block, a: Block, b: Block)
    ensures StoredAs(p, p.genesis, genesis) && p.genesis.parent.Nil? && Guarded(p, ids) && p.bip0034Height == 2
    ensures Identifies(ids, a) && Identifies(ids, b)
    ensures AllEarly(p, ids, Run(p, Initial(p, genesis), [a, b]))
    ensures exists n :: n in Run(p, Initial(p, genesis), [a, b]).chain.status && Height(n) == 2
  {
    p, ids, genesis := Switching(), Names(), Misreport.Plain(1, ZERO_HASH);
    a, b := Misreport.Plain(2, Misreport.Id(1)), Misreport.Plain(3, Misreport.Id(2));
    var m := NewBlockNode(a.hash, a.header, p.genesis);
    var n := NewBlockNode(b.hash, b.header, m);
    SwitchingGuarded();
    InOrder(p, genesis, a, b, m, n);
    Named(2, Misreport.Id(1));
    Named(3, Misreport.Id(2));
    ChecksFirst(p, map[genesis.hash := genesis, a.hash := a], m, a);
    BothIndexed(p, genesis, a, b, m, n);
    EarlyRun(p, ids, Run(p, Initial(p, genesis), [a, b]), m, n, Misreport.Reward(2));
    assert n in Run(p, Initial(p, genesis), [a, b]).chain.status;
  }
}
