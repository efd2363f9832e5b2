/** Locators between two nodes that have indexed different blocks (blockchain/chain.go, blockchain/blockindex.go). */
module TwoNodes {
  import opened Primitives
  import opened BlockTree
  import opened Locator
  import opened Utxo
  import opened Selection
  import opened ChainCore
  import opened Inventory

  predicate SameHeader(a: BlockNode, m: BlockNode) {
    a.Node? && m.Node? && a.hash == m.hash ==> HeaderOf(a) == HeaderOf(m)
  }

  /** Whatever both nodes have indexed under one hash has one header. */
  ghost predicate NoCollision(c: Core, d: Core) {
    forall a, m {:trigger SameHeader(a, m)} :: a in d.chain.status && m in c.chain.status ==> SameHeader(a, m)
  }

  /** Every block of a node's best chain is indexed. */
  lemma ChainIndexed(p: Params, c: Core)
    requires CoreInv(p, c)
    ensures BranchIndexed(c.index, c.chain.tip)
  {
    PathInTree(p.genesis, c.chain, c.chain.tip);
    forall a | a in Path(c.chain.tip) ensures Lookup(c.index, a) {
      assert a in c.chain.status ==> Lookup(c.index, a);
    }
  }

  /** Only genesis is indexed under its hash. */
  lemma GenesisAlone(p: Params, c: Core, m: BlockNode)
    requires CoreInv(p, c) && m in c.chain.status && m.Node? && m.hash == p.genesis.hash
    ensures m == p.genesis
  {
    PathInTree(p.genesis, c.chain, m);
    assert p.genesis in Path(m);
    assert Lookup(c.index, m) && Lookup(c.index, p.genesis);
  }

  /** A block both nodes have indexed under one hash is the same block with the same ancestors. */
  lemma {:induction false} SameNode(p: Params, c: Core, d: Core, a: BlockNode, m: BlockNode)
    requires NoCollision(c, d) && CoreInv(p, c) && CoreInv(p, d)
    requires a in d.chain.status && m in c.chain.status && a.Node? && m.Node? && a.hash == m.hash
    ensures a == m
    decreases a
  {
    assert InTree(p.genesis, d.chain.status, a) && InTree(p.genesis, c.chain.status, m);
    if a == p.genesis {
      GenesisAlone(p, c, m);
    } else if m == p.genesis {
      GenesisAlone(p, d, a);
    } else {
      assert SameHeader(a, m);
      SameNode(p, c, d, a.parent, m.parent);
    }
  }

  lemma IndexRecognises(p: Params, c: Core, d: Core, x: BlockNode)
    requires NoCollision(c, d) && CoreInv(p, c) && CoreInv(p, d) && x in d.chain.status
    ensures Recognised(c.index, x)
  {
    PathInTree(p.genesis, d.chain, x);
    forall a | a in Path(x) ensures a.Node? && (a.hash in c.index ==> c.index[a.hash] == a) {
      assert InTree(p.genesis, d.chain.status, a);
      if a.hash in c.index {
        assert IndexedAt(c, a.hash);
        SameNode(p, c, d, a, c.index[a.hash]);
      }
    }
  }

  /** A node recognises whatever another has indexed if and only if no hash stands for two headers. */
  lemma RecognisedExactly(p: Params, c: Core, d: Core)
    requires CoreInv(p, c) && CoreInv(p, d)
    ensures (forall x :: x in d.chain.status ==> Recognised(c.index, x)) <==> NoCollision(c, d)
  {
    if NoCollision(c, d) {
      forall x | x in d.chain.status ensures Recognised(c.index, x) {
        IndexRecognises(p, c, d, x);
      }
    }
    if forall x :: x in d.chain.status ==> Recognised(c.index, x) {
      forall a, m | a in d.chain.status && m in c.chain.status ensures SameHeader(a, m) {
        assert Recognised(c.index, a) && InTree(p.genesis, d.chain.status, a) && Lookup(c.index, m);
        assert a in Path(a);
      }
    }
  }

  /** All branches share genesis. */
  lemma ForkBetween(p: Params, c: Core, d: Core, x: BlockNode)
    requires CoreInv(p, c) && CoreInv(p, d) && x in d.chain.status
    ensures Fork(c.chain.tip, x).Node?
  {
    PathInTree(p.genesis, c.chain, c.chain.tip);
    PathInTree(p.genesis, d.chain, x);
    ForkIsHighestCommon(c.chain.tip, x);
    assert p.genesis in Path(c.chain.tip) && p.genesis in Path(x);
  }

  /**
   * Two nodes in any states: the answer of the one to the locator of any block x the other has indexed is a run of
   * at most maxHashes blocks after a main-chain ancestor of x less than twice as far below x as the fork is, and it
   * is empty only when that ancestor is the tip or nothing is asked for.
   */
  lemma AnswerBetweenNodes(p: Params, c: Core, d: Core, x: BlockNode, locator: seq<Hash>, stop: BlockNode,
                           maxHashes: nat, hashes: seq<Hash>)
    requires NoCollision(c, d) && CoreInv(p, c) && CoreInv(p, d) && x in d.chain.status && x.Node?
    requires c.chain.tip.Node? && IsLocator(locator, x)
    requires Served(c.index, c.chain.tip, locator, stop, maxHashes, hashes)
    ensures Fork(c.chain.tip, x).Node? && |hashes| <= maxHashes && NearRun(c.chain.tip, x, hashes)
    ensures hashes == [] <==> maxHashes == 0 || FirstKnown(c.index, c.chain.tip, locator) == c.chain.tip
  {
    ChainIndexed(p, c);
    IndexRecognises(p, c, d, x);
    ForkBetween(p, c, d, x);
    AnswerToLocator(c.index, c.chain.tip, x, locator, stop, maxHashes, hashes);
  }

  // --- After any two runs

  /** No two of the blocks have one hash and different headers. */
  predicate Apart(xs: seq<Block>, ys: seq<Block>) {
    forall i, j :: 0 <= i < |xs| && 0 <= j < |ys| && xs[i].hash == ys[j].hash ==> xs[i].header == ys[j].header
  }

  /** A node stores nothing but genesis and blocks it was offered. */
  lemma {:induction false} FromOffered(p: Params, genesis: Block, offered: seq<Block>, h: Hash)
    requires p.genesis.Node? && h in Run(p, Initial(p, genesis), offered).blocks
    ensures Run(p, Initial(p, genesis), offered).blocks[h] in [genesis] + offered
  {
    if offered != [] {
      var c := Run(p, Initial(p, genesis), offered[..|offered| - 1]);
      assert offered[|offered| - 1] in [genesis] + offered;
      if h in c.blocks && Offer(p, c, offered[|offered| - 1]).blocks[h] == c.blocks[h] {
        FromOffered(p, genesis, offered[..|offered| - 1], h);
      }
    }
  }

  lemma HeaderOffered(p: Params, genesis: Block, offered: seq<Block>, n: BlockNode) returns (i: nat)
    requires StoredAs(p, p.genesis, genesis) && p.genesis.parent.Nil?
    requires n in Run(p, Initial(p, genesis), offered).chain.status
    ensures n.Node? && i < |[genesis] + offered|
    ensures ([genesis] + offered)[i].hash == n.hash && ([genesis] + offered)[i].header == HeaderOf(n)
  {
    var c := Run(p, Initial(p, genesis), offered);
    InitialSafe(p, genesis);
    RunSafe(p, Initial(p, genesis), offered);
    assert StoredNode(p, c, n);
    FromOffered(p, genesis, offered, n.hash);
    i :| 0 <= i < |[genesis] + offered| && ([genesis] + offered)[i] == c.blocks[n.hash];
  }

  lemma RunsApart(p: Params, genesis: Block, xs: seq<Block>, ys: seq<Block>)
    requires StoredAs(p, p.genesis, genesis) && p.genesis.parent.Nil? && Apart([genesis] + ys, [genesis] + xs)
    ensures NoCollision(Run(p, Initial(p, genesis), xs), Run(p, Initial(p, genesis), ys))
  {
    var c, d := Run(p, Initial(p, genesis), xs), Run(p, Initial(p, genesis), ys);
    forall a, m | a in d.chain.status && m in c.chain.status ensures SameHeader(a, m) {
      var i := HeaderOffered(p, genesis, ys, a);
      var j := HeaderOffered(p, genesis, xs, m);
    }
  }

  /** The two nodes after any two runs over blocks whose hashes do not collide. */
  lemma AnswerAfterRuns(p: Params, genesis: Block, xs: seq<Block>, ys: seq<Block>, c: Core, d: Core, x: BlockNode,
                        locator: seq<Hash>, stop: BlockNode, maxHashes: nat, hashes: seq<Hash>)
    requires StoredAs(p, p.genesis, genesis) && p.genesis.parent.Nil? && Apart([genesis] + ys, [genesis] + xs)
    requires c == Run(p, Initial(p, genesis), xs) && d == Run(p, Initial(p, genesis), ys)
    requires x in d.chain.status && x.Node? && c.chain.tip.Node? && IsLocator(locator, x)
    requires Served(c.index, c.chain.tip, locator, stop, maxHashes, hashes)
    ensures Fork(c.chain.tip, x).Node? && |hashes| <= maxHashes && NearRun(c.chain.tip, x, hashes)
    ensures hashes == [] <==> maxHashes == 0 || FirstKnown(c.index, c.chain.tip, locator) == c.chain.tip
  {
    InitialSafe(p, genesis);
    RunSafe(p, Initial(p, genesis), xs);
    RunSafe(p, Initial(p, genesis), ys);
    RunsApart(p, genesis, xs, ys);
    AnswerBetweenNodes(p, c, d, x, locator, stop, maxHashes, hashes);
  }
}
