/**
 * A run in which connectBestChain answers that a block is on the main chain although it is not
 * (blockchain/chain.go, blockchain/accept.go).  A failed reorganize marks the blocks of its own branch only;
 * another branch on the same bad block stays unmarked, and the next block on it is taken for a new tip.
 */
module Misreport {
  import opened Primitives
  import opened Compact
  import opened BlockTree
  import opened Utxo
  import opened Ledgers
  import opened Selection
  import opened ChainCore

  // --- One offered block

  /** The node is indexed and has exactly these flags. */
  predicate Has(c: Core, n: BlockNode, flags: Status) {
    Lookup(c.index, n) && n in c.chain.status && c.chain.status[n] == flags
  }

  /** Exactly the blocks of these hashes are indexed and stored, as the given map has them. */
  ghost predicate Holds(c: Core, all: map<Hash, Block>, hs: set<Hash>) {
    c.index.Keys == c.blocks.Keys == hs && forall h :: h in hs ==> h in all && c.blocks[h] == all[h]
  }

  /** The block is new, sane, in context and belongs on top of an indexed node that is not known to be invalid. */
  ghost predicate Arrives(p: Params, c: Core, all: map<Hash, Block>, hs: set<Hash>, b: Block, n: BlockNode) {
    && Holds(c, all, hs) && b.hash !in hs && b.hash in all && all[b.hash] == b && Sane(p, b)
    && n.Node? && n.parent.Node? && b.header.prevBlock == n.parent.hash && p.context(b, n.parent)
    && n == NewBlockNode(b.hash, b.header, n.parent)
    && Lookup(c.index, n.parent) && n.parent in c.chain.status && !KnownInvalid(c.chain.status[n.parent])
  }

  lemma Offered(p: Params, c: Core, all: map<Hash, Block>, hs: set<Hash>, b: Block, n: BlockNode)
    requires Arrives(p, c, all, hs, b, n)
    ensures var d := AddBlock(c, n, b);
      && Accept(p, c, b) == (d.(chain := ConnectBest(d.chain, Good(p, d), n).0), ConnectBest(d.chain, Good(p, d), n).1)
      && Offer(p, c, b) == Accept(p, c, b).0 && Has(d, n, {DataStored}) && Holds(d, all, hs + {b.hash})
  {
  }

  /** What is known of other nodes stays. */
  lemma StillHas(p: Params, c: Core, all: map<Hash, Block>, hs: set<Hash>, b: Block, n: BlockNode, m: BlockNode,
                 f: Status)
    requires Arrives(p, c, all, hs, b, n) && Has(c, m, f)
    ensures Has(AddBlock(c, n, b), m, f)
  {
  }

  lemma SameCheckOn(p: Params, some: map<Hash, Block>, all: map<Hash, Block>, n: BlockNode)
    requires n.Node? && n.parent.Node? && forall m :: m in Path(n) ==> SameBlock(some, all, m)
    ensures Check(p, some, n) == Check(p, all, n)
  {
    assert n in Path(n);
    LedgerDependsOnPath(some, all, n.parent);
  }

  /** The blocks of the branch have these hashes. */
  predicate PathIn(n: BlockNode, hs: set<Hash>) {
    forall m :: m in Path(n) ==> m.Node? && m.hash in hs
  }

  /** Whether a block passes depends on the blocks of its branch only. */
  lemma SameHere(p: Params, c: Core, all: map<Hash, Block>, hs: set<Hash>, n: BlockNode)
    requires n.Node? && n.parent.Node? && Holds(c, all, hs) && PathIn(n, hs)
    ensures Check(p, c.blocks, n) == Check(p, all, n)
  {
    SameCheckOn(p, c.blocks, all, n);
  }

  /** These nodes pass the checks, and those do not. */
  ghost predicate Judged(p: Params, all: map<Hash, Block>, good: set<BlockNode>, bad: set<BlockNode>) {
    forall n {:trigger Verdict(p, all, good, bad, n)} :: Verdict(p, all, good, bad, n)
  }

  predicate Verdict(p: Params, all: map<Hash, Block>, good: set<BlockNode>, bad: set<BlockNode>, n: BlockNode) {
    (n in good ==> Check(p, all, n)) && (n in bad ==> !Check(p, all, n))
  }

  /** The block passes and extends the best chain. */
  lemma Extends(p: Params, c: Core, all: map<Hash, Block>, hs: set<Hash>, b: Block, n: BlockNode,
                good: set<BlockNode>, bad: set<BlockNode>)
    requires Arrives(p, c, all, hs, b, n) && n.parent == c.chain.tip && PathIn(n, hs + {b.hash})
    requires Judged(p, all, good, bad) && n in good
    ensures var d := Offer(p, c, b);
      d.chain.tip == n && Has(d, n, {DataStored, Valid}) && Holds(d, all, hs + {b.hash})
    ensures forall m, f :: Has(c, m, f) ==> Has(Offer(p, c, b), m, f)
  {
    Offered(p, c, all, hs, b, n);
    SameHere(p, AddBlock(c, n, b), all, hs + {b.hash}, n);
    assert Verdict(p, all, good, bad, n);
    forall m, f | Has(c, m, f) ensures Has(Offer(p, c, b), m, f) {
      StillHas(p, c, all, hs, b, n, m, f);
    }
  }

  /** The block stands on a side chain without enough work. */
  lemma Waits(p: Params, c: Core, all: map<Hash, Block>, hs: set<Hash>, b: Block, n: BlockNode)
    requires Arrives(p, c, all, hs, b, n) && n.parent != c.chain.tip && WorkSum(n) <= WorkSum(c.chain.tip)
    ensures var d := Offer(p, c, b);
      d.chain.tip == c.chain.tip && Has(d, n, {DataStored}) && Holds(d, all, hs + {b.hash})
    ensures forall m, f :: Has(c, m, f) ==> Has(Offer(p, c, b), m, f)
  {
    Offered(p, c, all, hs, b, n);
    forall m, f | Has(c, m, f) ensures Has(Offer(p, c, b), m, f) {
      StillHas(p, c, all, hs, b, n, m, f);
    }
  }

  /** The block makes its branch the heaviest, but the first block of the branch does not pass. */
  lemma FailsAtFirst(p: Params, c: Core, all: map<Hash, Block>, hs: set<Hash>, b: Block, n: BlockNode, x: BlockNode,
                     y: BlockNode, good: set<BlockNode>, bad: set<BlockNode>)
    requires Arrives(p, c, all, hs, b, n) && n.parent == y && y != c.chain.tip && WorkSum(n) > WorkSum(c.chain.tip)
    requires Branch(c.chain.tip, n) == [x, y, n] && Has(c, x, {DataStored}) && Has(c, y, {DataStored})
    requires x != y && PathIn(x, hs) && x.parent.Node? && Judged(p, all, good, bad) && x in bad
    ensures var d := Offer(p, c, b);
      d.chain.tip == c.chain.tip && Has(d, x, {DataStored, ValidateFailed}) && Holds(d, all, hs + {b.hash})
    ensures forall m, f :: m != x && m != y && Has(c, m, f) ==> Has(Offer(p, c, b), m, f)
  {
    Offered(p, c, all, hs, b, n);
    var d := AddBlock(c, n, b);
    FirstFails(p, c, all, hs, b, n, x, y, good, bad);
    forall m, f | m != x && m != y && Has(c, m, f) ensures Has(Offer(p, c, b), m, f) {
      StillHas(p, c, all, hs, b, n, m, f);
    }
  }

  lemma FirstFails(p: Params, c: Core, all: map<Hash, Block>, hs: set<Hash>, b: Block, n: BlockNode, x: BlockNode,
                   y: BlockNode, good: set<BlockNode>, bad: set<BlockNode>)
    requires Arrives(p, c, all, hs, b, n) && n.parent == y && y != c.chain.tip && WorkSum(n) > WorkSum(c.chain.tip)
    requires Branch(c.chain.tip, n) == [x, y, n] && Has(c, x, {DataStored}) && Has(c, y, {DataStored})
    requires x != y && PathIn(x, hs) && x.parent.Node? && Judged(p, all, good, bad) && x in bad
    ensures var d := AddBlock(c, n, b);
      var after := ConnectBest(d.chain, Good(p, d), n).0;
      && after.tip == c.chain.tip && after.status.Keys == d.chain.status.Keys
      && x in after.status && after.status[x] == {DataStored, ValidateFailed}
      && forall m :: m in d.chain.status && m != x && m != y && m != n ==> after.status[m] == d.chain.status[m]
  {
    Offered(p, c, all, hs, b, n);
    var d := AddBlock(c, n, b);
    StillHas(p, c, all, hs, b, n, x, {DataStored});
    StillHas(p, c, all, hs, b, n, y, {DataStored});
    assert x !in Good(p, d) by {
      SameHere(p, d, all, hs + {b.hash}, x);
      assert Verdict(p, all, good, bad, x);
    }
    ThreeFail(d.chain, Good(p, d), n, x, y);
  }

  lemma ThreeFail(c: Chain, good: set<BlockNode>, n: BlockNode, x: BlockNode, y: BlockNode)
    requires n.Node? && n.parent == y && y != c.tip && WorkSum(n) > WorkSum(c.tip) && Branch(c.tip, n) == [x, y, n]
    requires x in c.status && y in c.status && n in c.status && x != y && x != n && x !in good
    requires c.status[x] == c.status[y] == c.status[n] == {DataStored}
    ensures var after := ConnectBest(c, good, n).0;
      && after.tip == c.tip && after.status.Keys == c.status.Keys && after.status[x] == {DataStored, ValidateFailed}
      && forall m :: m in c.status && m != x && m != y && m != n ==> after.status[m] == c.status[m]
  {
    NoneOfThree(c.status, x, y, n);
    ChainFailsAtFirst(c, good, n, [x, y, n]);
  }

  /** The first block of the branch is marked as failed; nodes elsewhere keep their flags. */
  lemma ChainFailsAtFirst(c: Chain, good: set<BlockNode>, n: BlockNode, branch: seq<BlockNode>)
    requires n.Node? && n.parent != c.tip && WorkSum(n) > WorkSum(c.tip) && Branch(c.tip, n) == branch
    requires branch != [] && NoneInvalid(c.status, branch) && n.parent in c.status && !KnownInvalid(c.status[n.parent])
    requires !Passes(c.status, good, branch[0]) && branch[0] !in branch[1..]
    ensures var d := ConnectBest(c, good, n).0;
      && d.tip == c.tip && d.status.Keys == c.status.Keys
      && d.status[branch[0]] == c.status[branch[0]] + {ValidateFailed}
      && forall m :: m in c.status && m !in branch ==> d.status[m] == c.status[m]
  {
    SwitchFailsAtFirst(c, good, n, branch);
    FirstMarked(c.status, branch);
  }

  lemma NoneOfThree(status: Statuses, x: BlockNode, y: BlockNode, n: BlockNode)
    requires x in status && y in status && n in status
    requires !KnownInvalid(status[x]) && !KnownInvalid(status[y]) && !KnownInvalid(status[n])
    ensures NoneInvalid(status, [x, y, n])
  {
  }

  lemma SwitchFailsAtFirst(c: Chain, good: set<BlockNode>, n: BlockNode, branch: seq<BlockNode>)
    requires n.Node? && n.parent != c.tip && WorkSum(n) > WorkSum(c.tip) && Branch(c.tip, n) == branch
    requires branch != [] && NoneInvalid(c.status, branch) && n.parent in c.status && !KnownInvalid(c.status[n.parent])
    requires !Passes(c.status, good, branch[0])
    ensures ConnectBest(c, good, n) == (Chain(MarkFailure(c.status, branch, 0), c.tip), RuleFailed)
  {
    LastInvalidIs(c.status, branch, -1);
    assert FirstFailing(c.status, good, branch) == 0;
  }

  /** The marks of a failure at the first node. */
  lemma FirstMarked(status: Statuses, branch: seq<BlockNode>)
    requires branch != [] && branch[0] in status && branch[0] !in branch[1..]
    ensures var after := MarkFailure(status, branch, 0);
      && after.Keys == status.Keys && after[branch[0]] == status[branch[0]] + {ValidateFailed}
      && forall m :: m in status && m !in branch ==> after[m] == status[m]
  {
    assert branch[..0] == [];
  }

  /** The block makes its branch the heaviest, and a block below its parent is known to be invalid. */
  lemma TakenForTip(p: Params, c: Core, all: map<Hash, Block>, hs: set<Hash>, b: Block, n: BlockNode, x: BlockNode,
                    y: BlockNode, f: Status)
    requires Arrives(p, c, all, hs, b, n) && n.parent == y && y != c.chain.tip && WorkSum(n) > WorkSum(c.chain.tip)
    requires Branch(c.chain.tip, n) == [x, y, n] && Has(c, x, f) && KnownInvalid(f) && Has(c, y, {DataStored})
    ensures Accept(p, c, b).1 == Accepted(true) && Accept(p, c, b).0.chain.tip == c.chain.tip
  {
    Offered(p, c, all, hs, b, n);
    var d := AddBlock(c, n, b);
    StillHas(p, c, all, hs, b, n, x, f);
    StillHas(p, c, all, hs, b, n, y, {DataStored});
    LastInvalidIs(d.chain.status, [x, y, n], 0);
    assert Tainted(d.chain, n).Some?;
  }

  // --- The run

  /** Two blocks on genesis, and two branches on top of a third one. */
  datatype Story = Story(genesis: Block, a: Block, b: Block, x: Block, y1: Block, y2: Block, n1: Block, n2: Block)

  datatype Tree = Tree(g: BlockNode, a: BlockNode, b: BlockNode, x: BlockNode, y1: BlockNode, y2: BlockNode,
                       n1: BlockNode, n2: BlockNode)

  function On(b: Block, parent: BlockNode): BlockNode {
    NewBlockNode(b.hash, b.header, parent)
  }

  function TreeOf(p: Params, s: Story): Tree {
    var a, x := On(s.a, p.genesis), On(s.x, p.genesis);
    var y1, y2 := On(s.y1, x), On(s.y2, x);
    Tree(p.genesis, a, On(s.b, a), x, y1, y2, On(s.n1, y1), On(s.n2, y2))
  }

  function All(s: Story): map<Hash, Block> {
    map[s.genesis.hash := s.genesis, s.a.hash := s.a, s.b.hash := s.b, s.x.hash := s.x, s.y1.hash := s.y1,
        s.y2.hash := s.y2, s.n1.hash := s.n1, s.n2.hash := s.n2]
  }

  /** All blocks have different hashes. */
  predicate Differ(s: Story) {
    var hs := [s.genesis.hash, s.a.hash, s.b.hash, s.x.hash, s.y1.hash, s.y2.hash, s.n1.hash, s.n2.hash];
    forall i, j :: 0 <= i < j < |hs| ==> hs[i] != hs[j]
  }

  /** The block is sane, belongs on top of the node, is in context there and brings as much work as genesis. */
  predicate Fitting(p: Params, b: Block, parent: BlockNode) {
    && p.genesis.Node? && parent.Node? && Sane(p, b) && b.header.prevBlock == parent.hash
    && b.header.bits == p.genesis.bits && p.context(b, parent)
  }

  predicate Arranged(p: Params, s: Story) {
    var t := TreeOf(p, s);
    && StoredAs(p, p.genesis, s.genesis) && p.genesis.parent.Nil? && CalcWork(p.genesis.bits) > 0 && Differ(s)
    && Fitting(p, s.a, t.g) && Fitting(p, s.b, t.a) && Fitting(p, s.x, t.g) && Fitting(p, s.y1, t.x)
    && Fitting(p, s.y2, t.x) && Fitting(p, s.n1, t.y1) && Fitting(p, s.n2, t.y2)
  }

  /** a and b pass the checks and x does not; nothing is asked of the others. */
  predicate Plausible(p: Params, s: Story) {
    var t := TreeOf(p, s);
    Arranged(p, s) && Check(p, All(s), t.a) && Check(p, All(s), t.b) && !Check(p, All(s), t.x)
  }

  /** A branch of three blocks beside a best chain of two. */
  lemma Beside(g: BlockNode, a: BlockNode, b: BlockNode, x: BlockNode, y: BlockNode, n: BlockNode)
    requires g.Node? && g.parent.Nil? && a.Node? && a.parent == g && b.Node? && b.parent == a
    requires x.Node? && x.parent == g && y.Node? && y.parent == x && n.Node? && n.parent == y && x != a
    ensures Branch(b, n) == [x, y, n]
  {
    assert Path(g) == [g] by { assert Path(g.parent) == []; }
    assert Path(a) == [g, a];
    var chain := [g, a, b];
    assert Path(b) == chain;
    assert Height(g) == 0 && Height(x) == 1 && Height(y) == 2 && Height(n) == 3;
    assert chain[0] == g && chain[1] == a && chain[2] == b;
    assert g in chain && x !in chain;
    OffPath(chain, b, x, y, n);
    BranchStep(b, g);
    BranchStep(b, x);
    BranchStep(b, y);
    BranchStep(b, n);
  }

  /** What stands on a node off the path is off the path. */
  lemma OffPath(chain: seq<BlockNode>, b: BlockNode, x: BlockNode, y: BlockNode, n: BlockNode)
    requires chain == Path(b) && x.Node? && x !in chain && y.Node? && y.parent == x && n.Node? && n.parent == y
    ensures y !in chain && n !in chain
  {
    if y in chain {
      assert x in Path(y) by { assert x in Path(x); }
      OnPathTransitive(x, y, b);
    }
    if n in chain {
      assert x in Path(n) by { assert x in Path(x); }
      OnPathTransitive(x, n, b);
    }
  }

  /** The map has all blocks of the story under their hashes. */
  predicate Lists(all: map<Hash, Block>, s: Story) {
    && Listed(all, s.genesis) && Listed(all, s.a) && Listed(all, s.b) && Listed(all, s.x) && Listed(all, s.y1)
    && Listed(all, s.y2) && Listed(all, s.n1) && Listed(all, s.n2)
  }

  predicate Listed(all: map<Hash, Block>, b: Block) {
    b.hash in all && all[b.hash] == b
  }

  lemma DifferAll(s: Story)
    requires Differ(s)
    ensures Lists(All(s), s)
  {
    Apart(s);
  }

  lemma Apart(s: Story)
    requires Differ(s)
    ensures s.a.hash !in {s.genesis.hash}
    ensures s.b.hash !in {s.genesis.hash, s.a.hash}
    ensures s.x.hash !in {s.genesis.hash, s.a.hash, s.b.hash}
    ensures s.y1.hash !in {s.genesis.hash, s.a.hash, s.b.hash, s.x.hash}
    ensures s.y2.hash !in {s.genesis.hash, s.a.hash, s.b.hash, s.x.hash, s.y1.hash}
    ensures s.n1.hash !in {s.genesis.hash, s.a.hash, s.b.hash, s.x.hash, s.y1.hash, s.y2.hash}
    ensures s.n2.hash !in {s.genesis.hash, s.a.hash, s.b.hash, s.x.hash, s.y1.hash, s.y2.hash, s.n1.hash}
  {
    var hs := [s.genesis.hash, s.a.hash, s.b.hash, s.x.hash, s.y1.hash, s.y2.hash, s.n1.hash, s.n2.hash];
    assert hs[0] == s.genesis.hash && hs[1] == s.a.hash && hs[2] == s.b.hash && hs[3] == s.x.hash;
    assert hs[4] == s.y1.hash && hs[5] == s.y2.hash && hs[6] == s.n1.hash && hs[7] == s.n2.hash;
  }

  /** A fitting block arrives. */
  lemma Comes(p: Params, c: Core, all: map<Hash, Block>, hs: set<Hash>, b: Block, n: BlockNode, f: Status)
    requires n.Node? && Fitting(p, b, n.parent) && n == On(b, n.parent) && Has(c, n.parent, f) && !KnownInvalid(f)
    requires Holds(c, all, hs) && b.hash !in hs && b.hash in all && all[b.hash] == b
    ensures Arrives(p, c, all, hs, b, n)
  {
  }

  /** All blocks bring the same work. */
  lemma Works(p: Params, s: Story)
    requires Arranged(p, s)
    ensures var t, w := TreeOf(p, s), CalcWork(p.genesis.bits);
      && w > 0 && WorkSum(t.b) == 3 * w && WorkSum(t.x) == 2 * w && WorkSum(t.y1) == WorkSum(t.y2) == 3 * w
      && WorkSum(t.n1) == WorkSum(t.n2) == 4 * w
  {
    var t, w := TreeOf(p, s), CalcWork(p.genesis.bits);
    OneMore(t.g, w, 0);
    OneMore(t.a, w, w);
    OneMore(t.b, w, 2 * w);
    OneMore(t.x, w, w);
    OneMore(t.y1, w, 2 * w);
    OneMore(t.y2, w, 2 * w);
    OneMore(t.n1, w, 3 * w);
    OneMore(t.n2, w, 3 * w);
  }

  lemma OneMore(n: BlockNode, w: nat, below: nat)
    requires n.Node? && CalcWork(n.bits) == w && WorkSum(n.parent) == below
    ensures WorkSum(n) == below + w
  {
  }

  lemma PathOfTwo(g: BlockNode, a: BlockNode)
    requires g.Node? && g.parent.Nil? && a.Node? && a.parent == g
    ensures Path(g) == [g] && Path(a) == [g, a]
  {
    assert Path(g.parent) == [];
  }

  lemma PathsIn(p: Params, s: Story, t: Tree, hs: set<Hash>)
    requires Arranged(p, s) && t == TreeOf(p, s) && hs == {s.genesis.hash}
    ensures PathIn(t.a, hs + {s.a.hash}) && PathIn(t.b, hs + {s.a.hash} + {s.b.hash})
    ensures PathIn(t.x, hs + {s.a.hash} + {s.b.hash} + {s.x.hash} + {s.y1.hash} + {s.y2.hash})
  {
    PathOfTwo(t.g, t.a);
    PathOfTwo(t.g, t.x);
    assert Path(t.b) == [t.g, t.a, t.b];
  }

  /** Two good blocks on top of genesis. */
  lemma BestTwo(p: Params, c: Core, all: map<Hash, Block>, hs: set<Hash>, s: Story, t: Tree,
                good: set<BlockNode>, bad: set<BlockNode>)
    requires t == TreeOf(p, s) && Fitting(p, s.a, t.g) && Fitting(p, s.b, t.a) && Listed(all, s.a) && Listed(all, s.b)
    requires s.a.hash !in hs && s.b.hash !in hs + {s.a.hash}
    requires PathIn(t.a, hs + {s.a.hash}) && PathIn(t.b, hs + {s.a.hash} + {s.b.hash})
    requires Judged(p, all, good, bad) && t.a in good && t.b in good
    requires Holds(c, all, hs) && c.chain.tip == t.g && Has(c, t.g, {DataStored, Valid})
    ensures var d := Offer(p, Offer(p, c, s.a), s.b);
      Holds(d, all, hs + {s.a.hash} + {s.b.hash}) && d.chain.tip == t.b && Has(d, t.g, {DataStored, Valid})
  {
    Comes(p, c, all, hs, s.a, t.a, {DataStored, Valid});
    Extends(p, c, all, hs, s.a, t.a, good, bad);
    var d := Offer(p, c, s.a);
    assert Has(d, t.g, {DataStored, Valid});
    Comes(p, d, all, hs + {s.a.hash}, s.b, t.b, {DataStored, Valid});
    Extends(p, d, all, hs + {s.a.hash}, s.b, t.b, good, bad);
  }

  /** A block beside the best chain that does not bring enough work. */
  lemma AddSide(p: Params, c: Core, all: map<Hash, Block>, hs: set<Hash>, b: Block, n: BlockNode, f: Status)
    requires n.Node? && Fitting(p, b, n.parent) && n == On(b, n.parent) && Has(c, n.parent, f) && !KnownInvalid(f)
    requires Holds(c, all, hs) && b.hash !in hs && Listed(all, b)
    requires n.parent != c.chain.tip && WorkSum(n) <= WorkSum(c.chain.tip)
    ensures var d := Offer(p, c, b);
      && Holds(d, all, hs + {b.hash}) && d.chain.tip == c.chain.tip && Has(d, n, {DataStored})
      && forall m, g :: Has(c, m, g) ==> Has(d, m, g)
  {
    Comes(p, c, all, hs, b, n, f);
    Waits(p, c, all, hs, b, n);
  }

  /** x is the first of them, and y1 and y2 stand on x. */
  lemma SideThree(p: Params, c: Core, all: map<Hash, Block>, hs: set<Hash>, s: Story, t: Tree)
    requires t == TreeOf(p, s) && Fitting(p, s.x, t.g) && Fitting(p, s.y1, t.x) && Fitting(p, s.y2, t.x)
    requires Listed(all, s.x) && Listed(all, s.y1) && Listed(all, s.y2)
    requires s.x.hash !in hs && s.y1.hash !in hs + {s.x.hash} && s.y2.hash !in hs + {s.x.hash} + {s.y1.hash}
    requires t.g != t.b && t.b != t.x && WorkSum(t.x) <= WorkSum(t.b)
    requires WorkSum(t.y1) <= WorkSum(t.b) && WorkSum(t.y2) <= WorkSum(t.b)
    requires Holds(c, all, hs) && c.chain.tip == t.b && Has(c, t.g, {DataStored, Valid})
    ensures var d := Offer(p, Offer(p, Offer(p, c, s.x), s.y1), s.y2);
      && Holds(d, all, hs + {s.x.hash} + {s.y1.hash} + {s.y2.hash}) && d.chain.tip == t.b
      && Has(d, t.x, {DataStored}) && Has(d, t.y1, {DataStored}) && Has(d, t.y2, {DataStored})
  {
    AddSide(p, c, all, hs, s.x, t.x, {DataStored, Valid});
    var c1 := Offer(p, c, s.x);
    AddSide(p, c1, all, hs + {s.x.hash}, s.y1, t.y1, {DataStored});
    var c2 := Offer(p, c1, s.y1);
    assert Has(c2, t.x, {DataStored});
    AddSide(p, c2, all, hs + {s.x.hash} + {s.y1.hash}, s.y2, t.y2, {DataStored});
    assert Has(Offer(p, c2, s.y2), t.y1, {DataStored});
  }

  /** The branch over y1 fails and x is marked for it, and then the branch over y2 is taken for the best chain. */
  lemma Lapse(p: Params, c: Core, all: map<Hash, Block>, hs: set<Hash>, s: Story, t: Tree, good: set<BlockNode>,
              bad: set<BlockNode>)
    requires t == TreeOf(p, s) && Fitting(p, s.n1, t.y1) && Fitting(p, s.n2, t.y2)
    requires Listed(all, s.n1) && Listed(all, s.n2) && s.n1.hash !in hs && s.n2.hash !in hs + {s.n1.hash}
    requires t.b != t.y1 && t.b != t.y2 && t.x != t.y1 && t.x != t.y2 && t.y1 != t.y2
    requires WorkSum(t.n1) > WorkSum(t.b) && WorkSum(t.n2) > WorkSum(t.b)
    requires Branch(t.b, t.n1) == [t.x, t.y1, t.n1] && Branch(t.b, t.n2) == [t.x, t.y2, t.n2]
    requires Judged(p, all, good, bad) && t.x in bad && t.x.parent.Node? && PathIn(t.x, hs)
    requires Holds(c, all, hs) && c.chain.tip == t.b
    requires Has(c, t.x, {DataStored}) && Has(c, t.y1, {DataStored}) && Has(c, t.y2, {DataStored})
    ensures var d := Offer(p, c, s.n1);
      d.chain.tip == t.b && Accept(p, d, s.n2).1 == Accepted(true) && Accept(p, d, s.n2).0.chain.tip == t.b
  {
    Comes(p, c, all, hs, s.n1, t.n1, {DataStored});
    FailsAtFirst(p, c, all, hs, s.n1, t.n1, t.x, t.y1, good, bad);
    var d := Offer(p, c, s.n1);
    assert Has(d, t.y2, {DataStored});
    Comes(p, d, all, hs + {s.n1.hash}, s.n2, t.n2, {DataStored});
    TakenForTip(p, d, all, hs + {s.n1.hash}, s.n2, t.n2, t.x, t.y2, {DataStored, ValidateFailed});
  }

  /** The hashes come one after the other, each of them new. */
  predicate InTurn(s: Story, hs: set<Hash>) {
    && s.a.hash !in hs && s.b.hash !in hs + {s.a.hash} && s.x.hash !in hs + {s.a.hash} + {s.b.hash}
    && s.y1.hash !in hs + {s.a.hash} + {s.b.hash} + {s.x.hash}
    && s.y2.hash !in hs + {s.a.hash} + {s.b.hash} + {s.x.hash} + {s.y1.hash}
    && s.n1.hash !in hs + {s.a.hash} + {s.b.hash} + {s.x.hash} + {s.y1.hash} + {s.y2.hash}
    && s.n2.hash !in hs + {s.a.hash} + {s.b.hash} + {s.x.hash} + {s.y1.hash} + {s.y2.hash} + {s.n1.hash}
  }

  predicate Branches(t: Tree) {
    && t.g != t.b && t.b != t.x && t.b != t.y1 && t.b != t.y2 && t.x != t.y1 && t.x != t.y2 && t.y1 != t.y2
    && WorkSum(t.x) <= WorkSum(t.b) && WorkSum(t.y1) <= WorkSum(t.b) && WorkSum(t.y2) <= WorkSum(t.b)
    && WorkSum(t.n1) > WorkSum(t.b) && WorkSum(t.n2) > WorkSum(t.b)
    && Branch(t.b, t.n1) == [t.x, t.y1, t.n1] && Branch(t.b, t.n2) == [t.x, t.y2, t.n2]
  }

  lemma BranchesOf(p: Params, s: Story)
    requires Arranged(p, s)
    ensures Branches(TreeOf(p, s))
  {
    var t := TreeOf(p, s);
    Apart(s);
    Works(p, s);
    Beside(t.g, t.a, t.b, t.x, t.y1, t.n1);
    Beside(t.g, t.a, t.b, t.x, t.y2, t.n2);
  }

  lemma TurnsOf(s: Story)
    requires Differ(s)
    ensures InTurn(s, {s.genesis.hash})
  {
    Apart(s);
  }

  lemma RunOne(p: Params, c: Core, offered: seq<Block>, b: Block)
    ensures Run(p, c, offered + [b]) == Offer(p, Run(p, c, offered), b)
  {
    assert (offered + [b])[..|offered|] == offered;
  }

  lemma RunThree(p: Params, c: Core, offered: seq<Block>, a: Block, b: Block, x: Block)
    ensures Run(p, c, offered + [a] + [b] + [x]) == Offer(p, Offer(p, Offer(p, Run(p, c, offered), a), b), x)
  {
    RunOne(p, c, offered, a);
    RunOne(p, c, offered + [a], b);
    RunOne(p, c, offered + [a] + [b], x);
  }

  lemma RunSix(p: Params, c: Core, a: Block, b: Block, x: Block, y1: Block, y2: Block, n1: Block)
    ensures Run(p, c, [a, b, x, y1, y2, n1]) ==
      Offer(p, Offer(p, Offer(p, Offer(p, Offer(p, Offer(p, c, a), b), x), y1), y2), n1)
  {
    RunThree(p, c, [], a, b, x);
    RunThree(p, c, [] + [a] + [b] + [x], y1, y2, n1);
    assert [a, b, x, y1, y2, n1] == [] + [a] + [b] + [x] + [y1] + [y2] + [n1];
  }

  /**
   * After the six blocks the seventh is accepted as part of the main chain, and yet the tip is what it was:
   * whatever the rules are, as long as a and b pass and x does not.
   */
  lemma Misreported(p: Params, s: Story)
    requires Plausible(p, s)
    ensures var c := Run(p, Initial(p, s.genesis), [s.a, s.b, s.x, s.y1, s.y2, s.n1]);
      && c.chain.tip == TreeOf(p, s).b && Accept(p, c, s.n2).1 == Accepted(true)
      && Accept(p, c, s.n2).0.chain.tip == TreeOf(p, s).b != TreeOf(p, s).n2
  {
    var t := TreeOf(p, s);
    Judgement(p, s, t);
    Arrangement(p, s, t, All(s), {t.a, t.b}, {t.x});
    RunSix(p, Initial(p, s.genesis), s.a, s.b, s.x, s.y1, s.y2, s.n1);
  }

  lemma Judgement(p: Params, s: Story, t: Tree)
    requires Plausible(p, s) && t == TreeOf(p, s)
    ensures Judged(p, All(s), {t.a, t.b}, {t.x})
  {
  }

  lemma Arrangement(p: Params, s: Story, t: Tree, all: map<Hash, Block>, good: set<BlockNode>, bad: set<BlockNode>)
    requires Arranged(p, s) && t == TreeOf(p, s) && all == All(s)
    requires Judged(p, all, good, bad) && t.a in good && t.b in good && t.x in bad
    ensures t.b != t.n2
    ensures var c := Initial(p, s.genesis);
      var d := Offer(p, Offer(p, Offer(p, Offer(p, Offer(p, Offer(p, c, s.a), s.b), s.x), s.y1), s.y2), s.n1);
      d.chain.tip == t.b && Accept(p, d, s.n2).1 == Accepted(true) && Accept(p, d, s.n2).0.chain.tip == t.b
  {
    var hs := {s.genesis.hash};
    Apart(s);
    TurnsOf(s);
    BranchesOf(p, s);
    DifferAll(s);
    PathsIn(p, s, t, hs);
    Unfolds(p, Initial(p, s.genesis), all, hs, s, t, good, bad);
  }

  lemma Unfolds(p: Params, c: Core, all: map<Hash, Block>, hs: set<Hash>, s: Story, t: Tree, good: set<BlockNode>,
                bad: set<BlockNode>)
    requires Arranged(p, s) && t == TreeOf(p, s) && Lists(all, s) && InTurn(s, hs) && Branches(t)
    requires PathIn(t.a, hs + {s.a.hash}) && PathIn(t.b, hs + {s.a.hash} + {s.b.hash})
    requires PathIn(t.x, hs + {s.a.hash} + {s.b.hash} + {s.x.hash} + {s.y1.hash} + {s.y2.hash})
    requires Judged(p, all, good, bad) && t.a in good && t.b in good && t.x in bad
    requires Holds(c, all, hs) && c.chain.tip == t.g && Has(c, t.g, {DataStored, Valid})
    ensures var d := Offer(p, Offer(p, Offer(p, Offer(p, Offer(p, Offer(p, c, s.a), s.b), s.x), s.y1), s.y2), s.n1);
      d.chain.tip == t.b && Accept(p, d, s.n2).1 == Accepted(true) && Accept(p, d, s.n2).0.chain.tip == t.b
  {
    BestTwo(p, c, all, hs, s, t, good, bad);
    var two := Offer(p, Offer(p, c, s.a), s.b);
    SideThree(p, two, all, hs + {s.a.hash} + {s.b.hash}, s, t);
    var side := Offer(p, Offer(p, Offer(p, two, s.x), s.y1), s.y2);
    Lapse(p, side, all, hs + {s.a.hash} + {s.b.hash} + {s.x.hash} + {s.y1.hash} + {s.y2.hash}, s, t, good, bad);
  }

  // --- Such a story exists

  function Id(k: byte): Hash {
    Hash([k] + Zeroes(31))
  }

  lemma IdsDiffer(i: byte, j: byte)
    ensures Id(i) == Id(j) <==> i == j
  {
    assert Id(i).bytes[0] == i && Id(j).bytes[0] == j;
  }

  const EASY: uint32 := 0x300_0001

  function Reward(k: byte): Tx
    requires k < 100
  {
    Tx(Id(100 + k), true, [OutPoint(ZERO_HASH, 0xffff_ffff)], [TxOut(50, [], false)])
  }

  /** The k-th block, with a coinbase that pays to nobody in particular. */
  function Plain(k: byte, prev: Hash): Block
    requires k < 100
  {
    Block(Id(k), Header(1, prev, ZERO_HASH, 0, EASY, k), [Reward(k)])
  }

  /** Rules under which everything is in order but the fourth block. */
  function Rules(): Params {
    Params(Node(Nil, Id(1), 1, ZERO_HASH, 0, EASY, 1), 0,
           (h: Header) => Id(h.nonce % 0x100),
           (b: Block, n: BlockNode) => true,
           (n: BlockNode, b: Block, u: Utxos) => n.Node? && n.hash != Id(4))
  }

  function Example(): Story {
    Story(Plain(1, ZERO_HASH), Plain(2, Id(1)), Plain(3, Id(2)), Plain(4, Id(1)), Plain(5, Id(4)), Plain(6, Id(4)),
          Plain(7, Id(5)), Plain(8, Id(6)))
  }

  lemma PlainFits(k: byte, parent: BlockNode)
    requires k < 100 && parent.Node?
    ensures Fitting(Rules(), Plain(k, parent.hash), parent)
  {
  }

  lemma FirstByte(k: byte)
    ensures Id(k).bytes[0] == k
  {
  }

  lemma ExampleDiffers()
    ensures Differ(Example())
  {
    var s := Example();
    var hs := [s.genesis.hash, s.a.hash, s.b.hash, s.x.hash, s.y1.hash, s.y2.hash, s.n1.hash, s.n2.hash];
    forall i | 0 <= i < 8 ensures hs[i].bytes[0] == i + 1 {
      assert hs[i] == Id(i + 1);
      FirstByte(i + 1);
    }
  }

  lemma ExampleArranged()
    ensures Arranged(Rules(), Example())
  {
    var p, s := Rules(), Example();
    var t := TreeOf(p, s);
    ExampleDiffers();
    PlainFits(2, t.g);
    PlainFits(3, t.a);
    PlainFits(4, t.g);
    PlainFits(5, t.x);
    PlainFits(6, t.x);
    PlainFits(7, t.y1);
    PlainFits(8, t.y2);
    assert CompactToBig(EASY) == 1;
    assert CalcWork(EASY) > 0;
  }

  /** A block with nothing but a coinbase connects wherever its outputs are new. */
  lemma CoinbaseConnects(u: Utxos, tx: Tx, height: int)
    requires tx.coinbase && Outputs(tx) !! u.Keys
    ensures CanConnectTxs(u, [tx], height) && ConnectTxs(u, [tx], height).Keys == u.Keys + Outputs(tx)
  {
    assert [tx][..0] == [];
  }

  lemma PlainOutputs(k: byte, prev: Hash)
    requires k < 100
    ensures Outputs(Plain(k, prev).txs[0]) == {OutPoint(Id(100 + k), 0)}
  {
  }

  /** The state after the first block. */
  lemma AfterA(all: map<Hash, Block>, t: Tree)
    requires t == TreeOf(Rules(), Example()) && Lists(all, Example())
    ensures Connects(all, t.a) && LedgerAt(all, t.a).utxos.Keys == {OutPoint(Id(102), 0)}
  {
    var tx := Example().a.txs[0];
    var u := LedgerAt(all, t.g).utxos;
    assert u == map[] && Height(t.a) == 1 && all[t.a.hash].txs == [tx];
    PlainOutputs(2, Id(1));
    CoinbaseConnects(u, tx, 1);
  }

  lemma AfterB(all: map<Hash, Block>, t: Tree)
    requires t == TreeOf(Rules(), Example()) && Lists(all, Example())
    ensures Connects(all, t.b)
  {
    var tx := Example().b.txs[0];
    var u := LedgerAt(all, t.a).utxos;
    assert all[t.b.hash].txs == [tx];
    AfterA(all, t);
    PlainOutputs(3, Id(2));
    IdsDiffer(102, 103);
    CoinbaseConnects(u, tx, Height(t.b));
  }

  lemma ExampleChecks()
    ensures var t, all := TreeOf(Rules(), Example()), All(Example());
      Check(Rules(), all, t.a) && Check(Rules(), all, t.b) && !Check(Rules(), all, t.x)
  {
    var t, all := TreeOf(Rules(), Example()), All(Example());
    ExampleDiffers();
    DifferAll(Example());
    IdsDiffer(2, 4);
    IdsDiffer(3, 4);
    AfterA(all, t);
    AfterB(all, t);
  }

  /** Blocks and rules that make up such a story. */
  lemma StoryExists() returns (p: Params, s: Story)
    ensures Plausible(p, s)
  {
    p, s := Rules(), Example();
    ExampleArranged();
    ExampleChecks();
  }
}
