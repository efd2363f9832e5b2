/**
 * What connecting a block answers and leaves behind, said with the blocks on its path and their checks only
 * (blockchain/accept.go, blockchain/chain.go).
 */
module Answers {
  import opened Primitives
  import opened BlockTree
  import opened Utxo
  import opened Selection
  import opened ChainCore

  ghost predicate AllGood(genesis: BlockNode, good: set<BlockNode>, n: BlockNode) {
    forall m :: m in Path(n) ==> m == genesis || m in good
  }

  /** The lowest block on the path that does not pass. */
  ghost predicate FailsFirst(genesis: BlockNode, good: set<BlockNode>, n: BlockNode, f: BlockNode) {
    f.Node? && f in Path(n) && f != genesis && f !in good && AllGood(genesis, good, f.parent)
  }

  /** The highest block on the path that is marked. */
  ghost predicate MarkedLast(status: Statuses, n: BlockNode, a: BlockNode) {
    && a in Path(n) && a in status && KnownInvalid(status[a])
    && forall m :: m in Path(n) && Height(m) > Height(a) ==> m in status && !KnownInvalid(status[m])
  }

  /** What the blocks gain when f fails on the way to n. */
  ghost function GainedByFailure(n: BlockNode, f: BlockNode, m: BlockNode): Status {
    if m !in Path(n) then {} else if m == f then {ValidateFailed}
    else if Height(m) < Height(f) then {Valid} else {InvalidAncestor}
  }

  /** What the blocks gain when a is already marked on the way to n. */
  ghost function GainedByMark(n: BlockNode, a: BlockNode, m: BlockNode): Status {
    if m in Path(n) && Height(m) > Height(a) then {InvalidAncestor} else {}
  }

  // --- Where the blocks of a branch are on the path

  lemma PathSplit(genesis: BlockNode, c: Chain, n: BlockNode, m: BlockNode)
    requires Closed(genesis, c) && n in c.status && m in Path(n)
    ensures var fork, branch := Fork(c.tip, n), Branch(c.tip, n);
      && (m in Path(c.tip) <==> Height(m) <= Height(fork))
      && (Height(m) > Height(fork) ==> var i := Height(m) - Height(fork) - 1; i < |branch| && branch[i] == m)
  {
    ForkExists(genesis, c, n);
    var fork, branch := Fork(c.tip, n), Branch(c.tip, n);
    OnPath(m, n);
    OnPath(fork, n);
    if Height(m) > Height(fork) {
      BranchIndex(c.tip, n, Height(fork), Height(m) - Height(fork) - 1);
      AboveFork(c.tip, n, Height(m));
    } else {
      assert m == Path(n)[..Height(fork) + 1][Height(m)] == Path(fork)[Height(m)];
      OnPathTransitive(m, fork, c.tip);
    }
  }

  lemma BranchHeight(genesis: BlockNode, c: Chain, n: BlockNode, i: nat)
    requires Closed(genesis, c) && n in c.status && i < |Branch(c.tip, n)|
    ensures var m := Branch(c.tip, n)[i]; m in Path(n) && m in c.status && Height(m) == Height(Fork(c.tip, n)) + 1 + i
  {
    ForkExists(genesis, c, n);
    BranchIndex(c.tip, n, Height(Fork(c.tip, n)), i);
    PathPrefix(n, Height(Fork(c.tip, n)) + 1 + i);
    PathInTree(genesis, c, n);
  }

  ghost predicate HeldAt(n: BlockNode, f: int, branch: seq<BlockNode>, i: nat) {
    i < |branch| && branch[i] in Path(n) && Height(branch[i]) == f + 1 + i
  }

  ghost predicate Holds(n: BlockNode, f: int, branch: seq<BlockNode>, m: BlockNode) {
    m in Path(n) && f < Height(m) ==> Height(m) - f - 1 < |branch| && branch[Height(m) - f - 1] == m
  }

  /** The branch holds what is higher than f on the path, lowest first. */
  ghost predicate Above(n: BlockNode, f: int, branch: seq<BlockNode>) {
    && (forall i {:trigger HeldAt(n, f, branch, i)} :: 0 <= i < |branch| ==> HeldAt(n, f, branch, i))
    && (forall m {:trigger Holds(n, f, branch, m)} :: Holds(n, f, branch, m))
  }

  lemma BranchHolds(genesis: BlockNode, c: Chain, n: BlockNode, m: BlockNode)
    requires Closed(genesis, c) && n in c.status
    ensures Holds(n, Height(Fork(c.tip, n)), Branch(c.tip, n), m)
  {
    if m in Path(n) {
      PathSplit(genesis, c, n, m);
    }
  }

  lemma BranchAbove(genesis: BlockNode, c: Chain, n: BlockNode)
    requires Closed(genesis, c) && n in c.status
    ensures Above(n, Height(Fork(c.tip, n)), Branch(c.tip, n))
  {
    var f, branch := Height(Fork(c.tip, n)), Branch(c.tip, n);
    forall i | 0 <= i < |branch| ensures HeldAt(n, f, branch, i) {
      BranchHeight(genesis, c, n, i);
    }
    forall m ensures Holds(n, f, branch, m) {
      BranchHolds(genesis, c, n, m);
    }
  }

  /** A part of the branch is a range of heights on the path. */
  lemma InPart(n: BlockNode, f: int, branch: seq<BlockNode>, lo: nat, hi: nat, m: BlockNode)
    requires Above(n, f, branch) && lo <= hi <= |branch|
    ensures m in branch[lo..hi] <==> m in Path(n) && f + 1 + lo <= Height(m) < f + 1 + hi
  {
    if m in branch[lo..hi] {
      var i :| lo <= i < hi && branch[i] == m;
      assert HeldAt(n, f, branch, i);
    }
    assert Holds(n, f, branch, m);
    if m in Path(n) && f + 1 + lo <= Height(m) < f + 1 + hi {
      assert branch[lo..hi][Height(m) - f - 1 - lo] == m;
    }
  }

  /** Below the fork everything is marked valid and has passed. */
  lemma BelowFork(genesis: BlockNode, c: Chain, good: set<BlockNode>, n: BlockNode, m: BlockNode)
    requires Closed(genesis, c) && Sound(c, good) && n in c.status && m in Path(n)
    requires Height(m) <= Height(Fork(c.tip, n))
    ensures m in c.status && Valid in c.status[m] && (m == genesis || m in good)
  {
    PathSplit(genesis, c, n, m);
    ValidBelow(c, good, c.tip, m);
    assert InTree(genesis, c.status, m) && FlagsSound(c.status, good, m);
  }

  lemma PassesIsGood(genesis: BlockNode, c: Chain, good: set<BlockNode>, n: BlockNode, i: nat)
    requires Closed(genesis, c) && Sound(c, good) && n in c.status && i < |Branch(c.tip, n)|
    ensures var m := Branch(c.tip, n)[i]; m != genesis && (Passes(c.status, good, m) <==> m in good)
  {
    BranchLinked(genesis, c, n);
    var fork, branch := Fork(c.tip, n), Branch(c.tip, n);
    LinkedAt(c.status, fork, branch, n, i);
    assert FlagsSound(c.status, good, branch[i]);
  }

  // --- The four ways of connecting a block

  /** A block on the tip: only its own flags change. */
  lemma OnTip(c: Chain, good: set<BlockNode>, n: BlockNode)
    requires n.Node? && n.parent == c.tip && n in c.status
    ensures var (d, answer) := ConnectBest(c, good, n);
      && answer == (if n in good then Accepted(true) else RuleFailed) && d.tip == (if n in good then n else c.tip)
      && d.status == c.status[n := c.status[n] + {if n in good then Valid else ValidateFailed}]
  {
  }

  /** A block elsewhere that does not bring more work changes nothing. */
  lemma Lighter(c: Chain, good: set<BlockNode>, n: BlockNode)
    requires n.Node? && n.parent != c.tip && WorkSum(n) <= WorkSum(c.tip)
    ensures ConnectBest(c, good, n) == (c, Accepted(false))
  {
  }

  lemma NoneTainted(genesis: BlockNode, c: Chain, good: set<BlockNode>, n: BlockNode)
    requires Pending(genesis, c, good, n)
    ensures Tainted(c, n).None? <==> NoInvalidOn(c.status, n)
  {
    CleanAboveFork(genesis, c, good, n);
    assert n.parent in Path(n);
  }

  lemma AllPass(genesis: BlockNode, c: Chain, good: set<BlockNode>, n: BlockNode)
    requires Pending(genesis, c, good, n)
    ensures AllGood(genesis, good, n) <==> FirstFailing(c.status, good, Branch(c.tip, n)) == |Branch(c.tip, n)|
  {
    var branch := Branch(c.tip, n);
    var k := FirstFailing(c.status, good, branch);
    if k < |branch| {
      PassesIsGood(genesis, c, good, n, k);
      BranchHeight(genesis, c, n, k);
    } else {
      forall m | m in Path(n) ensures m == genesis || m in good {
        PathSplit(genesis, c, n, m);
        if Height(m) <= Height(Fork(c.tip, n)) {
          BelowFork(genesis, c, good, n, m);
        } else {
          PassesIsGood(genesis, c, good, n, Height(m) - Height(Fork(c.tip, n)) - 1);
        }
      }
    }
  }

  /** More work on a branch where every block passes: the branch becomes the best chain, all of it marked valid. */
  lemma Switched(genesis: BlockNode, c: Chain, good: set<BlockNode>, n: BlockNode)
    requires Pending(genesis, c, good, n) && n.parent != c.tip && WorkSum(n) > WorkSum(c.tip)
    requires AllGood(genesis, good, n)
    ensures var (d, answer) := ConnectBest(c, good, n);
      && answer == Accepted(true) && d.tip == n && d.status.Keys == c.status.Keys
      && forall m :: m in c.status ==> d.status[m] == if m in Path(n) then c.status[m] + {Valid} else c.status[m]
  {
    GoodIsClean(genesis, c, good, n);
    CleanIsPath(c.status, n);
    NoneTainted(genesis, c, good, n);
    AllPass(genesis, c, good, n);
    forall m | m in c.status
      ensures Mark(c.status, Branch(c.tip, n), Valid)[m] == c.status[m] + if m in Path(n) then {Valid} else {}
    {
      SwitchFlags(genesis, c, good, n, Branch(c.tip, n), m);
    }
  }

  lemma SwitchFlags(genesis: BlockNode, c: Chain, good: set<BlockNode>, n: BlockNode, branch: seq<BlockNode>,
                    m: BlockNode)
    requires Pending(genesis, c, good, n) && branch == Branch(c.tip, n) && m in c.status
    ensures Mark(c.status, branch, Valid)[m] == c.status[m] + if m in Path(n) then {Valid} else {}
  {
    var f := Height(Fork(c.tip, n));
    BranchAbove(genesis, c, n);
    InPart(n, f, branch, 0, |branch|, m);
    assert branch[0..|branch|] == branch;
    assert Holds(n, f, branch, m);
    if m in Path(n) && m !in branch {
      BelowFork(genesis, c, good, n, m);
    }
  }

  /** More work on a branch where a block fails: that block and all above it on the path are marked. */
  lemma Refused(genesis: BlockNode, c: Chain, good: set<BlockNode>, n: BlockNode) returns (f: BlockNode)
    requires Pending(genesis, c, good, n) && n.parent != c.tip && WorkSum(n) > WorkSum(c.tip)
    requires NoInvalidOn(c.status, n) && !AllGood(genesis, good, n)
    ensures var (d, answer) := ConnectBest(c, good, n);
      && answer == RuleFailed && d.tip == c.tip && d.status.Keys == c.status.Keys && FailsFirst(genesis, good, n, f)
      && forall m :: m in c.status ==> d.status[m] == c.status[m] + GainedByFailure(n, f, m)
  {
    var branch := Branch(c.tip, n);
    var k := RefusedAt(genesis, c, good, n, branch);
    f := branch[k];
    LowestFails(genesis, c, good, n, k);
    forall m | m in c.status
      ensures MarkFailure(c.status, branch, k)[m] == c.status[m] + GainedByFailure(n, f, m)
    {
      FailureFlags(genesis, c, good, n, branch, k, m);
    }
  }

  lemma RefusedAt(genesis: BlockNode, c: Chain, good: set<BlockNode>, n: BlockNode, branch: seq<BlockNode>)
    returns (k: nat)
    requires Pending(genesis, c, good, n) && n.parent != c.tip && WorkSum(n) > WorkSum(c.tip)
    requires NoInvalidOn(c.status, n) && !AllGood(genesis, good, n) && branch == Branch(c.tip, n)
    ensures k == FirstFailing(c.status, good, branch) < |branch|
    ensures ConnectBest(c, good, n) == (Chain(MarkFailure(c.status, branch, k), c.tip), RuleFailed)
  {
    NoneTainted(genesis, c, good, n);
    AllPass(genesis, c, good, n);
    k := FirstFailing(c.status, good, branch);
  }

  lemma LowestFails(genesis: BlockNode, c: Chain, good: set<BlockNode>, n: BlockNode, k: nat)
    requires Pending(genesis, c, good, n) && k == FirstFailing(c.status, good, Branch(c.tip, n)) < |Branch(c.tip, n)|
    ensures FailsFirst(genesis, good, n, Branch(c.tip, n)[k])
  {
    var f := Branch(c.tip, n)[k];
    PassesIsGood(genesis, c, good, n, k);
    BranchHeight(genesis, c, n, k);
    forall m | m in Path(f.parent) ensures m == genesis || m in good {
      OnPath(m, f.parent);
      assert f.parent in Path(f);
      OnPathTransitive(m, f.parent, f);
      OnPathTransitive(m, f, n);
      PathSplit(genesis, c, n, m);
      if Height(m) <= Height(Fork(c.tip, n)) {
        BelowFork(genesis, c, good, n, m);
      } else {
        PassesIsGood(genesis, c, good, n, Height(m) - Height(Fork(c.tip, n)) - 1);
      }
    }
  }

  lemma FailureFlags(genesis: BlockNode, c: Chain, good: set<BlockNode>, n: BlockNode, branch: seq<BlockNode>, k: nat,
                     m: BlockNode)
    requires Pending(genesis, c, good, n) && branch == Branch(c.tip, n) && k < |branch| && m in c.status
    ensures MarkFailure(c.status, branch, k)[m] == c.status[m] + GainedByFailure(n, branch[k], m)
  {
    var f := Height(Fork(c.tip, n));
    BranchHeight(genesis, c, n, k);
    BranchAbove(genesis, c, n);
    InPart(n, f, branch, 0, k, m);
    InPart(n, f, branch, k + 1, |branch|, m);
    OnPath(m, n);
    OnPath(branch[k], n);
    var marked := m in Path(n) && Height(m) <= f;
    if marked {
      BelowFork(genesis, c, good, n, m);
    }
    ThreeMarks(c.status, branch, k, m, n, f, marked);
  }

  lemma ThreeMarks(status: Statuses, branch: seq<BlockNode>, k: nat, m: BlockNode, n: BlockNode, f: int, marked: bool)
    requires k < |branch| && m in status && (marked ==> Valid in status[m])
    requires marked <==> m in Path(n) && Height(m) <= f
    requires Height(branch[k]) == f + 1 + k && (m in Path(n) ==> Height(m) < f + 1 + |branch|)
    requires m == branch[k] <==> m in Path(n) && Height(m) == f + 1 + k
    requires m in branch[0..k] <==> m in Path(n) && f + 1 <= Height(m) < f + 1 + k
    requires m in branch[k + 1..|branch|] <==> m in Path(n) && f + 1 + k + 1 <= Height(m) < f + 1 + |branch|
    ensures MarkFailure(status, branch, k)[m] == status[m] + GainedByFailure(n, branch[k], m)
  {
    assert branch[0..k] == branch[..k] && branch[k + 1..|branch|] == branch[k + 1..];
  }

  /** More work on a branch with a marked block: all above the highest marked one are marked, the tip stays. */
  lemma Overlooked(genesis: BlockNode, c: Chain, good: set<BlockNode>, n: BlockNode) returns (a: BlockNode)
    requires Pending(genesis, c, good, n) && n.parent != c.tip && WorkSum(n) > WorkSum(c.tip)
    requires !NoInvalidOn(c.status, n)
    ensures var (d, answer) := ConnectBest(c, good, n);
      && answer == Accepted(true) && d.tip == c.tip && d.status.Keys == c.status.Keys && MarkedLast(c.status, n, a)
      && forall m :: m in c.status ==> d.status[m] == c.status[m] + GainedByMark(n, a, m)
  {
    NoneTainted(genesis, c, good, n);
    TaintedIsReported(genesis, c, good, n);
    var branch := Branch(c.tip, n);
    if KnownInvalid(c.status[n.parent]) {
      a := n.parent;
      ParentMarked(c, n);
    } else {
      var bad := LastInvalid(c.status, branch);
      a := branch[bad];
      LastMarked(genesis, c, n, bad);
      BranchAbove(genesis, c, n);
      forall m | m in c.status ensures m in branch[bad + 1..] <==> m in Path(n) && Height(m) > Height(a) {
        AboveMarked(n, Height(Fork(c.tip, n)), branch, bad, m);
      }
    }
  }

  lemma AboveMarked(n: BlockNode, f: int, branch: seq<BlockNode>, bad: nat, m: BlockNode)
    requires Above(n, f, branch) && bad < |branch|
    ensures m in branch[bad + 1..] <==> m in Path(n) && Height(m) > Height(branch[bad])
  {
    InPart(n, f, branch, bad + 1, |branch|, m);
    assert branch[bad + 1..|branch|] == branch[bad + 1..];
    assert HeldAt(n, f, branch, bad) && Holds(n, f, branch, m);
  }

  lemma ParentMarked(c: Chain, n: BlockNode)
    requires n.Node? && n in c.status && n.parent in c.status && n.parent.Node?
    requires KnownInvalid(c.status[n.parent]) && !KnownInvalid(c.status[n])
    ensures MarkedLast(c.status, n, n.parent)
    ensures forall m :: m in Path(n) && Height(m) > Height(n.parent) <==> m == n
  {
    forall m | m in Path(n) && Height(m) > Height(n.parent) ensures m == n {
      OnPath(m, n);
    }
  }

  lemma LastMarked(genesis: BlockNode, c: Chain, n: BlockNode, bad: int)
    requires Closed(genesis, c) && n in c.status && bad == LastInvalid(c.status, Branch(c.tip, n)) >= 0
    ensures MarkedLast(c.status, n, Branch(c.tip, n)[bad])
  {
    BranchHeight(genesis, c, n, bad);
    var branch := Branch(c.tip, n);
    forall m | m in Path(n) && Height(m) > Height(branch[bad]) ensures m in c.status && !KnownInvalid(c.status[m]) {
      PathSplit(genesis, c, n, m);
      PathInTree(genesis, c, n);
    }
  }

  // --- The answers

  /** A block that gets past all checks before it is connected. */
  ghost predicate Admitted(p: Params, c: Core, b: Block) {
    && b.header.prevBlock in c.index
    && var prev := c.index[b.header.prevBlock];
    && prev in c.chain.status && ValidateFailed !in c.chain.status[prev] && InvalidAncestor !in c.chain.status[prev]
    && p.context(b, prev)
  }

  /** A block that is not admitted leaves no trace, and the answer names the first reason. */
  lemma NotAdmitted(p: Params, c: Core, b: Block)
    requires CoreInv(p, c)
    ensures Accept(p, c, b).1 == PreviousUnknown <==> b.header.prevBlock !in c.index
    ensures b.header.prevBlock in c.index ==>
      var prev := c.index[b.header.prevBlock];
      && prev in c.chain.status
      && (Accept(p, c, b).1 == PreviousInvalid <==>
          ValidateFailed in c.chain.status[prev] || InvalidAncestor in c.chain.status[prev])
      && (Accept(p, c, b).1 == ContextFailed <==>
          ValidateFailed !in c.chain.status[prev] && InvalidAncestor !in c.chain.status[prev] && !p.context(b, prev))
    ensures !Admitted(p, c, b) ==> Accept(p, c, b).0 == c
  {
    if b.header.prevBlock in c.index {
      assert IndexedAt(c, b.header.prevBlock);
    }
  }

  /** An admitted block is stored. */
  lemma AdmittedStored(p: Params, c: Core, b: Block)
    requires CoreInv(p, c) && Sane(p, b) && b.hash !in c.index && Admitted(p, c, b)
    ensures var n := NewBlockNode(b.hash, b.header, c.index[b.header.prevBlock]);
      var d := Accept(p, c, b).0;
      && d.index == c.index[b.hash := n] && d.blocks == c.blocks[b.hash := b]
      && d.chain.status.Keys == c.chain.status.Keys + {n} && DataStored in d.chain.status[n]
  {
    assert IndexedAt(c, b.header.prevBlock);
    var n := NewBlockNode(b.hash, b.header, c.index[b.header.prevBlock]);
    var stored := AddBlock(c, n, b);
    ConnectBestKeys(stored.chain, Good(p, stored), n);
    ConnectBestGrows(stored.chain, Good(p, stored), n);
  }

  lemma ConnectBestGrows(c: Chain, good: set<BlockNode>, n: BlockNode)
    requires n.Node? && n in c.status
    ensures ConnectBest(c, good, n).0.status.Keys == c.status.Keys
    ensures c.status[n] <= ConnectBest(c, good, n).0.status[n]
  {
    if n.parent != c.tip && WorkSum(n) > WorkSum(c.tip) && Tainted(c, n).None? {
      SwitchGrows(c, good, n, Branch(c.tip, n));
    }
  }

  lemma SwitchGrows(c: Chain, good: set<BlockNode>, n: BlockNode, branch: seq<BlockNode>)
    requires n in c.status
    ensures SwitchTo(c, good, n, branch).0.status.Keys == c.status.Keys
    ensures c.status[n] <= SwitchTo(c, good, n, branch).0.status[n]
  {
    var k := FirstFailing(c.status, good, branch);
    if k < |branch| {
      FailureElsewhere(c.status, branch, k, MarkFailure(c.status, branch, k));
    }
  }

  /**
   * The answer to an admitted block and the new tip: the tip moves to it exactly when every block below it
   * passes and it extends the tip or brings more work.
   */
  lemma AnswerMeans(p: Params, c: Core, b: Block)
    requires CoreInv(p, c) && Sane(p, b) && b.hash !in c.index && Admitted(p, c, b)
    ensures var prev := c.index[b.header.prevBlock];
      var n := NewBlockNode(b.hash, b.header, prev);
      var (d, answer) := Accept(p, c, b);
      var competes := prev == c.chain.tip || WorkSum(n) > WorkSum(c.chain.tip);
      && (answer == Accepted(false) <==> !competes)
      && (answer == RuleFailed <==> competes && NoInvalidOn(c.chain.status, prev) && !ValidBranch(p, d, n))
      && (answer == Accepted(true) <==> competes && (ValidBranch(p, d, n) || !NoInvalidOn(c.chain.status, prev)))
      && d.chain.tip == if competes && ValidBranch(p, d, n) then n else c.chain.tip
  {
    assert IndexedAt(c, b.header.prevBlock);
    var prev := c.index[b.header.prevBlock];
    var n := NewBlockNode(b.hash, b.header, prev);
    var stored := AddBlock(c, n, b);
    AddedIsNew(p, c, n, b);
    AddedPending(p, c, n, b);
    PathInTree(p.genesis, c.chain, prev);
    SameBelow(c.chain.status, stored.chain.status, n);
    GoodBranch(p, stored, Accept(p, c, b).0, n);
    AnswerHere(p.genesis, stored.chain, Good(p, stored), n);
  }

  lemma GoodBranch(p: Params, c: Core, d: Core, n: BlockNode)
    requires Closed(p.genesis, c.chain) && n in c.chain.status && d.blocks == c.blocks
    ensures ValidBranch(p, d, n) <==> AllGood(p.genesis, Good(p, c), n)
  {
    PathInTree(p.genesis, c.chain, n);
  }

  lemma AnswerHere(genesis: BlockNode, c: Chain, good: set<BlockNode>, n: BlockNode)
    requires Pending(genesis, c, good, n)
    ensures var (d, answer) := ConnectBest(c, good, n);
      var competes := n.parent == c.tip || WorkSum(n) > WorkSum(c.tip);
      && (answer == Accepted(false) <==> !competes)
      && (answer == RuleFailed <==> competes && NoInvalidOn(c.status, n) && !AllGood(genesis, good, n))
      && (answer == Accepted(true) <==> competes && (AllGood(genesis, good, n) || !NoInvalidOn(c.status, n)))
      && d.tip == if competes && AllGood(genesis, good, n) then n else c.tip
  {
    if AllGood(genesis, good, n) {
      GoodIsClean(genesis, c, good, n);
      CleanIsPath(c.status, n);
    }
    if n.parent == c.tip {
      OnTip(c, good, n);
      CleanOnTip(genesis, c, good, n);
      TipGood(genesis, c, good, n);
    } else if WorkSum(n) <= WorkSum(c.tip) {
      Lighter(c, good, n);
    } else if AllGood(genesis, good, n) {
      Switched(genesis, c, good, n);
    } else if NoInvalidOn(c.status, n) {
      var f := Refused(genesis, c, good, n);
    } else {
      var a := Overlooked(genesis, c, good, n);
    }
  }

  lemma TipGood(genesis: BlockNode, c: Chain, good: set<BlockNode>, n: BlockNode)
    requires Pending(genesis, c, good, n) && n.parent == c.tip
    ensures AllGood(genesis, good, n) <==> n in good
  {
    assert InTree(genesis, c.status, n);
    assert forall m :: m in Path(n) <==> m in Path(c.tip) || m == n;
    forall m | m in Path(c.tip) ensures m == genesis || m in good {
      ValidBelow(c, good, c.tip, m);
      assert InTree(genesis, c.status, m) && FlagsSound(c.status, good, m);
    }
  }

  /** After any sequence of offered blocks, about any further block. */
  lemma AnswersAlways(p: Params, genesis: Block, offered: seq<Block>, b: Block)
    requires StoredAs(p, p.genesis, genesis) && p.genesis.parent.Nil? && Sane(p, b)
    requires b.hash !in Run(p, Initial(p, genesis), offered).index
    ensures var c := Run(p, Initial(p, genesis), offered);
      var (d, answer) := Accept(p, c, b);
      && (d == c <==> !Admitted(p, c, b))
      && (d.chain.tip != c.chain.tip <==>
          && Admitted(p, c, b)
          && var prev := c.index[b.header.prevBlock];
          var n := NewBlockNode(b.hash, b.header, prev);
          && d.chain.tip == n && ValidBranch(p, d, n)
          && (prev == c.chain.tip || WorkSum(n) > WorkSum(c.chain.tip)))
  {
    var c := Run(p, Initial(p, genesis), offered);
    InitialSafe(p, genesis);
    RunSafe(p, Initial(p, genesis), offered);
    NotAdmitted(p, c, b);
    if Admitted(p, c, b) {
      AdmittedStored(p, c, b);
      AnswerMeans(p, c, b);
      NewIsNotTip(p, c, b);
    }
  }

  lemma NewIsNotTip(p: Params, c: Core, b: Block)
    requires CoreInv(p, c) && b.hash !in c.index && b.header.prevBlock in c.index
    ensures c.chain.tip != NewBlockNode(b.hash, b.header, c.index[b.header.prevBlock])
  {
    assert Lookup(c.index, c.chain.tip);
  }
}
