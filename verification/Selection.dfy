/**
 * Choosing the best chain (blockchain/chain.go): what happens to the status flags and to the tip when
 * a stored block is connected.  `good` is the set of nodes whose block passes checkConnectBlock on top
 * of its own branch; nothing here depends on what those checks are.
 */
module Selection {
  import opened Primitives
  import opened BlockTree

  datatype Flag = DataStored | Valid | ValidateFailed | InvalidAncestor

  type Status = set<Flag>

  type Statuses = map<BlockNode, Status>

  predicate KnownValid(s: Status) {
    Valid in s
  }

  predicate KnownInvalid(s: Status) {
    ValidateFailed in s || InvalidAncestor in s
  }

  datatype Chain = Chain(status: Statuses, tip: BlockNode)

  datatype Outcome =
    | Accepted(isMainChain: bool)
    | PreviousUnknown
    | PreviousInvalid
    | ContextFailed
    | RuleFailed
    | AssertFailed

  // --- The step

  function Mark(status: Statuses, nodes: seq<BlockNode>, flag: Flag): (marked: Statuses)
    ensures marked.Keys == status.Keys
    ensures forall m :: m in status ==> marked[m] == if m in nodes then status[m] + {flag} else status[m]
  {
    map m | m in status :: if m in nodes then status[m] + {flag} else status[m]
  }

  /** The nodes of n's branch above the point where it leaves the branch of tip, lowest first. */
  function Branch(tip: BlockNode, n: BlockNode): (b: seq<BlockNode>)
    ensures |b| == Height(n) - Height(Fork(tip, n))
  {
    ForkHeight(tip, n);
    Path(n)[Height(Fork(tip, n)) + 1..]
  }

  lemma {:induction false} ForkHeight(tip: BlockNode, n: BlockNode)
    ensures Height(Fork(tip, n)) <= Height(n)
  {
    if n.Node? && n !in Path(tip) {
      ForkHeight(tip, n.parent);
    }
  }

  lemma BranchStep(tip: BlockNode, n: BlockNode)
    ensures n in Path(tip) ==> Branch(tip, n) == []
    ensures n.Node? && n !in Path(tip) ==> Branch(tip, n) == Branch(tip, n.parent) + [n]
  {
    if n.Node? && n !in Path(tip) {
      ForkHeight(tip, n.parent);
    }
  }

  /** The nodes of tip's branch above one of its ancestors, tip first. */
  function Detached(tip: BlockNode, fork: BlockNode): seq<BlockNode> {
    if tip == fork || tip.Nil? then [] else [tip] + Detached(tip.parent, fork)
  }

  lemma {:induction false} DetachedIsReversedBranch(tip: BlockNode, fork: BlockNode)
    requires fork in Path(tip)
    ensures Height(fork) <= Height(tip) && Detached(tip, fork) == Reverse(Path(tip)[Height(fork) + 1..])
  {
    OnPath(fork, tip);
    if tip != fork {
      DetachedIsReversedBranch(tip.parent, fork);
      var above := Path(tip.parent)[Height(fork) + 1..];
      assert Path(tip)[Height(fork) + 1..] == above + [tip] by { OnPath(fork, tip.parent); }
      ReverseAppend(above, tip);
    }
  }

  /** The index of the highest node known to be invalid, -1 when there is none. */
  function LastInvalid(status: Statuses, branch: seq<BlockNode>): (i: int)
    ensures -1 <= i < |branch|
    ensures i >= 0 ==> branch[i] in status && KnownInvalid(status[branch[i]])
    ensures forall j :: i < j < |branch| && branch[j] in status ==> !KnownInvalid(status[branch[j]])
  {
    if branch == [] then -1
    else
      var last := branch[|branch| - 1];
      if last in status && KnownInvalid(status[last]) then |branch| - 1
      else LastInvalid(status, branch[..|branch| - 1])
  }

  lemma LastInvalidIs(status: Statuses, branch: seq<BlockNode>, i: int)
    requires -1 <= i < |branch| && (i >= 0 ==> branch[i] in status && KnownInvalid(status[branch[i]]))
    requires forall j :: i < j < |branch| ==> branch[j] in status && !KnownInvalid(status[branch[j]])
    ensures LastInvalid(status, branch) == i
  {
  }

  /** The walk of getReorganizeNodes has come down from node to n without meeting an invalid node. */
  ghost predicate Collected(status: Statuses, tip: BlockNode, node: BlockNode, n: BlockNode, attach: seq<BlockNode>) {
    && Fork(tip, n) == Fork(tip, node) && Branch(tip, node) == Branch(tip, n) + attach
    && NoneInvalid(status, attach)
  }

  predicate NoneInvalid(status: Statuses, nodes: seq<BlockNode>) {
    forall i :: 0 <= i < |nodes| ==> nodes[i] in status && !KnownInvalid(status[nodes[i]])
  }

  lemma NoneInvalidCons(status: Statuses, n: BlockNode, nodes: seq<BlockNode>)
    requires NoneInvalid(status, nodes) && n in status && !KnownInvalid(status[n])
    ensures NoneInvalid(status, [n] + nodes)
  {
  }

  lemma CollectStep(status: Statuses, tip: BlockNode, node: BlockNode, n: BlockNode, attach: seq<BlockNode>)
    requires Collected(status, tip, node, n, attach) && n.Node? && n != Fork(tip, n)
    requires n in status && !KnownInvalid(status[n])
    ensures Collected(status, tip, node, n.parent, [n] + attach)
  {
    NoneInvalidCons(status, n, attach);
    assert Branch(tip, node) == Branch(tip, n.parent) + ([n] + attach) by {
      BranchStep(tip, n);
      MoveAcross(Branch(tip, n.parent), n, attach);
    }
  }

  lemma CollectInvalid(status: Statuses, tip: BlockNode, node: BlockNode, n: BlockNode, attach: seq<BlockNode>)
    requires Collected(status, tip, node, n, attach) && n.Node? && n != Fork(tip, n)
    requires n in status && KnownInvalid(status[n])
    ensures var bad := LastInvalid(status, Branch(tip, node)); bad >= 0 && attach == Branch(tip, node)[bad + 1..]
  {
    BranchStep(tip, n);
    LastInvalidIs(status, Branch(tip, node), |Branch(tip, n)| - 1);
  }

  lemma CollectDone(status: Statuses, tip: BlockNode, node: BlockNode, n: BlockNode, attach: seq<BlockNode>)
    requires Collected(status, tip, node, n, attach) && n == Fork(tip, n) && n in Path(tip)
    ensures LastInvalid(status, Branch(tip, node)) == -1 && attach == Branch(tip, node)
  {
    BranchStep(tip, n);
    assert attach == Branch(tip, node);
    LastInvalidIs(status, attach, -1);
  }

  /** A node marked valid is not checked again. */
  predicate Passes(status: Statuses, good: set<BlockNode>, n: BlockNode) {
    (n in status && KnownValid(status[n])) || n in good
  }

  /** The index of the lowest node that does not pass, the length of the branch when all do. */
  function FirstFailing(status: Statuses, good: set<BlockNode>, branch: seq<BlockNode>): (k: nat)
    ensures k <= |branch|
    ensures forall i :: 0 <= i < k ==> Passes(status, good, branch[i])
    ensures k < |branch| ==> !Passes(status, good, branch[k])
  {
    if branch == [] || !Passes(status, good, branch[0]) then 0
    else 1 + FirstFailing(status, good, branch[1..])
  }

  /** The block extends the best chain. */
  function Extend(c: Chain, good: set<BlockNode>, n: BlockNode): (Chain, Outcome) {
    if n in good then
      (Chain(Mark(c.status, [n], Valid), n), Accepted(true))
    else
      (Chain(Mark(c.status, [n], ValidateFailed), c.tip), RuleFailed)
  }

  /** The flags a failed reorganize leaves behind: valid below the failure, invalid above it. */
  function MarkFailure(status: Statuses, branch: seq<BlockNode>, k: nat): Statuses
    requires k < |branch|
  {
    Mark(Mark(Mark(status, branch[..k], Valid), [branch[k]], ValidateFailed), branch[k + 1..], InvalidAncestor)
  }

  /** The flags the check phase of a reorganize leaves behind, and whether all blocks passed. */
  function CheckedBranch(status: Statuses, good: set<BlockNode>, branch: seq<BlockNode>): (Statuses, bool) {
    var k := FirstFailing(status, good, branch);
    if k < |branch| then (MarkFailure(status, branch, k), false) else (Mark(status, branch, Valid), true)
  }

  /** Both phases of a reorganize to the end of a branch none of whose nodes is known to be invalid. */
  function SwitchTo(c: Chain, good: set<BlockNode>, n: BlockNode, branch: seq<BlockNode>): (Chain, Outcome) {
    var k := FirstFailing(c.status, good, branch);
    if k < |branch| then
      (Chain(MarkFailure(c.status, branch, k), c.tip), RuleFailed)
    else
      (Chain(Mark(c.status, branch, Valid), n), Accepted(true))
  }

  /** The nodes getReorganizeNodes marks, when it finds that the branch is already known to be invalid. */
  function Tainted(c: Chain, n: BlockNode): (t: Option<seq<BlockNode>>)
    requires n.Node?
  {
    if n.parent in c.status && KnownInvalid(c.status[n.parent]) then Some([n])
    else
      var branch := Branch(c.tip, n);
      var bad := LastInvalid(c.status, branch);
      if bad >= 0 then Some(branch[bad + 1..]) else None
  }

  /**
   * The block makes a side chain the heaviest.  When a block of that branch is already known to be
   * invalid nothing is reorganized, and yet no error is reported.
   */
  function Reorganize(c: Chain, good: set<BlockNode>, n: BlockNode): (Chain, Outcome)
    requires n.Node?
  {
    match Tainted(c, n)
    case Some(nodes) => (Chain(Mark(c.status, nodes, InvalidAncestor), c.tip), Accepted(true))
    case None => SwitchTo(c, good, n, Branch(c.tip, n))
  }

  /** connectBestChain. */
  function ConnectBest(c: Chain, good: set<BlockNode>, n: BlockNode): (Chain, Outcome)
    requires n.Node?
  {
    if n.parent == c.tip then Extend(c, good, n)
    else if WorkSum(n) <= WorkSum(c.tip) then (c, Accepted(false))
    else Reorganize(c, good, n)
  }

  // --- What every reachable state satisfies

  /** The indexed nodes form one tree below genesis. */
  ghost predicate Closed(genesis: BlockNode, c: Chain) {
    && genesis.Node? && genesis.parent.Nil? && c.tip in c.status
    && forall n {:trigger InTree(genesis, c.status, n)} :: n in c.status ==> InTree(genesis, c.status, n)
  }

  predicate InTree(genesis: BlockNode, status: Statuses, n: BlockNode) {
    n.Node? && if n.parent.Node? then n.parent in status else n == genesis
  }

  /**
   * The flags are sound: a block marked valid passes on its branch and so does everything below it, a
   * block marked failed does not pass, and a block with an invalid ancestor stands on an invalid parent.
   */
  predicate FlagsSound(status: Statuses, good: set<BlockNode>, n: BlockNode) {
    n in status && n.Node? &&
    if n.parent.Nil? then !KnownInvalid(status[n])
    else
      && n.parent in status
      && (Valid in status[n] ==> Valid in status[n.parent] && n in good)
      && (ValidateFailed in status[n] ==> n !in good)
      && (InvalidAncestor in status[n] ==> KnownInvalid(status[n.parent]))
  }

  ghost predicate Sound(c: Chain, good: set<BlockNode>) {
    && (forall n {:trigger FlagsSound(c.status, good, n)} :: n in c.status ==> FlagsSound(c.status, good, n))
    && c.tip in c.status && Valid in c.status[c.tip]
  }

  /** No node from genesis to n is known to be invalid. */
  predicate Clean(status: Statuses, n: BlockNode) {
    n.Node? ==> n in status && !KnownInvalid(status[n]) && Clean(status, n.parent)
  }

  ghost predicate HeaviestBut(c: Chain, n: BlockNode) {
    forall m :: m in c.status && m != n && Clean(c.status, m) ==> WorkSum(m) <= WorkSum(c.tip)
  }

  ghost predicate Heaviest(c: Chain) {
    forall n :: n in c.status && Clean(c.status, n) ==> WorkSum(n) <= WorkSum(c.tip)
  }

  ghost predicate Inv(genesis: BlockNode, c: Chain, good: set<BlockNode>) {
    Closed(genesis, c) && Sound(c, good) && Heaviest(c)
  }

  /** The state right after a new block was stored: only its branch may be heavier than the best one. */
  ghost predicate Pending(genesis: BlockNode, c: Chain, good: set<BlockNode>, n: BlockNode) {
    && Closed(genesis, c) && Sound(c, good) && HeaviestBut(c, n)
    && n in c.status && n.Node? && n.parent.Node? && n.parent in c.status && c.status[n] == {DataStored}
  }

  // --- Branches

  lemma {:induction false} PathInTree(genesis: BlockNode, c: Chain, n: BlockNode)
    requires Closed(genesis, c) && n in c.status
    ensures forall m :: m in Path(n) ==> m in c.status
    ensures Path(n) != [] && Path(n)[0] == genesis
  {
    assert InTree(genesis, c.status, n);
    if n.parent.Node? {
      PathInTree(genesis, c, n.parent);
    }
  }

  /** All indexed branches share genesis, so there is always a fork point. */
  lemma ForkExists(genesis: BlockNode, c: Chain, n: BlockNode)
    requires Closed(genesis, c) && n in c.status
    ensures Fork(c.tip, n).Node? && Fork(c.tip, n) in Path(c.tip) && Fork(c.tip, n) in Path(n)
  {
    PathInTree(genesis, c, n);
    PathInTree(genesis, c, c.tip);
    ForkIsHighestCommon(c.tip, n);
    assert genesis in Path(c.tip) && genesis in Path(n);
  }

  /** The node below the i-th node of a branch. */
  function Below(fork: BlockNode, branch: seq<BlockNode>, i: nat): BlockNode
    requires i < |branch|
  {
    if i == 0 then fork else branch[i - 1]
  }

  /** A branch hangs together: it is indexed, starts right above the fork and ends in n. */
  ghost predicate Linked(status: Statuses, fork: BlockNode, branch: seq<BlockNode>, n: BlockNode) {
    && fork.Node? && (forall i :: 0 <= i < |branch| ==> branch[i] in status && branch[i].Node?)
    && (forall i {:trigger Below(fork, branch, i)} :: 0 <= i < |branch| ==> branch[i].parent == Below(fork, branch, i))
    && n == if branch == [] then fork else branch[|branch| - 1]
  }

  lemma LinkedAt(status: Statuses, fork: BlockNode, branch: seq<BlockNode>, n: BlockNode, i: nat)
    requires Linked(status, fork, branch, n) && i < |branch|
    ensures branch[i] in status && branch[i].Node? && branch[i].parent.Node?
    ensures branch[i].parent == if i == 0 then fork else branch[i - 1]
    ensures i > 0 ==> branch[i - 1] in status
  {
    assert Below(fork, branch, i) == if i == 0 then fork else branch[i - 1];
  }

  lemma BranchIndex(tip: BlockNode, n: BlockNode, f: int, i: nat)
    requires f == Height(Fork(tip, n)) && i < |Branch(tip, n)|
    ensures f + 1 + i <= Height(n) && Branch(tip, n)[i] == Path(n)[f + 1 + i]
  {
  }

  lemma BranchAt(tip: BlockNode, n: BlockNode, fork: BlockNode, branch: seq<BlockNode>, i: nat)
    requires fork == Fork(tip, n) && branch == Branch(tip, n)
    requires fork.Node? && fork in Path(n) && i < |branch|
    ensures branch[i] in Path(n) && branch[i].Node? && branch[i].parent == Below(fork, branch, i)
    ensures branch[i] !in Path(tip)
  {
    var f := Height(fork);
    BranchIndex(tip, n, f, i);
    AboveFork(tip, n, f + 1 + i);
    PathParent(n, f + 1 + i);
    if i == 0 {
      OnPath(fork, n);
    } else {
      BranchIndex(tip, n, f, i - 1);
    }
  }

  lemma BranchLinked(genesis: BlockNode, c: Chain, n: BlockNode)
    requires Closed(genesis, c) && n in c.status
    ensures Fork(c.tip, n) in Path(c.tip)
    ensures Linked(c.status, Fork(c.tip, n), Branch(c.tip, n), n)
  {
    var fork, branch := Fork(c.tip, n), Branch(c.tip, n);
    ForkExists(genesis, c, n);
    PathInTree(genesis, c, n);
    forall i | 0 <= i < |branch|
      ensures branch[i] in c.status && branch[i].Node? && branch[i].parent == Below(fork, branch, i)
    {
      BranchAt(c.tip, n, fork, branch, i);
    }
    BranchEnd(c.tip, n);
  }

  lemma BranchEnd(tip: BlockNode, n: BlockNode)
    requires n.Node? && Fork(tip, n) in Path(n)
    ensures n == if Branch(tip, n) == [] then Fork(tip, n) else Branch(tip, n)[|Branch(tip, n)| - 1]
  {
    OnPath(Fork(tip, n), n);
  }

  lemma AboveFork(tip: BlockNode, n: BlockNode, i: nat)
    requires Fork(tip, n).Node? && Height(Fork(tip, n)) < i <= Height(n)
    ensures Path(n)[i] !in Path(tip)
  {
    ForkIsHighestCommon(tip, n);
    PathPrefix(n, i);
    OnPath(Path(n)[i], Fork(tip, n));
  }

  // --- Changing flags

  ghost predicate Grown(a: Statuses, b: Statuses) {
    a.Keys == b.Keys && forall m :: m in a ==> a[m] <= b[m]
  }

  lemma {:induction false} GrownClean(a: Statuses, b: Statuses, n: BlockNode)
    requires Grown(a, b) && Clean(b, n)
    ensures Clean(a, n)
  {
    if n.Node? {
      GrownClean(a, b, n.parent);
    }
  }

  lemma GrownSound(a: Statuses, b: Statuses, good: set<BlockNode>, m: BlockNode)
    requires Grown(a, b) && FlagsSound(a, good, m) && b[m] == a[m]
    ensures FlagsSound(b, good, m)
  {
  }

  lemma GrownHeaviest(c: Chain, d: Chain, n: BlockNode)
    requires Grown(c.status, d.status) && HeaviestBut(c, n) && WorkSum(c.tip) <= WorkSum(d.tip)
    requires Clean(d.status, n) ==> WorkSum(n) <= WorkSum(d.tip)
    ensures Heaviest(d)
  {
    forall m | m in d.status && Clean(d.status, m) ensures WorkSum(m) <= WorkSum(d.tip) {
      if m != n {
        GrownClean(c.status, d.status, m);
      }
    }
  }

  /** Flags changed on some nodes only: it is enough to look at those. */
  lemma GrownInv(genesis: BlockNode, c: Chain, d: Chain, good: set<BlockNode>, n: BlockNode, touched: seq<BlockNode>)
    requires Pending(genesis, c, good, n) && Grown(c.status, d.status)
    requires forall m :: m in c.status && m !in touched ==> d.status[m] == c.status[m]
    requires forall i :: 0 <= i < |touched| ==> FlagsSound(d.status, good, touched[i])
    requires d.tip in d.status && Valid in d.status[d.tip] && WorkSum(c.tip) <= WorkSum(d.tip)
    requires Clean(d.status, n) ==> WorkSum(n) <= WorkSum(d.tip)
    ensures Inv(genesis, d, good)
  {
    forall m | m in d.status ensures FlagsSound(d.status, good, m) {
      if m !in touched {
        assert FlagsSound(c.status, good, m);
        GrownSound(c.status, d.status, good, m);
      }
    }
    forall m | m in d.status ensures InTree(genesis, d.status, m) {
      assert InTree(genesis, c.status, m);
    }
    GrownHeaviest(c, d, n);
  }

  lemma ExtendSafe(genesis: BlockNode, c: Chain, good: set<BlockNode>, n: BlockNode)
    requires Pending(genesis, c, good, n) && n.parent == c.tip
    ensures Inv(genesis, Extend(c, good, n).0, good)
    ensures WorkSum(c.tip) <= WorkSum(Extend(c, good, n).0.tip)
  {
    assert FlagsSound(c.status, good, n);
    GrownInv(genesis, c, Extend(c, good, n).0, good, n, [n]);
  }

  /** Everything on the best chain is marked valid. */
  lemma {:induction false} ValidBelow(c: Chain, good: set<BlockNode>, n: BlockNode, m: BlockNode)
    requires Sound(c, good) && n in c.status && Valid in c.status[n] && m in Path(n)
    ensures m in c.status && Valid in c.status[m]
  {
    assert FlagsSound(c.status, good, n);
    if m != n {
      ValidBelow(c, good, n.parent, m);
    }
  }

  lemma TaintedSafe(genesis: BlockNode, c: Chain, good: set<BlockNode>, n: BlockNode)
    requires Pending(genesis, c, good, n) && Tainted(c, n).Some?
    ensures Inv(genesis, Reorganize(c, good, n).0, good)
  {
    var nodes := Tainted(c, n).value;
    var b := Mark(c.status, nodes, InvalidAncestor);
    assert Reorganize(c, good, n).0 == Chain(b, c.tip);
    TaintedMarks(genesis, c, good, n, nodes, b);
    GrownInv(genesis, c, Chain(b, c.tip), good, n, nodes);
  }

  lemma TaintedMarks(genesis: BlockNode, c: Chain, good: set<BlockNode>, n: BlockNode, nodes: seq<BlockNode>,
                     b: Statuses)
    requires Pending(genesis, c, good, n) && Tainted(c, n) == Some(nodes) && b == Mark(c.status, nodes, InvalidAncestor)
    ensures n in nodes && forall i :: 0 <= i < |nodes| ==> FlagsSound(b, good, nodes[i])
  {
    if KnownInvalid(c.status[n.parent]) {
      assert FlagsSound(c.status, good, n);
      MarkedInvalid(c.status, b, good, n);
    } else {
      BranchLinked(genesis, c, n);
      TaintedSound(c, good, Fork(c.tip, n), Branch(c.tip, n), n, LastInvalid(c.status, Branch(c.tip, n)), nodes, b);
    }
  }

  lemma TaintedSound(c: Chain, good: set<BlockNode>, fork: BlockNode, branch: seq<BlockNode>, n: BlockNode,
                     bad: nat, nodes: seq<BlockNode>, b: Statuses)
    requires Sound(c, good) && Linked(c.status, fork, branch, n) && n in c.status && !KnownInvalid(c.status[n])
    requires bad < |branch| && nodes == branch[bad + 1..] && KnownInvalid(c.status[branch[bad]])
    requires b == Mark(c.status, nodes, InvalidAncestor)
    ensures n in nodes
    ensures forall i :: 0 <= i < |nodes| ==> FlagsSound(b, good, nodes[i])
  {
    if bad + 1 < |branch| {
      assert nodes[|nodes| - 1] == n;
    }
    forall i | 0 <= i < |nodes| ensures FlagsSound(b, good, nodes[i]) {
      TaintedAt(c, good, fork, branch, n, bad, nodes, b, i);
    }
  }

  lemma TaintedAt(c: Chain, good: set<BlockNode>, fork: BlockNode, branch: seq<BlockNode>, n: BlockNode,
                  bad: nat, nodes: seq<BlockNode>, b: Statuses, i: nat)
    requires Sound(c, good) && Linked(c.status, fork, branch, n)
    requires bad < |branch| && nodes == branch[bad + 1..] && KnownInvalid(c.status[branch[bad]])
    requires b == Mark(c.status, nodes, InvalidAncestor) && i < |nodes|
    ensures FlagsSound(b, good, nodes[i])
  {
    LinkedAt(c.status, fork, branch, n, bad + 1 + i);
    if i > 0 {
      assert nodes[i - 1] == branch[bad + i];
    }
    assert FlagsSound(c.status, good, nodes[i]);
    MarkedInvalid(c.status, b, good, nodes[i]);
  }

  /** A node may be marked as having an invalid ancestor once the node below it is invalid. */
  lemma MarkedInvalid(a: Statuses, b: Statuses, good: set<BlockNode>, m: BlockNode)
    requires FlagsSound(a, good, m) && m.parent.Node? && Grown(a, b)
    requires b[m] == a[m] + {InvalidAncestor} && KnownInvalid(b[m.parent])
    ensures FlagsSound(b, good, m)
  {
  }

  /** A node that passes may be marked valid once the node below it is. */
  lemma MarkedValid(a: Statuses, b: Statuses, good: set<BlockNode>, m: BlockNode)
    requires FlagsSound(a, good, m) && m.parent.Node? && Grown(a, b)
    requires Passes(a, good, m) && b[m] == a[m] + {Valid} && Valid in b[m.parent]
    ensures FlagsSound(b, good, m)
  {
  }

  lemma SwitchSucceeds(genesis: BlockNode, c: Chain, good: set<BlockNode>, n: BlockNode, fork: BlockNode,
                       branch: seq<BlockNode>)
    requires Pending(genesis, c, good, n) && fork in Path(c.tip) && Linked(c.status, fork, branch, n) && branch != []
    requires FirstFailing(c.status, good, branch) == |branch| && WorkSum(c.tip) <= WorkSum(n)
    ensures Inv(genesis, SwitchTo(c, good, n, branch).0, good)
  {
    var b := Mark(c.status, branch, Valid);
    ValidBelow(c, good, c.tip, fork);
    forall i | 0 <= i < |branch| ensures FlagsSound(b, good, branch[i]) {
      LinkedAt(c.status, fork, branch, n, i);
      assert FlagsSound(c.status, good, branch[i]);
      MarkedValid(c.status, b, good, branch[i]);
    }
    GrownInv(genesis, c, Chain(b, n), good, n, branch);
  }

  /** The three marks of a failed reorganize, node by node. */
  lemma FailureMarks(status: Statuses, branch: seq<BlockNode>, k: nat, i: nat, b: Statuses)
    requires k < |branch| && i < |branch| && branch[i] in status && b == MarkFailure(status, branch, k)
    ensures Grown(status, b)
    ensures i < k ==> Valid in b[branch[i]]
    ensures i == k ==> ValidateFailed in b[branch[i]]
    ensures i > k ==> InvalidAncestor in b[branch[i]]
    ensures Valid in b[branch[i]] ==> Valid in status[branch[i]] || branch[i] in branch[..k]
    ensures ValidateFailed in b[branch[i]] ==> ValidateFailed in status[branch[i]] || branch[i] == branch[k]
    ensures InvalidAncestor in b[branch[i]] ==> InvalidAncestor in status[branch[i]] || branch[i] in branch[k + 1..]
  {
    if i < k {
      assert branch[..k][i] == branch[i];
    } else if i > k {
      assert branch[k + 1..][i - k - 1] == branch[i];
    }
  }

  lemma FailureElsewhere(status: Statuses, branch: seq<BlockNode>, k: nat, b: Statuses)
    requires k < |branch| && b == MarkFailure(status, branch, k)
    ensures Grown(status, b) && forall m :: m in status && m !in branch ==> b[m] == status[m]
  {
  }

  /** The situation in which a reorganize fails at the k-th node of the branch. */
  ghost predicate FailsAt(c: Chain, good: set<BlockNode>, fork: BlockNode, branch: seq<BlockNode>, n: BlockNode,
                          k: nat) {
    && Sound(c, good) && fork in c.status && Valid in c.status[fork] && Linked(c.status, fork, branch, n)
    && k < |branch| && k == FirstFailing(c.status, good, branch)
  }

  lemma ValidBelowFailure(c: Chain, good: set<BlockNode>, fork: BlockNode, branch: seq<BlockNode>, n: BlockNode,
                          k: nat, b: Statuses, j: nat)
    requires FailsAt(c, good, fork, branch, n, k) && b == MarkFailure(c.status, branch, k) && j < k
    ensures branch[j].Node? && branch[j].parent in b && Valid in b[branch[j].parent] && branch[j] in good
  {
    LinkedAt(c.status, fork, branch, n, j);
    assert FlagsSound(c.status, good, branch[j]);
    if j == 0 {
      FailureMarks(c.status, branch, k, 0, b);
    } else {
      FailureMarks(c.status, branch, k, j - 1, b);
    }
  }

  lemma InvalidAboveFailure(c: Chain, good: set<BlockNode>, fork: BlockNode, branch: seq<BlockNode>, n: BlockNode,
                            k: nat, b: Statuses, j: nat)
    requires FailsAt(c, good, fork, branch, n, k) && b == MarkFailure(c.status, branch, k) && k < j < |branch|
    ensures branch[j].Node? && branch[j].parent in b && KnownInvalid(b[branch[j].parent])
  {
    LinkedAt(c.status, fork, branch, n, j);
    FailureMarks(c.status, branch, k, j - 1, b);
  }

  lemma FailureAt(c: Chain, good: set<BlockNode>, fork: BlockNode, branch: seq<BlockNode>, n: BlockNode, k: nat,
                  b: Statuses, i: nat)
    requires FailsAt(c, good, fork, branch, n, k) && b == MarkFailure(c.status, branch, k) && i < |branch|
    ensures FlagsSound(b, good, branch[i])
  {
    var m := branch[i];
    LinkedAt(c.status, fork, branch, n, i);
    assert FlagsSound(c.status, good, m);
    FailureMarks(c.status, branch, k, i, b);
    if m in branch[..k] {
      var j :| 0 <= j < k && branch[j] == m;
      ValidBelowFailure(c, good, fork, branch, n, k, b, j);
    }
    if m in branch[k + 1..] {
      var j :| k < j < |branch| && branch[j] == m;
      InvalidAboveFailure(c, good, fork, branch, n, k, b, j);
    }
  }

  lemma SwitchFails(genesis: BlockNode, c: Chain, good: set<BlockNode>, n: BlockNode, fork: BlockNode,
                    branch: seq<BlockNode>)
    requires Pending(genesis, c, good, n) && fork in Path(c.tip) && Linked(c.status, fork, branch, n)
    requires FirstFailing(c.status, good, branch) < |branch|
    ensures Inv(genesis, SwitchTo(c, good, n, branch).0, good)
  {
    var k := FirstFailing(c.status, good, branch);
    var b := MarkFailure(c.status, branch, k);
    assert SwitchTo(c, good, n, branch).0 == Chain(b, c.tip);
    ValidBelow(c, good, c.tip, fork);
    forall i | 0 <= i < |branch| ensures FlagsSound(b, good, branch[i]) {
      FailureAt(c, good, fork, branch, n, k, b, i);
    }
    FailureElsewhere(c.status, branch, k, b);
    assert !Clean(b, n) by {
      FailureMarks(c.status, branch, k, |branch| - 1, b);
    }
    GrownInv(genesis, c, Chain(b, c.tip), good, n, branch);
  }

  /** Whatever happens to a stored block, the invariants hold again and the tip loses no work. */
  lemma ConnectBestSafe(genesis: BlockNode, c: Chain, good: set<BlockNode>, n: BlockNode)
    requires Pending(genesis, c, good, n)
    ensures Inv(genesis, ConnectBest(c, good, n).0, good)
    ensures WorkSum(c.tip) <= WorkSum(ConnectBest(c, good, n).0.tip)
  {
    if n.parent == c.tip {
      ExtendSafe(genesis, c, good, n);
    } else if WorkSum(n) > WorkSum(c.tip) {
      if Tainted(c, n).Some? {
        TaintedSafe(genesis, c, good, n);
      } else {
        BranchLinked(genesis, c, n);
        var fork, branch := Fork(c.tip, n), Branch(c.tip, n);
        if FirstFailing(c.status, good, branch) < |branch| {
          SwitchFails(genesis, c, good, n, fork, branch);
        } else {
          NotOnChain(c.tip, n);
          SwitchSucceeds(genesis, c, good, n, fork, branch);
        }
      }
    }
  }

  lemma NotOnChain(tip: BlockNode, n: BlockNode)
    requires n.Node? && WorkSum(n) > WorkSum(tip)
    ensures Branch(tip, n) != []
  {
    if n in Path(tip) {
      WorkGrows(n, tip);
    } else {
      ForkHeight(tip, n.parent);
    }
  }

  // --- What the flags mean

  /** No block is known to be both valid and invalid. */
  lemma {:induction false} NeverBoth(c: Chain, good: set<BlockNode>, n: BlockNode)
    requires Sound(c, good) && n in c.status && n.Node?
    ensures !(KnownValid(c.status[n]) && KnownInvalid(c.status[n]))
  {
    assert FlagsSound(c.status, good, n);
    if n.parent.Node? {
      NeverBoth(c, good, n.parent);
    }
  }

  /** An invalid-ancestor flag is always justified by a proper ancestor that failed validation. */
  lemma {:induction false} InvalidAncestorWitness(c: Chain, good: set<BlockNode>, n: BlockNode) returns (a: BlockNode)
    requires Sound(c, good) && n in c.status && n.Node? && InvalidAncestor in c.status[n]
    ensures a in Path(n) && a != n && a in c.status && ValidateFailed in c.status[a]
  {
    assert FlagsSound(c.status, good, n);
    var parent := n.parent;
    assert parent.Node? && parent in Path(n) by { assert parent in Path(parent); }
    OnPath(parent, n);
    if ValidateFailed in c.status[parent] {
      a := parent;
    } else {
      a := InvalidAncestorWitness(c, good, parent);
      OnPath(a, parent);
    }
  }

  /** A branch all of whose blocks pass carries no invalid flag. */
  lemma {:induction false} GoodIsClean(genesis: BlockNode, c: Chain, good: set<BlockNode>, n: BlockNode)
    requires Closed(genesis, c) && Sound(c, good) && n in c.status
    requires forall m :: m in Path(n) ==> m == genesis || m in good
    ensures Clean(c.status, n)
  {
    assert InTree(genesis, c.status, n) && FlagsSound(c.status, good, n);
    if n.parent.Node? {
      GoodIsClean(genesis, c, good, n.parent);
      assert n in Path(n);
    }
  }

  /**
   * The best chain is the heaviest valid chain: every block on it passes on top of the one before, and
   * no indexed branch all of whose blocks pass has more work.
   */
  lemma BestChainIsHeaviestValid(genesis: BlockNode, c: Chain, good: set<BlockNode>)
    requires Inv(genesis, c, good)
    ensures forall m :: m in Path(c.tip) ==> m == genesis || m in good
    ensures forall n :: n in c.status && (forall m :: m in Path(n) ==> m == genesis || m in good) ==>
      WorkSum(n) <= WorkSum(c.tip)
  {
    forall m | m in Path(c.tip) ensures m == genesis || m in good {
      ValidBelow(c, good, c.tip, m);
      assert InTree(genesis, c.status, m) && FlagsSound(c.status, good, m);
    }
    forall n | n in c.status && (forall m :: m in Path(n) ==> m == genesis || m in good)
      ensures WorkSum(n) <= WorkSum(c.tip)
    {
      GoodIsClean(genesis, c, good, n);
    }
  }

  /** Clean, said of the path. */
  ghost predicate NoInvalidOn(status: Statuses, n: BlockNode) {
    forall m :: m in Path(n) ==> m in status && !KnownInvalid(status[m])
  }

  lemma {:induction false} CleanIsPath(status: Statuses, n: BlockNode)
    ensures Clean(status, n) <==> NoInvalidOn(status, n)
  {
    if n.Node? {
      CleanIsPath(status, n.parent);
      assert forall m :: m in Path(n) <==> m in Path(n.parent) || m == n;
    }
  }

  /** What the flags of one node say about the nodes below it. */
  ghost predicate FlagsMean(status: Statuses, n: BlockNode) {
    && n in status && !(KnownValid(status[n]) && KnownInvalid(status[n]))
    && (KnownValid(status[n]) ==> forall m :: m in Path(n) ==> m in status && KnownValid(status[m]))
    && (InvalidAncestor in status[n] ==> exists a ::
      a in Path(n) && a != n && a in status && ValidateFailed in status[a])
  }

  lemma SoundFlagsMean(c: Chain, good: set<BlockNode>, n: BlockNode)
    requires Sound(c, good) && n in c.status
    ensures FlagsMean(c.status, n)
  {
    assert FlagsSound(c.status, good, n);
    NeverBoth(c, good, n);
    if KnownValid(c.status[n]) {
      forall m | m in Path(n) ensures m in c.status && KnownValid(c.status[m]) {
        ValidBelow(c, good, n, m);
      }
    }
    if InvalidAncestor in c.status[n] {
      var a := InvalidAncestorWitness(c, good, n);
    }
  }

  // --- What connectBestChain reports

  lemma BestIsClean(c: Chain, good: set<BlockNode>, n: BlockNode)
    requires Sound(c, good) && n in Path(c.tip)
    ensures NoInvalidOn(c.status, n)
  {
    forall m | m in Path(n) ensures m in c.status && !KnownInvalid(c.status[m]) {
      OnPathTransitive(m, n, c.tip);
      ValidBelow(c, good, c.tip, m);
      assert FlagsSound(c.status, good, m);
      NeverBoth(c, good, m);
    }
  }

  /** A branch is clean exactly when its part above the fork is. */
  lemma CleanAboveFork(genesis: BlockNode, c: Chain, good: set<BlockNode>, n: BlockNode)
    requires Closed(genesis, c) && Sound(c, good) && n in c.status
    ensures NoInvalidOn(c.status, n) <==> LastInvalid(c.status, Branch(c.tip, n)) < 0
  {
    var fork, branch := Fork(c.tip, n), Branch(c.tip, n);
    ForkExists(genesis, c, n);
    PathInTree(genesis, c, n);
    BestIsClean(c, good, fork);
    OnPath(fork, n);
    if LastInvalid(c.status, branch) < 0 {
      forall m | m in Path(n) ensures !KnownInvalid(c.status[m]) {
        var i :| 0 <= i < |Path(n)| && Path(n)[i] == m;
        if i <= Height(fork) {
          assert Path(n)[..Height(fork) + 1][i] == m;
        } else {
          BranchIndex(c.tip, n, Height(fork), i - Height(fork) - 1);
        }
      }
    } else {
      BranchIndex(c.tip, n, Height(fork), LastInvalid(c.status, branch));
    }
  }

  /** On top of the tip there is no invalid block below. */
  lemma CleanOnTip(genesis: BlockNode, c: Chain, good: set<BlockNode>, n: BlockNode)
    requires Pending(genesis, c, good, n) && n.parent == c.tip
    ensures NoInvalidOn(c.status, n)
  {
    assert c.tip in Path(c.tip);
    BestIsClean(c, good, c.tip);
    assert forall m :: m in Path(n) <==> m in Path(c.tip) || m == n;
  }

  /** A block with enough work on a branch known to be invalid is reported to be on the main chain. */
  lemma TaintedIsReported(genesis: BlockNode, c: Chain, good: set<BlockNode>, n: BlockNode)
    requires Pending(genesis, c, good, n) && WorkSum(n) > WorkSum(c.tip) && !NoInvalidOn(c.status, n)
    ensures ConnectBest(c, good, n).1 == Accepted(true) && ConnectBest(c, good, n).0.tip == c.tip != n
  {
    if n.parent == c.tip {
      CleanOnTip(genesis, c, good, n);
    }
    CleanAboveFork(genesis, c, good, n);
    assert Tainted(c, n).Some?;
  }

  /**
   * connectBestChain answers that the block is on the main chain although it is not, exactly when the
   * block stands on one that is known to be invalid.
   */
  lemma ReportedMain(genesis: BlockNode, c: Chain, good: set<BlockNode>, n: BlockNode)
    requires Pending(genesis, c, good, n) && ConnectBest(c, good, n).1 == Accepted(true)
    ensures ConnectBest(c, good, n).0.tip == n <==> NoInvalidOn(c.status, n)
  {
    if n.parent == c.tip {
      CleanOnTip(genesis, c, good, n);
    } else {
      CleanAboveFork(genesis, c, good, n);
      if KnownInvalid(c.status[n.parent]) {
        assert n.parent in Path(n) by { assert n.parent in Path(n.parent); }
      }
    }
  }
}
