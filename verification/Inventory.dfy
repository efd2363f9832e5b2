/** Answering a block locator with the part of the main chain the asker lacks (blockchain/chain.go). */
module Inventory {
  import opened Primitives
  import opened BlockTree
  import opened Locator
  import opened ChainViews

  /** The first locator entry that is a block of tip's branch; genesis when there is none. */
  function FirstKnown(index: map<Hash, BlockNode>, tip: BlockNode, locator: seq<Hash>): (n: BlockNode)
    requires tip.Node?
    ensures n in Path(tip)
  {
    if locator == [] then Path(tip)[0]
    else if locator[0] in index && index[locator[0]] in Path(tip) then index[locator[0]]
    else FirstKnown(index, tip, locator[1..])
  }

  /** How many blocks to send from the main-chain block `from` on. */
  function Wanted(tip: BlockNode, from: BlockNode, stop: BlockNode, maxEntries: nat): nat
    requires from in Path(tip)
  {
    OnPath(from, tip);
    var last := if stop.Node? && stop in Path(tip) && Height(stop) >= Height(from) then stop else tip;
    var total := Height(last) - Height(from) + 1;
    if total > maxEntries then maxEntries else total
  }

  /** The hashes are those of the blocks of tip's branch that follow a given one. */
  ghost predicate RunAfter(tip: BlockNode, start: BlockNode, hashes: seq<Hash>) {
    && start in Path(tip) && Height(start) + |hashes| <= Height(tip)
    && RunFrom(tip, Height(start) + 1, hashes)
  }

  predicate RunFrom(tip: BlockNode, from: nat, hashes: seq<Hash>) {
    forall i :: 0 <= i < |hashes| ==> BlockHashAt(tip, from + i, hashes[i])
  }

  predicate BlockHashAt(tip: BlockNode, height: int, hash: Hash) {
    0 <= height <= Height(tip) && Path(tip)[height].Node? && Path(tip)[height].hash == hash
  }

  /** The hash of every ancestor of x stands for that ancestor in the index, if it is there. */
  ghost predicate Recognised(index: map<Hash, BlockNode>, x: BlockNode) {
    forall a :: a in Path(x) ==> a.Node? && (a.hash in index ==> index[a.hash] == a)
  }

  /** Every block of tip's branch is indexed. */
  ghost predicate BranchIndexed(index: map<Hash, BlockNode>, tip: BlockNode) {
    forall a :: a in Path(tip) ==> a.Node? && a.hash in index && index[a.hash] == a
  }

  lemma {:induction false} FirstKnownIs(index: map<Hash, BlockNode>, tip: BlockNode, locator: seq<Hash>, k: nat,
                                        n: BlockNode)
    requires tip.Node? && k < |locator| && locator[k] in index && index[locator[k]] == n && n in Path(tip)
    requires forall i :: 0 <= i < k ==> !(locator[i] in index && index[locator[i]] in Path(tip))
    ensures FirstKnown(index, tip, locator) == n
  {
    if k > 0 {
      assert !(locator[0] in index && index[locator[0]] in Path(tip));
      FirstKnownIs(index, tip, locator[1..], k - 1, n);
    }
  }

  /** The entry of a locator at a height, as a node on the path. */
  lemma EntryOnPath(x: BlockNode, h: nat)
    requires h <= Height(x)
    ensures AncestorAt(x, h) == Path(x)[h] && Path(x)[h].Node? && Path(x)[h] in Path(x) && Height(Path(x)[h]) == h
  {
    PathPrefix(x, h);
  }

  /** Which ancestors of x are on tip's branch: those up to the fork. */
  lemma SharedUpToFork(tip: BlockNode, x: BlockNode, h: nat)
    requires x.Node? && h <= Height(x) && Fork(tip, x).Node?
    ensures Path(x)[h] in Path(tip) <==> h <= Height(Fork(tip, x))
  {
    var fork := Fork(tip, x);
    ForkIsHighestCommon(tip, x);
    PathPrefix(x, h);
    OnPath(fork, x);
    if h <= Height(fork) {
      PathPrefix(x, Height(fork));
      assert Path(fork)[h] == Path(x)[h];
      OnPathTransitive(Path(x)[h], fork, tip);
    } else if Path(x)[h] in Path(tip) {
      OnPath(Path(x)[h], fork);
    }
  }

  /** Entry k is recognised as a main-chain block exactly when it lies at or below the fork. */
  lemma EntryKnown(index: map<Hash, BlockNode>, tip: BlockNode, x: BlockNode, locator: seq<Hash>, k: nat)
    requires x.Node? && IsLocator(locator, x) && Recognised(index, x) && BranchIndexed(index, tip) && Fork(tip, x).Node?
    requires k < |locator|
    ensures var h := EntryHeight(Height(x), k);
      && h <= Height(x)
      && (h <= Height(Fork(tip, x)) ==>
        locator[k] in index && index[locator[k]] == Path(x)[h] && Path(x)[h] in Path(tip))
      && (h > Height(Fork(tip, x)) ==> !(locator[k] in index && index[locator[k]] in Path(tip)))
  {
    var h := EntryHeight(Height(x), k);
    assert IsEntry(locator[k], x, k);
    EntryOnPath(x, h);
    SharedUpToFork(tip, x, h);
  }

  /**
   * A node that asks with the locator of its block x is served from a main-chain ancestor of x: from x
   * itself when x is on the main chain, and otherwise from less than 2D blocks below x when the branches
   * part D blocks below x.
   */
  lemma ServedFrom(index: map<Hash, BlockNode>, tip: BlockNode, x: BlockNode, locator: seq<Hash>)
    requires tip.Node? && x.Node? && Fork(tip, x).Node?
    requires IsLocator(locator, x) && Recognised(index, x) && BranchIndexed(index, tip)
    ensures Near(tip, x, FirstKnown(index, tip, locator), Height(x) - Height(Fork(tip, x)))
  {
    var d := Height(x) - Height(Fork(tip, x));
    ForkIsHighestCommon(tip, x);
    OnPath(Fork(tip, x), x);
    var k := 0;
    if d >= 1 {
      k := FirstEntryBelow(Height(x), d);
    } else {
      LastEntry(Height(x));
    }
    EntryKnown(index, tip, x, locator, k);
    EntryOnPath(x, EntryHeight(Height(x), k));
    forall i | 0 <= i < k ensures !(locator[i] in index && index[locator[i]] in Path(tip)) {
      EntryKnown(index, tip, x, locator, i);
    }
    FirstKnownIs(index, tip, locator, k, Path(x)[EntryHeight(Height(x), k)]);
  }

  /** What locateBlocks returns for a non-empty locator. */
  ghost predicate Served(index: map<Hash, BlockNode>, tip: BlockNode, locator: seq<Hash>, stop: BlockNode,
                         maxHashes: nat, hashes: seq<Hash>)
    requires tip.Node?
  {
    var start := FirstKnown(index, tip, locator);
    && RunAfter(tip, start, hashes)
    && |hashes| == if start == tip then 0 else WantedAfter(tip, start, stop, maxHashes)
  }

  function WantedAfter(tip: BlockNode, start: BlockNode, stop: BlockNode, maxHashes: nat): nat
    requires start in Path(tip) && start != tip
  {
    OnPath(start, tip);
    PathPrefix(tip, Height(start) + 1);
    Wanted(tip, Path(tip)[Height(start) + 1], stop, maxHashes)
  }

  lemma WantedCount(tip: BlockNode, start: BlockNode, stop: BlockNode, maxHashes: nat)
    requires start in Path(tip) && start != tip
    ensures WantedAfter(tip, start, stop, maxHashes) <= maxHashes
    ensures WantedAfter(tip, start, stop, maxHashes) == 0 <==> maxHashes == 0
  {
    OnPath(start, tip);
    PathPrefix(tip, Height(start) + 1);
    OnPath(Path(tip)[Height(start) + 1], tip);
  }

  /**
   * The length of the answer to any locator: all blocks up to the stop block, if that is on the main chain
   * above the start, or else up to the tip, but at most maxHashes of them.
   */
  lemma ServedExactly(index: map<Hash, BlockNode>, tip: BlockNode, locator: seq<Hash>, stop: BlockNode, maxHashes: nat,
                      hashes: seq<Hash>)
    requires tip.Node? && Served(index, tip, locator, stop, maxHashes, hashes)
    ensures var start := FirstKnown(index, tip, locator);
      var last := if stop.Node? && stop in Path(tip) && Height(stop) > Height(start) then stop else tip;
      var missing := Height(last) - Height(start);
      && |hashes| == (if missing <= maxHashes then missing else maxHashes)
      && (hashes != [] && missing <= maxHashes ==> hashes[|hashes| - 1] == last.hash)
  {
    var start := FirstKnown(index, tip, locator);
    OnPath(start, tip);
    OnPath(stop, tip);
    OnPath(tip, tip);
    if start != tip {
      PathPrefix(tip, Height(start) + 1);
    }
    if hashes != [] {
      assert BlockHashAt(tip, Height(start) + |hashes|, hashes[|hashes| - 1]);
    }
  }

  /** From where the asker with block x gets blocks of tip's branch, when the branches part d blocks below x. */
  ghost predicate Near(tip: BlockNode, x: BlockNode, start: BlockNode, d: int) {
    && start in Path(x) && start in Path(tip)
    && if d == 0 then start == x else Height(x) - 2 * d < Height(start) <= Height(x) - d
  }

  /** A run of blocks after a main-chain ancestor of x less than twice as far below x as the fork is, or after x. */
  ghost predicate NearRun(tip: BlockNode, x: BlockNode, hashes: seq<Hash>) {
    exists start :: RunAfter(tip, start, hashes) && Near(tip, x, start, Height(x) - Height(Fork(tip, x)))
  }

  /**
   * The answer to the locator of x: a contiguous run of at most maxHashes main-chain blocks that starts
   * right after a main-chain ancestor of x less than 2D blocks below x, and that is empty only when the
   * asker has the tip or asks for nothing.
   */
  lemma AnswerToLocator(index: map<Hash, BlockNode>, tip: BlockNode, x: BlockNode, locator: seq<Hash>, stop: BlockNode,
                        maxHashes: nat, hashes: seq<Hash>)
    requires tip.Node? && x.Node? && Fork(tip, x).Node?
    requires IsLocator(locator, x) && Recognised(index, x) && BranchIndexed(index, tip)
    requires Served(index, tip, locator, stop, maxHashes, hashes)
    ensures |hashes| <= maxHashes
    ensures NearRun(tip, x, hashes)
    ensures hashes == [] <==> maxHashes == 0 || FirstKnown(index, tip, locator) == tip
  {
    ServedFrom(index, tip, x, locator);
    var start := FirstKnown(index, tip, locator);
    assert RunAfter(tip, start, hashes) && Near(tip, x, start, Height(x) - Height(Fork(tip, x)));
    if start != tip {
      WantedCount(tip, start, stop, maxHashes);
    }
  }

  // --- The two operations

  function LookupNode(index: map<Hash, BlockNode>, hash: Hash): BlockNode {
    if hash in index then index[hash] else Nil
  }

  predicate NodesOnly(index: map<Hash, BlockNode>) {
    forall h :: h in index ==> index[h].Node?
  }

  /** The loop of locateInventory over the locator. */
  method FindKnown(index: map<Hash, BlockNode>, view: ChainView, locator: seq<Hash>) returns (n: BlockNode)
    requires view.Valid() && view.tip.Node? && NodesOnly(index)
    ensures n == FirstKnown(index, view.tip, locator)
  {
    n := view.NodeByHeight(0);
    SliceAll(locator);
    for i := 0 to |locator|
      invariant n == Path(view.tip)[0]
      invariant FirstKnown(index, view.tip, locator) == FirstKnown(index, view.tip, locator[i..])
    {
      SliceStep(locator, i);
      var node := LookupNode(index, locator[i]);
      if node.Node? && view.Contains(node) {
        return node;
      }
    }
  }

  method LocateInventory(index: map<Hash, BlockNode>, view: ChainView, locator: seq<Hash>, hashStop: Hash,
                         maxEntries: nat)
    returns (node: BlockNode, total: nat)
    requires view.Valid() && view.tip.Node? && NodesOnly(index)
    ensures locator == [] ==> node == LookupNode(index, hashStop) && total == if hashStop in index then 1 else 0
    ensures locator != [] ==> var start := FirstKnown(index, view.tip, locator);
      if start == view.tip then node.Nil? && total == 0
      else
        && ComesAfter(view.tip, start, node)
        && total == WantedAfter(view.tip, start, LookupNode(index, hashStop), maxEntries)
  {
    var stopNode := LookupNode(index, hashStop);
    if locator == [] {
      return stopNode, if stopNode.Node? then 1 else 0;
    }
    var startNode := FindKnown(index, view, locator);
    ghost var start := startNode;
    startNode := view.Next(startNode);
    if startNode.Nil? {
      return Nil, 0;
    }
    NextIs(view.tip, start, startNode);
    total := Height(view.Tip()) - Height(startNode) + 1;
    if stopNode.Node? && view.Contains(stopNode) && Height(stopNode) >= Height(startNode) {
      total := Height(stopNode) - Height(startNode) + 1;
    }
    if total > maxEntries {
      total := maxEntries;
    }
    return startNode, total;
  }

  /** The node that follows start on tip's branch. */
  predicate ComesAfter(tip: BlockNode, start: BlockNode, node: BlockNode) {
    Height(start) + 1 <= Height(tip) && node == Path(tip)[Height(start) + 1]
  }

  lemma NextIs(tip: BlockNode, start: BlockNode, node: BlockNode)
    requires start in Path(tip) && node in Path(tip) && node.Node? && node.parent == start && start.Node?
    ensures start != tip && ComesAfter(tip, start, node) && Height(node) == Height(start) + 1 <= Height(tip)
  {
    OnPath(node, tip);
    OnPath(start, tip);
  }

  method LocateBlocks(index: map<Hash, BlockNode>, view: ChainView, locator: seq<Hash>, hashStop: Hash, maxHashes: nat)
    returns (hashes: seq<Hash>)
    requires view.Valid() && view.tip.Node? && NodesOnly(index)
    ensures locator == [] ==> hashes == if hashStop in index then [index[hashStop].hash] else []
    ensures locator != [] ==> Served(index, view.tip, locator, LookupNode(index, hashStop), maxHashes, hashes)
  {
    var node, total := LocateInventory(index, view, locator, hashStop, maxHashes);
    hashes := [];
    if total == 0 {
      return;
    }
    ghost var first := node;
    if locator != [] {
      RunFits(view.tip, FirstKnown(index, view.tip, locator), first, LookupNode(index, hashStop), maxHashes, total);
    } else {
      OneFits(view.tip, first);
    }
    GatherStart(view.tip, first, total);
    for i := 0 to total
      invariant Gathered(view.tip, first, i, total, node, hashes)
    {
      GatherStep(view.tip, first, i, total, node, hashes, view.Next(node));
      hashes := hashes + [node.hash];
      node := view.Next(node);
    }
    if locator != [] {
      RunGathered(view.tip, FirstKnown(index, view.tip, locator), first, total, node, hashes);
    }
  }

  /** There are enough blocks from the first one on. */
  predicate Fits(tip: BlockNode, first: BlockNode, total: nat) {
    first.Node? && if first in Path(tip) then Height(first) + total <= Height(tip) + 1 else total <= 1
  }

  /** The loop of locateBlocks has appended i hashes and stands at the next node. */
  ghost predicate Gathered(tip: BlockNode, first: BlockNode, i: nat, total: nat, node: BlockNode, hashes: seq<Hash>) {
    && Fits(tip, first, total) && |hashes| == i && (i == 0 ==> node == first) && (i > 0 ==> hashes[0] == first.hash)
    && (first in Path(tip) ==> RunFrom(tip, Height(first), hashes))
    && (i < total && first in Path(tip) ==> node == Path(tip)[Height(first) + i])
  }

  lemma GatherStart(tip: BlockNode, first: BlockNode, total: nat)
    requires Fits(tip, first, total)
    ensures Gathered(tip, first, 0, total, first, [])
  {
    OnPath(first, tip);
  }

  lemma OneFits(tip: BlockNode, first: BlockNode)
    requires first.Node?
    ensures Fits(tip, first, 1)
  {
    OnPath(first, tip);
  }

  lemma GatherStep(tip: BlockNode, first: BlockNode, i: nat, total: nat, node: BlockNode, hashes: seq<Hash>,
                   next: BlockNode)
    requires Gathered(tip, first, i, total, node, hashes) && i < total
    requires node in Path(tip) && node != tip ==> next.Node? && next.parent == node && next in Path(tip)
    ensures node.Node? && Gathered(tip, first, i + 1, total, next, hashes + [node.hash])
  {
    if first in Path(tip) {
      GatherOnPath(tip, Height(first) + i, node, next);
    }
  }

  lemma GatherOnPath(tip: BlockNode, h: nat, node: BlockNode, next: BlockNode)
    requires h <= Height(tip) && node == Path(tip)[h]
    requires node in Path(tip) && node != tip ==> next.Node? && next.parent == node && next in Path(tip)
    ensures node.Node? && (h < Height(tip) ==> next == Path(tip)[h + 1])
  {
    PathPrefix(tip, h);
    if h < Height(tip) {
      assert node in Path(tip) && node != tip;
      NextIs(tip, node, next);
    }
  }

  lemma RunFits(tip: BlockNode, start: BlockNode, first: BlockNode, stop: BlockNode, maxHashes: nat, total: nat)
    requires start in Path(tip) && start != tip && ComesAfter(tip, start, first)
    requires total == WantedAfter(tip, start, stop, maxHashes)
    ensures Fits(tip, first, total)
  {
    OnPath(start, tip);
    PathPrefix(tip, Height(start) + 1);
    assert first in Path(tip);
    if stop in Path(tip) {
      OnPath(stop, tip);
    }
  }

  lemma RunGathered(tip: BlockNode, start: BlockNode, first: BlockNode, total: nat, node: BlockNode, hashes: seq<Hash>)
    requires start in Path(tip) && ComesAfter(tip, start, first) && Gathered(tip, first, total, total, node, hashes)
    ensures RunAfter(tip, start, hashes)
  {
    OnPath(start, tip);
    PathPrefix(tip, Height(start) + 1);
    assert first in Path(tip);
  }
}
