/** The flat view of one branch of the block tree (blockchain/chainview.go). */
module ChainViews {
  import opened Primitives
  import opened Log2
  import opened BlockTree
  import opened Locator

  const APPROX_NODES_PER_WEEK := 6 * 24 * 7

  /** The slice c.nodes: the first len cells of a backing array whose length is its capacity. */
  class ChainView {
    var backing: array<BlockNode>
    var len: nat
    /** The node whose branch the view shows. */
    ghost var tip: BlockNode

    ghost predicate Valid()
      reads this, backing
    {
      len <= backing.Length && Contents() == Path(tip)
    }

    ghost function Contents(): seq<BlockNode>
      requires len <= backing.Length
      reads this, backing
    {
      backing[..len]
    }

    function Tip(): (t: BlockNode)
      requires Valid()
      reads this, backing
      ensures t == tip
    {
      if len == 0 then Nil else backing[len - 1]
    }

    constructor (tip: BlockNode)
      ensures Valid() && this.tip == tip && Contents() == Path(tip) && fresh(backing)
    {
      backing := new BlockNode[0];
      len := 0;
      this.tip := Nil;
      new;
      SetTip(tip);
    }

    /** Expand or contract the slice; cells that were not part of it before are cleared. */
    method Resize(needed: nat)
      requires len <= backing.Length
      modifies this, backing
      ensures len == needed <= backing.Length && tip == old(tip)
      ensures backing == old(backing) || fresh(backing)
      ensures forall j :: 0 <= j < needed ==> backing[j] == if j < old(len) then old(backing[j]) else Nil
    {
      if backing.Length < needed {
        var nodes := new BlockNode[needed + APPROX_NODES_PER_WEEK](_ => Nil);
        forall i | 0 <= i < len {
          nodes[i] := backing[i];
        }
        backing := nodes;
        len := needed;
      } else {
        var prevLen := len;
        len := needed;
        var i := prevLen;
        while i < needed
          invariant prevLen <= i && backing == old(backing) && len == needed && tip == old(tip)
          invariant forall j :: 0 <= j < prevLen && j < needed ==> backing[j] == old(backing[j])
          invariant forall j :: prevLen <= j < i && j < needed ==> backing[j] == Nil
        {
          backing[i] := Nil;
          i := i + 1;
        }
      }
    }

    /** Write the branch from its end downwards until a cell already holds its node. */
    method Walk(node: BlockNode) returns (ghost stop: int)
      requires node.Node? && len == Height(node) + 1 <= backing.Length
      modifies backing
      ensures -1 <= stop < len
      ensures forall j :: stop < j < len ==> backing[j] == Path(node)[j]
      ensures forall j :: 0 <= j <= stop ==> backing[j] == old(backing[j])
      ensures stop >= 0 ==> backing[stop] == Path(node)[stop] && Path(node)[stop].Node?
    {
      var n := node;
      stop := len - 1;
      while n.Node? && backing[Height(n)] != n
        invariant stop == Height(n) < len
        invariant n.Node? ==> n == Path(node)[stop]
        invariant forall j :: stop < j < len ==> backing[j] == Path(node)[j]
        invariant forall j :: 0 <= j <= stop ==> backing[j] == old(backing[j])
        decreases stop
      {
        StepDown(node, stop);
        backing[Height(n)] := n;
        stop := stop - 1;
        n := n.parent;
      }
    }

    /** The walk stops at the first cell that already holds the node, yet the whole view is right. */
    method SetTip(node: BlockNode)
      requires Valid()
      modifies this, backing
      ensures Valid() && tip == node && Contents() == Path(node)
      ensures backing == old(backing) || fresh(backing)
    {
      ghost var oldTip := tip;
      tip := node;
      if node.Nil? {
        len := 0;
        return;
      }
      Resize(Height(node) + 1);
      ghost var stop := Walk(node);
      if stop >= 0 {
        assert stop < old(len) && old(backing[stop]) == Path(oldTip)[stop];
        Agree(node, oldTip, stop);
        forall j | 0 <= j <= stop ensures backing[j] == Path(node)[j] {
          assert backing[j] == Path(oldTip)[..stop + 1][j];
        }
      }
      assert Contents() == Path(node);
    }

    function NodeByHeight(height: int): BlockNode
      requires Valid()
      reads this, backing
    {
      if height < 0 || height >= len then Nil else backing[height]
    }

    predicate Contains(node: BlockNode)
      requires Valid() && node.Node?
      reads this, backing
      ensures Contains(node) <==> node in Path(tip)
    {
      OnPath(node, tip);
      NodeByHeight(Height(node)) == node
    }

    /** The node after the given one in the view, Nil for the tip and for nodes outside the view. */
    function Next(node: BlockNode): (next: BlockNode)
      requires Valid()
      reads this, backing
      ensures node in Path(tip) && node != tip ==> next.Node? && next.parent == node && next in Path(tip)
      ensures node !in Path(tip) || node == tip ==> next == Nil
    {
      OnPath(node, tip);
      if node.Nil? || !Contains(node) then Nil
      else
        assert node != tip ==> NodeByHeight(Height(node) + 1).parent == node by {
          if node != tip { PathParent(tip, Height(node) + 1); }
        }
        NodeByHeight(Height(node) + 1)
    }

    /** The highest common ancestor of the node and the tip. */
    method FindFork(node: BlockNode) returns (fork: BlockNode)
      requires Valid()
      ensures fork == Fork(tip, node)
    {
      if node.Nil? {
        return Nil;
      }
      var chainHeight := len - 1;
      fork := node;
      if Height(node) > chainHeight {
        ForkBelowTip(tip, node);
        fork := Ancestor(node, chainHeight);
      }
      while fork.Node? && !Contains(fork)
        invariant Fork(tip, fork) == Fork(tip, node)
        decreases Height(fork)
      {
        fork := fork.parent;
      }
    }

    /** The ancestor at a height: one array read for nodes in the view, a walk for the others. */
    method Below(node: BlockNode, height: nat) returns (a: BlockNode)
      requires Valid() && node.Node? && height <= Height(node)
      ensures a == AncestorAt(node, height)
    {
      if Contains(node) {
        OnPath(node, tip);
        a := backing[height];
      } else {
        a := Ancestor(node, height);
      }
    }

    /** From the entry just appended, the len-th, to the next node and the step to take from there. */
    method Descend(ghost target: BlockNode, len: nat, node: BlockNode, step: int)
      returns (next: BlockNode, nextStep: int)
      requires Valid() && target.Node? && Height(target) < 0x8000_0000
      requires len > 0 && Reached(target, len - 1, node, step) && Height(node) > 0
      ensures Reached(target, len, next, nextStep) && Height(next) < Height(node)
    {
      var height := Height(node) - step;
      if height < 0 {
        height := 0;
      }
      StepPositive(target, len - 1, node, step);
      next := Below(node, height);
      ReachedStep(target, len - 1, node, step, next);
      nextStep := if len > 10 then Int32(step * 2) else step;
    }

    method BlockLocator(start: BlockNode) returns (locator: seq<Hash>)
      requires Valid()
      requires start.Node? ==> Height(start) < 0x8000_0000
      requires Height(tip) < 0x8000_0000
      ensures var target := if start.Node? then start else tip;
        if target.Nil? then locator == [] else IsLocator(locator, target)
    {
      var node := if start.Node? then start else Tip();
      if node.Nil? {
        return [];
      }
      ghost var target := node;
      var maxEntries := LocatorCapacity(Height(node));
      locator := [];
      var step := 1;
      ReachedFirst(target);
      while node.Node?
        invariant Entries(locator, target) && Reached(target, |locator|, node, step)
        decreases Height(node)
      {
        if Height(node) == 0 {
          EntriesEnd(locator, target, node, step);
          locator := locator + [node.hash];
          break;
        }
        EntriesStep(locator, target, node, step);
        locator := locator + [node.hash];
        node, step := Descend(target, |locator|, node, step);
      }
      assert |locator| == maxEntries;
    }
  }

  lemma StepDown(node: BlockNode, h: nat)
    requires h <= Height(node)
    ensures var n := Path(node)[h];
      n.Node? && Height(n.parent) == h - 1 && (h > 0 ==> n.parent == Path(node)[h - 1])
  {
    PathPrefix(node, h);
    if h > 0 {
      PathParent(node, h);
    }
  }

  /** Two paths that agree at one height agree below it. */
  lemma Agree(a: BlockNode, b: BlockNode, h: nat)
    requires h <= Height(a) && h <= Height(b) && Path(a)[h] == Path(b)[h]
    ensures Path(a)[..h + 1] == Path(b)[..h + 1]
  {
    PathPrefix(a, h);
    PathPrefix(b, h);
  }

  /** The number of entries the locator is allocated for. */
  method LocatorCapacity(height: nat) returns (maxEntries: nat)
    requires height < 0x8000_0000
    ensures maxEntries == MaxEntries(height)
  {
    if height <= 12 {
      maxEntries := height + 1;
    } else {
      var log := FastLog2Floor(height - 10);
      maxEntries := 12 + log;
      Log2Unique(height - 10, log);
    }
  }

  /** Nodes above the view's tip cannot be the fork, so the walk may start at the tip's height. */
  lemma {:induction false} ForkBelowTip(tip: BlockNode, n: BlockNode)
    requires Height(n) > Height(tip)
    ensures Fork(tip, n) == Fork(tip, AncestorAt(n, Height(tip)))
  {
    OnPath(n, tip);
    if Height(n.parent) > Height(tip) {
      ForkBelowTip(tip, n.parent);
      if Height(tip) >= 0 {
        assert Path(n)[Height(tip)] == Path(n.parent)[Height(tip)];
      }
    } else if Height(tip) >= 0 {
      PathParent(n, Height(n));
    }
  }
}
