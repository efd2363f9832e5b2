/** The closed form of block locators (blockchain/chain.go, blockchain/chainview.go). */
module Locator {
  import opened Primitives
  import opened Log2
  import opened BlockTree

  /** How far below the located block the k-th entry lies, as long as that is above genesis. */
  function Offset(k: nat): (d: nat) {
    if k <= 11 then k else 9 + Pow2(k - 10)
  }

  function EntryHeight(height: nat, k: nat): (h: nat) {
    if height <= Offset(k) then 0 else height - Offset(k)
  }

  /** The distance from the k-th entry to the next one. */
  function Step(k: nat): nat {
    if k <= 10 then 1 else Pow2(k - 10)
  }

  function Log2Floor(n: nat): (r: nat)
    requires n > 0
    ensures Pow2(r) <= n < Pow2(r + 1)
  {
    if n < 2 then 0 else 1 + Log2Floor(n / 2)
  }

  lemma Log2Unique(n: nat, r: nat)
    requires n > 0 && Pow2(r) <= n < Pow2(r + 1)
    ensures Log2Floor(n) == r
  {
    var s := Log2Floor(n);
    if s < r {
      Pow2Mono(s + 1, r);
    } else if r < s {
      Pow2Mono(r + 1, s);
    }
  }

  function MaxEntries(height: nat): (k: nat) {
    if height <= 12 then height + 1 else 12 + Log2Floor(height - 10)
  }

  /** The locator of a node: one hash per entry height, down to genesis. */
  ghost predicate IsLocator(locator: seq<Hash>, node: BlockNode)
    requires node.Node?
  {
    && |locator| == MaxEntries(Height(node))
    && forall k :: 0 <= k < |locator| ==> IsEntry(locator[k], node, k)
  }

  ghost predicate IsEntry(hash: Hash, node: BlockNode, k: nat)
    requires node.Node?
  {
    var a := AncestorAt(node, EntryHeight(Height(node), k));
    a.Node? && hash == a.hash
  }

  lemma OffsetStep(k: nat)
    ensures Offset(k + 1) == Offset(k) + Step(k)
    ensures k >= 11 ==> Offset(k) == 9 + Step(k)
  {
    if k == 11 {
      assert Pow2(1) == 2 && Pow2(2) == 4;
    }
  }

  /** One round of the locator loop: the next height, and the step it leaves for the round after. */
  lemma NextEntry(height: nat, k: nat)
    requires EntryHeight(height, k) > 0
    ensures EntryHeight(height, k + 1) < EntryHeight(height, k)
    ensures EntryHeight(height, k + 1) == if EntryHeight(height, k) < Step(k) then 0
      else EntryHeight(height, k) - Step(k)
    ensures height < 0x8000_0000 && EntryHeight(height, k + 1) > 0 ==>
      Step(k + 1) == if k + 1 > 10 then Int32(Step(k) * 2) else Step(k)
  {
    OffsetStep(k);
    OffsetStep(k + 1);
    assert Pow2(0) == 1 && Pow2(1) == 2;
  }

  lemma OffsetMono(i: nat, j: nat)
    requires i < j
    ensures Offset(i) < Offset(j)
  {
    OffsetStep(j - 1);
    if i < j - 1 {
      OffsetMono(i, j - 1);
    }
  }

  /** The first entry at genesis is the last of exactly as many entries as were precomputed. */
  lemma LengthExact(height: nat, k: nat)
    requires height <= Offset(k) && (k > 0 ==> Offset(k - 1) < height)
    ensures k + 1 == MaxEntries(height)
  {
    assert Pow2(0) == 1 && Pow2(1) == 2 && Pow2(2) == 4;
    if height <= 12 {
      if k > 13 {
        OffsetMono(12, k - 1);
      }
    } else {
      OffsetStep(k - 1);
      Log2Unique(height - 10, k - 11);
    }
  }

  /** Where the locator loop stands before it appends entry k: the node reached and the next step. */
  ghost predicate Reached(target: BlockNode, k: nat, node: BlockNode, step: int)
    requires target.Node?
  {
    && node == AncestorAt(target, EntryHeight(Height(target), k))
    && node.Node? && Height(node) == EntryHeight(Height(target), k)
    && (Height(node) > 0 ==> step == Step(k))
    && (k > 0 ==> Offset(k - 1) < Height(target))
  }

  lemma ReachedFirst(target: BlockNode)
    requires target.Node?
    ensures Reached(target, 0, target, 1)
  {
  }

  lemma DescendPath(target: BlockNode, at: nat, below: nat)
    requires below <= at <= Height(target)
    ensures AncestorAt(AncestorAt(target, at), below) == AncestorAt(target, below)
    ensures AncestorAt(target, below).Node? && Height(AncestorAt(target, below)) == below
  {
    AncestorOfAncestor(target, at, below);
    AncestorOfAncestor(target, below, 0);
  }

  lemma StepPositive(target: BlockNode, k: nat, node: BlockNode, step: int)
    requires target.Node? && Reached(target, k, node, step) && Height(node) > 0
    ensures step > 0
  {
  }

  lemma ReachedStep(target: BlockNode, k: nat, node: BlockNode, step: int, next: BlockNode)
    requires target.Node? && Height(target) < 0x8000_0000
    requires Reached(target, k, node, step) && Height(node) > 0
    requires next == AncestorAt(node, if Height(node) < step then 0 else Height(node) - step)
    ensures Height(next) < Height(node)
    ensures Reached(target, k + 1, next, if k + 1 > 10 then Int32(step * 2) else step)
  {
    var h, nextStep := Height(target), if k + 1 > 10 then Int32(step * 2) else step;
    NextEntry(h, k);
    DescendPath(target, EntryHeight(h, k), EntryHeight(h, k + 1));
  }

  ghost predicate Entries(locator: seq<Hash>, target: BlockNode)
    requires target.Node?
  {
    forall k :: 0 <= k < |locator| ==> IsEntry(locator[k], target, k)
  }

  lemma EntriesStep(locator: seq<Hash>, target: BlockNode, node: BlockNode, step: int)
    requires target.Node? && Entries(locator, target) && Reached(target, |locator|, node, step)
    ensures Entries(locator + [node.hash], target)
  {
  }

  lemma EntriesEnd(locator: seq<Hash>, target: BlockNode, node: BlockNode, step: int)
    requires target.Node? && Entries(locator, target) && Reached(target, |locator|, node, step)
    requires Height(node) == 0
    ensures IsLocator(locator + [node.hash], target)
  {
    EntriesStep(locator, target, node, step);
    LengthExact(Height(target), |locator|);
  }

  /** The last entry is genesis and every earlier one lies above it. */
  lemma LastEntry(height: nat)
    ensures MaxEntries(height) >= 1
    ensures EntryHeight(height, MaxEntries(height) - 1) == 0
    ensures forall k :: 0 <= k < MaxEntries(height) - 1 ==> EntryHeight(height, k) == height - Offset(k) > 0
  {
    var k := FirstAtGenesis(height);
    LengthExact(height, k);
    forall i | 0 <= i < k ensures Offset(i) < height {
      if i < k - 1 { OffsetMono(i, k - 1); }
    }
  }

  lemma FirstAtGenesis(height: nat) returns (k: nat)
    ensures height <= Offset(k) && (k > 0 ==> Offset(k - 1) < height)
  {
    k := 0;
    while Offset(k) < height
      invariant k > 0 ==> Offset(k - 1) < height
      decreases height - Offset(k)
    {
      OffsetMono(k, k + 1);
      k := k + 1;
    }
  }

  /** Locator entries are strictly descending ancestors, from the node itself to genesis. */
  lemma LocatorDescends(locator: seq<Hash>, node: BlockNode)
    requires node.Node? && IsLocator(locator, node)
    ensures |locator| > 0 && locator[0] == node.hash
    ensures Path(node)[0].Node? && locator[|locator| - 1] == Path(node)[0].hash
    ensures forall i, j :: 0 <= i < j < |locator| ==> EntryHeight(Height(node), i) > EntryHeight(Height(node), j)
  {
    var h := Height(node);
    LastEntry(h);
    assert IsEntry(locator[0], node, 0) && IsEntry(locator[|locator| - 1], node, |locator| - 1);
    forall i, j | 0 <= i < j < |locator| ensures EntryHeight(h, i) > EntryHeight(h, j) {
      OffsetMono(i, j);
    }
  }

  /** The documented example: the locator of a block at height 17. */
  lemma LocatorOf17(locator: seq<Hash>, node: BlockNode)
    requires node.Node? && Height(node) == 17 && IsLocator(locator, node)
    ensures |locator| == 14
    ensures forall k :: 0 <= k < 12 ==> HashOf(locator[k], Path(node)[17 - k])
    ensures HashOf(locator[12], Path(node)[4]) && HashOf(locator[13], Path(node)[0])
  {
    assert Pow2(2) == 4 && Pow2(3) == 8;
    Log2Unique(7, 2);
    forall k | 0 <= k < 14 ensures HashOf(locator[k], Path(node)[EntryHeight(17, k)]) {
      assert IsEntry(locator[k], node, k);
    }
  }

  predicate HashOf(hash: Hash, node: BlockNode) {
    node.Node? && node.hash == hash
  }

  /**
   * Whatever the distance to a fork, the first entry at or below the fork overshoots it by less than
   * that distance again.
   */
  lemma FirstEntryBelow(height: nat, distance: nat) returns (k: nat)
    requires 1 <= distance <= height
    ensures k < MaxEntries(height)
    ensures height - distance >= EntryHeight(height, k) > height - 2 * distance
    ensures forall i :: 0 <= i < k ==> EntryHeight(height, i) > height - distance
  {
    LastEntry(height);
    k := FirstAtGenesis(distance);
    if k > MaxEntries(height) {
      OffsetMono(MaxEntries(height) - 1, k - 1);
    }
    assert Pow2(0) == 1 && Pow2(1) == 2;
    if k >= 12 {
      OffsetStep(k - 1);
    }
    forall i | 0 <= i < k ensures EntryHeight(height, i) > height - distance {
      if i < k - 1 { OffsetMono(i, k - 1); }
    }
  }
}
