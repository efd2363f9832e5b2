/**
 * Block nodes and the paths they span (blockchain/blockindex.go).
 *
 * A node never changes its parent, hash or header fields once it is initialised, so a node is a
 * value here and `Nil` is the nil pointer.  The one mutable field, the status, belongs to the block
 * index, which is the only place the original reads it from.
 */
module BlockTree {
  import opened Primitives
  import opened Compact

  datatype Header = Header(version: int32, prevBlock: Hash, merkleRoot: Hash, timestamp: uint32, bits: uint32,
                           nonce: uint32)

  datatype BlockNode =
    | Nil
    | Node(parent: BlockNode, hash: Hash, version: int32, merkleRoot: Hash, timestamp: uint32, bits: uint32,
           nonce: uint32)

  /** initBlockNode: a node for a header below a given parent. */
  function NewBlockNode(hash: Hash, header: Header, parent: BlockNode): BlockNode {
    Node(parent, hash, header.version, header.merkleRoot, header.timestamp, header.bits, header.nonce)
  }

  /** The node is found under its hash. */
  lemma NodeFields(hash: Hash, header: Header, parent: BlockNode)
    ensures var n := NewBlockNode(hash, header, parent);
      && n.Node? && n.hash == hash && n.parent == parent && n.version == header.version
      && n.merkleRoot == header.merkleRoot && n.timestamp == header.timestamp && n.bits == header.bits
      && n.nonce == header.nonce && Height(n) == Height(parent) + 1
      && WorkSum(n) == WorkSum(parent) + CalcWork(header.bits)
  {
  }

  predicate Lookup(index: map<Hash, BlockNode>, n: BlockNode) {
    n.Node? && n.hash in index && index[n.hash] == n
  }

  /** The header a node stands for; a node without a parent has the zero hash before it. */
  function HeaderOf(n: BlockNode): Header
    requires n.Node?
  {
    Header(n.version, if n.parent.Node? then n.parent.hash else ZERO_HASH, n.merkleRoot, n.timestamp, n.bits, n.nonce)
  }

  function Height(n: BlockNode): (h: int)
    ensures h >= -1
    ensures h == -1 <==> n.Nil?
  {
    if n.Nil? then -1 else Height(n.parent) + 1
  }

  function WorkSum(n: BlockNode): (w: nat) {
    if n.Nil? then 0 else WorkSum(n.parent) + CalcWork(n.bits)
  }

  /** All nodes from genesis up to and including n. */
  function Path(n: BlockNode): (p: seq<BlockNode>)
    ensures |p| == Height(n) + 1
    ensures n.Node? ==> p[|p| - 1] == n
  {
    if n.Nil? then [] else Path(n.parent) + [n]
  }

  /** Every prefix of a path is the path of its last node. */
  lemma {:induction false} PathPrefix(n: BlockNode, i: nat)
    requires i <= Height(n)
    ensures Path(n)[i].Node? && Height(Path(n)[i]) == i
    ensures Path(Path(n)[i]) == Path(n)[..i + 1]
  {
    if i == Height(n) {
      assert Path(n)[..i + 1] == Path(n);
    } else {
      PathPrefix(n.parent, i);
      assert Path(n)[..i + 1] == Path(n.parent)[..i + 1];
    }
  }

  lemma {:induction false} PathParent(n: BlockNode, i: nat)
    requires 0 < i <= Height(n)
    ensures Path(n)[i].Node? && Path(n)[i].parent == Path(n)[i - 1]
  {
    PathPrefix(n, i);
    PathPrefix(n, i - 1);
    assert Path(Path(n)[i])[i - 1] == Path(n)[i - 1];
  }

  /** A node is on a path exactly when it is found at its own height. */
  lemma {:induction false} OnPath(a: BlockNode, n: BlockNode)
    ensures a in Path(n) <==> 0 <= Height(a) <= Height(n) && Path(n)[Height(a)] == a
    ensures a in Path(n) ==> Path(a) == Path(n)[..Height(a) + 1]
  {
    if a in Path(n) {
      var i :| 0 <= i < |Path(n)| && Path(n)[i] == a;
      PathPrefix(n, i);
    }
  }

  lemma {:induction false} OnPathTransitive(a: BlockNode, b: BlockNode, c: BlockNode)
    requires a in Path(b) && b in Path(c)
    ensures a in Path(c)
  {
    OnPath(a, b);
    OnPath(b, c);
  }

  /** The work of an ancestor is at most the work of its descendant. */
  lemma {:induction false} WorkGrows(a: BlockNode, n: BlockNode)
    requires a in Path(n)
    ensures WorkSum(a) <= WorkSum(n)
  {
    if a != n {
      WorkGrows(a, n.parent);
    }
  }

  /** The ancestor-or-self of n at height h, Nil when there is none. */
  function AncestorAt(n: BlockNode, h: int): (a: BlockNode) {
    if 0 <= h <= Height(n) then Path(n)[h] else Nil
  }

  lemma {:induction false} AncestorOfAncestor(n: BlockNode, i: int, j: int)
    requires 0 <= j <= i <= Height(n)
    ensures AncestorAt(n, i).Node? && Height(AncestorAt(n, i)) == i
    ensures AncestorAt(AncestorAt(n, i), j) == AncestorAt(n, j)
  {
    PathPrefix(n, i);
  }

  /** blockNode.Ancestor: walk the parent pointers down to the requested height. */
  method Ancestor(node: BlockNode, height: int) returns (n: BlockNode)
    requires node.Node?
    ensures n == AncestorAt(node, height)
  {
    if height < 0 || height > Height(node) {
      return Nil;
    }
    n := node;
    while n.Node? && Height(n) != height
      invariant n in Path(node) && height <= Height(n)
      decreases Height(n)
    {
      OnPath(n, node);
      PathParent(node, Height(n));
      n := n.parent;
    }
    OnPath(n, node);
  }

  /** The last node n's branch shares with the branch ending in tip; Nil when they share nothing. */
  function Fork(tip: BlockNode, n: BlockNode): (f: BlockNode)
  {
    if n.Nil? || n in Path(tip) then n else Fork(tip, n.parent)
  }

  /** Fork is the highest common ancestor. */
  lemma {:induction false} ForkIsHighestCommon(tip: BlockNode, n: BlockNode)
    ensures var f := Fork(tip, n);
      f.Node? ==> f in Path(tip) && f in Path(n)
    ensures forall a :: a in Path(tip) && a in Path(n) ==> a in Path(Fork(tip, n))
  {
    if n.Node? && n !in Path(tip) {
      ForkIsHighestCommon(tip, n.parent);
    } else if n.Node? {
      assert n in Path(n);
    }
  }
}
