/** What targets and work are (blockchain/difficulty.go), in plain numbers. */
module Work {
  import opened Primitives
  import opened Arithmetic
  import opened Compact
  import opened BlockTree
  import opened Utxo
  import opened Selection
  import opened ChainCore

  // --- Targets

  /** An exponent, a sign and a mantissa, packed into 32 bits. */
  function Fields(exponent: byte, negative: bool, mantissa: nat): uint32
    requires mantissa < 0x80_0000
  {
    exponent * 0x100_0000 + (if negative then 0x80_0000 else 0) + mantissa
  }

  lemma FieldsBack(exponent: byte, negative: bool, mantissa: nat)
    requires mantissa < 0x80_0000
    ensures var c := Fields(exponent, negative, mantissa);
      c % MANTISSA_LIMIT == mantissa && c / EXPONENT_UNIT == exponent && (c / SIGN_BIT % 2 != 0 <==> negative)
  {
  }

  lemma SmallShift(mantissa: nat, exponent: byte)
    requires mantissa < 0x80_0000 && exponent <= 3
    ensures Shr(mantissa, 3 - exponent) ==
      if exponent == 0 then 0 else if exponent == 1 then mantissa / 0x1_0000
      else if exponent == 2 then mantissa / 0x100 else mantissa
  {
    assert Pow256(0) == 1 && Pow256(1) == 0x100 && Pow256(2) == 0x1_0000 && Pow256(3) == 0x100_0000;
  }

  /** The target is the mantissa shifted by the exponent less three bytes, with the sign. */
  lemma TargetIs(exponent: byte, negative: bool, mantissa: nat)
    requires mantissa < 0x80_0000
    ensures CompactToBig(Fields(exponent, negative, mantissa)) ==
      var t :=
        if exponent == 0 then 0 else if exponent == 1 then mantissa / 0x1_0000
        else if exponent == 2 then mantissa / 0x100 else mantissa * Pow256(exponent - 3);
      if negative then -t else t
  {
    FieldsBack(exponent, negative, mantissa);
    if exponent <= 3 {
      SmallShift(mantissa, exponent);
    }
  }

  /** Every encoding is of that form. */
  lemma AllFields(c: uint32)
    ensures c == Fields(c / 0x100_0000, c / 0x80_0000 % 2 == 1, c % 0x80_0000)
  {
  }

  lemma Powers()
    ensures Pow256(8) == 0x1_0000_0000_0000_0000 && Pow256(16) == 0x1_0000_0000_0000_0000_0000_0000_0000_0000
    ensures Pow256(32) == 0x1_0000_0000_0000_0000_0000_0000_0000_0000_0000_0000_0000_0000_0000_0000_0000_0000
  {
    assert Pow256(4) == 0x1_0000_0000;
    Pow256Add(4, 4);
    Pow256Add(8, 8);
    Pow256Add(16, 16);
  }

  // --- Work

  /** Work is 2^256 over the target plus one, rounded down; a target that is not positive has none. */
  lemma WorkIs(bits: uint32)
    ensures var t, w := CompactToBig(bits), CalcWork(bits);
      var n := 0x1_0000_0000_0000_0000_0000_0000_0000_0000_0000_0000_0000_0000_0000_0000_0000_0000;
      (t <= 0 ==> w == 0) && (t > 0 ==> w * (t + 1) <= n < (w + 1) * (t + 1))
  {
    Powers();
    if CompactToBig(bits) > 0 {
      DivBounds(ONE_LSH_256, CompactToBig(bits) + 1);
    }
  }

  lemma QuotientMono(n: nat, x: nat, y: nat, v: nat, w: nat)
    requires 0 < x <= y && n < (v + 1) * x && w * y <= n
    ensures w <= v
  {
    if v < w {
      MulMono(v + 1, w, x);
      MulMono(x, y, w);
    }
  }

  /** A smaller target never counts less. */
  lemma HarderCounts(a: uint32, b: uint32)
    requires 0 < CompactToBig(a) <= CompactToBig(b)
    ensures CalcWork(a) >= CalcWork(b)
  {
    WorkIs(a);
    WorkIs(b);
    QuotientMono(0x1_0000_0000_0000_0000_0000_0000_0000_0000_0000_0000_0000_0000_0000_0000_0000_0000,
      CompactToBig(a) + 1, CompactToBig(b) + 1, CalcWork(a), CalcWork(b));
  }

  /** The work of the easiest mainnet target and of a harder one. */
  lemma WorkExamples()
    ensures CalcWork(0x1d00_ffff) == 4295032833 && CalcWork(0x1b04_04cb) == 70040908352512
  {
    Powers();
    assert Pow256(2) == 0x1_0000;
    Pow256Add(16, 8);
    Pow256Add(24, 2);
    TargetIs(0x1d, false, 0xffff);
    TargetIs(0x1b, false, 0x404cb);
    DivUnique(ONE_LSH_256, CompactToBig(0x1d00_ffff) + 1, 4295032833);
    DivUnique(ONE_LSH_256, CompactToBig(0x1b04_04cb) + 1, 70040908352512);
  }

  // --- The work of a branch

  function Total(nodes: seq<BlockNode>): nat {
    if nodes == [] then 0
    else (if nodes[0].Node? then CalcWork(nodes[0].bits) else 0) + Total(nodes[1..])
  }

  lemma {:induction false} TotalAppend(nodes: seq<BlockNode>, n: BlockNode)
    requires n.Node?
    ensures Total(nodes + [n]) == Total(nodes) + CalcWork(n.bits)
  {
    if nodes == [] {
      assert [n][1..] == [];
    } else {
      assert (nodes + [n])[1..] == nodes[1..] + [n];
      TotalAppend(nodes[1..], n);
    }
  }

  /** The work of a branch is the sum of the work of its blocks. */
  lemma {:induction false} WorkSumIs(n: BlockNode)
    ensures WorkSum(n) == Total(Path(n))
  {
    if n.Node? {
      WorkSumIs(n.parent);
      TotalAppend(Path(n.parent), n);
    }
  }

  /** After any sequence of offered blocks no valid chain has blocks of more work in total than the best one. */
  lemma MostWorkAlways(p: Params, genesis: Block, offered: seq<Block>, n: BlockNode)
    requires StoredAs(p, p.genesis, genesis) && p.genesis.parent.Nil?
    requires var c := Run(p, Initial(p, genesis), offered); n in c.chain.status && ValidBranch(p, c, n)
    ensures Total(Path(n)) <= Total(Path(Run(p, Initial(p, genesis), offered).chain.tip))
  {
    BestChainAlways(p, genesis, offered);
    WorkSumIs(n);
    WorkSumIs(Run(p, Initial(p, genesis), offered).chain.tip);
  }
}
