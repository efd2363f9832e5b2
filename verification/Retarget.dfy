/** The difficulty the next block must have (blockchain/difficulty.go). */
module Retarget {
  import opened Primitives
  import opened Arithmetic
  import opened Compact
  import opened BlockTree

  /** The chain parameters that matter here, and what New computes from them; times are in seconds. */
  datatype Rules = Rules(
    powLimit: nat,
    powLimitBits: uint32,
    targetTimespan: nat,
    adjustmentFactor: nat,
    reduceMinDifficulty: bool,
    minDiffReductionTime: int,
    minRetargetTimespan: nat,
    maxRetargetTimespan: int,
    blocksPerRetarget: int)

  predicate ValidRules(r: Rules) {
    && r.powLimit < ONE_LSH_256 && 0 <= CompactToBig(r.powLimitBits) <= r.powLimit && r.adjustmentFactor > 0
    && 0 < r.targetTimespan && r.minRetargetTimespan <= r.targetTimespan <= r.maxRetargetTimespan
    && r.blocksPerRetarget > 0
    && r.maxRetargetTimespan == r.targetTimespan * r.adjustmentFactor
  }

  /**
   * The three fields New fills in.  They are in order if and only if the largest timespan fits 64 bits and
   * the number of blocks between two retargets is not zero after it was cut down to 32 bits.
   */
  method NewRules(powLimit: nat, powLimitBits: uint32, targetTimespan: nat, targetTimePerBlock: nat,
                  adjustmentFactor: nat, reduceMinDifficulty: bool, minDiffReductionTime: int) returns (r: Rules)
    requires powLimit < ONE_LSH_256 && 0 <= CompactToBig(powLimitBits) <= powLimit
    requires 0 < targetTimePerBlock && 0 < targetTimespan && 0 < adjustmentFactor
    ensures ValidRules(r) <==>
      targetTimespan * adjustmentFactor < 0x8000_0000_0000_0000 && Int32(targetTimespan / targetTimePerBlock) > 0
    ensures r.powLimit == powLimit && r.powLimitBits == powLimitBits && r.targetTimespan == targetTimespan
    ensures r.adjustmentFactor == adjustmentFactor && r.reduceMinDifficulty == reduceMinDifficulty
    ensures r.minDiffReductionTime == minDiffReductionTime
    ensures r.minRetargetTimespan * adjustmentFactor <= targetTimespan < (r.minRetargetTimespan + 1) * adjustmentFactor
    ensures targetTimePerBlock <= targetTimespan < targetTimePerBlock * 0x8000_0000 ==>
      && 0 < r.blocksPerRetarget
      && r.blocksPerRetarget * targetTimePerBlock <= targetTimespan < (r.blocksPerRetarget + 1) * targetTimePerBlock
  {
    BlocksPer(targetTimespan, targetTimePerBlock);
    TimespanBounds(targetTimespan, adjustmentFactor);
    var largest := targetTimespan * adjustmentFactor;
    SignedFits(largest);
    r := Rules(powLimit, powLimitBits, targetTimespan, adjustmentFactor, reduceMinDifficulty, minDiffReductionTime,
      targetTimespan / adjustmentFactor, Int64(largest % TWO_64), Int32(targetTimespan / targetTimePerBlock));
  }

  lemma SignedFits(x: nat)
    ensures Int64(x % TWO_64) == x <==> x < 0x8000_0000_0000_0000
  {
  }

  lemma TimespanBounds(timespan: nat, factor: nat)
    requires timespan > 0 && factor > 0
    ensures 0 <= timespan / factor <= timespan <= timespan * factor
    ensures timespan / factor * factor <= timespan < (timespan / factor + 1) * factor
  {
    DivNat(timespan, factor);
    DivBounds(timespan, factor);
    MulMono(1, factor, timespan);
    MulMono(1, factor, timespan / factor);
  }

  lemma BlocksPer(timespan: nat, perBlock: nat)
    requires perBlock > 0
    ensures perBlock <= timespan < perBlock * 0x8000_0000 ==>
      var n := Int32(timespan / perBlock); 0 < n && n * perBlock <= timespan < (n + 1) * perBlock
  {
    var n := timespan / perBlock;
    DivNat(timespan, perBlock);
    DivBounds(timespan, perBlock);
    if perBlock <= timespan < perBlock * 0x8000_0000 && n >= 0x8000_0000 {
      MulMono(0x8000_0000, n, perBlock);
    }
  }

  function Target(n: BlockNode): int
    requires n.Node?
  {
    CompactToBig(n.bits)
  }

  /** Neither absent nor with a negative target. */
  predicate Positive(n: BlockNode) {
    n.Node? ==> Target(n) >= 0
  }

  /** A block that got the special minimum difficulty rather than a regular one. */
  predicate Special(r: Rules, n: BlockNode)
    requires ValidRules(r)
  {
    n.Node? && Height(n) % r.blocksPerRetarget != 0 && n.bits == r.powLimitBits
  }

  function LastRegular(r: Rules, n: BlockNode): BlockNode
    requires ValidRules(r)
  {
    if Special(r, n) then LastRegular(r, n.parent) else n
  }

  /** The highest ancestor-or-self that is not special; there always is one, genesis at the latest. */
  lemma {:induction false} LastRegularIs(r: Rules, n: BlockNode)
    requires ValidRules(r) && n.Node?
    ensures var m := LastRegular(r, n);
      && m in Path(n) && m.Node? && (m.bits != r.powLimitBits || Height(m) % r.blocksPerRetarget == 0)
      && forall k :: k in Path(n) && k !in Path(m) ==>
        k.Node? && k.bits == r.powLimitBits && Height(k) % r.blocksPerRetarget != 0
  {
    if Special(r, n) {
      if n.parent.Nil? {
        ModZero(r.blocksPerRetarget);
      }
      LastRegularIs(r, n.parent);
      assert forall k :: k in Path(n) <==> k in Path(n.parent) || k == n;
    } else {
      assert n in Path(n);
    }
  }

  method FindPrevTestNetDifficulty(r: Rules, startNode: BlockNode) returns (lastBits: uint32)
    requires ValidRules(r) && startNode.Node?
    ensures LastRegular(r, startNode).Node? && lastBits == LastRegular(r, startNode).bits
  {
    var iterNode := startNode;
    while iterNode.Node? && Height(iterNode) % r.blocksPerRetarget != 0 && iterNode.bits == r.powLimitBits
      invariant LastRegular(r, startNode) == LastRegular(r, iterNode)
      decreases iterNode
    {
      iterNode := iterNode.parent;
    }
    LastRegularIs(r, startNode);
    lastBits := r.powLimitBits;
    if iterNode.Node? {
      lastBits := iterNode.bits;
    }
  }

  // --- The retarget

  function Clamp(r: Rules, actual: int): (t: nat)
    requires ValidRules(r)
    ensures r.minRetargetTimespan <= t <= r.maxRetargetTimespan
    ensures r.minRetargetTimespan <= actual <= r.maxRetargetTimespan ==> t == actual
    ensures actual <= r.minRetargetTimespan ==> t == r.minRetargetTimespan
    ensures actual >= r.maxRetargetTimespan ==> t == r.maxRetargetTimespan
  {
    if actual < r.minRetargetTimespan then r.minRetargetTimespan
    else if actual > r.maxRetargetTimespan then r.maxRetargetTimespan
    else actual
  }

  /** The new target before it is rounded to its compact form. */
  function Scaled(r: Rules, prior: nat, timespan: nat): (t: nat)
    requires ValidRules(r)
    ensures t <= r.powLimit
  {
    MulNat(prior, timespan);
    DivNat(prior * timespan, r.targetTimespan);
    var t := prior * timespan / r.targetTimespan;
    if t > r.powLimit then r.powLimit else t
  }

  /** The new target is the largest that is within the limit and no more than the old one times the timespan. */
  lemma ScaledIs(r: Rules, prior: nat, timespan: nat, x: nat)
    requires ValidRules(r)
    ensures x <= Scaled(r, prior, timespan) <==> x <= r.powLimit && x * r.targetTimespan <= prior * timespan
  {
    var n := prior * timespan;
    MulNat(prior, timespan);
    QuotientAbove(n, r.targetTimespan, x);
  }

  lemma QuotientAbove(n: nat, d: nat, x: nat)
    requires d > 0
    ensures x <= n / d <==> x * d <= n
  {
    DivBounds(n, d);
    if x <= n / d {
      MulMono(x, n / d, d);
    } else {
      MulMono(n / d + 1, x, d);
    }
  }

  lemma ScaledBound(r: Rules, prior: nat, timespan: nat)
    requires ValidRules(r) && timespan <= r.maxRetargetTimespan
    ensures Scaled(r, prior, timespan) <= prior * r.adjustmentFactor
  {
    var t := prior * timespan / r.targetTimespan;
    MulNat(prior, timespan);
    DivBounds(prior * timespan, r.targetTimespan);
    assert prior * timespan <= prior * r.adjustmentFactor * r.targetTimespan by {
      MulMono(timespan, r.maxRetargetTimespan, prior);
      MulAssoc(prior, r.adjustmentFactor, r.targetTimespan);
    }
    if t > prior * r.adjustmentFactor {
      MulMonoStrict(prior * r.adjustmentFactor, t, r.targetTimespan);
    }
  }

  /** The bits of a block between two retargets. */
  function BitsBetween(r: Rules, last: BlockNode, time: int): uint32
    requires ValidRules(r) && last.Node?
  {
    if !r.reduceMinDifficulty then last.bits
    else if time > last.timestamp + r.minDiffReductionTime then r.powLimitBits
    else
      LastRegularIs(r, last);
      LastRegular(r, last).bits
  }

  /** The bits of a block at a retarget; None is the error that the previous retarget block is missing. */
  function BitsAt(r: Rules, last: BlockNode): Option<uint32>
    requires ValidRules(r) && last.Node? && Target(last) >= 0
  {
    var first := AncestorAt(last, Height(last) - (r.blocksPerRetarget - 1));
    if first.Nil? then None
    else Some(BigToCompact(Scaled(r, Target(last), Clamp(r, last.timestamp - first.timestamp))))
  }

  /** calcNextRequiredDifficulty. */
  function NextBits(r: Rules, last: BlockNode, time: int): Option<uint32>
    requires ValidRules(r) && Positive(last)
  {
    if last.Nil? then Some(r.powLimitBits)
    else if (Height(last) + 1) % r.blocksPerRetarget != 0 then Some(BitsBetween(r, last, time))
    else BitsAt(r, last)
  }

  method CalcNextRequiredDifficulty(r: Rules, lastNode: BlockNode, newBlockTime: int) returns (bits: Option<uint32>)
    requires ValidRules(r) && Positive(lastNode)
    ensures bits == NextBits(r, lastNode, newBlockTime)
  {
    if lastNode.Nil? {
      return Some(r.powLimitBits);
    }
    if (Height(lastNode) + 1) % r.blocksPerRetarget != 0 {
      if r.reduceMinDifficulty {
        var allowMinTime := lastNode.timestamp + r.minDiffReductionTime;
        if newBlockTime > allowMinTime {
          return Some(r.powLimitBits);
        }
        var prev := FindPrevTestNetDifficulty(r, lastNode);
        return Some(prev);
      }
      return Some(lastNode.bits);
    }
    bits := CalcRetarget(r, lastNode);
  }

  /** The part of calcNextRequiredDifficulty at a retarget. */
  method CalcRetarget(r: Rules, lastNode: BlockNode) returns (bits: Option<uint32>)
    requires ValidRules(r) && lastNode.Node? && Target(lastNode) >= 0
    ensures bits == BitsAt(r, lastNode)
  {
    var firstNode := Ancestor(lastNode, Height(lastNode) - (r.blocksPerRetarget - 1));
    if firstNode.Nil? {
      return None;
    }
    var adjustedTimespan := ClampTimespan(r, lastNode.timestamp - firstNode.timestamp);
    var newTarget := ScaleTarget(r, Target(lastNode), adjustedTimespan);
    return Some(BigToCompact(newTarget));
  }

  method ClampTimespan(r: Rules, actualTimespan: int) returns (adjustedTimespan: nat)
    requires ValidRules(r)
    ensures adjustedTimespan == Clamp(r, actualTimespan)
  {
    if actualTimespan < r.minRetargetTimespan {
      return r.minRetargetTimespan;
    } else if actualTimespan > r.maxRetargetTimespan {
      return r.maxRetargetTimespan;
    }
    return actualTimespan;
  }

  method ScaleTarget(r: Rules, oldTarget: nat, adjustedTimespan: nat) returns (newTarget: nat)
    requires ValidRules(r)
    ensures newTarget == Scaled(r, oldTarget, adjustedTimespan)
  {
    MulNat(oldTarget, adjustedTimespan);
    newTarget := oldTarget * adjustedTimespan;
    DivNat(newTarget, r.targetTimespan);
    newTarget := newTarget / r.targetTimespan;
    if newTarget > r.powLimit {
      newTarget := r.powLimit;
    }
  }

  // --- Along a chain

  /** There always is a previous retarget block. */
  lemma AlwaysAnswers(r: Rules, last: BlockNode, time: int)
    requires ValidRules(r) && Positive(last)
    ensures NextBits(r, last, time).Some?
  {
    if last.Node? && (Height(last) + 1) % r.blocksPerRetarget == 0 {
      ModMultiple(Height(last) + 1, r.blocksPerRetarget);
      var h := Height(last) - (r.blocksPerRetarget - 1);
      assert AncestorAt(last, h).Node? by { AncestorOfAncestor(last, h, 0); }
    }
  }

  lemma LimitLength(n: nat)
    requires n < ONE_LSH_256
    ensures ByteLen(n) <= 32
  {
    if n > 0 {
      ByteLenBounds(n);
      if ByteLen(n) > 32 {
        Pow256Mono(32, ByteLen(n) - 1);
      }
    }
  }

  /** The bounds on a target that follows one of the given height. */
  predicate Bounded(r: Rules, prior: nat, t: int) {
    0 <= t <= r.powLimit && t <= prior * r.adjustmentFactor
  }

  /** A rounded target is no higher than the exact one, hence within the limit. */
  lemma RoundedTarget(r: Rules, prior: nat, timespan: nat, bits: uint32)
    requires ValidRules(r) && timespan <= r.maxRetargetTimespan && bits == BigToCompact(Scaled(r, prior, timespan))
    ensures Bounded(r, prior, CompactToBig(bits))
  {
    LimitLength(Scaled(r, prior, timespan));
    EncodingRoundsDown(Scaled(r, prior, timespan), 0);
    ScaledBound(r, prior, timespan);
  }

  /** The target at a retarget is within the limit and not eased by more than the adjustment factor. */
  lemma RetargetBounds(r: Rules, last: BlockNode, prior: nat, bits: uint32)
    requires ValidRules(r) && last.Node? && prior == Target(last) && BitsAt(r, last) == Some(bits)
    ensures Bounded(r, prior, CompactToBig(bits))
  {
    var first := AncestorAt(last, Height(last) - (r.blocksPerRetarget - 1));
    RoundedTarget(r, prior, Clamp(r, last.timestamp - first.timestamp), bits);
  }

  /** The time from the first block of the period to its last one, kept within the limits. */
  predicate IsSpan(r: Rules, last: BlockNode, span: int) {
    var k := Height(last) - (r.blocksPerRetarget - 1);
    && last.Node? && 0 <= k <= Height(last) && Path(last)[k].Node?
    && var actual := last.timestamp - Path(last)[k].timestamp;
      span == if actual < r.minRetargetTimespan then r.minRetargetTimespan
        else if actual > r.maxRetargetTimespan then r.maxRetargetTimespan else actual
  }

  /** There always is one at a retarget. */
  lemma HasSpan(r: Rules, last: BlockNode) returns (span: nat)
    requires ValidRules(r) && last.Node? && (Height(last) + 1) % r.blocksPerRetarget == 0
    ensures IsSpan(r, last, span) && r.minRetargetTimespan <= span <= r.maxRetargetTimespan
  {
    ModMultiple(Height(last) + 1, r.blocksPerRetarget);
    var k := Height(last) - (r.blocksPerRetarget - 1);
    PathPrefix(last, k);
    span := Clamp(r, last.timestamp - Path(last)[k].timestamp);
  }

  /**
   * The target at a retarget is the largest one with a compact form that is within the limit and no more than the
   * last target times the timespan over the ideal one.
   */
  lemma RetargetExactly(r: Rules, last: BlockNode, span: nat, bits: uint32, c: uint32)
    requires ValidRules(r) && last.Node? && Target(last) >= 0 && IsSpan(r, last, span) && BitsAt(r, last) == Some(bits)
    requires CompactToBig(c) >= 0
    ensures CompactToBig(c) <= CompactToBig(bits) <==>
      CompactToBig(c) <= r.powLimit && CompactToBig(c) * r.targetTimespan <= Target(last) * span
  {
    var t := Scaled(r, Target(last), span);
    LimitLength(t);
    EncodingRoundsDown(t, c);
    ScaledIs(r, Target(last), span, CompactToBig(c));
  }

  /** Of two periods that end with the same target, the shorter one never gets the larger new target. */
  lemma ShorterIsHarder(r: Rules, a: BlockNode, b: BlockNode, spanA: nat, spanB: nat, bitsA: uint32, bitsB: uint32)
    requires ValidRules(r) && a.Node? && b.Node? && Target(a) == Target(b) >= 0
    requires IsSpan(r, a, spanA) && IsSpan(r, b, spanB) && spanA <= spanB
    requires BitsAt(r, a) == Some(bitsA) && BitsAt(r, b) == Some(bitsB)
    ensures CompactToBig(bitsA) <= CompactToBig(bitsB)
  {
    RetargetBounds(r, a, Target(a), bitsA);
    RetargetExactly(r, a, spanA, bitsA, bitsA);
    RetargetExactly(r, b, spanB, bitsB, bitsA);
    MulMono(spanA, spanB, Target(a));
  }

  lemma LongerAllows(x: int, p: nat, a: int, b: int)
    requires x <= p * a && a <= b
    ensures x <= p * b
  {
    MulMono(a, b, p);
  }

  lemma FloorForSpan(r: Rules, last: BlockNode, span: nat, bits: uint32, c: uint32)
    requires ValidRules(r) && last.Node? && Target(last) >= 0 && IsSpan(r, last, span) && r.minRetargetTimespan <= span
    requires BitsAt(r, last) == Some(bits) && 0 <= CompactToBig(c) <= r.powLimit
    requires CompactToBig(c) * r.targetTimespan <= Target(last) * r.minRetargetTimespan
    ensures CompactToBig(c) <= CompactToBig(bits)
  {
    LongerAllows(CompactToBig(c) * r.targetTimespan, Target(last), r.minRetargetTimespan, span);
    RetargetExactly(r, last, span, bits, c);
  }

  /** The target falls by no more than the shortest timespan allows. */
  lemma RetargetFloor(r: Rules, last: BlockNode, bits: uint32, c: uint32)
    requires ValidRules(r) && last.Node? && Target(last) >= 0 && (Height(last) + 1) % r.blocksPerRetarget == 0
    requires BitsAt(r, last) == Some(bits) && 0 <= CompactToBig(c) <= r.powLimit
    requires CompactToBig(c) * r.targetTimespan <= Target(last) * r.minRetargetTimespan
    ensures CompactToBig(c) <= CompactToBig(bits)
  {
    var span := HasSpan(r, last);
    FloorForSpan(r, last, span, bits, c);
  }

  /** The highest block of the branch that did not get the special minimum difficulty. */
  ghost predicate IsRegular(r: Rules, last: BlockNode, m: BlockNode)
    requires r.blocksPerRetarget > 0
  {
    && m in Path(last) && m.Node? && (m.bits != r.powLimitBits || Height(m) % r.blocksPerRetarget == 0)
    && forall k :: k in Path(last) && k !in Path(m) ==>
      k.Node? && k.bits == r.powLimitBits && Height(k) % r.blocksPerRetarget != 0
  }

  /** Which answer belongs to which block and which time. */
  lemma NextMeans(r: Rules, last: BlockNode, time: int)
    requires ValidRules(r) && Positive(last)
    ensures last.Nil? ==> NextBits(r, last, time) == Some(r.powLimitBits)
    ensures last.Node? && (Height(last) + 1) % r.blocksPerRetarget == 0 ==> NextBits(r, last, time) == BitsAt(r, last)
    ensures last.Node? && (Height(last) + 1) % r.blocksPerRetarget != 0 && !r.reduceMinDifficulty ==>
      NextBits(r, last, time) == Some(last.bits)
    ensures last.Node? && (Height(last) + 1) % r.blocksPerRetarget != 0 && r.reduceMinDifficulty ==>
      if time - last.timestamp > r.minDiffReductionTime then NextBits(r, last, time) == Some(r.powLimitBits)
      else exists m :: IsRegular(r, last, m) && NextBits(r, last, time) == Some(m.bits)
  {
    if last.Node? {
      LastRegularIs(r, last);
      assert IsRegular(r, last, LastRegular(r, last));
    }
  }

  /** Every block of the branch has the difficulty that is required after the block below it. */
  predicate Follows(r: Rules, n: BlockNode)
    requires ValidRules(r)
  {
    n.Node? ==> Follows(r, n.parent) && Positive(n.parent) && NextBits(r, n.parent, n.timestamp) == Some(n.bits)
  }

  lemma {:induction false} FollowsBelow(r: Rules, n: BlockNode, m: BlockNode)
    requires ValidRules(r) && Follows(r, n) && m in Path(n)
    ensures Follows(r, m)
  {
    if m != n {
      FollowsBelow(r, n.parent, m);
    }
  }

  /** On such a chain no target is negative or easier than the proof-of-work limit. */
  lemma {:induction false} WithinLimit(r: Rules, n: BlockNode)
    requires ValidRules(r) && Follows(r, n) && n.Node?
    ensures 0 <= Target(n) <= r.powLimit
    decreases Height(n)
  {
    var last := n.parent;
    if last.Node? {
      WithinLimit(r, last);
      var m := LastRegular(r, last);
      LastRegularIs(r, last);
      OnPath(m, last);
      FollowsBelow(r, last, m);
      WithinLimit(r, m);
      NextWithinLimit(r, last, m, n.timestamp);
    }
  }

  lemma NextWithinLimit(r: Rules, last: BlockNode, m: BlockNode, time: int)
    requires ValidRules(r) && last.Node? && m == LastRegular(r, last) && m.Node?
    requires 0 <= Target(last) <= r.powLimit && 0 <= Target(m) <= r.powLimit && NextBits(r, last, time).Some?
    ensures 0 <= CompactToBig(NextBits(r, last, time).value) <= r.powLimit
  {
    if (Height(last) + 1) % r.blocksPerRetarget == 0 {
      RetargetBounds(r, last, Target(last), BitsAt(r, last).value);
    } else {
      BetweenWithinLimit(r, last, m, time);
    }
  }

  lemma BetweenWithinLimit(r: Rules, last: BlockNode, m: BlockNode, time: int)
    requires ValidRules(r) && last.Node? && m == LastRegular(r, last) && m.Node?
    requires 0 <= Target(last) <= r.powLimit && 0 <= Target(m) <= r.powLimit
    ensures 0 <= CompactToBig(BitsBetween(r, last, time)) <= r.powLimit
  {
  }

  /**
   * Without the minimum-difficulty exception a block never makes the target more than adjustmentFactor
   * times what it was, and changes it only once per retarget period.
   */
  lemma BoundedEasing(r: Rules, n: BlockNode)
    requires ValidRules(r) && Follows(r, n) && n.Node? && n.parent.Node? && !r.reduceMinDifficulty
    ensures 0 <= Target(n) <= Target(n.parent) * r.adjustmentFactor
    ensures Height(n) % r.blocksPerRetarget != 0 ==> n.bits == n.parent.bits
  {
    var last := n.parent;
    WithinLimit(r, last);
    if Height(n) % r.blocksPerRetarget != 0 {
      MulMono(1, r.adjustmentFactor, Target(last));
    } else {
      RetargetBounds(r, last, Target(last), n.bits);
    }
  }
}
