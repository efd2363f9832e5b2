/**
 * The spend journal entry of a block as bytes (blockchain/chainio.go): the records of all outputs the
 * block spends, last one first, without any count.
 */
module SpendJournal {
  import opened Primitives
  import opened Utxo
  import opened Amounts
  import opened TxOutCodec

  /** A record whose amount and height are of the types they have in memory. */
  predicate Typed(t: Txo) {
    -0x8000_0000_0000_0000 <= t.amount < 0x8000_0000_0000_0000 && 0 <= t.height < 0x8000_0000
  }

  /** The amount as an unsigned integer. */
  function Unsigned(t: Txo): uint64 {
    t.amount % TWO_64
  }

  /** A record whose amount survives compression. */
  predicate Storable(t: Txo) {
    Typed(t) && AmountFits(Unsigned(t))
  }

  /** What is left of a record after it was stored. */
  function Kept(t: Txo): Txo {
    t.(amount := Int64(DecompressAmount(CompressAmount(Unsigned(t)))))
  }

  lemma SignedBack(a: int, x: uint64)
    requires -0x8000_0000_0000_0000 <= a < 0x8000_0000_0000_0000
    ensures Int64(x) == a <==> x == a % TWO_64
  {
  }

  lemma KeptIff(t: Txo)
    requires Typed(t)
    ensures Kept(t) == t <==> Storable(t)
  {
    var back := DecompressAmount(CompressAmount(Unsigned(t)));
    AmountRoundTrip(Unsigned(t));
    SignedBack(t.amount, back);
  }

  /** Every amount of money an output may carry is unharmed, with any height. */
  lemma MoneyIsStorable(t: Txo)
    requires 0 <= t.amount <= MAX_NANO_SOTER && 0 <= t.height < 0x8000_0000
    ensures Storable(t) && Kept(t) == t
  {
    KeptIff(t);
  }

  function HeaderCode(t: Txo): nat
    requires Typed(t)
  {
    t.height * 2 + if t.coinbase then 1 else 0
  }

  /** A record above height zero carries a reserved byte that older versions used. */
  function Reserved(t: Txo): seq<byte> {
    if t.height > 0 then Vlq(0) else []
  }

  function RecordBytes(c: Curve, t: Txo): seq<byte>
    requires Typed(t)
  {
    Vlq(HeaderCode(t)) + (Reserved(t) + TxOutBytes(c, Unsigned(t), t.pkScript))
  }

  /** spentTxOutSerializeSize. */
  function RecordSize(c: Curve, t: Txo): nat
    requires Typed(t)
  {
    VlqSize(HeaderCode(t)) + (if t.height > 0 then VlqSize(0) else 0) + TxOutSize(c, Unsigned(t), t.pkScript)
  }

  predicate AllTyped(stxos: seq<Txo>) {
    forall i :: 0 <= i < |stxos| ==> Typed(stxos[i])
  }

  predicate AllStorable(stxos: seq<Txo>) {
    forall i :: 0 <= i < |stxos| ==> Storable(stxos[i])
  }

  function Records(c: Curve, stxos: seq<Txo>): (r: seq<seq<byte>>)
    requires AllTyped(stxos)
    ensures |r| == |stxos| && forall i :: 0 <= i < |stxos| ==> r[i] == RecordBytes(c, stxos[i])
  {
    seq(|stxos|, i requires 0 <= i < |stxos| => RecordBytes(c, stxos[i]))
  }

  /** The parts one after the other, last part first. */
  function LastFirst(parts: seq<seq<byte>>): seq<byte> {
    if parts == [] then [] else LastFirst(parts[1..]) + parts[0]
  }

  lemma {:induction false} LastFirstSnoc(init: seq<seq<byte>>, last: seq<byte>)
    ensures LastFirst(init + [last]) == last + LastFirst(init)
  {
    var all := init + [last];
    if init == [] {
      assert all[1..] == [];
    } else {
      LastFirstSnoc(init[1..], last);
      assert all[1..] == init[1..] + [last] && all[0] == init[0];
    }
  }

  function JournalBytes(c: Curve, stxos: seq<Txo>): seq<byte>
    requires AllTyped(stxos)
  {
    LastFirst(Records(c, stxos))
  }

  function JournalSize(c: Curve, stxos: seq<Txo>): nat
    requires AllTyped(stxos)
  {
    if stxos == [] then 0 else JournalSize(c, stxos[1..]) + RecordSize(c, stxos[0])
  }

  lemma RecordFits(c: Curve, t: Txo)
    requires Typed(t)
    ensures |RecordBytes(c, t)| == RecordSize(c, t) >= 1
  {
    SizeOfScript(c, t.pkScript);
  }

  /** As many bytes are written as were counted beforehand. */
  lemma {:induction false} JournalFits(c: Curve, stxos: seq<Txo>)
    requires AllTyped(stxos)
    ensures |JournalBytes(c, stxos)| == JournalSize(c, stxos)
  {
    if stxos != [] {
      JournalFits(c, stxos[1..]);
      RecordFits(c, stxos[0]);
      assert Records(c, stxos)[1..] == Records(c, stxos[1..]);
    }
  }

  // --- Reading

  datatype Decoded = Record(stxo: Txo, size: nat) | Failed

  /** decodeSpentTxOut. */
  function DecodeRecord(c: Curve, s: seq<byte>): (d: Decoded)
    ensures d.Record? ==> d.size <= |s|
  {
    if s == [] then Failed
    else
      var (code, k) := ReadVlq(0, s);
      if k >= |s| then Failed else DecodeBody(c, s, Int32(code / 2), code % 2 == 1, k)
  }

  /** The part of a record after its header code. */
  function DecodeBody(c: Curve, s: seq<byte>, height: int, coinbase: bool, k: nat): (d: Decoded)
    requires k < |s|
    ensures d.Record? ==> d.size <= |s|
  {
    var m := if height > 0 then k + ReadVlq(0, s[k..]).1 else k;
    if m >= |s| then Failed else DecodeOut(DecodeTxOut(c, s[m..]), height, coinbase, m)
  }

  function DecodeOut(out: DecodedTxOut, height: int, coinbase: bool, m: nat): Decoded {
    if out.Malformed? then Failed else Record(Txo(Int64(out.amount), out.script, height, coinbase), m + out.size)
  }

  lemma CodeFields(t: Txo)
    requires Typed(t)
    ensures Int32(HeaderCode(t) / 2) == t.height && (HeaderCode(t) % 2 == 1 <==> t.coinbase)
  {
  }

  lemma BodyByParts(c: Curve, s: seq<byte>, t: Txo, k: nat, m: nat, n: nat)
    requires Typed(t) && k <= m < |s|
    requires m == if t.height > 0 then k + ReadVlq(0, s[k..]).1 else k
    requires DecodeTxOut(c, s[m..]) == DecodedTxOut(DecompressAmount(CompressAmount(Unsigned(t))), t.pkScript, n)
    ensures DecodeBody(c, s, t.height, t.coinbase, k) == Record(Kept(t), m + n)
  {
  }

  lemma DecodeByParts(c: Curve, s: seq<byte>, t: Txo, k: nat, d: Decoded)
    requires Typed(t) && k < |s| && ReadVlq(0, s) == (HeaderCode(t), k)
    requires DecodeBody(c, s, t.height, t.coinbase, k) == d
    ensures DecodeRecord(c, s) == d
  {
    CodeFields(t);
  }

  /** The part of a record after its header code is read back whatever follows it. */
  lemma BodyRoundTrip(c: Curve, t: Txo, out: seq<byte>, s: seq<byte>, k: nat, rest: seq<byte>)
    requires PointsDetermined(c) && Typed(t) && out == TxOutBytes(c, Unsigned(t), t.pkScript)
    requires k <= |s| && s[k..] == Reserved(t) + (out + rest)
    ensures k < |s| && DecodeBody(c, s, t.height, t.coinbase, k) == Record(Kept(t), k + |Reserved(t)| + |out|)
  {
    TxOutRoundTrip(c, Unsigned(t), t.pkScript, rest);
    var m := k + |Reserved(t)|;
    assert s[m..] == out + rest by {
      assert s[m..] == s[k..][|Reserved(t)|..];
    }
    if t.height > 0 {
      VlqRoundTrip(0, out + rest);
    }
    BodyByParts(c, s, t, k, m, |out|);
  }

  /** A record is read back whatever follows it, and it is the same record if and only if it is storable. */
  lemma RecordRoundTrip(c: Curve, t: Txo, rest: seq<byte>)
    requires PointsDetermined(c) && Typed(t)
    ensures DecodeRecord(c, RecordBytes(c, t) + rest) == Record(Kept(t), |RecordBytes(c, t)|)
    ensures Kept(t) == t <==> Storable(t)
  {
    var code, out := Vlq(HeaderCode(t)), TxOutBytes(c, Unsigned(t), t.pkScript);
    var body := Reserved(t) + (out + rest);
    RecordParts(c, t, code, out, rest);
    VlqRoundTrip(HeaderCode(t), body);
    WholeRecord(c, t, code, out, rest, code + body);
    KeptIff(t);
  }

  /** A record is its header code, the reserved byte and the output, one after the other. */
  lemma RecordParts(c: Curve, t: Txo, code: seq<byte>, out: seq<byte>, rest: seq<byte>)
    requires Typed(t) && code == Vlq(HeaderCode(t)) && out == TxOutBytes(c, Unsigned(t), t.pkScript)
    ensures RecordBytes(c, t) + rest == code + (Reserved(t) + (out + rest))
    ensures |RecordBytes(c, t)| == |code| + |Reserved(t)| + |out|
  {
    ConcatAssoc(code, Reserved(t) + out, rest);
    ConcatAssoc(Reserved(t), out, rest);
  }

  lemma WholeRecord(c: Curve, t: Txo, code: seq<byte>, out: seq<byte>, rest: seq<byte>, s: seq<byte>)
    requires PointsDetermined(c) && Typed(t) && out == TxOutBytes(c, Unsigned(t), t.pkScript)
    requires s == code + (Reserved(t) + (out + rest)) && ReadVlq(0, s) == (HeaderCode(t), |code|)
    ensures DecodeRecord(c, s) == Record(Kept(t), |code| + |Reserved(t)| + |out|)
  {
    assert s[|code|..] == Reserved(t) + (out + rest);
    BodyRoundTrip(c, t, out, s, |code|, rest);
    DecodeByParts(c, s, t, |code|, Record(Kept(t), |code| + |Reserved(t)| + |out|));
  }

  /** A reader of single records that never claims more bytes than there are. */
  ghost predicate Reader(decode: seq<byte> -> Decoded) {
    forall s :: Bounded(decode, s)
  }

  predicate Bounded(decode: seq<byte> -> Decoded, s: seq<byte>) {
    decode(s).Record? ==> decode(s).size <= |s|
  }

  function RecordReader(c: Curve): (decode: seq<byte> -> Decoded)
    ensures Reader(decode)
  {
    s => DecodeRecord(c, s)
  }

  /** Read n records; the first one read is the last of the list. */
  function DecodeRecords(decode: seq<byte> -> Decoded, s: seq<byte>, n: nat): Option<seq<Txo>>
    decreases n
  {
    if n == 0 then Some([])
    else
      var d := decode(s);
      if d.Failed? || d.size > |s| then None else Append(DecodeRecords(decode, s[d.size..], n - 1), [d.stxo])
  }

  function Append(o: Option<seq<Txo>>, s: seq<Txo>): Option<seq<Txo>> {
    if o.None? then None else Some(o.value + s)
  }

  /** The bytes are a record of t, whatever follows them. */
  ghost predicate ReadsAs(decode: seq<byte> -> Decoded, part: seq<byte>, t: Txo) {
    forall rest :: decode(part + rest) == Record(t, |part|)
  }

  lemma TakeLast(parts: seq<seq<byte>>, n: nat, rest: seq<byte>)
    requires n < |parts|
    ensures LastFirst(parts[..n + 1]) + rest == parts[n] + (LastFirst(parts[..n]) + rest)
  {
    SliceStep(parts, n);
    LastFirstSnoc(parts[..n], parts[n]);
    ConcatAssoc(parts[n], LastFirst(parts[..n]), rest);
  }

  lemma {:induction false} PartsRoundTrip(decode: seq<byte> -> Decoded, parts: seq<seq<byte>>, stxos: seq<Txo>,
                                          rest: seq<byte>, n: nat)
    requires n <= |parts| == |stxos| && forall i :: 0 <= i < |parts| ==> ReadsAs(decode, parts[i], stxos[i])
    ensures DecodeRecords(decode, LastFirst(parts[..n]) + rest, n) == Some(stxos[..n])
  {
    if n > 0 {
      PartsRoundTrip(decode, parts, stxos, rest, n - 1);
      TakeLast(parts, n - 1, rest);
      OneMorePart(decode, parts[n - 1], stxos[n - 1], LastFirst(parts[..n - 1]) + rest, n - 1);
      SliceStep(stxos, n - 1);
    }
  }

  lemma OneMorePart(decode: seq<byte> -> Decoded, part: seq<byte>, t: Txo, rest: seq<byte>, n: nat)
    requires ReadsAs(decode, part, t)
    ensures DecodeRecords(decode, part + rest, n + 1) == Append(DecodeRecords(decode, rest, n), [t])
  {
    assert (part + rest)[|part|..] == rest;
  }

  function AllKept(stxos: seq<Txo>): (kept: seq<Txo>)
    ensures |kept| == |stxos| && forall i :: 0 <= i < |stxos| ==> kept[i] == Kept(stxos[i])
  {
    seq(|stxos|, i requires 0 <= i < |stxos| => Kept(stxos[i]))
  }

  lemma AllKeptIff(stxos: seq<Txo>)
    requires AllTyped(stxos)
    ensures AllKept(stxos) == stxos <==> AllStorable(stxos)
  {
    forall i | 0 <= i < |stxos| ensures AllKept(stxos)[i] == stxos[i] <==> Storable(stxos[i]) {
      KeptIff(stxos[i]);
    }
  }

  lemma RecordsRoundTrip(c: Curve, stxos: seq<Txo>, rest: seq<byte>)
    requires PointsDetermined(c) && AllTyped(stxos)
    ensures DecodeRecords(RecordReader(c), JournalBytes(c, stxos) + rest, |stxos|) == Some(AllKept(stxos))
  {
    var parts, kept := Records(c, stxos), AllKept(stxos);
    forall i | 0 <= i < |parts| ensures ReadsAs(RecordReader(c), parts[i], kept[i]) {
      forall after ensures RecordReader(c)(parts[i] + after) == Record(kept[i], |parts[i]|) {
        RecordRoundTrip(c, stxos[i], after);
      }
    }
    PartsRoundTrip(RecordReader(c), parts, kept, rest, |stxos|);
    SliceAll(parts);
    SliceAll(kept);
  }

  datatype Entry = Entry(stxos: seq<Txo>) | Corrupt | Mismatched

  /** deserializeSpendJournalEntry, given how many outputs the block spends. */
  function DecodeEntry(c: Curve, s: seq<byte>, n: nat): Entry {
    if s == [] then if n != 0 then Mismatched else Entry([])
    else
      var r := DecodeRecords(RecordReader(c), s, n);
      if r.None? then Corrupt else Entry(r.value)
  }

  /**
   * What is stored for a block is what is read back for it, if and only if all its records are storable; and
   * an entry that is missing although the block spends outputs is noticed.
   */
  lemma EntryRoundTrip(c: Curve, stxos: seq<Txo>, txs: seq<Tx>)
    requires PointsDetermined(c) && AllTyped(stxos) && |stxos| == SumIns(txs)
    ensures DecodeEntry(c, JournalBytes(c, stxos), SumIns(txs)) == Entry(stxos) <==> AllStorable(stxos)
    ensures DecodeEntry(c, [], SumIns(txs)) == if stxos == [] then Entry([]) else Mismatched
  {
    AllKeptIff(stxos);
    RecordsRoundTrip(c, stxos, []);
    assert JournalBytes(c, stxos) + [] == JournalBytes(c, stxos);
    if stxos != [] {
      RecordFits(c, stxos[0]);
      assert Records(c, stxos) != [];
    }
  }

  // --- The operations on buffers

  /** A buffer with the bytes put at a position. */
  function Put(buffer: seq<byte>, at: nat, bytes: seq<byte>): (after: seq<byte>)
    requires at + |bytes| <= |buffer|
    ensures |after| == |buffer|
  {
    buffer[..at] + bytes + buffer[at + |bytes|..]
  }

  lemma PutIs(after: seq<byte>, buffer: seq<byte>, at: nat, bytes: seq<byte>)
    requires |after| == |buffer| && at + |bytes| <= |buffer|
    requires forall k {:trigger after[k]} :: 0 <= k < |after| ==>
      after[k] == if at <= k < at + |bytes| then bytes[k - at] else buffer[k]
    ensures after == Put(buffer, at, bytes)
  {
  }

  lemma PutAt(buffer: seq<byte>, at: nat, bytes: seq<byte>, k: nat)
    requires at + |bytes| <= |buffer| && k < |buffer|
    ensures Put(buffer, at, bytes)[k] == if at <= k < at + |bytes| then bytes[k - at] else buffer[k]
  {
  }

  lemma PutTwice(buffer: seq<byte>, at: nat, next: nat, x: seq<byte>, y: seq<byte>)
    requires next == at + |x| && next + |y| <= |buffer|
    ensures Put(Put(buffer, at, x), next, y) == Put(buffer, at, x + y)
  {
    var after := Put(Put(buffer, at, x), next, y);
    forall k | 0 <= k < |after|
      ensures after[k] == if at <= k < at + |x + y| then (x + y)[k - at] else buffer[k]
    {
      PutAt(Put(buffer, at, x), next, y, k);
      PutAt(buffer, at, x, k);
    }
    PutIs(after, buffer, at, x + y);
  }

  lemma PutNothing(a: seq<byte>, at: nat)
    requires at <= |a|
    ensures Put(a, at, []) == a
  {
  }

  /** copy. */
  method Copy(target: array<byte>, at: nat, bytes: seq<byte>)
    requires at + |bytes| <= target.Length
    modifies target
    ensures target[..] == Put(old(target[..]), at, bytes)
  {
    for i := 0 to |bytes|
      invariant forall j :: 0 <= j < target.Length ==>
        target[j] == if at <= j < at + i then bytes[j - at] else old(target[j])
    {
      target[at + i] := bytes[i];
    }
    PutIs(target[..], old(target[..]), at, bytes);
  }

  /** The loop of putVLQ has written the groups of n below those of m, least significant first. */
  ghost predicate GroupsBelow(n: nat, m: nat, done: seq<byte>) {
    && |done| + VlqSize(m) == VlqSize(n)
    && Vlq(n) == Groups(m, if done == [] then 0 else 0x80) + Reverse(done)
  }

  lemma GroupDone(n: nat, m: nat, done: seq<byte>, group: byte)
    requires GroupsBelow(n, m, done) && group == m % 0x80 + if done == [] then 0 else 0x80
    ensures m <= 0x7f ==> Reverse(Vlq(n)) == done + [group] && |done| + 1 == VlqSize(n)
    ensures m > 0x7f ==> m / 0x80 - 1 >= 0 && GroupsBelow(n, m / 0x80 - 1, done + [group])
  {
    ReverseAppend(done, group);
    if m > 0x7f {
      GroupsStep(m, if done == [] then 0 else 0x80, Reverse(done));
    } else {
      assert Vlq(n) == Reverse(done + [group]);
      ReverseReverse(done + [group]);
    }
  }

  lemma ReverseReverse<T>(s: seq<T>)
    ensures Reverse(Reverse(s)) == s
  {
  }

  /** The loop of putVLQ stands at m: the buffer holds the groups done so far. */
  ghost predicate Grouping(before: seq<byte>, now: seq<byte>, at: nat, n: nat, m: nat, done: seq<byte>) {
    && GroupsBelow(n, m, done) && at + VlqSize(n) <= |before| && now == Put(before, at, done)
  }

  lemma GroupingStart(before: seq<byte>, at: nat, n: nat)
    requires at + VlqSize(n) <= |before|
    ensures Grouping(before, before, at, n, n, [])
  {
    PutNothing(before, at);
    assert Vlq(n) == Groups(n, 0) + Reverse<byte>([]);
  }

  /** The low group of what is left, with the high bit unless it is the first one written. */
  function LowGroup(m: nat, first: bool): byte {
    m % 0x80 + if first then 0 else 0x80
  }

  lemma GroupingRoom(before: seq<byte>, now: seq<byte>, at: nat, n: nat, m: nat, done: seq<byte>)
    requires Grouping(before, now, at, n, m, done)
    ensures at + |done| < |now| == |before|
  {
  }

  /** One more group is in the buffer. */
  lemma GroupPut(before: seq<byte>, now: seq<byte>, next: seq<byte>, at: nat, done: seq<byte>, group: byte)
    requires at + |done| < |before| && now == Put(before, at, done) && next == now[at + |done| := group]
    ensures next == Put(before, at, done + [group])
  {
    PutIs(next, now, at + |done|, [group]);
    PutTwice(before, at, at + |done|, done, [group]);
  }

  lemma GroupingStep(before: seq<byte>, now: seq<byte>, next: seq<byte>, at: nat, n: nat, m: nat, done: seq<byte>)
    requires Grouping(before, now, at, n, m, done) && at + |done| < |now|
    requires next == now[at + |done| := LowGroup(m, done == [])]
    ensures m <= 0x7f ==> next == Put(before, at, Reverse(Vlq(n))) && |done| + 1 == VlqSize(n)
    ensures m > 0x7f ==> m / 0x80 >= 1 && m / 0x80 - 1 < m
    ensures m > 0x7f ==> Grouping(before, next, at, n, m / 0x80 - 1, done + [LowGroup(m, done == [])])
  {
    var group := LowGroup(m, done == []);
    GroupPut(before, now, next, at, done, group);
    GroupDone(n, m, done, group);
  }

  /** The first loop of putVLQ. */
  method PutGroups(target: array<byte>, at: nat, n: nat) returns (offset: nat)
    requires at + VlqSize(n) <= target.Length
    modifies target
    ensures offset + 1 == VlqSize(n)
    ensures target[..] == Put(old(target[..]), at, Reverse(Vlq(n)))
  {
    offset := 0;
    var m := n;
    ghost var before: seq<byte>, done: seq<byte> := target[..], [];
    GroupingStart(before, at, n);
    while true
      invariant offset == |done| && Grouping(before, target[..], at, n, m, done)
      decreases m
    {
      ghost var now := target[..];
      GroupingRoom(before, now, at, n, m, done);
      var group := LowGroup(m, offset == 0);
      target[at + offset] := group;
      GroupingStep(before, now, target[..], at, n, m, done);
      if m <= 0x7f {
        break;
      }
      done := done + [group];
      m := m / 0x80 - 1;
      offset := offset + 1;
    }
  }

  /** The second loop of putVLQ: reverse the bytes from at to at + offset. */
  method ReverseBytes(target: array<byte>, at: nat, offset: nat)
    requires at + offset < target.Length
    modifies target
    ensures forall k :: 0 <= k < target.Length ==>
      target[k] == if at <= k <= at + offset then old(target[2 * at + offset - k]) else old(target[k])
  {
    var i, j := 0, offset;
    while i < j
      invariant 0 <= i && i + j == offset && -1 <= j
      invariant forall k :: 0 <= k < target.Length && (at <= k < at + i || at + j < k <= at + offset) ==>
        target[k] == old(target[2 * at + offset - k])
      invariant forall k :: 0 <= k < target.Length && !(at <= k < at + i || at + j < k <= at + offset) ==>
        target[k] == old(target[k])
    {
      target[at + i], target[at + j] := target[at + j], target[at + i];
      i, j := i + 1, j - 1;
    }
  }

  method PutVlq(target: array<byte>, at: nat, n: nat) returns (size: nat)
    requires at + VlqSize(n) <= target.Length
    modifies target
    ensures size == VlqSize(n) && target[..] == Put(old(target[..]), at, Vlq(n))
  {
    var offset := PutGroups(target, at, n);
    ghost var middle := target[..];
    ReverseBytes(target, at, offset);
    assert TurnedAround(middle, target[..], at, offset + 1);
    ReversedBack(old(target[..]), middle, target[..], at, Vlq(n), Reverse(Vlq(n)));
    return offset + 1;
  }

  /** c is b with the bytes from at on reversed. */
  predicate TurnedAround(b: seq<byte>, c: seq<byte>, at: nat, len: nat) {
    && |b| == |c| && at + len <= |c|
    && forall k {:trigger c[k]} :: 0 <= k < |c| ==> c[k] == if at <= k < at + len then b[2 * at + len - 1 - k] else b[k]
  }

  lemma ReversedBack(a: seq<byte>, b: seq<byte>, c: seq<byte>, at: nat, x: seq<byte>, rev: seq<byte>)
    requires |rev| == |x| && forall k {:trigger rev[k]} :: 0 <= k < |rev| ==> rev[k] == x[|x| - 1 - k]
    requires at + |x| <= |a| && b == Put(a, at, rev) && TurnedAround(b, c, at, |x|)
    ensures c == Put(a, at, x)
  {
    forall k | 0 <= k < |c| ensures c[k] == if at <= k < at + |x| then x[k - at] else a[k] {
      if at <= k < at + |x| {
        PutAt(a, at, rev, 2 * at + |x| - 1 - k);
      } else {
        PutAt(a, at, rev, k);
      }
    }
    PutIs(c, a, at, x);
  }

  /** A type byte and data. */
  method PutSpecial(target: array<byte>, at: nat, kind: byte, data: seq<byte>)
    requires at + 1 + |data| <= target.Length
    modifies target
    ensures target[..] == Put(old(target[..]), at, [kind] + data)
  {
    target[at] := kind;
    PutIs(target[..], old(target[..]), at, [kind]);
    ghost var middle := target[..];
    Copy(target, at + 1, data);
    PutTwice(old(target[..]), at, at + 1, [kind], data);
  }

  method PutCompressedScript(c: Curve, target: array<byte>, at: nat, script: seq<byte>) returns (size: nat)
    requires at + ScriptSize(c, script) <= target.Length
    modifies target
    ensures size == ScriptSize(c, script) && target[..] == Put(old(target[..]), at, CompressScript(c, script))
  {
    if IsPubKeyHash(script) {
      PutSpecial(target, at, 0, script[3..23]);
      return 21;
    }
    if IsScriptHash(script) {
      PutSpecial(target, at, 1, script[2..22]);
      return 21;
    }
    if IsCompressedKey(c, script) {
      PutSpecial(target, at, script[1], script[2..34]);
      return 33;
    }
    if IsUncompressedKey(c, script) {
      PutSpecial(target, at, 4 + script[65] % 2, script[2..34]);
      return 33;
    }
    size := PutPlainScript(target, at, script);
  }

  /** A script without a special form, after its length. */
  method PutPlainScript(target: array<byte>, at: nat, script: seq<byte>) returns (size: nat)
    requires at + VlqSize(|script| + NUM_SPECIAL_SCRIPTS) + |script| <= target.Length
    modifies target
    ensures size == VlqSize(|script| + NUM_SPECIAL_SCRIPTS) + |script|
    ensures target[..] == Put(old(target[..]), at, Vlq(|script| + NUM_SPECIAL_SCRIPTS) + script)
  {
    var vlqSizeLen := PutVlq(target, at, |script| + NUM_SPECIAL_SCRIPTS);
    ghost var middle := target[..];
    Copy(target, at + vlqSizeLen, script);
    PutTwice(old(target[..]), at, at + vlqSizeLen, Vlq(|script| + NUM_SPECIAL_SCRIPTS), script);
    return vlqSizeLen + |script|;
  }

  method PutCompressedTxOut(c: Curve, target: array<byte>, at: nat, amount: uint64, script: seq<byte>)
    returns (size: nat)
    requires at + TxOutSize(c, amount, script) <= target.Length
    modifies target
    ensures size == TxOutSize(c, amount, script)
    ensures target[..] == Put(old(target[..]), at, TxOutBytes(c, amount, script))
  {
    var offset := PutVlq(target, at, CompressAmount(amount));
    ghost var middle := target[..];
    var more := PutCompressedScript(c, target, at + offset, script);
    PutTwice(old(target[..]), at, at + offset, Vlq(CompressAmount(amount)), CompressScript(c, script));
    return offset + more;
  }

  /** The reserved byte, when the record has one. */
  method PutReserved(target: array<byte>, at: nat, t: Txo) returns (size: nat)
    requires at + |Reserved(t)| <= target.Length
    modifies target
    ensures size == |Reserved(t)| && target[..] == Put(old(target[..]), at, Reserved(t))
  {
    if t.height > 0 {
      size := PutVlq(target, at, 0);
    } else {
      PutNothing(target[..], at);
      size := 0;
    }
  }

  /** The part of a record after its header code. */
  method PutBody(c: Curve, target: array<byte>, at: nat, t: Txo) returns (size: nat)
    requires Typed(t) && at + |Reserved(t)| + TxOutSize(c, Unsigned(t), t.pkScript) <= target.Length
    modifies target
    ensures size == |Reserved(t)| + TxOutSize(c, Unsigned(t), t.pkScript)
    ensures target[..] == Put(old(target[..]), at, Reserved(t) + TxOutBytes(c, Unsigned(t), t.pkScript))
  {
    var reserved := PutReserved(target, at, t);
    ghost var middle := target[..];
    var out := PutCompressedTxOut(c, target, at + reserved, Unsigned(t), t.pkScript);
    PutTwice(old(target[..]), at, at + reserved, Reserved(t), TxOutBytes(c, Unsigned(t), t.pkScript));
    return reserved + out;
  }

  method PutSpentTxOut(c: Curve, target: array<byte>, at: nat, t: Txo) returns (size: nat)
    requires Typed(t) && at + RecordSize(c, t) <= target.Length
    modifies target
    ensures size == RecordSize(c, t) && target[..] == Put(old(target[..]), at, RecordBytes(c, t))
  {
    var offset := PutVlq(target, at, HeaderCode(t));
    ghost var middle := target[..];
    var more := PutBody(c, target, at + offset, t);
    PutTwice(old(target[..]), at, at + offset, Vlq(HeaderCode(t)),
      Reserved(t) + TxOutBytes(c, Unsigned(t), t.pkScript));
    return offset + more;
  }

  method TotalSize(c: Curve, stxos: seq<Txo>) returns (size: nat)
    requires AllTyped(stxos)
    ensures size == JournalSize(c, stxos)
  {
    size := 0;
    SliceAll(stxos);
    for i := 0 to |stxos|
      invariant size + JournalSize(c, stxos[i..]) == JournalSize(c, stxos)
    {
      SliceStep(stxos, i);
      size := size + RecordSize(c, stxos[i]);
    }
  }

  method SerializeSpendJournalEntry(c: Curve, stxos: seq<Txo>) returns (serialized: seq<byte>)
    requires AllTyped(stxos)
    ensures serialized == JournalBytes(c, stxos)
  {
    if |stxos| == 0 {
      return [];
    }
    var size := TotalSize(c, stxos);
    JournalFits(c, stxos);
    var target := new byte[size](_ => 0);
    var offset := 0;
    ghost var start, parts := target[..], Records(c, stxos);
    WriteStart(parts, start);
    for i := |stxos| downto 0
      invariant Written(parts, i, offset, start, target[..])
    {
      offset := WriteRecord(c, stxos[i], target, offset, parts, i, start);
    }
    WriteEnd(parts, offset, start, target[..]);
    return target[..];
  }

  method WriteRecord(c: Curve, t: Txo, target: array<byte>, at: nat, ghost parts: seq<seq<byte>>, ghost i: nat,
                     ghost start: seq<byte>)
    returns (offset: nat)
    requires Typed(t) && i < |parts| && parts[i] == RecordBytes(c, t) && Written(parts, i + 1, at, start, target[..])
    modifies target
    ensures Written(parts, i, offset, start, target[..])
  {
    RecordFits(c, t);
    WriteStep(parts, i, at, start, target[..]);
    ghost var now := target[..];
    var n := PutSpentTxOut(c, target, at, t);
    WriteDone(parts, i, at, start, now, target[..]);
    offset := at + n;
  }

  /** The parts from the i-th on have been written, last one first. */
  ghost predicate Written(parts: seq<seq<byte>>, i: nat, offset: nat, start: seq<byte>, now: seq<byte>) {
    && i <= |parts| && |start| == |LastFirst(parts)|
    && offset == |LastFirst(parts[i..])| && offset <= |start| && now == Put(start, 0, LastFirst(parts[i..]))
  }

  lemma WriteStart(parts: seq<seq<byte>>, start: seq<byte>)
    requires |start| == |LastFirst(parts)|
    ensures Written(parts, |parts|, 0, start, start)
  {
    SliceAll(parts);
    PutNothing(start, 0);
  }

  lemma {:induction false} LengthMono(parts: seq<seq<byte>>, i: nat)
    requires i <= |parts|
    ensures |LastFirst(parts[i..])| <= |LastFirst(parts)|
  {
    if i == 0 {
      SliceAll(parts);
    } else {
      LengthMono(parts, i - 1);
      SliceStep(parts, i - 1);
    }
  }

  lemma WriteStep(parts: seq<seq<byte>>, i: nat, offset: nat, start: seq<byte>, now: seq<byte>)
    requires i < |parts| && Written(parts, i + 1, offset, start, now)
    ensures offset + |parts[i]| <= |now|
  {
    SliceStep(parts, i);
    LengthMono(parts, i);
  }

  lemma WriteDone(parts: seq<seq<byte>>, i: nat, offset: nat, start: seq<byte>, now: seq<byte>, after: seq<byte>)
    requires i < |parts| && Written(parts, i + 1, offset, start, now) && offset + |parts[i]| <= |now|
    requires after == Put(now, offset, parts[i])
    ensures Written(parts, i, offset + |parts[i]|, start, after)
  {
    SliceStep(parts, i);
    assert LastFirst(parts[i..]) == LastFirst(parts[i + 1..]) + parts[i];
    PutTwice(start, 0, offset, LastFirst(parts[i + 1..]), parts[i]);
  }

  lemma WriteEnd(parts: seq<seq<byte>>, offset: nat, start: seq<byte>, now: seq<byte>)
    requires Written(parts, 0, offset, start, now)
    ensures now == LastFirst(parts)
  {
    SliceAll(parts);
  }

  // --- Reading an entry

  /** The loop of deserializeSpendJournalEntry that counts what to expect. */
  method CountAllIns(txns: seq<Tx>) returns (numStxos: nat)
    ensures numStxos == SumIns(txns)
  {
    numStxos := 0;
    SliceAll(txns);
    for i := 0 to |txns|
      invariant numStxos == SumIns(txns[..i])
    {
      SumStep(txns, i);
      numStxos := numStxos + |txns[i].ins|;
    }
  }

  lemma SumStep(txns: seq<Tx>, i: nat)
    requires i < |txns|
    ensures SumIns(txns[..i + 1]) == SumIns(txns[..i]) + |txns[i].ins|
  {
    SliceStep(txns, i);
  }

  /** What reading all records yields, when `left` of them are still to be read from offset on. */
  ghost function Outcome(decode: seq<byte> -> Decoded, s: seq<byte>, offset: nat, left: int, read: seq<Txo>)
    : Option<seq<Txo>>
    requires offset <= |s| && left >= 0
  {
    Append(DecodeRecords(decode, s[offset..], left), read)
  }

  lemma ReadNone(decode: seq<byte> -> Decoded, s: seq<byte>, n: nat)
    ensures Outcome(decode, s, 0, n, []) == DecodeRecords(decode, s, n)
  {
    SliceAll(s);
    var r := DecodeRecords(decode, s, n);
    assert r.Some? ==> r.value + [] == r.value;
  }

  lemma ReadOne(decode: seq<byte> -> Decoded, s: seq<byte>, offset: nat, left: nat, read: seq<Txo>, d: Decoded)
    requires Reader(decode) && offset <= |s| && left > 0 && d == decode(s[offset..])
    ensures d.Failed? ==> Outcome(decode, s, offset, left, read).None?
    ensures d.Record? ==> offset + d.size <= |s|
    ensures d.Record? ==>
      Outcome(decode, s, offset, left, read) == Outcome(decode, s, offset + d.size, left - 1, [d.stxo] + read)
  {
    assert Bounded(decode, s[offset..]);
    if d.Record? {
      assert s[offset..][d.size..] == s[offset + d.size..];
      var r := DecodeRecords(decode, s[offset + d.size..], left - 1);
      if r.Some? {
        ConcatAssoc(r.value, [d.stxo], read);
      }
    }
  }

  /** The records of one transaction's inputs, last input first, filling the list from its end. */
  method ReadInputs(decode: seq<byte> -> Decoded, s: seq<byte>, tx: Tx, stxos: array<Txo>, stxoIdx: int, offset: nat,
                    ghost all: Option<seq<Txo>>)
    returns (ok: bool, nextIdx: int, nextOffset: nat)
    requires Reader(decode) && |tx.ins| <= stxoIdx + 1 <= stxos.Length && offset <= |s|
    requires Outcome(decode, s, offset, stxoIdx + 1, stxos[stxoIdx + 1..]) == all
    modifies stxos
    ensures !ok ==> all.None?
    ensures ok ==> nextIdx == stxoIdx - |tx.ins| && nextOffset <= |s|
    ensures ok ==> Outcome(decode, s, nextOffset, nextIdx + 1, stxos[nextIdx + 1..]) == all
  {
    nextIdx, nextOffset := stxoIdx, offset;
    for i := |tx.ins| downto 0
      invariant nextIdx == stxoIdx - |tx.ins| + i && nextOffset <= |s|
      invariant Outcome(decode, s, nextOffset, nextIdx + 1, stxos[nextIdx + 1..]) == all
    {
      var d := decode(s[nextOffset..]);
      ghost var read := stxos[nextIdx + 1..];
      ReadOne(decode, s, nextOffset, nextIdx + 1, read, d);
      if d.Failed? {
        return false, nextIdx, nextOffset;
      }
      stxos[nextIdx] := d.stxo;
      assert stxos[nextIdx..] == [d.stxo] + read;
      nextIdx := nextIdx - 1;
      nextOffset := nextOffset + d.size;
    }
    ok := true;
  }

  method DeserializeSpendJournalEntry(c: Curve, serialized: seq<byte>, txns: seq<Tx>) returns (entry: Entry)
    ensures entry == DecodeEntry(c, serialized, SumIns(txns))
  {
    var numStxos := CountAllIns(txns);
    if |serialized| == 0 {
      return if numStxos != 0 then Mismatched else Entry([]);
    }
    var read := ReadAll(RecordReader(c), serialized, txns, numStxos);
    return if read.None? then Corrupt else Entry(read.value);
  }

  /** The loop over the transactions, last one first. */
  method ReadAll(decode: seq<byte> -> Decoded, s: seq<byte>, txns: seq<Tx>, numStxos: nat)
    returns (read: Option<seq<Txo>>)
    requires Reader(decode) && numStxos == SumIns(txns)
    ensures read == DecodeRecords(decode, s, numStxos)
  {
    var stxoIdx: int, offset: nat := numStxos - 1, 0;
    var stxos := new Txo[numStxos](_ => NO_TXO);
    ghost var all := DecodeRecords(decode, s, numStxos);
    ReadNone(decode, s, numStxos);
    assert stxos[numStxos..] == [];
    SliceAll(txns);
    for txIdx := |txns| downto 0
      invariant stxoIdx + 1 == SumIns(txns[..txIdx]) <= stxos.Length && offset <= |s|
      invariant Outcome(decode, s, offset, stxoIdx + 1, stxos[stxoIdx + 1..]) == all
    {
      SumStep(txns, txIdx);
      var ok;
      ok, stxoIdx, offset := ReadInputs(decode, s, txns[txIdx], stxos, stxoIdx, offset, all);
      if !ok {
        return None;
      }
    }
    assert stxos[0..] == stxos[..] == [] + stxos[..];
    return Some(stxos[..]);
  }
}
