/** The byte form of the block index rows and of the best chain state (blockchain/chainio.go, wire/blockheader.go). */
module Rows {
  import opened Primitives
  import opened Compact
  import opened BlockTree
  import opened Selection

  // --- Fixed-width integers

  const TWO_32 := 0x1_0000_0000

  /** A number of four digits to the base 256. */
  function Four(a: byte, b: byte, c: byte, d: byte): (x: uint32) {
    0x100_0000 * (a as int) + 0x1_0000 * (b as int) + 0x100 * (c as int) + d as int
  }

  lemma FourDigits(x: uint32)
    ensures x / 0x100_0000 < 0x100
    ensures Four(x / 0x100_0000, x / 0x1_0000 % 0x100, x / 0x100 % 0x100, x % 0x100) == x
  {
    assert x / 0x1_0000 == x / 0x100 / 0x100;
    assert x / 0x100_0000 == x / 0x1_0000 / 0x100;
  }

  /** The low 32 bits, least significant byte first. */
  function Le32(x: int): (s: seq<byte>)
    ensures |s| == 4
  {
    var y := x % TWO_32;
    [y % 0x100, y / 0x100 % 0x100, y / 0x1_0000 % 0x100, y / 0x100_0000]
  }

  function FromLe32(s: seq<byte>): (x: uint32)
    requires |s| == 4
  {
    Four(s[3], s[2], s[1], s[0])
  }

  lemma Le32Back(x: int)
    ensures FromLe32(Le32(x)) == x % TWO_32
  {
    FourDigits(x % TWO_32);
  }

  lemma Uint32Back(x: uint32)
    ensures FromLe32(Le32(x)) == x
  {
    Le32Back(x);
  }

  lemma Int32Of(x: int32, y: uint32)
    requires y == x % TWO_32
    ensures Int32(y) == x
  {
  }

  lemma Int32Back(x: int32)
    ensures Int32(FromLe32(Le32(x))) == x
  {
    Le32Back(x);
    Int32Of(x, FromLe32(Le32(x)));
  }

  function Le64(x: int): (s: seq<byte>)
    ensures |s| == 8
  {
    Le32(x) + Le32(x / TWO_32)
  }

  function FromLe64(s: seq<byte>): (x: uint64)
    requires |s| == 8
  {
    FromLe32(s[..4]) + TWO_32 * FromLe32(s[4..])
  }

  lemma Le64Back(x: int)
    ensures FromLe64(Le64(x)) == x % TWO_64
  {
    Le32Back(x);
    Le32Back(x / TWO_32);
    assert Le64(x)[..4] == Le32(x) && Le64(x)[4..] == Le32(x / TWO_32);
    SplitMod(x);
  }

  lemma SplitMod(x: int)
    ensures x % TWO_32 + TWO_32 * (x / TWO_32 % TWO_32) == x % TWO_64
  {
    var a := x / TWO_32;
    var b := a / TWO_32;
    assert x == (b * TWO_32 + a % TWO_32) * TWO_32 + x % TWO_32;
    assert x == b * TWO_64 + (a % TWO_32 * TWO_32 + x % TWO_32);
    assert 0 <= a % TWO_32 * TWO_32 + x % TWO_32 < TWO_64;
  }

  // --- Headers

  const HEADER_SIZE := 80

  /** writeBlockHeader. */
  function HeaderBytes(h: Header): (s: seq<byte>)
    ensures |s| == HEADER_SIZE
  {
    Le32(h.version) + h.prevBlock.bytes + h.merkleRoot.bytes + Le32(h.timestamp) + Le32(h.bits) + Le32(h.nonce)
  }

  /** readBlockHeader. */
  function ReadHeader(s: seq<byte>): Header
    requires |s| >= HEADER_SIZE
  {
    Header(Int32(FromLe32(s[..4])), Hash(s[4..36]), Hash(s[36..68]), FromLe32(s[68..72]), FromLe32(s[72..76]),
      FromLe32(s[76..80]))
  }

  lemma HeaderFields(h: Header, rest: seq<byte>)
    ensures var s := HeaderBytes(h) + rest;
      && s[..4] == Le32(h.version) && s[4..36] == h.prevBlock.bytes && s[36..68] == h.merkleRoot.bytes
      && s[68..72] == Le32(h.timestamp) && s[72..76] == Le32(h.bits) && s[76..80] == Le32(h.nonce)
  {
  }

  /** A header is read back, whatever follows. */
  lemma HeaderRoundTrip(h: Header, rest: seq<byte>)
    ensures ReadHeader(HeaderBytes(h) + rest) == h
  {
    HeaderFields(h, rest);
    Int32Back(h.version);
    Uint32Back(h.timestamp);
    Uint32Back(h.bits);
    Uint32Back(h.nonce);
  }

  // --- Block index rows

  /** The key and the value dbStoreBlockNode writes for a node. */
  datatype RowKey = RowKey(height: int, hash: Hash)

  datatype Row = Row(header: Header, status: Status)

  function Bit(s: Status, f: Flag, weight: nat): nat {
    if f in s then weight else 0
  }

  /** The status bits of a block. */
  function StatusByte(s: Status): byte {
    Bit(s, DataStored, 1) + Bit(s, Valid, 2) + Bit(s, ValidateFailed, 4) + Bit(s, InvalidAncestor, 8)
  }

  predicate HasBit(b: byte, f: Flag) {
    match f
    case DataStored => b % 2 == 1
    case Valid => b / 2 % 2 == 1
    case ValidateFailed => b / 4 % 2 == 1
    case InvalidAncestor => b / 8 % 2 == 1
  }

  function StatusOf(b: byte): Status {
    set f: Flag | HasBit(b, f)
  }

  lemma StatusBack(s: Status)
    ensures StatusOf(StatusByte(s)) == s
  {
    forall f: Flag ensures f in StatusOf(StatusByte(s)) <==> f in s {
      FlagBack(s, f);
    }
  }

  lemma FlagBack(s: Status, f: Flag)
    ensures HasBit(StatusByte(s), f) <==> f in s
  {
    match f
    case DataStored =>
    case Valid =>
    case ValidateFailed =>
    case InvalidAncestor =>
  }

  function RowBytes(row: Row): (s: seq<byte>)
    ensures |s| == HEADER_SIZE + 1
  {
    HeaderBytes(row.header) + [StatusByte(row.status)]
  }

  /** deserializeBlockRow; None is the error for a row that is too short. */
  function DecodeRow(s: seq<byte>): Option<Row> {
    if |s| < HEADER_SIZE + 1 then None else Some(Row(ReadHeader(s), StatusOf(s[HEADER_SIZE])))
  }

  /** A row is read back. */
  lemma RowRoundTrip(row: Row)
    ensures DecodeRow(RowBytes(row)) == Some(row)
  {
    HeaderRoundTrip(row.header, [StatusByte(row.status)]);
    StatusBack(row.status);
  }

  /** blockIndexKey: the height as a big-endian 32-bit integer, then the hash. */
  function KeyBytes(k: RowKey): seq<byte> {
    HeightKey(k.height % TWO_32, k.hash)
  }

  function HeightKey(h: uint32, hash: Hash): seq<byte> {
    Digits(h / 0x100_0000, h / 0x1_0000 % 0x100, h / 0x100 % 0x100, h % 0x100, hash.bytes)
  }

  function Digits(a: byte, b: byte, c: byte, d: byte, rest: seq<byte>): seq<byte> {
    [a] + ([b] + ([c] + ([d] + rest)))
  }

  /** The key the bytes stand for. */
  function KeyRow(s: seq<byte>): RowKey {
    if |s| != HASH_SIZE + 4 then RowKey(0, ZERO_HASH)
    else RowKey(Four(s[0], s[1], s[2], s[3]), Hash(s[4..]))
  }

  predicate LowKey(k: RowKey) {
    0 <= k.height < TWO_32
  }

  lemma DigitsBack(a: byte, b: byte, c: byte, d: byte, hash: Hash)
    ensures KeyRow(Digits(a, b, c, d, hash.bytes)) == RowKey(Four(a, b, c, d), hash)
  {
    assert Digits(a, b, c, d, hash.bytes)[4..] == hash.bytes;
  }

  lemma HeightKeyBack(h: uint32, hash: Hash)
    ensures KeyRow(HeightKey(h, hash)) == RowKey(h, hash)
  {
    FourDigits(h);
    DigitsBack(h / 0x100_0000, h / 0x1_0000 % 0x100, h / 0x100 % 0x100, h % 0x100, hash);
  }

  lemma KeyRowBack(k: RowKey)
    requires LowKey(k)
    ensures KeyRow(KeyBytes(k)) == k
  {
    var h := k.height % TWO_32;
    ModSame(k.height, TWO_32);
    assert RowKey(h, k.hash) == k;
    HeightKeyBack(h, k.hash);
  }

  // --- The block index bucket

  type RowBucket = map<seq<byte>, seq<byte>>

  predicate RowHeld(b: RowBucket, rows: map<RowKey, Row>, k: RowKey) {
    k in rows && LowKey(k) && KeyBytes(k) in b && b[KeyBytes(k)] == RowBytes(rows[k])
  }

  predicate KeyHeld(rows: map<RowKey, Row>, s: seq<byte>) {
    KeyRow(s) in rows && KeyBytes(KeyRow(s)) == s
  }

  /** The bucket has the bytes of every row and nothing else. */
  ghost predicate RowsHeld(b: RowBucket, rows: map<RowKey, Row>) {
    && (forall k {:trigger RowHeld(b, rows, k)} :: k in rows ==> RowHeld(b, rows, k))
    && (forall s {:trigger KeyHeld(rows, s)} :: s in b ==> KeyHeld(rows, s))
  }

  predicate LowRows(rows: map<RowKey, Row>) {
    forall k {:trigger LowKey(k)} :: k in rows ==> LowKey(k)
  }

  lemma HeldPut(b: RowBucket, rows: map<RowKey, Row>, k: RowKey, row: Row)
    requires RowsHeld(b, rows) && LowKey(k)
    ensures RowsHeld(b[KeyBytes(k) := RowBytes(row)], rows[k := row])
  {
    var d, now := b[KeyBytes(k) := RowBytes(row)], rows[k := row];
    KeyRowBack(k);
    forall j | j in now ensures RowHeld(d, now, j) {
      if j != k {
        assert RowHeld(b, rows, j);
        KeyRowBack(j);
      }
    }
    forall s | s in d ensures KeyHeld(now, s) {
      if s != KeyBytes(k) {
        assert KeyHeld(rows, s);
      }
    }
  }

  /** As long as heights fit 32 bits, the bucket holds the rows. */
  ghost predicate Held(b: RowBucket, rows: map<RowKey, Row>) {
    LowRows(rows) ==> RowsHeld(b, rows)
  }

  lemma HeldNext(b: RowBucket, rows: map<RowKey, Row>, k: RowKey, row: Row)
    requires Held(b, rows)
    ensures Held(b[KeyBytes(k) := RowBytes(row)], rows[k := row])
  {
    if LowRows(rows[k := row]) {
      assert k in rows[k := row];
      assert forall j :: j in rows ==> j in rows[k := row];
      HeldPut(b, rows, k, row);
    }
  }

  lemma HeldFirst(k: RowKey, row: Row)
    ensures Held(map[KeyBytes(k) := RowBytes(row)], map[k := row])
  {
    if LowRows(map[k := row]) {
      assert k in map[k := row];
      KeyRowBack(k);
    }
  }

  // --- The best chain state

  datatype StateRow = StateRow(hash: Hash, height: int, totalTxns: int, workSum: nat)

  /** The bytes of a big integer, most significant first. */
  function BigBytes(w: nat): seq<byte> {
    if w == 0 then [] else BigBytes(w / 0x100) + [w % 0x100]
  }

  function FromBig(s: seq<byte>): nat {
    if s == [] then 0 else FromBig(s[..|s| - 1]) * 0x100 + s[|s| - 1]
  }

  lemma {:induction false} BigBack(w: nat)
    ensures FromBig(BigBytes(w)) == w
  {
    if w > 0 {
      BigBack(w / 0x100);
      assert BigBytes(w)[..|BigBytes(w)| - 1] == BigBytes(w / 0x100);
    }
  }

  lemma {:induction false} BigShort(w: nat, k: nat)
    requires w < Pow256(k)
    ensures |BigBytes(w)| <= k
    decreases k
  {
    if w > 0 {
      BigShort(w / 0x100, k - 1);
    }
  }

  lemma MulStep(h: nat, most: nat, w: nat, one: nat)
    requires w <= h * most && one <= most
    ensures w + one <= (h + 1) * most
  {
    assert (h + 1) * most == h * most + most;
  }

  lemma {:induction false} WorkBound(n: BlockNode, most: nat)
    requires forall bits :: CalcWork(bits) <= most
    ensures WorkSum(n) <= (Height(n) + 1) * most
  {
    if n.Node? {
      WorkBound(n.parent, most);
      MulStep(Height(n), most, WorkSum(n.parent), CalcWork(n.bits));
    }
  }

  lemma BelowPower(h: nat, most: nat, w: nat, limit: nat)
    requires w <= h * most && h <= 0x8000_0000 && most >= 1 && limit == 0x1_0000_0000 * most
    ensures w < limit
  {
    assert h * most <= 0x8000_0000 * most;
  }

  lemma FourMore()
    ensures Pow256(36) == 0x1_0000_0000 * Pow256(32)
  {
    Pow256Add(4, 32);
    assert Pow256(4) == 0x1_0000_0000;
  }

  lemma MostWork(most: nat)
    requires most == ONE_LSH_256
    ensures forall bits :: CalcWork(bits) <= most
  {
  }

  lemma WorkBelow(n: BlockNode, most: nat, limit: nat)
    requires Height(n) < 0x8000_0000 && (forall bits :: CalcWork(bits) <= most)
    requires most >= 1 && limit == 0x1_0000_0000 * most
    ensures WorkSum(n) < limit
  {
    WorkBound(n, most);
    BelowPower(Height(n) + 1, most, WorkSum(n), limit);
  }

  /** The work of a branch fits 36 bytes as long as heights fit 31 bits. */
  lemma WorkShort(n: BlockNode)
    requires Height(n) < 0x8000_0000
    ensures |BigBytes(WorkSum(n))| <= 36
  {
    MostWork(Pow256(32));
    FourMore();
    WorkBelow(n, Pow256(32), Pow256(36));
    BigShort(WorkSum(n), 36);
  }

  const STATE_SIZE := HASH_SIZE + 16

  /** serializeBestChainState. */
  function StateBytes(r: StateRow): seq<byte> {
    var work := BigBytes(r.workSum);
    r.hash.bytes + Le32(r.height) + Le64(r.totalTxns) + Le32(|work|) + work
  }

  /** deserializeBestChainState; None is the error for corrupt data. */
  function DecodeState(s: seq<byte>): Option<StateRow> {
    if |s| < STATE_SIZE then None
    else
      var size := FromLe32(s[44..48]);
      if |s| - STATE_SIZE < size then None
      else Some(StateRow(Hash(s[..32]), FromLe32(s[32..36]), FromLe64(s[36..44]), FromBig(s[48..48 + size])))
  }

  lemma StateFields(r: StateRow)
    ensures var s, work := StateBytes(r), BigBytes(r.workSum);
      && |s| == STATE_SIZE + |work| && s[..32] == r.hash.bytes && s[32..36] == Le32(r.height)
      && s[36..44] == Le64(r.totalTxns) && s[44..48] == Le32(|work|) && s[48..] == work
  {
  }

  /** The fields as they are stored. */
  function StoredState(r: StateRow): StateRow {
    StateRow(r.hash, r.height % TWO_32, r.totalTxns % TWO_64, r.workSum)
  }

  lemma StateBack(r: StateRow, size: uint32)
    requires size == |BigBytes(r.workSum)|
    ensures DecodeState(StateBytes(r)) == Some(StoredState(r))
  {
    StateFields(r);
    Le32Back(r.height);
    Le64Back(r.totalTxns);
    Uint32Back(size);
    BigBack(r.workSum);
    assert StateBytes(r)[48..48 + size] == StateBytes(r)[48..];
  }

  lemma ModSame(x: int, m: int)
    requires m > 0
    ensures x % m == x <==> 0 <= x < m
  {
  }

  /** Height, count and work fit their fields. */
  predicate StateFits(r: StateRow) {
    0 <= r.height < TWO_32 && 0 <= r.totalTxns < TWO_64 && |BigBytes(r.workSum)| < TWO_32
  }

  /** The state is read back, and it is the same state if and only if height and count fit their fields. */
  lemma StateRoundTrip(r: StateRow)
    requires |BigBytes(r.workSum)| < TWO_32
    ensures DecodeState(StateBytes(r)) == Some(StoredState(r))
    ensures StoredState(r) == r <==> 0 <= r.height < TWO_32 && 0 <= r.totalTxns < TWO_64
  {
    StateBack(r, |BigBytes(r.workSum)|);
    ModSame(r.height, TWO_32);
    ModSame(r.totalTxns, TWO_64);
  }
}
