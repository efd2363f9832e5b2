/** The stored formats byte by byte (blockchain/compress.go, blockchain/chainio.go, wire/blockheader.go). */
module Layouts {
  import opened Primitives
  import opened BlockTree
  import opened Utxo
  import opened Selection
  import opened Amounts
  import opened TxOutCodec
  import opened SpendJournal
  import opened UtxoBucket
  import opened Rows

  // --- Variable length quantities

  /** The bytes of a number that is continued by another byte. */
  function Continued(s: seq<byte>): seq<byte>
    requires s != [] && s[|s| - 1] < 0x80
  {
    s[..|s| - 1] + [s[|s| - 1] + 0x80]
  }

  lemma LastGroup(n: nat)
    ensures Groups(n, 0) != [] && Groups(n, 0)[|Groups(n, 0)| - 1] < 0x80
    ensures Groups(n, 0x80) == Continued(Groups(n, 0))
  {
    if n > 0x7f {
      assert Groups(n, 0)[..|Groups(n, 0)| - 1] == Groups(n / 0x80 - 1, 0x80);
    }
  }

  /** A number below 128 is one byte; a larger one continues the number of its upper digits, less one. */
  lemma VlqLayout(m: nat, d: nat)
    requires d < 0x80
    ensures Vlq(d) == [d]
    ensures Vlq(m) != [] && Vlq(m)[|Vlq(m)| - 1] < 0x80
    ensures Vlq(0x80 * (m + 1) + d) == Continued(Vlq(m)) + [d]
  {
    var n := 0x80 * (m + 1) + d;
    assert n / 0x80 == m + 1 && n % 0x80 == d;
    LastGroup(m);
  }

  lemma VlqExamples()
    ensures Vlq(127) == [0x7f] && Vlq(128) == [0x80, 0x00] && Vlq(255) == [0x80, 0x7f] && Vlq(256) == [0x81, 0x00]
    ensures Vlq(16511) == [0xff, 0x7f] && Vlq(16512) == [0x80, 0x80, 0x00]
  {
  }

  // --- Amounts

  lemma Tens()
    ensures Pow10(1) == 10 && Pow10(2) == 100 && Pow10(9) == 1_000_000_000
  {
    assert Pow10(5) == 100_000;
    assert Pow10(9) == 1_000_000_000;
  }

  lemma {:induction false} StripIs(n: nat, j: nat, k: nat)
    requires n > 0 && j + k <= 9 && (n % 10 != 0 || j + k == 9)
    ensures n * Pow10(j) > 0 && Strip(n * Pow10(j), k) == (n, j + k)
    decreases j
  {
    if j == 0 {
      assert n * Pow10(0) == n;
    } else {
      StripIs(n, j - 1, k + 1);
      TimesTen(n, Pow10(j - 1));
    }
  }

  lemma TimesTen(n: nat, p: nat)
    requires n * p > 0
    ensures n * (10 * p) == 10 * (n * p) && n * (10 * p) % 10 == 0 && n * (10 * p) / 10 == n * p
  {
    assert n * (10 * p) == 10 * (n * p);
  }

  /** An amount n * 10^e, with no further zero or nine of them: its digits and the number of zeroes in one number. */
  lemma AmountLayout(n: nat, e: nat)
    requires n > 0 && e <= 9 && (e < 9 ==> n % 10 != 0)
    ensures Packed(n * Pow10(e)) == if e < 9 then 1 + 10 * (9 * (n / 10) + n % 10 - 1) + e else 10 * n
    ensures Packed(0) == 0
  {
    StripIs(n, e, 0);
  }

  // --- Scripts

  function PayToPubKeyHash(h: seq<byte>): seq<byte> {
    [0x76, 0xa9, 0x14] + h + [0x88, 0xac]
  }

  function PayToScriptHash(h: seq<byte>): seq<byte> {
    [0xa9, 0x14] + h + [0x87]
  }

  function PayToCompressed(format: byte, x: seq<byte>): seq<byte> {
    [0x21, format] + x + [0xac]
  }

  function PayToUncompressed(x: seq<byte>, y: seq<byte>): seq<byte> {
    [0x41, 0x04] + x + y + [0xac]
  }

  /** The hash of a key is stored behind a zero. */
  lemma PubKeyHashLayout(c: Curve, h: seq<byte>)
    requires |h| == 20
    ensures CompressScript(c, PayToPubKeyHash(h)) == [0] + h
    ensures DecompressScript(c, [0] + h) == PayToPubKeyHash(h)
  {
    var s := PayToPubKeyHash(h);
    assert |s| == 25 && s[3..23] == h;
    ReadSmall(0, h);
    assert ([0] + h)[1..21] == h;
  }

  /** The hash of a script is stored behind a one. */
  lemma ScriptHashLayout(c: Curve, h: seq<byte>)
    requires |h| == 20
    ensures CompressScript(c, PayToScriptHash(h)) == [1] + h
    ensures DecompressScript(c, [1] + h) == PayToScriptHash(h)
  {
    var s := PayToScriptHash(h);
    assert |s| == 23 && s[2..22] == h;
    ReadSmall(1, h);
    assert ([1] + h)[1..21] == h;
  }

  lemma ReadSmall(n: byte, rest: seq<byte>)
    requires n < 0x80
    ensures ReadVlq(0, [n] + rest) == (n as int, 1)
  {
  }

  /** A valid compressed key is stored as it is. */
  lemma CompressedKeyLayout(c: Curve, format: byte, x: seq<byte>)
    requires |x| == 32 && (format == 2 || format == 3)
    ensures c.valid([format] + x) ==> CompressScript(c, PayToCompressed(format, x)) == [format] + x
    ensures DecompressScript(c, [format] + x) == PayToCompressed(format, x)
  {
    var s := PayToCompressed(format, x);
    assert |s| == 35 && s[1..34] == [format] + x && s[2..34] == x;
    ReadSmall(format, x);
    assert ([format] + x)[1..33] == x;
  }

  /** Of a valid uncompressed key the x-coordinate is stored behind a four or a five, by the parity of y. */
  lemma UncompressedKeyLayout(c: Curve, x: seq<byte>, y: seq<byte>)
    requires |x| == 32 && |y| == 32
    ensures c.valid([4] + x + y) ==> CompressScript(c, PayToUncompressed(x, y)) == [4 + y[31] % 2] + x
  {
    var s := PayToUncompressed(x, y);
    assert |s| == 67 && s[1..66] == [4] + x + y && s[2..34] == x && s[65] == y[31];
  }

  lemma UncompressedKeyBack(c: Curve, parity: byte, x: seq<byte>)
    requires |x| == 32 && parity < 2
    ensures DecompressScript(c, [4 + parity] + x) ==
      var key := c.expand([2 + parity] + x); if key.None? then [] else [0x41] + key.value + [0xac]
  {
    ReadSmall(4 + parity, x);
    assert ([4 + parity] + x)[1..] == x;
  }

  /** The script is of one of the four forms. */
  ghost predicate SpecialForm(c: Curve, s: seq<byte>) {
    || (exists h :: |h| == 20 && (s == PayToPubKeyHash(h) || s == PayToScriptHash(h)))
    || (exists f, x :: |x| == 32 && (f == 2 || f == 3) && c.valid([f] + x) && s == PayToCompressed(f, x))
    || (exists x, y :: |x| == 32 && |y| == 32 && c.valid([4] + x + y) && s == PayToUncompressed(x, y))
  }

  lemma IsPubKeyHashForm(s: seq<byte>)
    requires IsPubKeyHash(s)
    ensures |s[3..23]| == 20 && s == PayToPubKeyHash(s[3..23])
  {
  }

  lemma IsScriptHashForm(s: seq<byte>)
    requires IsScriptHash(s)
    ensures |s[2..22]| == 20 && s == PayToScriptHash(s[2..22])
  {
  }

  lemma IsCompressedForm(c: Curve, s: seq<byte>)
    requires IsCompressedKey(c, s)
    ensures |s[2..34]| == 32 && c.valid([s[1]] + s[2..34]) && s == PayToCompressed(s[1], s[2..34])
  {
    assert s[1..34] == [s[1]] + s[2..34];
  }

  lemma IsUncompressedForm(c: Curve, s: seq<byte>)
    requires IsUncompressedKey(c, s)
    ensures c.valid([4] + s[2..34] + s[34..66]) && s == PayToUncompressed(s[2..34], s[34..66])
  {
    assert s[1..66] == [4] + s[2..34] + s[34..66];
  }

  /** Any other script is stored behind its length plus six. */
  lemma OtherLayout(c: Curve, s: seq<byte>)
    requires !SpecialForm(c, s)
    ensures CompressScript(c, s) == Vlq(|s| + 6) + s
  {
    if IsPubKeyHash(s) {
      IsPubKeyHashForm(s);
    } else if IsScriptHash(s) {
      IsScriptHashForm(s);
    } else if IsCompressedKey(c, s) {
      IsCompressedForm(c, s);
    } else if IsUncompressedKey(c, s) {
      IsUncompressedForm(c, s);
    }
  }

  // --- Outputs, entries and records

  /** An output: amount, script. */
  lemma OutputLayout(c: Curve, amount: uint64, script: seq<byte>)
    ensures TxOutBytes(c, amount, script) == Vlq(Packed(amount) % 0x1_0000_0000_0000_0000) + CompressScript(c, script)
  {
  }

  lemma FieldsOf(t: Txo)
    requires Typed(t) && 0 <= t.amount
    ensures Unsigned(t) == t.amount && HeaderCode(t) == 2 * t.height + if t.coinbase then 1 else 0
  {
  }

  /** A utxo entry: height and coinbase flag, output. */
  lemma EntryLayout(c: Curve, t: Txo)
    requires Typed(t) && 0 <= t.amount
    ensures EntryBytes(c, t) == Vlq(2 * t.height + if t.coinbase then 1 else 0) + TxOutBytes(c, t.amount, t.pkScript)
  {
    FieldsOf(t);
  }

  /** A journal record has a zero byte after the first field, unless its height is zero. */
  lemma RecordLayout(c: Curve, t: Txo)
    requires Typed(t) && 0 <= t.amount
    ensures var code, output := 2 * t.height + if t.coinbase then 1 else 0, TxOutBytes(c, t.amount, t.pkScript);
      RecordBytes(c, t) == if t.height > 0 then Vlq(code) + ([0] + output) else Vlq(code) + output
  {
    FieldsOf(t);
    VlqLayout(0, 0);
    assert [] + TxOutBytes(c, t.amount, t.pkScript) == TxOutBytes(c, t.amount, t.pkScript);
  }

  /** The records of a journal entry come last one first. */
  lemma JournalLayout(c: Curve, stxos: seq<Txo>, t: Txo)
    requires AllTyped(stxos) && Typed(t)
    ensures JournalBytes(c, []) == []
    ensures AllTyped(stxos + [t]) && JournalBytes(c, stxos + [t]) == RecordBytes(c, t) + JournalBytes(c, stxos)
  {
    assert Records(c, stxos + [t]) == Records(c, stxos) + [RecordBytes(c, t)];
    LastFirstSnoc(Records(c, stxos), RecordBytes(c, t));
  }

  /** The key of an output: its hash, then its index. */
  lemma OutpointLayout(o: OutPoint)
    ensures OutpointKey(o)[..32] == o.txHash.bytes && OutpointKey(o)[32..] == Vlq(o.index)
  {
  }

  lemma WholeCoins(n: nat)
    requires n > 0
    ensures Packed(n * 1_000_000_000) == 10 * n
  {
    Tens();
    AmountLayout(n, 9);
  }

  /** The output that holds n times 10^9 units for the hash of a key. */
  lemma OutputExample(c: Curve, n: nat, h: seq<byte>)
    requires |h| == 20 && 0 < n < 0x8000_0000
    ensures TxOutBytes(c, n * 1_000_000_000, PayToPubKeyHash(h)) == Vlq(10 * n) + ([0] + h)
  {
    var amount := n * 1_000_000_000;
    OutputLayout(c, amount, PayToPubKeyHash(h));
    WholeCoins(n);
    assert Packed(amount) % 0x1_0000_0000_0000_0000 == 10 * n;
    PubKeyHashLayout(c, h);
  }

  // --- Rows

  function Little(s: seq<byte>, i: nat): nat
    requires i + 4 <= |s|
  {
    s[i] as int + 0x100 * (s[i + 1] as int) + 0x1_0000 * (s[i + 2] as int) + 0x100_0000 * (s[i + 3] as int)
  }

  lemma LittleIs(x: int)
    ensures Little(Le32(x), 0) == x % 0x1_0000_0000
  {
    Le32Back(x);
  }

  lemma LittleAt(s: seq<byte>, i: nat, x: int)
    requires i + 4 <= |s| && s[i..i + 4] == Le32(x)
    ensures Little(s, i) == x % 0x1_0000_0000
  {
    LittleIs(x);
    assert s[i] == s[i..i + 4][0] && s[i + 1] == s[i..i + 4][1];
    assert s[i + 2] == s[i..i + 4][2] && s[i + 3] == s[i..i + 4][3];
  }

  /** The 80 bytes of a header: six fields, numbers with the low byte first. */
  lemma HeaderLayout(h: Header)
    ensures var s := HeaderBytes(h);
      && |s| == 80 && s[4..36] == h.prevBlock.bytes && s[36..68] == h.merkleRoot.bytes
      && Little(s, 0) == h.version % 0x1_0000_0000 && Little(s, 68) == h.timestamp && Little(s, 72) == h.bits
      && Little(s, 76) == h.nonce
  {
    var s := HeaderBytes(h);
    HeaderFields(h, []);
    assert s + [] == s && s[0..4] == s[..4];
    LittleAt(s, 0, h.version);
    LittleAt(s, 68, h.timestamp);
    LittleAt(s, 72, h.bits);
    LittleAt(s, 76, h.nonce);
  }

  /** A row: the header, then one bit for each flag. */
  lemma RowLayout(row: Row)
    ensures RowBytes(row)[..80] == HeaderBytes(row.header)
    ensures RowBytes(row)[80] == (if DataStored in row.status then 1 else 0) + (if Valid in row.status then 2 else 0)
      + (if ValidateFailed in row.status then 4 else 0) + (if InvalidAncestor in row.status then 8 else 0)
  {
  }

  /** The key of a row: the height with the high byte first, then the hash. */
  lemma RowKeyLayout(k: RowKey)
    requires LowKey(k)
    ensures var s := KeyBytes(k);
      && |s| == 36 && s[4..] == k.hash.bytes
      && 0x100_0000 * (s[0] as int) + 0x1_0000 * (s[1] as int) + 0x100 * (s[2] as int) + s[3] as int == k.height
  {
    KeyRowBack(k);
    assert KeyBytes(k)[4..] == k.hash.bytes;
  }

  /** A big integer: the high byte first and none that is zero. */
  lemma BigLayout(w: nat, d: nat)
    requires d < 0x100 && (w > 0 || d > 0)
    ensures BigBytes(0) == [] && BigBytes(0x100 * w + d) == BigBytes(w) + [d]
  {
    assert (0x100 * w + d) / 0x100 == w && (0x100 * w + d) % 0x100 == d;
  }

  /** The best chain state: hash, height, number of transactions, size of the work, work. */
  lemma StateLayout(r: StateRow)
    requires 0 <= r.height < 0x1_0000_0000 && 0 <= r.totalTxns < 0x1_0000_0000_0000_0000
    requires |BigBytes(r.workSum)| < 0x1_0000_0000
    ensures var s := StateBytes(r);
      && |s| == 48 + |BigBytes(r.workSum)| && s[..32] == r.hash.bytes && Little(s, 32) == r.height
      && Little(s, 36) + 0x1_0000_0000 * Little(s, 40) == r.totalTxns
      && Little(s, 44) == |BigBytes(r.workSum)| && s[48..] == BigBytes(r.workSum)
  {
    var s := StateBytes(r);
    StateFields(r);
    LittleAt(s, 32, r.height);
    LittleAt(s, 44, |BigBytes(r.workSum)|);
    assert s[36..40] == s[36..44][..4] == Le32(r.totalTxns);
    assert s[40..44] == s[36..44][4..] == Le32(r.totalTxns / TWO_32);
    LittleAt(s, 36, r.totalTxns);
    LittleAt(s, 40, r.totalTxns / TWO_32);
    SplitMod(r.totalTxns);
  }
}
