/** Variable-length integers and compressed transaction outputs (blockchain/compress.go). */
module TxOutCodec {
  import opened Primitives
  import opened Amounts

  // --- Variable-length quantities

  /** The groups of n, most significant first; every byte but the last of a number carries the high bit. */
  function Groups(n: nat, mark: nat): (s: seq<byte>)
    requires mark == 0 || mark == 0x80
    ensures |s| == VlqSize(n)
  {
    if n <= 0x7f then [n + mark] else Groups(n / 0x80 - 1, 0x80) + [n % 0x80 + mark]
  }

  function Vlq(n: nat): seq<byte> {
    Groups(n, 0)
  }

  /** serializeSizeVLQ. */
  function VlqSize(n: nat): (k: nat)
    ensures k >= 1
  {
    if n <= 0x7f then 1 else VlqSize(n / 0x80 - 1) + 1
  }

  /** deserializeVLQ after some bytes that have amounted to n: the number and the bytes it took. */
  function ReadVlq(n: nat, s: seq<byte>): (r: (nat, nat))
    ensures r.1 <= |s| && (s != [] ==> r.1 >= 1)
    decreases |s|
  {
    if s == [] then (n, 0)
    else
      var v := n * 0x80 + s[0] % 0x80;
      if s[0] < 0x80 then (v, 1)
      else
        var (w, k) := ReadVlq(v + 1, s[1..]);
        (w, k + 1)
  }

  lemma ReadCons(n: nat, b: byte, s: seq<byte>)
    ensures ReadVlq(n, [b] + s) ==
      if b < 0x80 then (n * 0x80 + b, 1) else (ReadVlq(n * 0x80 + b - 0x7f, s).0, ReadVlq(n * 0x80 + b - 0x7f, s).1 + 1)
  {
    assert ([b] + s)[1..] == s;
  }

  lemma ReadMore(m: nat, b: byte, s: seq<byte>, n: nat)
    requires b >= 0x80 && n == m * 0x80 + (b - 0x80)
    ensures ReadVlq(m, [b] + s) == (ReadVlq(n + 1, s).0, ReadVlq(n + 1, s).1 + 1)
  {
    ReadCons(m, b, s);
  }

  lemma GroupsStep(n: nat, mark: nat, s: seq<byte>)
    requires n > 0x7f && (mark == 0 || mark == 0x80)
    ensures n / 0x80 >= 1 && n / 0x80 * 0x80 + n % 0x80 == n
    ensures Groups(n, mark) + s == Groups(n / 0x80 - 1, 0x80) + ([n % 0x80 + mark] + s)
  {
  }

  /** All bytes of n carry the high bit: reading goes on with n + 1. */
  lemma {:induction false} ReadMarked(n: nat, s: seq<byte>)
    ensures ReadVlq(0, Groups(n, 0x80) + s) == (ReadVlq(n + 1, s).0, ReadVlq(n + 1, s).1 + VlqSize(n))
    decreases n
  {
    if n <= 0x7f {
      ReadCons(0, n + 0x80, s);
    } else {
      GroupsStep(n, 0x80, s);
      ReadMarked(n / 0x80 - 1, [n % 0x80 + 0x80] + s);
      ReadMore(n / 0x80, n % 0x80 + 0x80, s, n);
    }
  }

  /** A number is read back, and nothing behind it is touched. */
  lemma VlqRoundTrip(n: nat, rest: seq<byte>)
    ensures ReadVlq(0, Vlq(n) + rest) == (n, |Vlq(n)|)
  {
    if n <= 0x7f {
      ReadCons(0, n, rest);
    } else {
      GroupsStep(n, 0, rest);
      ReadMarked(n / 0x80 - 1, [n % 0x80] + rest);
      ReadCons(n / 0x80, n % 0x80, rest);
    }
  }

  // --- Scripts

  const OP_DATA_20: byte := 0x14
  const OP_DATA_33: byte := 0x21
  const OP_DATA_65: byte := 0x41
  const OP_DUP: byte := 0x76
  const OP_EQUAL: byte := 0x87
  const OP_EQUALVERIFY: byte := 0x88
  const OP_HASH160: byte := 0xa9
  const OP_CHECKSIG: byte := 0xac

  const NUM_SPECIAL_SCRIPTS := 6

  /**
   * The elliptic curve: `valid` says whether a serialized public key parses, `expand` is the uncompressed
   * form of a key given in compressed form.
   */
  datatype Curve = Curve(valid: seq<byte> -> bool, expand: seq<byte> -> Option<seq<byte>>)

  /** A key is determined by its x-coordinate and the parity of its y-coordinate. */
  ghost predicate PointsDetermined(c: Curve) {
    forall k: seq<byte> {:trigger c.valid(k)} :: |k| == 65 && k[0] == 4 && c.valid(k) ==>
      c.expand(CompressedKey(k)) == Some(k)
  }

  function CompressedKey(k: seq<byte>): seq<byte>
    requires |k| == 65
  {
    [2 + k[64] % 2] + k[1..33]
  }

  predicate IsPubKeyHash(s: seq<byte>) {
    && |s| == 25 && s[0] == OP_DUP && s[1] == OP_HASH160 && s[2] == OP_DATA_20
    && s[23] == OP_EQUALVERIFY && s[24] == OP_CHECKSIG
  }

  predicate IsScriptHash(s: seq<byte>) {
    |s| == 23 && s[0] == OP_HASH160 && s[1] == OP_DATA_20 && s[22] == OP_EQUAL
  }

  predicate IsCompressedKey(c: Curve, s: seq<byte>) {
    |s| == 35 && s[0] == OP_DATA_33 && s[34] == OP_CHECKSIG && (s[1] == 2 || s[1] == 3) && c.valid(s[1..34])
  }

  predicate IsUncompressedKey(c: Curve, s: seq<byte>) {
    |s| == 67 && s[0] == OP_DATA_65 && s[66] == OP_CHECKSIG && s[1] == 4 && c.valid(s[1..66])
  }

  /** compressedScriptSize. */
  function ScriptSize(c: Curve, s: seq<byte>): nat {
    if IsPubKeyHash(s) then 21
    else if IsScriptHash(s) then 21
    else if IsCompressedKey(c, s) || IsUncompressedKey(c, s) then 33
    else VlqSize(|s| + NUM_SPECIAL_SCRIPTS) + |s|
  }

  /** putCompressedScript. */
  function CompressScript(c: Curve, s: seq<byte>): seq<byte> {
    if IsPubKeyHash(s) then [0] + s[3..23]
    else if IsScriptHash(s) then [1] + s[2..22]
    else if IsCompressedKey(c, s) then [s[1]] + s[2..34]
    else if IsUncompressedKey(c, s) then [4 + s[65] % 2] + s[2..34]
    else Vlq(|s| + NUM_SPECIAL_SCRIPTS) + s
  }

  /** decodeCompressedScriptSize. */
  function DecodeScriptSize(s: seq<byte>): nat {
    var (n, k) := ReadVlq(0, s);
    if k == 0 then 0
    else if n <= 1 then 21
    else if n <= 5 then 33
    else n - NUM_SPECIAL_SCRIPTS + k
  }

  /** A slice of a buffer that is known to be long enough. */
  function Slice(s: seq<byte>, from: nat, to: nat): seq<byte> {
    if from <= to <= |s| then s[from..to] else []
  }

  function DecompressScript(c: Curve, s: seq<byte>): seq<byte> {
    if s == [] then []
    else
      var (n, k) := ReadVlq(0, s);
      if n == 0 then [OP_DUP, OP_HASH160, OP_DATA_20] + Slice(s, k, k + 20) + [OP_EQUALVERIFY, OP_CHECKSIG]
      else if n == 1 then [OP_HASH160, OP_DATA_20] + Slice(s, k, k + 20) + [OP_EQUAL]
      else if n <= 3 then [OP_DATA_33, n] + Slice(s, k, k + 32) + [OP_CHECKSIG]
      else if n <= 5 then
        var key := c.expand([n - 2] + s[1..]);
        if key.None? then [] else [OP_DATA_65] + key.value + [OP_CHECKSIG]
      else Slice(s, k, k + n - NUM_SPECIAL_SCRIPTS)
  }

  lemma SizeOfScript(c: Curve, s: seq<byte>)
    ensures |CompressScript(c, s)| == ScriptSize(c, s)
  {
  }

  /** The size is read off the first bytes, whatever follows the script. */
  lemma SizeDecodes(c: Curve, s: seq<byte>, rest: seq<byte>)
    ensures DecodeScriptSize(CompressScript(c, s) + rest) == |CompressScript(c, s)|
  {
    var z := CompressScript(c, s);
    if IsPubKeyHash(s) || IsScriptHash(s) || IsCompressedKey(c, s) || IsUncompressedKey(c, s) {
      ReadCons(0, z[0], z[1..] + rest);
      assert z + rest == [z[0]] + (z[1..] + rest);
    } else {
      VlqRoundTrip(|s| + NUM_SPECIAL_SCRIPTS, s + rest);
      assert z + rest == Vlq(|s| + NUM_SPECIAL_SCRIPTS) + (s + rest);
    }
  }

  lemma UncompressedBack(c: Curve, s: seq<byte>)
    requires PointsDetermined(c) && IsUncompressedKey(c, s)
    ensures c.expand([2 + s[65] % 2] + s[2..34]) == Some(s[1..66])
    ensures s == [OP_DATA_65] + s[1..66] + [OP_CHECKSIG]
  {
    var key := s[1..66];
    assert c.valid(key);
    assert CompressedKey(key) == [2 + s[65] % 2] + s[2..34];
  }

  /** A special script: one byte says which, the rest is data. */
  lemma SpecialBack(c: Curve, s: seq<byte>, z: seq<byte>)
    requires PointsDetermined(c) && z == CompressScript(c, s)
    requires IsPubKeyHash(s) || IsScriptHash(s) || IsCompressedKey(c, s) || IsUncompressedKey(c, s)
    ensures DecompressScript(c, z) == s
  {
    ReadCons(0, z[0], z[1..]);
    assert z == [z[0]] + z[1..];
    if IsPubKeyHash(s) {
      assert s == [OP_DUP, OP_HASH160, OP_DATA_20] + s[3..23] + [OP_EQUALVERIFY, OP_CHECKSIG];
    } else if IsScriptHash(s) {
      assert s == [OP_HASH160, OP_DATA_20] + s[2..22] + [OP_EQUAL];
    } else if IsCompressedKey(c, s) {
      assert s == [OP_DATA_33, s[1]] + s[2..34] + [OP_CHECKSIG];
    } else {
      UncompressedBack(c, s);
    }
  }

  lemma ScriptRoundTrip(c: Curve, s: seq<byte>)
    requires PointsDetermined(c)
    ensures DecompressScript(c, CompressScript(c, s)) == s
  {
    if IsPubKeyHash(s) || IsScriptHash(s) || IsCompressedKey(c, s) || IsUncompressedKey(c, s) {
      SpecialBack(c, s, CompressScript(c, s));
    } else {
      VlqRoundTrip(|s| + NUM_SPECIAL_SCRIPTS, s);
    }
  }

  // --- Outputs

  function TxOutBytes(c: Curve, amount: uint64, script: seq<byte>): seq<byte> {
    Vlq(CompressAmount(amount)) + CompressScript(c, script)
  }

  /** compressedTxOutSize. */
  function TxOutSize(c: Curve, amount: uint64, script: seq<byte>): nat {
    VlqSize(CompressAmount(amount)) + ScriptSize(c, script)
  }

  datatype DecodedTxOut = DecodedTxOut(amount: uint64, script: seq<byte>, size: nat) | Malformed(size: nat)

  function DecodeTxOut(c: Curve, s: seq<byte>): DecodedTxOut {
    var (x, k) := ReadVlq(0, s);
    DecodeAfter(c, s, DecompressAmount(x), k)
  }

  /** The part of an output after its amount, which took k bytes. */
  function DecodeAfter(c: Curve, s: seq<byte>, amount: uint64, k: nat): DecodedTxOut {
    if k >= |s| then Malformed(k)
    else
      var size := DecodeScriptSize(s[k..]);
      if |s| - k < size then Malformed(k)
      else DecodedTxOut(amount, DecompressScript(c, s[k..k + size]), k + size)
  }

  /**
   * An output is read back whatever follows it, with its script unharmed; its amount is unharmed if and only
   * if its compressed form has 64 bits.
   */
  lemma TxOutRoundTrip(c: Curve, amount: uint64, script: seq<byte>, rest: seq<byte>)
    requires PointsDetermined(c)
    ensures var z := TxOutBytes(c, amount, script);
      && |z| == TxOutSize(c, amount, script)
      && DecodeTxOut(c, z + rest) == DecodedTxOut(DecompressAmount(CompressAmount(amount)), script, |z|)
    ensures DecompressAmount(CompressAmount(amount)) == amount <==> AmountFits(amount)
  {
    var x := CompressAmount(amount);
    var a, z := Vlq(x), CompressScript(c, script);
    SizeOfScript(c, script);
    AmountRoundTrip(amount);
    VlqRoundTrip(x, z + rest);
    SizeDecodes(c, script, rest);
    ScriptRoundTrip(c, script);
    NotEmpty(c, script);
    ConcatAssoc(a, z, rest);
    SliceParts(a, z, rest);
    ScriptAfter(c, a + (z + rest), DecompressAmount(x), |a|, |z|, script);
  }

  lemma SliceParts(a: seq<byte>, z: seq<byte>, rest: seq<byte>)
    ensures var s := a + (z + rest); s[|a|..] == z + rest && s[|a|..|a| + |z|] == z
  {
  }

  lemma ScriptAfter(c: Curve, s: seq<byte>, amount: uint64, k: nat, size: nat, script: seq<byte>)
    requires k < |s| && size <= |s| - k
    requires DecodeScriptSize(s[k..]) == size && DecompressScript(c, s[k..k + size]) == script
    ensures DecodeAfter(c, s, amount, k) == DecodedTxOut(amount, script, k + size)
  {
  }

  lemma NotEmpty(c: Curve, s: seq<byte>)
    ensures CompressScript(c, s) != []
  {
  }
}
