/**
 * Compressed outputs that are cut short (blockchain/compress.go).  Reading one fails, as it should, unless all that
 * is left of the script is a first byte 85, with which the lengths from 762 to 889 start.
 */
module Truncation {
  import opened Primitives
  import opened Amounts
  import opened TxOutCodec
  import opened Layouts

  /** All bytes ask for another one. */
  predicate Open(s: seq<byte>) {
    forall i :: 0 <= i < |s| ==> s[i] >= 0x80
  }

  lemma {:induction false} GroupsOpen(n: nat)
    ensures Open(Groups(n, 0x80))
  {
    if n > 0x7f {
      GroupsOpen(n / 0x80 - 1);
    }
  }

  /** What is left of a number that is cut short asks for more. */
  lemma CutIsOpen(n: nat, k: nat)
    requires k < |Vlq(n)|
    ensures Open(Vlq(n)[..k])
  {
    if n > 0x7f {
      GroupsOpen(n / 0x80 - 1);
      assert Vlq(n)[..k] == Groups(n / 0x80 - 1, 0x80)[..k];
    }
  }

  /** Reading such bytes takes all of them; one byte stands for itself plus one, two or more for more than 128. */
  lemma {:induction false} ReadOpen(n: nat, s: seq<byte>)
    requires Open(s)
    ensures ReadVlq(n, s).1 == |s| && ReadVlq(n, s).0 >= n
    ensures |s| >= 1 ==> ReadVlq(n, s).0 >= n * 0x80 + 1
    decreases |s|
  {
    if s != [] {
      ReadOpen(n * 0x80 + s[0] % 0x80 + 1, s[1..]);
    }
  }

  lemma ReadOpenOne(b: byte)
    requires b >= 0x80
    ensures ReadVlq(0, [b]) == (b - 0x7f, 1)
  {
    ReadCons(0, b, []);
    assert [b] + [] == [b];
  }

  lemma ReadOpenMore(s: seq<byte>)
    requires Open(s) && |s| >= 2
    ensures ReadVlq(0, s).0 > 0x80 && ReadVlq(0, s).1 == |s|
  {
    ReadOpen(0, s);
    ReadOpen(s[0] % 0x80 + 1, s[1..]);
  }

  /** A length that is cut short is taken for that of a script that is there exactly if it is the one byte 85. */
  lemma OpenSize(s: seq<byte>)
    requires Open(s) && s != []
    ensures DecodeScriptSize(s) <= |s| <==> s == [0x85]
    ensures s == [0x85] ==> DecodeScriptSize(s) == 1
  {
    if |s| == 1 {
      ReadOpenOne(s[0]);
      assert s == [s[0]];
    } else {
      ReadOpenMore(s);
    }
  }

  /** The same for a compressed script that is cut short: special scripts and plain ones. */
  lemma CutSpecial(c: Curve, script: seq<byte>, z: seq<byte>, j: nat)
    requires z == CompressScript(c, script) && 1 <= j < |z| && z[0] <= 5 && |z| == if z[0] <= 1 then 21 else 33
    ensures DecodeScriptSize(z[..j]) > j
  {
    ReadCons(0, z[0], z[1..j]);
    assert z[..j] == [z[0]] + z[1..j];
  }

  lemma CutPlain(z: seq<byte>, script: seq<byte>, j: nat)
    requires z == Vlq(|script| + 6) + script && 1 <= j < |z|
    ensures DecodeScriptSize(z[..j]) <= j <==> z[..j] == [0x85]
    ensures z[..j] == [0x85] ==> DecodeScriptSize(z[..j]) == 1
  {
    var size := Vlq(|script| + 6);
    if j < |size| {
      CutIsOpen(|script| + 6, j);
      assert z[..j] == size[..j];
      OpenSize(z[..j]);
    } else {
      VlqRoundTrip(|script| + 6, script[..j - |size|]);
      assert z[..j] == size + script[..j - |size|];
      LastGroup(|script| + 6);
      assert z[..j][|size| - 1] == size[|size| - 1];
    }
  }

  lemma CutScript(c: Curve, script: seq<byte>, j: nat)
    requires 1 <= j < |CompressScript(c, script)|
    ensures var cut := CompressScript(c, script)[..j];
      (DecodeScriptSize(cut) <= j <==> cut == [0x85]) && (cut == [0x85] ==> DecodeScriptSize(cut) == 1)
  {
    var z := CompressScript(c, script);
    if IsPubKeyHash(script) || IsScriptHash(script) || IsCompressedKey(c, script) || IsUncompressedKey(c, script) {
      CutSpecial(c, script, z, j);
      assert z[..j][0] == z[0];
    } else {
      CutPlain(z, script, j);
    }
  }

  lemma CutAmount(c: Curve, x: nat, k: nat)
    requires k <= |Vlq(x)|
    ensures DecodeTxOut(c, Vlq(x)[..k]).Malformed?
  {
    if k < |Vlq(x)| {
      CutIsOpen(x, k);
      ReadOpen(0, Vlq(x)[..k]);
    } else {
      VlqRoundTrip(x, []);
      assert Vlq(x)[..k] == Vlq(x) + [];
    }
  }

  /** A compressed output that is cut short is turned down, unless all that is left of the script is the byte 85. */
  lemma CutShort(c: Curve, amount: uint64, script: seq<byte>, k: nat)
    requires k < |TxOutBytes(c, amount, script)|
    ensures DecodeTxOut(c, TxOutBytes(c, amount, script)[..k]).Malformed? <==>
      !(k == |Vlq(CompressAmount(amount))| + 1 && CompressScript(c, script)[0] == 0x85)
  {
    var a, z := Vlq(CompressAmount(amount)), CompressScript(c, script);
    if k <= |a| {
      CutAmount(c, CompressAmount(amount), k);
      assert (a + z)[..k] == a[..k];
    } else {
      var cut := z[..k - |a|];
      assert (a + z)[..k] == a + cut;
      CutScript(c, script, k - |a|);
      assert cut == [0x85] <==> k == |a| + 1 && z[0] == 0x85;
      VlqRoundTrip(CompressAmount(amount), cut);
      assert (a + cut)[|a|..] == cut;
    }
  }

  /** That happens: an output with a script of 762 to 889 bytes is then read as one with an empty script. */
  lemma CutUnnoticed(c: Curve, amount: uint64, script: seq<byte>)
    requires 762 <= |script| <= 889
    ensures var k := |Vlq(CompressAmount(amount))| + 1;
      && k < |TxOutBytes(c, amount, script)|
      && DecodeTxOut(c, TxOutBytes(c, amount, script)[..k]) ==
        DecodedTxOut(DecompressAmount(CompressAmount(amount)), [], k)
  {
    var a, z := Vlq(CompressAmount(amount)), CompressScript(c, script);
    var d := |script| + 6 - 768;
    VlqLayout(5, d);
    VlqLayout(0, 5);
    assert Vlq(0x80 * (5 + 1) + d) == [0x85] + [d];
    assert z == [0x85] + [d] + script;
    var cut := z[..1];
    assert cut == [0x85];
    assert TxOutBytes(c, amount, script)[..|a| + 1] == a + cut;
    VlqRoundTrip(CompressAmount(amount), cut);
    assert (a + cut)[|a|..] == cut && (a + cut)[|a|..|a| + 1] == cut;
    ReadOpenOne(0x85);
  }
}
