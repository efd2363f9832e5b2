/** The utxo set as the rows of a database bucket (blockchain/chainio.go). */
module UtxoBucket {
  import opened Primitives
  import opened Utxo
  import opened UtxoCache
  import opened Amounts
  import opened TxOutCodec
  import opened SpendJournal

  // --- Rows

  /** outpointKey: the hash and then the index. */
  function OutpointKey(o: OutPoint): seq<byte> {
    o.txHash.bytes + Vlq(o.index)
  }

  /** The outpoint a key was made from. */
  function KeyOutpoint(k: seq<byte>): OutPoint {
    if |k| < HASH_SIZE then OutPoint(ZERO_HASH, 0) else OutPoint(Hash(k[..HASH_SIZE]), ReadVlq(0, k[HASH_SIZE..]).0)
  }

  lemma KeyBack(o: OutPoint)
    ensures KeyOutpoint(OutpointKey(o)) == o
  {
    var k := OutpointKey(o);
    assert k[..HASH_SIZE] == o.txHash.bytes && k[HASH_SIZE..] == Vlq(o.index) + [];
    VlqRoundTrip(o.index, []);
  }

  /** Different outputs have different keys. */
  lemma KeyInjective(o: OutPoint, q: OutPoint)
    requires OutpointKey(o) == OutpointKey(q)
    ensures o == q
  {
    KeyBack(o);
    KeyBack(q);
  }

  function EntryBytes(c: Curve, t: Txo): seq<byte>
    requires Typed(t)
  {
    Vlq(HeaderCode(t)) + TxOutBytes(c, Unsigned(t), t.pkScript)
  }

  method SerializeUtxoEntry(c: Curve, t: Txo) returns (serialized: seq<byte>)
    requires Typed(t)
    ensures serialized == EntryBytes(c, t)
  {
    var headerCode := HeaderCode(t);
    var size := VlqSize(headerCode) + TxOutSize(c, Unsigned(t), t.pkScript);
    var target := new byte[size](_ => 0);
    ghost var start := target[..];
    var offset := PutVlq(target, 0, headerCode);
    var more := PutCompressedTxOut(c, target, offset, Unsigned(t), t.pkScript);
    PutTwice(start, 0, offset, Vlq(headerCode), TxOutBytes(c, Unsigned(t), t.pkScript));
    SizeOfScript(c, t.pkScript);
    PutWhole(start, EntryBytes(c, t));
    return target[..];
  }

  lemma PutWhole(buffer: seq<byte>, bytes: seq<byte>)
    requires |buffer| == |bytes|
    ensures Put(buffer, 0, bytes) == bytes
  {
  }

  /** deserializeUtxoEntry. */
  function DecodeUtxo(c: Curve, s: seq<byte>): Option<Txo> {
    var (code, k) := ReadVlq(0, s);
    if k >= |s| then None else UtxoOf(DecodeTxOut(c, s[k..]), code)
  }

  function UtxoOf(out: DecodedTxOut, code: nat): Option<Txo> {
    if out.Malformed? then None else Some(Txo(Int64(out.amount), out.script, Int32(code / 2), code % 2 == 1))
  }

  /** An entry is read back, and it is the same entry if and only if its amount survives compression. */
  lemma UtxoRoundTrip(c: Curve, t: Txo)
    requires PointsDetermined(c) && Typed(t)
    ensures DecodeUtxo(c, EntryBytes(c, t)) == Some(Kept(t))
    ensures Kept(t) == t <==> Storable(t)
  {
    var code, out := Vlq(HeaderCode(t)), TxOutBytes(c, Unsigned(t), t.pkScript);
    VlqRoundTrip(HeaderCode(t), out);
    TxOutRoundTrip(c, Unsigned(t), t.pkScript, []);
    assert out + [] == out && (code + out)[|code|..] == out;
    OutNotEmpty(c, t);
    CodeFields(t);
    KeptIff(t);
  }

  lemma OutNotEmpty(c: Curve, t: Txo)
    ensures TxOutBytes(c, Unsigned(t), t.pkScript) != []
  {
    NotEmpty(c, t.pkScript);
  }

  // --- The bucket

  type Bucket = map<seq<byte>, seq<byte>>

  /** The row of an output. */
  predicate RowFor(c: Curve, b: Bucket, u: Utxos, o: OutPoint) {
    o in u && Storable(u[o]) && OutpointKey(o) in b && b[OutpointKey(o)] == EntryBytes(c, u[o])
  }

  /** The key belongs to an output of the set. */
  predicate KeyFor(u: Utxos, k: seq<byte>) {
    KeyOutpoint(k) in u && OutpointKey(KeyOutpoint(k)) == k
  }

  /** The bucket has a row for every output of the set and no other. */
  ghost predicate BucketHolds(c: Curve, b: Bucket, u: Utxos) {
    && (forall o {:trigger RowFor(c, b, u, o)} :: o in u ==> RowFor(c, b, u, o))
    && (forall k {:trigger KeyFor(u, k)} :: k in b ==> KeyFor(u, k))
  }

  /** dbFetchUtxoEntry. */
  function FetchUtxoEntry(c: Curve, b: Bucket, o: OutPoint): Option<Txo> {
    if OutpointKey(o) in b then DecodeUtxo(c, b[OutpointKey(o)]) else None
  }

  lemma FetchIs(c: Curve, b: Bucket, u: Utxos, o: OutPoint)
    requires PointsDetermined(c) && BucketHolds(c, b, u)
    ensures FetchUtxoEntry(c, b, o) == if o in u then Some(u[o]) else None
  {
    if o in u {
      assert RowFor(c, b, u, o);
      UtxoRoundTrip(c, u[o]);
    } else if OutpointKey(o) in b {
      assert KeyFor(u, OutpointKey(o));
      KeyBack(o);
    }
  }

  /** The set the bucket stands for, every output as dbFetchUtxoEntry reads it. */
  function Contents(c: Curve, b: Bucket): Utxos {
    map o | o in (set k | k in b :: KeyOutpoint(k)) && FetchUtxoEntry(c, b, o).Some? :: FetchUtxoEntry(c, b, o).value
  }

  lemma ContentsIs(c: Curve, b: Bucket, u: Utxos)
    requires PointsDetermined(c) && BucketHolds(c, b, u)
    ensures Contents(c, b) == u
  {
    forall o ensures SameAt(Contents(c, b), u, o) {
      FetchIs(c, b, u, o);
      if o in u {
        assert RowFor(c, b, u, o);
        KeyBack(o);
        assert OutpointKey(o) in b;
      }
    }
    AllSame(Contents(c, b), u);
  }

  lemma HoldsPut(c: Curve, b: Bucket, u: Utxos, o: OutPoint, t: Txo)
    requires BucketHolds(c, b, u) && Storable(t)
    ensures BucketHolds(c, b[OutpointKey(o) := EntryBytes(c, t)], u[o := t])
  {
    var d, v := b[OutpointKey(o) := EntryBytes(c, t)], u[o := t];
    forall q | q in v ensures RowFor(c, d, v, q) {
      if q != o {
        assert RowFor(c, b, u, q);
        if OutpointKey(q) == OutpointKey(o) {
          KeyInjective(q, o);
        }
      }
    }
    KeyBack(o);
    forall k | k in d ensures KeyFor(v, k) {
      if k != OutpointKey(o) {
        assert KeyFor(u, k);
      }
    }
  }

  lemma HoldsRemove(c: Curve, b: Bucket, u: Utxos, o: OutPoint)
    requires BucketHolds(c, b, u)
    ensures BucketHolds(c, b - {OutpointKey(o)}, u - {o})
  {
    var d, v := b - {OutpointKey(o)}, u - {o};
    forall q | q in v ensures RowFor(c, d, v, q) {
      assert RowFor(c, b, u, q);
      if OutpointKey(q) == OutpointKey(o) {
        KeyInjective(q, o);
      }
    }
    forall k | k in d ensures KeyFor(v, k) {
      assert KeyFor(u, k);
    }
  }

  ghost predicate AllUtxosStorable(u: Utxos) {
    forall o :: o in u ==> Storable(u[o])
  }

  /** What is written for a modified entry is in the set the view stands for. */
  lemma WrittenStorable(e: Entries, db: Utxos, o: OutPoint)
    requires AllUtxosStorable(Abs(e, db)) && o in e && e[o].Some? && !e[o].value.spent
    ensures Storable(e[o].value.txo)
  {
    AbsAt(e, db, o);
  }

  /** dbPutUtxoView for one entry. */
  method PutUtxoEntry(c: Curve, bucket: Bucket, o: OutPoint, x: Option<UtxoCache.Entry>, ghost now: Utxos)
    returns (next: Bucket)
    requires BucketHolds(c, bucket, now) && (x.Some? && !x.value.spent ==> Storable(x.value.txo))
    ensures BucketHolds(c, next, PutEntry(now, o, x))
  {
    next := bucket;
    if x.None? || !x.value.modified {
      return;
    }
    if x.value.spent {
      HoldsRemove(c, bucket, now, o);
      next := bucket - {OutpointKey(o)};
    } else {
      HoldsPut(c, bucket, now, o, x.value.txo);
      var serialized := SerializeUtxoEntry(c, x.value.txo);
      next := bucket[OutpointKey(o) := serialized];
    }
  }

  /** dbPutUtxoView on the rows: writing the modified entries makes the bucket hold what the view stands for. */
  method PutUtxoView(c: Curve, bucket: Bucket, e: Entries, ghost db: Utxos) returns (next: Bucket)
    requires BucketHolds(c, bucket, db) && Faithful(e, db) && AllUtxosStorable(Abs(e, db))
    ensures BucketHolds(c, next, Abs(e, db))
  {
    next := bucket;
    var todo := e.Keys;
    ghost var now := db;
    assert forall o :: PutOk(e, db, db, e.Keys, o);
    while todo != {}
      invariant WrittenBut(e, db, now, todo) && todo <= e.Keys && BucketHolds(c, next, now)
      decreases todo
    {
      var o :| o in todo;
      PutOne(e, db, now, todo, o);
      if e[o].Some? && !e[o].value.spent {
        WrittenStorable(e, db, o);
      }
      next := PutUtxoEntry(c, next, o, e[o], now);
      now := PutEntry(now, o, e[o]);
      todo := todo - {o};
    }
    PutAll(e, db, now);
  }
}
