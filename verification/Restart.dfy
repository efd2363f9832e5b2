/**
 * Loading the block index from the database when the node starts (blockchain/chainio.go): the rows come
 * in the byte order of their keys, and that order has to bring every parent before its children.
 */
module Restart {
  import opened Primitives
  import opened BlockTree
  import opened Selection
  import opened Rows
  import opened ChainCore
  import opened BlockIndexes

  // --- Keys

  /** The order in which a cursor visits the keys of a bucket. */
  predicate LexLess(a: seq<byte>, b: seq<byte>) {
    b != [] && (a == [] || a[0] < b[0] || (a[0] == b[0] && LexLess(a[1..], b[1..])))
  }

  lemma LexCons(x: byte, a: seq<byte>, y: byte, b: seq<byte>)
    ensures LexLess([x] + a, [y] + b) <==> x < y || (x == y && LexLess(a, b))
  {
    assert ([x] + a)[1..] == a && ([y] + b)[1..] == b;
  }

  /** Byte order of keys is height order, and order of hashes within one height. */
  lemma KeyOrder(a: RowKey, b: RowKey)
    requires LowKey(a) && LowKey(b)
    ensures LexLess(KeyBytes(a), KeyBytes(b)) <==>
      a.height < b.height || (a.height == b.height && LexLess(a.hash.bytes, b.hash.bytes))
  {
    ModSame(a.height, TWO_32);
    ModSame(b.height, TWO_32);
    HeightOrder(a.height % TWO_32, a.hash, b.height % TWO_32, b.hash);
  }

  lemma HeightOrder(x: uint32, a: Hash, y: uint32, b: Hash)
    ensures LexLess(HeightKey(x, a), HeightKey(y, b)) <==> x < y || (x == y && LexLess(a.bytes, b.bytes))
  {
    FourDigits(x);
    FourDigits(y);
    DigitOrder(x / 0x100_0000, x / 0x1_0000 % 0x100, x / 0x100 % 0x100, x % 0x100, a.bytes,
      y / 0x100_0000, y / 0x1_0000 % 0x100, y / 0x100 % 0x100, y % 0x100, b.bytes);
  }

  lemma DigitOrder(x3: byte, x2: byte, x1: byte, x0: byte, s: seq<byte>, y3: byte, y2: byte, y1: byte, y0: byte,
                   t: seq<byte>)
    ensures var x, y := Four(x3, x2, x1, x0), Four(y3, y2, y1, y0);
      LexLess(Digits(x3, x2, x1, x0, s), Digits(y3, y2, y1, y0, t)) <==> x < y || (x == y && LexLess(s, t))
  {
    LexCons(x3, [x2] + ([x1] + ([x0] + s)), y3, [y2] + ([y1] + ([y0] + t)));
    LexCons(x2, [x1] + ([x0] + s), y2, [y1] + ([y0] + t));
    LexCons(x1, [x0] + s, y1, [y0] + t);
    LexCons(x0, s, y0, t);
  }

  /** The keys of the bucket in cursor order, each of them once. */
  ghost predicate CursorOrder(keys: seq<RowKey>, rows: map<RowKey, Row>) {
    && (forall k :: k in rows <==> k in keys)
    && (forall i, j {:trigger Before(keys, i, j)} :: 0 <= i < j < |keys| ==> Before(keys, i, j))
  }

  predicate Before(keys: seq<RowKey>, i: nat, j: nat) {
    && i < j < |keys| && LowKey(keys[i]) && LowKey(keys[j])
    && LexLess(KeyBytes(keys[i]), KeyBytes(keys[j]))
  }

  // --- Loading

  /** The index as far as it is loaded; `last` is the node of the row before. */
  datatype Partial = Partial(index: map<Hash, BlockNode>, status: Statuses, last: BlockNode)

  const NOTHING := Partial(map[], map[], Nil)

  function ParentFor(p: Params, l: Partial, header: Header): Option<BlockNode>
    requires p.genesis.Node?
  {
    if l.last.Nil? then
      if p.hashOf(header) == p.genesis.hash then Some(Nil) else None
    else if header.prevBlock == l.last.hash then Some(l.last)
    else if header.prevBlock in l.index then Some(l.index[header.prevBlock])
    else None
  }

  /** One row; None is the assertion error of a first row other than genesis, or of a missing parent. */
  function LoadRow(p: Params, l: Partial, row: Row): Option<Partial>
    requires p.genesis.Node?
  {
    var parent := ParentFor(p, l, row.header);
    if parent.None? then None
    else
      var node := NewBlockNode(p.hashOf(row.header), row.header, parent.value);
      Some(Partial(l.index[node.hash := node], l.status[node := row.status], node))
  }

  function LoadRows(p: Params, rows: seq<Row>): Option<Partial>
    requires p.genesis.Node?
  {
    if rows == [] then Some(NOTHING)
    else
      var l := LoadRows(p, rows[..|rows| - 1]);
      if l.None? then None else LoadRow(p, l.value, rows[|rows| - 1])
  }

  /** The same from the bytes of the rows; None is also the error for a row that cannot be read. */
  function LoadBytes(p: Params, values: seq<seq<byte>>): Option<Partial>
    requires p.genesis.Node?
  {
    if values == [] then Some(NOTHING)
    else
      var l, row := LoadBytes(p, values[..|values| - 1]), DecodeRow(values[|values| - 1]);
      if l.None? || row.None? then None else LoadRow(p, l.value, row.value)
  }

  function ValuesOf(keys: seq<seq<byte>>, bucket: RowBucket): (s: seq<seq<byte>>)
    requires forall k :: k in keys ==> k in bucket
    ensures |s| == |keys| && forall i :: 0 <= i < |keys| ==> s[i] == bucket[keys[i]]
  {
    seq(|keys|, i requires 0 <= i < |keys| => bucket[keys[i]])
  }

  lemma BytesStep(p: Params, values: seq<seq<byte>>, i: nat)
    requires p.genesis.Node? && i < |values|
    ensures LoadBytes(p, values[..i + 1]) ==
      var l, row := LoadBytes(p, values[..i]), DecodeRow(values[i]);
      if l.None? || row.None? then None else LoadRow(p, l.value, row.value)
  {
    assert values[..i + 1][..i] == values[..i];
  }

  lemma {:induction false} StaysFailed(p: Params, values: seq<seq<byte>>, i: nat)
    requires p.genesis.Node? && i <= |values| && LoadBytes(p, values[..i]).None?
    ensures LoadBytes(p, values).None?
    decreases |values| - i
  {
    if i == |values| {
      SliceAll(values);
    } else {
      BytesStep(p, values, i);
      StaysFailed(p, values, i + 1);
    }
  }

  /** The loop of initChainState over the rows of the block index bucket. */
  method LoadIndex(p: Params, keys: seq<seq<byte>>, bucket: RowBucket) returns (loaded: Option<Partial>)
    requires p.genesis.Node? && forall k :: k in keys ==> k in bucket
    ensures loaded == LoadBytes(p, ValuesOf(keys, bucket))
  {
    ghost var values := ValuesOf(keys, bucket);
    var l := NOTHING;
    for i := 0 to |keys|
      invariant LoadBytes(p, values[..i]) == Some(l)
    {
      BytesStep(p, values, i);
      var row := DecodeRow(bucket[keys[i]]);
      if row.None? {
        StaysFailed(p, values, i + 1);
        return None;
      }
      var next := LoadRow(p, l, row.value);
      if next.None? {
        StaysFailed(p, values, i + 1);
        return None;
      }
      l := next.value;
    }
    SliceAll(values);
    return Some(l);
  }

  /** Loading the bytes of rows is loading the rows. */
  lemma {:induction false} BytesAreRows(p: Params, values: seq<seq<byte>>, rows: seq<Row>)
    requires p.genesis.Node? && |values| == |rows| && forall i :: 0 <= i < |rows| ==> values[i] == RowBytes(rows[i])
    ensures LoadBytes(p, values) == LoadRows(p, rows)
    decreases |values|
  {
    if values != [] {
      var k := |values| - 1;
      BytesAreRows(p, values[..k], rows[..k]);
      RowRoundTrip(rows[k]);
    }
  }

  // --- Exactly when loading fails

  /** Genesis comes first, every other row after the row of its parent. */
  predicate InPlace(p: Params, rows: seq<Row>, i: nat)
    requires i < |rows| && p.genesis.Node?
  {
    if i == 0 then p.hashOf(rows[0].header) == p.genesis.hash
    else Announced(p, rows, i, rows[i].header.prevBlock)
  }

  /** One of the first k rows has the hash. */
  predicate Announced(p: Params, rows: seq<Row>, k: nat, h: Hash)
    requires k <= |rows|
  {
    exists j :: 0 <= j < k && p.hashOf(rows[j].header) == h
  }

  /** Loading the first k rows succeeded and indexed exactly their hashes. */
  ghost predicate LoadedFirst(p: Params, rows: seq<Row>, k: nat, l: Partial)
    requires k <= |rows|
  {
    && (forall h {:trigger Announced(p, rows, k, h)} {:trigger h in l.index} ::
      h in l.index <==> Announced(p, rows, k, h))
    && (l.last.Nil? <==> k == 0) && (k > 0 ==> l.last.hash == p.hashOf(rows[k - 1].header))
  }

  lemma RowDecides(p: Params, rows: seq<Row>, k: nat, l: Partial)
    requires p.genesis.Node? && k < |rows| && LoadedFirst(p, rows, k, l)
    ensures LoadRow(p, l, rows[k]).Some? <==> InPlace(p, rows, k)
  {
  }

  lemma RowLoaded(p: Params, rows: seq<Row>, k: nat, l: Partial)
    requires p.genesis.Node? && k < |rows| && LoadedFirst(p, rows, k, l) && LoadRow(p, l, rows[k]).Some?
    ensures LoadedFirst(p, rows, k + 1, LoadRow(p, l, rows[k]).value)
  {
    forall h ensures Announced(p, rows, k + 1, h) <==> Announced(p, rows, k, h) || p.hashOf(rows[k].header) == h {
    }
  }

  predicate AllInPlace(p: Params, rows: seq<Row>, k: nat)
    requires k <= |rows| && p.genesis.Node?
  {
    forall i :: 0 <= i < k ==> InPlace(p, rows, i)
  }

  lemma RowsStep(p: Params, rows: seq<Row>, k: nat)
    requires p.genesis.Node? && k < |rows|
    ensures LoadRows(p, rows[..k + 1]) ==
      var l := LoadRows(p, rows[..k]); if l.None? then None else LoadRow(p, l.value, rows[k])
    ensures AllInPlace(p, rows, k + 1) <==> AllInPlace(p, rows, k) && InPlace(p, rows, k)
  {
    assert rows[..k + 1][..k] == rows[..k];
  }

  lemma {:induction false} LoadsFirst(p: Params, rows: seq<Row>, k: nat)
    requires p.genesis.Node? && k <= |rows|
    ensures LoadRows(p, rows[..k]).Some? <==> AllInPlace(p, rows, k)
    ensures LoadRows(p, rows[..k]).Some? ==> LoadedFirst(p, rows, k, LoadRows(p, rows[..k]).value)
  {
    if k == 0 {
      assert rows[..0] == [];
    } else {
      LoadsFirst(p, rows, k - 1);
      RowsStep(p, rows, k - 1);
      NextRow(p, rows, k - 1, LoadRows(p, rows[..k - 1]));
    }
  }

  lemma NextRow(p: Params, rows: seq<Row>, k: nat, before: Option<Partial>)
    requires p.genesis.Node? && k < |rows| && (before.Some? ==> LoadedFirst(p, rows, k, before.value))
    ensures before.Some? ==> (LoadRow(p, before.value, rows[k]).Some? <==> InPlace(p, rows, k))
    ensures before.Some? && LoadRow(p, before.value, rows[k]).Some? ==>
      LoadedFirst(p, rows, k + 1, LoadRow(p, before.value, rows[k]).value)
  {
    if before.Some? {
      RowDecides(p, rows, k, before.value);
      if LoadRow(p, before.value, rows[k]).Some? {
        RowLoaded(p, rows, k, before.value);
      }
    }
  }

  /** Rows can be loaded if and only if genesis is first and every other row comes after that of its parent. */
  lemma LoadsExactly(p: Params, rows: seq<Row>)
    requires p.genesis.Node?
    ensures LoadRows(p, rows).Some? <==> forall i :: 0 <= i < |rows| ==> InPlace(p, rows, i)
    ensures LoadRows(p, rows).Some? ==> forall h ::
      h in LoadRows(p, rows).value.index <==> Announced(p, rows, |rows|, h)
  {
    LoadsFirst(p, rows, |rows|);
    assert rows[..|rows|] == rows;
  }

  /** Bytes can be loaded only if every row has the 80 bytes of a header and one of flags. */
  lemma {:induction false} ShortRowFails(p: Params, values: seq<seq<byte>>, i: nat)
    requires p.genesis.Node? && i < |values| && |values[i]| < 81
    ensures LoadBytes(p, values).None?
  {
    BytesStep(p, values, i);
    StaysFailed(p, values, i + 1);
  }

  function InOrder(keys: seq<RowKey>, rows: map<RowKey, Row>): (s: seq<Row>)
    requires forall k :: k in keys ==> k in rows
    ensures |s| == |keys| && forall i :: 0 <= i < |keys| ==> s[i] == rows[keys[i]]
  {
    seq(|keys|, i requires 0 <= i < |keys| => rows[keys[i]])
  }

  lemma OrderStep(keys: seq<RowKey>, k: RowKey, rows: map<RowKey, Row>)
    requires k in rows && forall j :: j in keys ==> j in rows
    ensures var all := InOrder(keys + [k], rows);
      |all| == |keys| + 1 && all[..|all| - 1] == InOrder(keys, rows) && all[|all| - 1] == rows[k]
  {
  }

  // --- The cursor

  /** The keys of a bucket as a cursor visits them: in byte order, each of them once. */
  ghost predicate CursorKeys(keys: seq<seq<byte>>, bucket: RowBucket) {
    && (forall k :: k in bucket <==> k in keys)
    && (forall i, j {:trigger InByteOrder(keys, i, j)} :: 0 <= i < j < |keys| ==> InByteOrder(keys, i, j))
  }

  predicate InByteOrder(keys: seq<seq<byte>>, i: nat, j: nat) {
    i < j < |keys| && LexLess(keys[i], keys[j])
  }

  function RowKeys(keys: seq<seq<byte>>): (s: seq<RowKey>)
    ensures |s| == |keys| && forall i :: 0 <= i < |keys| ==> s[i] == KeyRow(keys[i])
  {
    seq(|keys|, i requires 0 <= i < |keys| => KeyRow(keys[i]))
  }

  lemma CursorAt(keys: seq<seq<byte>>, bucket: RowBucket, rows: map<RowKey, Row>, i: nat)
    requires CursorKeys(keys, bucket) && RowsHeld(bucket, rows) && i < |keys|
    ensures var k := KeyRow(keys[i]);
      && k in rows && LowKey(k) && KeyBytes(k) == keys[i] && keys[i] in bucket && bucket[keys[i]] == RowBytes(rows[k])
  {
    assert keys[i] in keys;
    assert KeyHeld(rows, keys[i]) && RowHeld(bucket, rows, KeyRow(keys[i]));
  }

  /** A cursor over the bytes visits the rows in the order of their keys. */
  lemma CursorRows(keys: seq<seq<byte>>, bucket: RowBucket, rows: map<RowKey, Row>)
    requires CursorKeys(keys, bucket) && RowsHeld(bucket, rows)
    ensures CursorOrder(RowKeys(keys), rows)
  {
    var ks := RowKeys(keys);
    forall k ensures k in rows <==> k in ks {
      if k in rows {
        assert RowHeld(bucket, rows, k);
        KeyRowBack(k);
        var i :| 0 <= i < |keys| && keys[i] == KeyBytes(k);
        assert ks[i] == k;
      }
      if k in ks {
        var i :| 0 <= i < |ks| && ks[i] == k;
        CursorAt(keys, bucket, rows, i);
      }
    }
    forall i, j | 0 <= i < j < |ks| ensures Before(ks, i, j) {
      CursorAt(keys, bucket, rows, i);
      CursorAt(keys, bucket, rows, j);
      assert InByteOrder(keys, i, j);
    }
  }

  // --- What the rows of a flushed index rebuild

  /** An index whose nodes form one tree, are found under their hashes and carry honest hashes. */
  ghost predicate WellFormed(p: Params, index: map<Hash, BlockNode>, c: Chain) {
    && Closed(p.genesis, c) && p.hashOf(HeaderOf(p.genesis)) == p.genesis.hash
    && (forall h {:trigger FoundAt(index, c.status, h)} :: h in index ==> FoundAt(index, c.status, h))
    && (forall n {:trigger Honest(p, index, n)} :: n in c.status ==> Honest(p, index, n))
  }

  predicate FoundAt(index: map<Hash, BlockNode>, status: Statuses, h: Hash) {
    h in index && index[h].Node? && index[h].hash == h && index[h] in status
  }

  predicate Honest(p: Params, index: map<Hash, BlockNode>, n: BlockNode) {
    Lookup(index, n) && p.hashOf(HeaderOf(n)) == n.hash && Height(n) < 0x1_0000_0000
  }

  /** The bucket mirrors the index: every node has its row and every row its node. */
  ghost predicate Mirrors(rows: map<RowKey, Row>, index: map<Hash, BlockNode>, status: Statuses) {
    RowsAgree(rows, index, status, {})
  }

  /** What is loaded after the rows of the first i keys. */
  ghost predicate LoadedTo(l: Partial, keys: seq<RowKey>, i: nat, index: map<Hash, BlockNode>, status: Statuses)
    requires i <= |keys|
  {
    && (forall n {:trigger PartOf(l, n)} :: PartOf(l, n) <==> n in status && n.Node? && KeyOf(n) in keys[..i])
    && (forall h :: h in l.index <==> h in index && PartOf(l, index[h]))
    && (forall h :: h in l.index ==> l.index[h] == index[h])
    && (forall n :: n in l.status ==> n in status && l.status[n] == status[n])
    && (if i == 0 then l.last.Nil? else l.last.Node? && PartOf(l, l.last))
  }

  predicate PartOf(l: Partial, n: BlockNode) {
    n in l.status
  }

  /** The node of a row. */
  lemma RowNode(p: Params, index: map<Hash, BlockNode>, c: Chain, rows: map<RowKey, Row>, k: RowKey)
    returns (n: BlockNode)
    requires WellFormed(p, index, c) && Mirrors(rows, index, c.status) && k in rows
    ensures n in c.status && Honest(p, index, n) && k == KeyOf(n) && rows[k] == RowOf(n, c.status[n])
  {
    assert Known(index, k);
    n := index[k.hash];
    assert FoundAt(index, c.status, k.hash);
    assert Honest(p, index, n) && Flushed(rows, c.status, n);
  }

  /** A node's key comes before the key of every node that is higher up. */
  lemma EarlierKey(keys: seq<RowKey>, rows: map<RowKey, Row>, i: nat, k: RowKey)
    requires CursorOrder(keys, rows) && i < |keys| && k in rows && k.height < keys[i].height
    ensures k in keys[..i]
  {
    var j :| 0 <= j < |keys| && keys[j] == k;
    if j > i {
      assert Before(keys, i, j);
      KeyOrder(keys[i], keys[j]);
    }
  }

  /** The first row is that of genesis. */
  lemma FirstIsGenesis(p: Params, index: map<Hash, BlockNode>, c: Chain, keys: seq<RowKey>, rows: map<RowKey, Row>,
                       n: BlockNode)
    requires WellFormed(p, index, c) && Mirrors(rows, index, c.status) && CursorOrder(keys, rows) && |keys| > 0
    requires n in c.status && n.Node? && keys[0] == KeyOf(n)
    ensures n == p.genesis
  {
    assert InTree(p.genesis, c.status, n);
    if n != p.genesis {
      PathInTree(p.genesis, c, n);
      var g := p.genesis;
      assert g in Path(n);
      assert Flushed(rows, c.status, g);
      EarlierKey(keys, rows, 0, KeyOf(g));
    }
  }

  /** The parent of a later row's node is loaded already. */
  lemma ParentLoaded(p: Params, index: map<Hash, BlockNode>, c: Chain, keys: seq<RowKey>, rows: map<RowKey, Row>,
                     i: nat, l: Partial, n: BlockNode)
    requires WellFormed(p, index, c) && Mirrors(rows, index, c.status) && CursorOrder(keys, rows) && 0 < i < |keys|
    requires LoadedTo(l, keys, i, index, c.status) && n in c.status && n.Node? && keys[i] == KeyOf(n)
    ensures n.parent.Node? && n.parent.hash in l.index && l.index[n.parent.hash] == n.parent
    ensures l.last.Node? && l.last.hash in l.index && l.index[l.last.hash] == l.last
  {
    assert InTree(p.genesis, c.status, n);
    if n.parent.Nil? {
      var first := RowNode(p, index, c, rows, keys[0]);
      FirstIsGenesis(p, index, c, keys, rows, first);
      assert Before(keys, 0, i);
      LexIrreflexive(KeyBytes(keys[0]));
    } else {
      assert Flushed(rows, c.status, n.parent);
      EarlierKey(keys, rows, i, KeyOf(n.parent));
      assert PartOf(l, n.parent) && Honest(p, index, n.parent);
    }
    assert Honest(p, index, l.last);
  }

  lemma {:induction false} LexIrreflexive(a: seq<byte>)
    ensures !LexLess(a, a)
  {
    if a != [] {
      LexIrreflexive(a[1..]);
    }
  }

  lemma LoadStep(p: Params, index: map<Hash, BlockNode>, c: Chain, keys: seq<RowKey>, rows: map<RowKey, Row>, i: nat,
                 l: Partial)
    requires WellFormed(p, index, c) && Mirrors(rows, index, c.status) && CursorOrder(keys, rows) && i < |keys|
    requires LoadedTo(l, keys, i, index, c.status)
    ensures LoadRow(p, l, rows[keys[i]]).Some?
    ensures LoadedTo(LoadRow(p, l, rows[keys[i]]).value, keys, i + 1, index, c.status)
  {
    var n := RowNode(p, index, c, rows, keys[i]);
    if i == 0 {
      FirstIsGenesis(p, index, c, keys, rows, n);
    } else {
      ParentLoaded(p, index, c, keys, rows, i, l, n);
    }
    assert ParentFor(p, l, HeaderOf(n)) == Some(n.parent);
    NodeAdded(p, index, c, keys, i, l, n);
  }

  lemma PartNext(p: Params, index: map<Hash, BlockNode>, c: Chain, keys: seq<RowKey>, i: nat, l: Partial, n: BlockNode,
                 m: BlockNode)
    requires WellFormed(p, index, c) && i < |keys| && LoadedTo(l, keys, i, index, c.status)
    requires n in c.status && Honest(p, index, n) && keys[i] == KeyOf(n)
    ensures (m == n || PartOf(l, m)) <==> m in c.status && m.Node? && KeyOf(m) in keys[..i + 1]
  {
    SliceStep(keys, i);
    assert PartOf(l, m) <==> m in c.status && m.Node? && KeyOf(m) in keys[..i];
    if m in c.status && m.Node? && KeyOf(m) == KeyOf(n) {
      assert Honest(p, index, m);
    }
  }

  lemma IndexNext(p: Params, index: map<Hash, BlockNode>, c: Chain, keys: seq<RowKey>, i: nat, l: Partial, n: BlockNode,
                  h: Hash)
    requires WellFormed(p, index, c) && i < |keys| && LoadedTo(l, keys, i, index, c.status)
    requires n in c.status && Honest(p, index, n)
    ensures (h == n.hash || h in l.index) <==> h in index && (index[h] == n || PartOf(l, index[h]))
  {
    assert h in l.index <==> h in index && PartOf(l, index[h]);
    if h in index && index[h] == n {
      assert FoundAt(index, c.status, h);
    }
  }

  lemma NodeAdded(p: Params, index: map<Hash, BlockNode>, c: Chain, keys: seq<RowKey>, i: nat, l: Partial, n: BlockNode)
    requires WellFormed(p, index, c) && i < |keys| && LoadedTo(l, keys, i, index, c.status)
    requires n in c.status && Honest(p, index, n) && keys[i] == KeyOf(n)
    ensures LoadedTo(Partial(l.index[n.hash := n], l.status[n := c.status[n]], n), keys, i + 1, index, c.status)
  {
    var d := Partial(l.index[n.hash := n], l.status[n := c.status[n]], n);
    forall m ensures PartOf(d, m) <==> m in c.status && m.Node? && KeyOf(m) in keys[..i + 1] {
      PartNext(p, index, c, keys, i, l, n, m);
    }
    forall h ensures h in d.index <==> h in index && PartOf(d, index[h]) {
      IndexNext(p, index, c, keys, i, l, n, h);
    }
  }

  lemma LoadsNext(p: Params, index: map<Hash, BlockNode>, c: Chain, keys: seq<RowKey>, rows: map<RowKey, Row>, i: nat,
                  l: Partial)
    requires WellFormed(p, index, c) && Mirrors(rows, index, c.status) && CursorOrder(keys, rows) && i < |keys|
    requires LoadedTo(l, keys, i, index, c.status) && forall k :: k in keys[..i] ==> k in rows
    requires LoadRows(p, InOrder(keys[..i], rows)) == Some(l)
    ensures forall k :: k in keys[..i + 1] ==> k in rows
    ensures var d := LoadRows(p, InOrder(keys[..i + 1], rows));
      d.Some? && LoadedTo(d.value, keys, i + 1, index, c.status)
  {
    LoadStep(p, index, c, keys, rows, i, l);
    SliceStep(keys, i);
    OrderStep(keys[..i], keys[i], rows);
  }

  lemma {:induction false} LoadsAll(p: Params, index: map<Hash, BlockNode>, c: Chain, keys: seq<RowKey>,
                                    rows: map<RowKey, Row>, i: nat)
    requires WellFormed(p, index, c) && Mirrors(rows, index, c.status) && CursorOrder(keys, rows) && i <= |keys|
    ensures forall k :: k in keys[..i] ==> k in rows
    ensures var l := LoadRows(p, InOrder(keys[..i], rows)); l.Some? && LoadedTo(l.value, keys, i, index, c.status)
  {
    if i > 0 {
      LoadsAll(p, index, c, keys, rows, i - 1);
      LoadsNext(p, index, c, keys, rows, i - 1, LoadRows(p, InOrder(keys[..i - 1], rows)).value);
    }
  }

  /**
   * Reloading the rows of a flushed index never fails and rebuilds it: the same nodes, hence the same
   * parents, heights and work, under the same hashes and with the same flags.
   */
  lemma ReloadRebuilds(p: Params, index: map<Hash, BlockNode>, c: Chain, keys: seq<RowKey>, rows: map<RowKey, Row>)
    requires WellFormed(p, index, c) && Mirrors(rows, index, c.status) && CursorOrder(keys, rows)
    ensures forall k :: k in keys ==> k in rows
    ensures var l := LoadRows(p, InOrder(keys, rows)); l.Some? && l.value.index == index && l.value.status == c.status
  {
    LoadsAll(p, index, c, keys, rows, |keys|);
    SliceAll(keys);
    var l := LoadRows(p, InOrder(keys, rows)).value;
    forall n | n in c.status ensures PartOf(l, n) {
      assert Flushed(rows, c.status, n);
    }
    forall h | h in index ensures h in l.index {
      assert FoundAt(index, c.status, h);
    }
  }

  /** So does reading the bytes of the bucket. */
  lemma BucketRebuilds(p: Params, index: map<Hash, BlockNode>, c: Chain, keys: seq<seq<byte>>, bucket: RowBucket,
                       rows: map<RowKey, Row>)
    requires WellFormed(p, index, c) && Mirrors(rows, index, c.status)
    requires RowsHeld(bucket, rows) && CursorKeys(keys, bucket)
    ensures var l := LoadBytes(p, ValuesOf(keys, bucket));
      l.Some? && l.value.index == index && l.value.status == c.status
  {
    var ks := RowKeys(keys);
    CursorRows(keys, bucket, rows);
    ReloadRebuilds(p, index, c, ks, rows);
    var values, all := ValuesOf(keys, bucket), InOrder(ks, rows);
    forall i | 0 <= i < |all| ensures values[i] == RowBytes(all[i]) {
      CursorAt(keys, bucket, rows, i);
    }
    BytesAreRows(p, values, all);
  }

  // --- Marking the best chain valid

  /** The flags after the walk from tip has come down to n. */
  ghost predicate MarkedAbove(before: Statuses, status: Statuses, tip: BlockNode, n: BlockNode) {
    && status.Keys == before.Keys
    && forall m :: m in before ==>
      status[m] == if m in Path(tip) && m !in Path(n) then before[m] + {Valid} else before[m]
  }

  lemma MarkedStep(before: Statuses, status: Statuses, tip: BlockNode, n: BlockNode, after: Statuses)
    requires MarkedAbove(before, status, tip, n) && n.Node? && n in Path(tip) && n in status
    requires after == if KnownValid(status[n]) then status else Mark(status, [n], Valid)
    ensures MarkedAbove(before, after, tip, n.parent)
  {
    OnPath(n, n.parent);
    assert forall m :: m in Path(n) <==> m in Path(n.parent) || m == n;
    assert status[n] == before[n];
    if KnownValid(status[n]) {
      assert before[n] + {Valid} == before[n];
    }
  }

  lemma MarkedAll(before: Statuses, status: Statuses, tip: BlockNode)
    requires MarkedAbove(before, status, tip, Nil)
    ensures status == Mark(before, Path(tip), Valid)
  {
  }

  lemma AlreadyMarked(c: Chain, good: set<BlockNode>)
    requires Sound(c, good)
    ensures Mark(c.status, Path(c.tip), Valid) == c.status
  {
    forall m | m in c.status ensures Mark(c.status, Path(c.tip), Valid)[m] == c.status[m] {
      if m in Path(c.tip) {
        ValidBelow(c, good, c.tip, m);
        assert c.status[m] + {Valid} == c.status[m];
      }
    }
  }

  /** Every reachable state is well formed as far as loading is concerned. */
  lemma ReachableWellFormed(p: Params, c: Core)
    requires CoreInv(p, c) && forall n :: n in c.chain.status ==> Height(n) < 0x8000_0000
    ensures WellFormed(p, c.index, c.chain)
  {
    forall h | h in c.index ensures FoundAt(c.index, c.chain.status, h) {
      assert IndexedAt(c, h);
    }
    forall n | n in c.chain.status ensures Honest(p, c.index, n) {
      assert Lookup(c.index, n) && StoredNode(p, c, n);
    }
    PathInTree(p.genesis, c.chain, c.chain.tip);
    assert p.genesis in Path(c.chain.tip);
    assert Honest(p, c.index, p.genesis);
  }
}
