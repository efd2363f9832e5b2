/**
 * The tables of the address manager (addrmgr/addrmanager.go) as one value: an index of known addresses,
 * buckets of new addresses, lists of tried ones and two counters, all of which tell the same story.
 */
module AddrBook {
  const NEW_BUCKET_COUNT := 1024
  const NEW_BUCKET_SIZE := 64
  const NEW_BUCKETS_PER_ADDRESS := 8
  const TRIED_BUCKET_COUNT := 64
  const TRIED_BUCKET_SIZE := 256

  /** NetAddressKey. */
  type Key = string

  datatype Known = Known(
    addr: Key,
    src: Key,
    timestamp: int,
    services: set<nat>,
    attempts: nat,
    lastAttempt: int,
    lastSuccess: int,
    tried: bool,
    refs: int)

  datatype Book = Book(index: map<Key, Known>, news: seq<set<Key>>, lists: seq<seq<Key>>, nNew: int, nTried: int)

  /** The new buckets that hold an address. */
  function Holding(news: seq<set<Key>>, k: Key): set<int> {
    set i | 0 <= i < |news| && k in news[i]
  }

  function NewKeys(index: map<Key, Known>): set<Key> {
    set k | k in index && !index[k].tried
  }

  function TriedKeys(index: map<Key, Known>): set<Key> {
    set k | k in index && index[k].tried
  }

  predicate Listed(lists: seq<seq<Key>>, k: Key) {
    exists j :: 0 <= j < |lists| && k in lists[j]
  }

  /** No address is listed twice, neither in one list nor in two. */
  ghost predicate Unique(lists: seq<seq<Key>>) {
    forall i, p, j, q {:trigger lists[i][p], lists[j][q]} ::
      0 <= i < |lists| && 0 <= p < |lists[i]| && 0 <= j < |lists| && 0 <= q < |lists[j]| ==>
      lists[i][p] == lists[j][q] ==> i == j && p == q
  }

  /** An address is new, and counted once per bucket that holds it, or tried, and listed. */
  predicate KeyOk(b: Book, k: Key, pending: set<Key>) {
    && k in b.index && b.index[k].addr == k && b.index[k].refs == |Holding(b.news, k)| <= NEW_BUCKETS_PER_ADDRESS
    && if b.index[k].tried then b.index[k].refs == 0 && Listed(b.lists, k) else b.index[k].refs > 0 || k in pending
  }

  predicate BucketOk(b: Book, i: nat) {
    i < |b.news| && |b.news[i]| <= NEW_BUCKET_SIZE + 1 && forall k :: k in b.news[i] ==> k in b.index
  }

  predicate ListOk(b: Book, j: nat) {
    && j < |b.lists| && |b.lists[j]| <= TRIED_BUCKET_SIZE
    && forall p :: 0 <= p < |b.lists[j]| ==> Tried(b.index, b.lists[j][p])
  }

  predicate Tried(index: map<Key, Known>, k: Key) {
    k in index && index[k].tried
  }

  /** All tables agree; pending addresses are indexed but not in a bucket yet. */
  ghost predicate Inv(b: Book, pending: set<Key>) {
    && |b.news| == NEW_BUCKET_COUNT && |b.lists| == TRIED_BUCKET_COUNT
    && (forall k {:trigger KeyOk(b, k, pending)} :: k in b.index ==> KeyOk(b, k, pending))
    && (forall i {:trigger BucketOk(b, i)} :: 0 <= i < NEW_BUCKET_COUNT ==> BucketOk(b, i))
    && (forall j {:trigger ListOk(b, j)} :: 0 <= j < TRIED_BUCKET_COUNT ==> ListOk(b, j))
    && Unique(b.lists)
    && b.nNew == |NewKeys(b.index)| && b.nTried == |TriedKeys(b.index)|
  }

  const EMPTY := Book(map[], seq(NEW_BUCKET_COUNT, _ => {}), seq(TRIED_BUCKET_COUNT, _ => []), 0, 0)

  lemma EmptyInv()
    ensures Inv(EMPTY, {})
  {
    assert NewKeys(EMPTY.index) == {} && TriedKeys(EMPTY.index) == {};
    forall i | 0 <= i < NEW_BUCKET_COUNT ensures BucketOk(EMPTY, i) {
    }
    forall j | 0 <= j < TRIED_BUCKET_COUNT ensures ListOk(EMPTY, j) {
    }
  }

  // --- Counting

  lemma HoldingAdd(news: seq<set<Key>>, i: nat, k: Key, m: Key)
    requires i < |news|
    ensures var after := news[i := news[i] + {k}];
      Holding(after, m) == if m == k then Holding(news, m) + {i} else Holding(news, m)
  {
  }

  lemma HoldingRemove(news: seq<set<Key>>, i: nat, k: Key, m: Key)
    requires i < |news|
    ensures var after := news[i := news[i] - {k}];
      Holding(after, m) == if m == k then Holding(news, m) - {i} else Holding(news, m)
  {
  }

  /** An address with references is in a bucket, one without is in none. */
  lemma HeldSomewhere(b: Book, k: Key, pending: set<Key>)
    requires Inv(b, pending) && k in b.index
    ensures b.index[k].refs > 0 <==> exists i :: 0 <= i < |b.news| && k in b.news[i]
  {
    assert KeyOk(b, k, pending);
    if b.index[k].refs > 0 {
      var i :| i in Holding(b.news, k);
    }
    if i :| 0 <= i < |b.news| && k in b.news[i] {
      assert i in Holding(b.news, k);
    }
  }

  /** Whatever is in a new bucket is a new address. */
  lemma HeldIsNew(b: Book, i: nat, k: Key, pending: set<Key>)
    requires Inv(b, pending) && i < |b.news| && k in b.news[i]
    ensures k in b.index && !b.index[k].tried && b.index[k].refs > 0
  {
    assert BucketOk(b, i);
    HeldSomewhere(b, k, pending);
    assert KeyOk(b, k, pending);
  }

  // --- Taking an address out of a bucket

  /** The index after k lost one reference; without any it is forgotten. */
  function Unref(index: map<Key, Known>, k: Key): map<Key, Known>
    requires k in index
  {
    if index[k].refs == 1 then index - {k} else index[k := index[k].(refs := index[k].refs - 1)]
  }

  function Drop(b: Book, i: nat, k: Key): Book
    requires i < |b.news| && k in b.index
  {
    var nNew := if b.index[k].refs == 1 then b.nNew - 1 else b.nNew;
    Book(Unref(b.index, k), b.news[i := b.news[i] - {k}], b.lists, nNew, b.nTried)
  }

  lemma DropCounts(b: Book, i: nat, k: Key)
    requires i < |b.news| && k in b.index && !b.index[k].tried
    requires b.nNew == |NewKeys(b.index)| && b.nTried == |TriedKeys(b.index)|
    ensures Drop(b, i, k).nNew == |NewKeys(Drop(b, i, k).index)|
    ensures Drop(b, i, k).nTried == |TriedKeys(Drop(b, i, k).index)|
  {
    var d := Drop(b, i, k);
    if b.index[k].refs == 1 {
      assert NewKeys(d.index) == NewKeys(b.index) - {k};
    } else {
      assert NewKeys(d.index) == NewKeys(b.index);
    }
    assert TriedKeys(d.index) == TriedKeys(b.index);
  }

  lemma DropKey(b: Book, i: nat, k: Key, m: Key, pending: set<Key>)
    requires Inv(b, pending) && i < |b.news| && k in b.news[i] && k in b.index && m in Drop(b, i, k).index
    ensures KeyOk(Drop(b, i, k), m, pending)
  {
    HeldIsNew(b, i, k, pending);
    assert KeyOk(b, m, pending) && KeyOk(b, k, pending);
    HoldingRemove(b.news, i, k, m);
    assert i in Holding(b.news, k);
  }

  lemma DropSafe(b: Book, i: nat, k: Key, pending: set<Key>)
    requires Inv(b, pending) && i < |b.news| && k in b.news[i]
    ensures k in b.index && Inv(Drop(b, i, k), pending)
  {
    HeldIsNew(b, i, k, pending);
    var d := Drop(b, i, k);
    DropCounts(b, i, k);
    forall m | m in d.index ensures KeyOk(d, m, pending) {
      DropKey(b, i, k, m, pending);
    }
    forall n | 0 <= n < NEW_BUCKET_COUNT ensures BucketOk(d, n) {
      DropBucket(b, i, k, n, pending);
    }
    forall j | 0 <= j < TRIED_BUCKET_COUNT ensures ListOk(d, j) {
      assert ListOk(b, j);
      assert forall p :: 0 <= p < |b.lists[j]| ==> Tried(b.index, b.lists[j][p]);
    }
  }

  lemma DropBucket(b: Book, i: nat, k: Key, n: nat, pending: set<Key>)
    requires Inv(b, pending) && i < |b.news| && k in b.news[i] && k in b.index && n < |b.news|
    ensures BucketOk(Drop(b, i, k), n)
  {
    HeldIsNew(b, i, k, pending);
    assert BucketOk(b, n) && KeyOk(b, k, pending);
    var d := Drop(b, i, k);
    if b.index[k].refs == 1 && k in d.news[n] {
      assert {i, n} <= Holding(b.news, k);
      SubsetSize({i, n}, Holding(b.news, k));
    }
  }

  lemma {:induction false} SubsetSize<T>(a: set<T>, b: set<T>)
    requires a <= b
    ensures |a| <= |b|
  {
    if a != {} {
      var x :| x in a;
      SubsetSize(a - {x}, b - {x});
    }
  }

  // --- Taking several addresses out of a bucket

  function Unrefs(index: map<Key, Known>, gone: set<Key>): map<Key, Known> {
    map k | k in index && !(k in gone && index[k].refs == 1) ::
      if k in gone then index[k].(refs := index[k].refs - 1) else index[k]
  }

  /** The addresses that are forgotten when their references in one bucket go. */
  function Forgotten(index: map<Key, Known>, gone: set<Key>): set<Key> {
    set k | k in gone && k in index && index[k].refs == 1
  }

  function Without(b: Book, i: nat, gone: set<Key>): Book
    requires i < |b.news|
  {
    Book(Unrefs(b.index, gone), b.news[i := b.news[i] - gone], b.lists, b.nNew - |Forgotten(b.index, gone)|, b.nTried)
  }

  lemma WithoutNone(b: Book, i: nat)
    requires i < |b.news|
    ensures Without(b, i, {}) == b
  {
    assert b.news[i] - {} == b.news[i];
    assert Forgotten(b.index, {}) == {};
    assert Unrefs(b.index, {}) == b.index;
  }

  lemma WithoutOneMore(b: Book, i: nat, gone: set<Key>, k: Key)
    requires i < |b.news| && k in b.index && k !in gone
    ensures k in Without(b, i, gone).index
    ensures Drop(Without(b, i, gone), i, k) == Without(b, i, gone + {k})
  {
    var w := Without(b, i, gone);
    assert Unref(w.index, k) == Unrefs(b.index, gone + {k});
    assert b.news[i] - gone - {k} == b.news[i] - (gone + {k});
    if b.index[k].refs == 1 {
      assert Forgotten(b.index, gone + {k}) == Forgotten(b.index, gone) + {k};
    } else {
      assert Forgotten(b.index, gone + {k}) == Forgotten(b.index, gone);
    }
  }

  lemma {:induction false} WithoutSafe(b: Book, i: nat, gone: set<Key>, pending: set<Key>)
    requires Inv(b, pending) && i < |b.news| && gone <= b.news[i]
    ensures Inv(Without(b, i, gone), pending)
    decreases gone
  {
    if gone == {} {
      WithoutNone(b, i);
    } else {
      var k :| k in gone;
      var rest := gone - {k};
      WithoutSafe(b, i, rest, pending);
      HeldIsNew(b, i, k, pending);
      WithoutOneMore(b, i, rest, k);
      DropSafe(Without(b, i, rest), i, k, pending);
      assert rest + {k} == gone;
    }
  }

  // --- Putting an address into a bucket

  function Insert(b: Book, i: nat, k: Key): Book
    requires i < |b.news| && k in b.index
  {
    b.(index := b.index[k := b.index[k].(refs := b.index[k].refs + 1)], news := b.news[i := b.news[i] + {k}])
  }

  lemma InsertSafe(b: Book, i: nat, k: Key, pending: set<Key>)
    requires Inv(b, pending) && i < |b.news| && k in b.index && !b.index[k].tried && k !in b.news[i]
    requires b.index[k].refs < NEW_BUCKETS_PER_ADDRESS && |b.news[i]| <= NEW_BUCKET_SIZE
    ensures Inv(Insert(b, i, k), pending - {k})
  {
    var d := Insert(b, i, k);
    assert NewKeys(d.index) == NewKeys(b.index) && TriedKeys(d.index) == TriedKeys(b.index);
    forall m | m in d.index ensures KeyOk(d, m, pending - {k}) {
      assert KeyOk(b, m, pending);
      HoldingAdd(b.news, i, k, m);
      assert i !in Holding(b.news, k);
    }
    forall n | 0 <= n < NEW_BUCKET_COUNT ensures BucketOk(d, n) {
      assert BucketOk(b, n);
    }
    forall j | 0 <= j < TRIED_BUCKET_COUNT ensures ListOk(d, j) {
      assert ListOk(b, j);
      assert forall p :: 0 <= p < |b.lists[j]| ==> Tried(b.index, b.lists[j][p]);
    }
  }

  /** A new address enters the index before it enters a bucket. */
  function Enter(b: Book, ka: Known): Book {
    b.(index := b.index[ka.addr := ka], nNew := b.nNew + 1)
  }

  lemma EnterSafe(b: Book, ka: Known)
    requires Inv(b, {}) && ka.addr !in b.index && ka.refs == 0 && !ka.tried
    ensures Inv(Enter(b, ka), {ka.addr})
  {
    var d := Enter(b, ka);
    assert NewKeys(d.index) == NewKeys(b.index) + {ka.addr} && TriedKeys(d.index) == TriedKeys(b.index);
    forall n | 0 <= n < NEW_BUCKET_COUNT ensures BucketOk(d, n) && ka.addr !in b.news[n] {
      assert BucketOk(b, n);
    }
    assert Holding(b.news, ka.addr) == {};
    forall m | m in d.index ensures KeyOk(d, m, {ka.addr}) {
      assert m != ka.addr ==> KeyOk(b, m, {});
    }
    forall j | 0 <= j < TRIED_BUCKET_COUNT ensures ListOk(d, j) {
      assert ListOk(b, j);
      assert forall p :: 0 <= p < |b.lists[j]| ==> Tried(b.index, b.lists[j][p]);
    }
  }

  /** What is known about an address changes, but not where it is. */
  function Touch(b: Book, ka: Known): Book {
    b.(index := b.index[ka.addr := ka])
  }

  lemma TouchSafe(b: Book, ka: Known, pending: set<Key>)
    requires Inv(b, pending) && ka.addr in b.index
    requires ka.tried == b.index[ka.addr].tried && ka.refs == b.index[ka.addr].refs
    ensures Inv(Touch(b, ka), pending)
  {
    var d := Touch(b, ka);
    assert NewKeys(d.index) == NewKeys(b.index) && TriedKeys(d.index) == TriedKeys(b.index);
    forall m | m in d.index ensures KeyOk(d, m, pending) {
      assert KeyOk(b, m, pending);
    }
    forall n | 0 <= n < NEW_BUCKET_COUNT ensures BucketOk(d, n) {
      assert BucketOk(b, n);
    }
    forall j | 0 <= j < TRIED_BUCKET_COUNT ensures ListOk(d, j) {
      assert ListOk(b, j);
      assert forall p :: 0 <= p < |b.lists[j]| ==> Tried(b.index, b.lists[j][p]);
    }
  }

  // --- Moving an address to the tried table

  function Purge(news: seq<set<Key>>, k: Key): (after: seq<set<Key>>)
    ensures |after| == |news| && forall i :: 0 <= i < |news| ==> after[i] == news[i] - {k}
  {
    seq(|news|, i requires 0 <= i < |news| => news[i] - {k})
  }

  /** The address leaves all new buckets. */
  function Withdraw(b: Book, k: Key): Book
    requires k in b.index
  {
    b.(index := b.index[k := b.index[k].(refs := 0)], news := Purge(b.news, k))
  }

  lemma WithdrawSafe(b: Book, k: Key)
    requires Inv(b, {}) && k in b.index && !b.index[k].tried
    ensures Inv(Withdraw(b, k), {k})
  {
    var d := Withdraw(b, k);
    assert NewKeys(d.index) == NewKeys(b.index) && TriedKeys(d.index) == TriedKeys(b.index);
    forall m | m in d.index ensures KeyOk(d, m, {k}) {
      assert KeyOk(b, m, {});
      if m == k {
        assert Holding(d.news, m) == {};
      } else {
        assert Holding(d.news, m) == Holding(b.news, m);
      }
    }
    forall n | 0 <= n < NEW_BUCKET_COUNT ensures BucketOk(d, n) {
      assert BucketOk(b, n);
      SubsetSize(d.news[n], b.news[n]);
    }
    forall j | 0 <= j < TRIED_BUCKET_COUNT ensures ListOk(d, j) {
      assert ListOk(b, j);
      assert forall p :: 0 <= p < |b.lists[j]| ==> Tried(b.index, b.lists[j][p]);
    }
  }

  /** A withdrawn address joins a tried list. */
  function Promote(b: Book, k: Key, j: nat): Book
    requires k in b.index && j < |b.lists|
  {
    b.(index := b.index[k := b.index[k].(tried := true)], lists := b.lists[j := b.lists[j] + [k]], nNew := b.nNew - 1,
      nTried := b.nTried + 1)
  }

  lemma NotListed(b: Book, k: Key, pending: set<Key>)
    requires Inv(b, pending) && k in b.index && !b.index[k].tried
    ensures !Listed(b.lists, k)
  {
    forall j | 0 <= j < |b.lists| ensures k !in b.lists[j] {
      assert ListOk(b, j);
      assert forall p :: 0 <= p < |b.lists[j]| ==> Tried(b.index, b.lists[j][p]);
    }
  }

  lemma StillListed(before: seq<seq<Key>>, after: seq<seq<Key>>, k: Key)
    requires |before| == |after| && Listed(before, k)
    requires forall j :: 0 <= j < |before| && k in before[j] ==> k in after[j]
    ensures Listed(after, k)
  {
    var j :| 0 <= j < |before| && k in before[j];
    assert k in after[j];
  }

  lemma PushUnique(lists: seq<seq<Key>>, j: nat, k: Key)
    requires Unique(lists) && j < |lists| && !Listed(lists, k)
    ensures Unique(lists[j := lists[j] + [k]])
  {
    var after := lists[j := lists[j] + [k]];
    forall i, p, l, q | 0 <= i < |after| && 0 <= p < |after[i]| && 0 <= l < |after| && 0 <= q < |after[l]|
      && after[i][p] == after[l][q]
      ensures i == l && p == q
    {
      assert forall m :: 0 <= m < |lists| ==> k !in lists[m];
      if p < |lists[i]| && q < |lists[l]| {
        assert lists[i][p] == lists[l][q];
      }
    }
  }

  lemma PromoteSafe(b: Book, k: Key, j: nat)
    requires Inv(b, {k}) && k in b.index && !b.index[k].tried && b.index[k].refs == 0
    requires j < |b.lists| && |b.lists[j]| < TRIED_BUCKET_SIZE
    ensures Inv(Promote(b, k, j), {})
  {
    var d := Promote(b, k, j);
    NotListed(b, k, {k});
    PushUnique(b.lists, j, k);
    assert NewKeys(d.index) == NewKeys(b.index) - {k} && TriedKeys(d.index) == TriedKeys(b.index) + {k};
    forall m | m in d.index ensures KeyOk(d, m, {}) {
      assert KeyOk(b, m, {k});
      if m == k {
        assert k in d.lists[j];
      } else if b.index[m].tried {
        StillListed(b.lists, d.lists, m);
      }
    }
    forall n | 0 <= n < NEW_BUCKET_COUNT ensures BucketOk(d, n) {
      assert BucketOk(b, n);
    }
    forall l | 0 <= l < TRIED_BUCKET_COUNT ensures ListOk(d, l) {
      assert ListOk(b, l);
      forall p | 0 <= p < |d.lists[l]| ensures Tried(d.index, d.lists[l][p]) {
        assert p < |b.lists[l]| ==> Tried(b.index, b.lists[l][p]);
      }
    }
  }

  /** A withdrawn address takes the place of a tried one, which becomes new again. */
  function Replace(b: Book, k: Key, j: nat, p: nat, i: nat): Book
    requires k in b.index && j < |b.lists| && p < |b.lists[j]| && b.lists[j][p] in b.index && i < |b.news|
  {
    var rm := b.lists[j][p];
    Book(
      b.index[k := b.index[k].(tried := true)][rm := b.index[rm].(tried := false, refs := b.index[rm].refs + 1)],
      b.news[i := b.news[i] + {rm}],
      b.lists[j := b.lists[j][p := k]],
      b.nNew,
      b.nTried)
  }

  lemma ReplaceUnique(lists: seq<seq<Key>>, j: nat, p: nat, k: Key)
    requires Unique(lists) && j < |lists| && p < |lists[j]| && !Listed(lists, k)
    ensures Unique(lists[j := lists[j][p := k]]) && !Listed(lists[j := lists[j][p := k]], lists[j][p])
  {
    var after := lists[j := lists[j][p := k]];
    assert forall m :: 0 <= m < |lists| ==> k !in lists[m];
    forall i, r, l, q | 0 <= i < |after| && 0 <= r < |after[i]| && 0 <= l < |after| && 0 <= q < |after[l]|
      && after[i][r] == after[l][q]
      ensures i == l && r == q
    {
      if (i, r) != (j, p) && (l, q) != (j, p) {
        assert lists[i][r] == lists[l][q];
      }
    }
    forall l, q | 0 <= l < |after| && 0 <= q < |after[l]| ensures after[l][q] != lists[j][p] {
      assert lists[l][q] == lists[j][p] ==> l == j && q == p;
    }
  }

  lemma ReplaceKeys(b: Book, k: Key, j: nat, p: nat, i: nat, d: Book)
    requires k in b.index && j < |b.lists| && p < |b.lists[j]| && b.lists[j][p] in b.index && i < |b.news|
    requires d == Replace(b, k, j, p, i) && !b.index[k].tried && b.index[b.lists[j][p]].tried
    ensures |NewKeys(d.index)| == |NewKeys(b.index)| && |TriedKeys(d.index)| == |TriedKeys(b.index)|
  {
    var rm := b.lists[j][p];
    assert NewKeys(d.index) == NewKeys(b.index) - {k} + {rm};
    assert TriedKeys(d.index) == TriedKeys(b.index) - {rm} + {k};
  }

  lemma ReplaceKey(b: Book, k: Key, j: nat, p: nat, i: nat, d: Book, m: Key)
    requires Inv(b, {k}) && k in b.index && !b.index[k].tried && b.index[k].refs == 0
    requires j < |b.lists| && p < |b.lists[j]| && b.lists[j][p] in b.index && b.index[b.lists[j][p]].tried
    requires i < |b.news|
    requires d == Replace(b, k, j, p, i) && m in d.index
    ensures KeyOk(d, m, {})
  {
    var rm := b.lists[j][p];
    assert KeyOk(b, m, {k}) && KeyOk(b, rm, {k});
    HoldingAdd(b.news, i, rm, m);
    if m == k {
      assert d.lists[j][p] == k;
    } else if m == rm {
      assert Holding(b.news, rm) == {};
    } else if b.index[m].tried {
      forall l | 0 <= l < |b.lists| && m in b.lists[l] ensures m in d.lists[l] {
        var q :| 0 <= q < |b.lists[l]| && b.lists[l][q] == m;
        assert d.lists[l][q] == m;
      }
      StillListed(b.lists, d.lists, m);
    }
  }

  lemma ReplaceSafe(b: Book, k: Key, j: nat, p: nat, i: nat)
    requires Inv(b, {k}) && k in b.index && !b.index[k].tried && b.index[k].refs == 0
    requires j < |b.lists| && p < |b.lists[j]| && i < |b.news| && |b.news[i]| <= NEW_BUCKET_SIZE
    ensures b.lists[j][p] in b.index && Inv(Replace(b, k, j, p, i), {})
  {
    assert ListOk(b, j);
    assert Tried(b.index, b.lists[j][p]);
    var d := Replace(b, k, j, p, i);
    NotListed(b, k, {k});
    ReplaceUnique(b.lists, j, p, k);
    ReplaceKeys(b, k, j, p, i, d);
    forall m | m in d.index ensures KeyOk(d, m, {}) {
      ReplaceKey(b, k, j, p, i, d, m);
    }
    forall n | 0 <= n < NEW_BUCKET_COUNT ensures BucketOk(d, n) {
      assert BucketOk(b, n);
    }
    forall l | 0 <= l < TRIED_BUCKET_COUNT ensures ListOk(d, l) {
      ReplaceList(b, k, j, p, i, d, l);
    }
  }

  lemma ReplaceList(b: Book, k: Key, j: nat, p: nat, i: nat, d: Book, l: nat)
    requires Inv(b, {k}) && k in b.index && !b.index[k].tried && l < |b.lists|
    requires j < |b.lists| && p < |b.lists[j]| && b.lists[j][p] in b.index && i < |b.news|
    requires d == Replace(b, k, j, p, i) && !Listed(d.lists, b.lists[j][p])
    ensures ListOk(d, l)
  {
    assert ListOk(b, l);
    forall q | 0 <= q < |d.lists[l]| ensures Tried(d.index, d.lists[l][q]) {
      assert d.lists[l][q] in d.lists[l];
      assert Tried(b.index, b.lists[l][q]);
    }
  }

  // --- The counters and the tables

  /** The counters add up to the index. */
  lemma CountersSum(b: Book, pending: set<Key>)
    requires Inv(b, pending)
    ensures b.nNew + b.nTried == |b.index|
  {
    assert NewKeys(b.index) + TriedKeys(b.index) == b.index.Keys;
    assert NewKeys(b.index) !! TriedKeys(b.index);
  }

  /** A table whose counter is positive has a non-empty bucket. */
  lemma TablesNonempty(b: Book)
    requires Inv(b, {})
    ensures b.nNew > 0 ==> exists i :: 0 <= i < |b.news| && b.news[i] != {}
    ensures b.nTried > 0 ==> exists j :: 0 <= j < |b.lists| && b.lists[j] != []
  {
    if b.nNew > 0 {
      var k :| k in NewKeys(b.index);
      assert KeyOk(b, k, {});
      HeldSomewhere(b, k, {});
      var i :| 0 <= i < |b.news| && k in b.news[i];
      assert b.news[i] != {};
    }
    if b.nTried > 0 {
      var k :| k in TriedKeys(b.index);
      assert KeyOk(b, k, {});
      var j :| 0 <= j < |b.lists| && k in b.lists[j];
      assert b.lists[j] != [];
    }
  }
}
