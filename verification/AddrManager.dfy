/** The operations of the address manager (addrmgr/addrmanager.go, addrmgr/knownaddress.go). */
module AddrManagers {
  import opened Primitives
  import opened AddrBook

  const NUM_MISSING_DAYS := 30
  const NUM_RETRIES := 3
  const MAX_FAILURES := 10
  const MIN_BAD_DAYS := 7
  const DAY := 24 * 60 * 60

  /** The zero time. */
  const NEVER := -62135596800

  predicate IsBad(ka: Known, now: int) {
    if ka.lastAttempt > now - 60 then false
    else if ka.timestamp > now + 10 * 60 then true
    else if ka.timestamp < now - NUM_MISSING_DAYS * DAY then true
    else if ka.lastSuccess == NEVER && ka.attempts >= NUM_RETRIES then true
    else ka.lastSuccess <= now - MIN_BAD_DAYS * DAY && ka.attempts >= MAX_FAILURES
  }

  /** The same by the numbers: left alone for a minute, and from the future, missing, useless or failing. */
  predicate Worthless(ka: Known, now: int) {
    && ka.lastAttempt <= now - 60
    && (|| ka.timestamp > now + 600
        || ka.timestamp < now - 2_592_000
        || (ka.lastSuccess == -62_135_596_800 && ka.attempts >= 3)
        || (ka.lastSuccess <= now - 604_800 && ka.attempts >= 10))
  }

  // --- What updateAddress does

  /** The last seen time and the services of an address that was announced again. */
  function Refresh(ka: Known, timestamp: int, services: set<nat>): Known {
    if timestamp > ka.timestamp || !(services <= ka.services) then
      ka.(timestamp := timestamp, services := ka.services + services)
    else ka
  }

  function Fresh(addr: Key, src: Key, timestamp: int, services: set<nat>): Known {
    Known(addr, src, timestamp, services, 0, NEVER, NEVER, false, 0)
  }

  function Seen(b: Book, addr: Key, src: Key, timestamp: int, services: set<nat>): Book {
    if addr in b.index then Touch(b, Refresh(b.index[addr], timestamp, services))
    else Enter(b, Fresh(addr, src, timestamp, services))
  }

  /** A known address gets no further bucket: it is tried, it has enough of them, or the dice say so. */
  predicate Stays(b: Book, addr: Key, roll: nat) {
    addr in b.index && (b.index[addr].tried || b.index[addr].refs == NEW_BUCKETS_PER_ADDRESS ||
      (b.index[addr].refs > 0 && roll % (2 * b.index[addr].refs) != 0))
  }

  /** Make room in a bucket by dropping some addresses, then put one in. */
  function Admit(b: Book, i: nat, k: Key, gone: set<Key>): Book
    requires i < |b.news|
  {
    var room := Without(b, i, gone);
    if k in room.index then Insert(room, i, k) else room
  }

  /** What expireNew drops: everything bad and, of the rest, one address that was not seen for longest. */
  ghost predicate Expires(b: Book, i: nat, now: int, gone: set<Key>)
    requires i < |b.news|
  {
    && gone <= b.news[i] && b.news[i] <= b.index.Keys
    && (forall k :: k in b.news[i] && IsBad(b.index[k], now) ==> k in gone)
    && (forall k, m :: k in gone && m in b.news[i] && !IsBad(b.index[k], now) && !IsBad(b.index[m], now) ==>
      b.index[k].timestamp <= b.index[m].timestamp && (m in gone ==> m == k))
    && (gone == {} ==> b.news[i] == {})
    && (forall m :: m in b.news[i] && m !in gone ==> exists k :: k in gone && !IsBad(b.index[k], now))
  }

  /** expireNew has looked at all addresses of the bucket but those to do. */
  ghost predicate Swept(b: Book, i: nat, now: int, todo: set<Key>, gone: set<Key>, oldest: Option<Key>)
    requires i < |b.news|
  {
    && todo <= b.news[i] <= b.index.Keys && gone <= b.news[i] - todo
    && (forall k :: k in b.news[i] - todo ==> (k in gone <==> IsBad(b.index[k], now)))
    && (oldest.None? ==> gone == b.news[i] - todo)
    && (oldest.Some? ==> oldest.value in b.news[i] - todo && !IsBad(b.index[oldest.value], now))
    && (oldest.Some? ==> forall m :: m in b.news[i] - todo && m !in gone ==>
      b.index[oldest.value].timestamp <= b.index[m].timestamp)
  }

  lemma SweepBad(b: Book, i: nat, now: int, todo: set<Key>, gone: set<Key>, oldest: Option<Key>, k: Key)
    requires i < |b.news| && Swept(b, i, now, todo, gone, oldest) && k in todo && IsBad(b.index[k], now)
    ensures Swept(b, i, now, todo - {k}, gone + {k}, oldest)
  {
  }

  lemma SweepKeep(b: Book, i: nat, now: int, todo: set<Key>, gone: set<Key>, oldest: Option<Key>, k: Key)
    requires i < |b.news| && Swept(b, i, now, todo, gone, oldest) && k in todo && !IsBad(b.index[k], now)
    ensures var older := oldest.None? || b.index[k].timestamp <= b.index[oldest.value].timestamp;
      var next := if older then Some(k) else oldest;
      Swept(b, i, now, todo - {k}, gone, next)
  {
  }

  lemma SweepEnd(b: Book, i: nat, now: int, gone: set<Key>, oldest: Option<Key>)
    requires i < |b.news| && Swept(b, i, now, {}, gone, oldest)
    ensures oldest.None? ==> Expires(b, i, now, gone)
    ensures oldest.Some? ==> oldest.value !in gone && Expires(b, i, now, gone + {oldest.value})
  {
  }

  lemma ExpiresMeans(b: Book, i: nat, now: int, gone: set<Key>)
    requires i < |b.news| && Expires(b, i, now, gone)
    ensures b.news[i] <= b.index.Keys && gone == b.news[i] - Without(b, i, gone).news[i]
    ensures forall k :: k in Without(b, i, gone).news[i] ==> !Worthless(b.index[k], now)
    ensures forall k, m :: k in gone && m in b.news[i] ==>
      !Worthless(b.index[k], now) && !Worthless(b.index[m], now) ==>
      b.index[k].timestamp <= b.index[m].timestamp && (m in gone ==> m == k)
  {
  }

  // --- What Good does

  function Succeeded(ka: Known, now: int): Known {
    ka.(lastSuccess := now, lastAttempt := now, attempts := 0)
  }

  predicate IsFirst(news: seq<set<Key>>, k: Key, i: nat) {
    i < |news| && k in news[i] && forall m :: 0 <= m < i ==> k !in news[m]
  }

  /** The first of the addresses in a tried list that were not seen for longest. */
  predicate Eldest(b: Book, j: nat, p: nat) {
    && j < |b.lists| && p < |b.lists[j]| && (forall q :: 0 <= q < |b.lists[j]| ==> b.lists[j][q] in b.index)
    && (forall q :: 0 <= q < |b.lists[j]| ==> b.index[b.lists[j][p]].timestamp <= b.index[b.lists[j][q]].timestamp)
    && (forall q :: 0 <= q < p ==> b.index[b.lists[j][p]].timestamp < b.index[b.lists[j][q]].timestamp)
  }

  /** The address came to the end of a tried list or, if that was full, took a place in it. */
  ghost predicate Joined(was: seq<seq<Key>>, lists: seq<seq<Key>>, addr: Key, j: nat) {
    && j < |was| == |lists| && (forall i :: 0 <= i < |was| && i != j ==> lists[i] == was[i])
    && (|was[j]| < 256 ==> lists[j] == was[j] + [addr])
    && (|was[j]| >= 256 ==> exists q :: 0 <= q < |was[j]| && TookPlace(was[j], lists[j], addr, q))
  }

  ghost predicate TookPlace(was: seq<Key>, list: seq<Key>, addr: Key, q: nat) {
    q < |was| && list == was[q := addr]
  }

  class AddrManager {
    /** The keyed hashes behind getNewBucket and getTriedBucket. */
    const newHash: (Key, Key) -> nat
    const triedHash: Key -> nat

    var addrIndex: map<Key, Known>
    var addrNew: seq<set<Key>>
    var addrTried: seq<seq<Key>>
    var nNew: int
    var nTried: int

    ghost function Tables(): Book
      reads this
    {
      Book(addrIndex, addrNew, addrTried, nNew, nTried)
    }

    ghost predicate Valid()
      reads this
    {
      Inv(Tables(), {})
    }

    constructor (newHash: (Key, Key) -> nat, triedHash: Key -> nat)
      ensures Valid() && Tables() == EMPTY
    {
      this.newHash, this.triedHash := newHash, triedHash;
      addrIndex, nNew, nTried := map[], 0, 0;
      addrNew, addrTried := EMPTY.news, EMPTY.lists;
      EmptyInv();
    }

    function NewBucket(addr: Key, src: Key): (i: nat)
      ensures i < NEW_BUCKET_COUNT
    {
      newHash(addr, src) % NEW_BUCKET_COUNT
    }

    function TriedBucket(addr: Key): (j: nat)
      ensures j < TRIED_BUCKET_COUNT
    {
      triedHash(addr) % TRIED_BUCKET_COUNT
    }

    /** Take one address out of a bucket; the last reference takes it out of the index. */
    method DropFrom(bucket: nat, k: Key)
      requires bucket < |addrNew| && k in addrIndex
      modifies this
      ensures Tables() == Drop(old(Tables()), bucket, k)
    {
      addrNew := addrNew[bucket := addrNew[bucket] - {k}];
      var refs := addrIndex[k].refs - 1;
      if refs == 0 {
        nNew := nNew - 1;
        addrIndex := addrIndex - {k};
      } else {
        addrIndex := addrIndex[k := addrIndex[k].(refs := refs)];
      }
    }

    method ExpireNew(bucket: nat, now: int, ghost pending: set<Key>) returns (ghost gone: set<Key>)
      requires Inv(Tables(), pending) && bucket < NEW_BUCKET_COUNT
      modifies this
      ensures Tables() == Without(old(Tables()), bucket, gone) && Expires(old(Tables()), bucket, now, gone)
      ensures gone == old(addrNew)[bucket] - addrNew[bucket] && addrNew[bucket] <= old(addrNew)[bucket]
      ensures forall k :: k in old(addrNew)[bucket] ==> k in old(addrIndex)
      ensures forall k :: k in addrNew[bucket] ==> !Worthless(old(addrIndex)[k], now)
      ensures forall k, m :: k in gone && m in old(addrNew)[bucket] ==>
        !Worthless(old(addrIndex)[k], now) && !Worthless(old(addrIndex)[m], now) ==>
        old(addrIndex)[k].timestamp <= old(addrIndex)[m].timestamp && (m in gone ==> m == k)
      ensures old(addrNew)[bucket] != {} ==> gone != {}
    {
      ghost var b := Tables();
      assert BucketOk(b, bucket);
      gone := {};
      WithoutNone(b, bucket);
      var todo := addrNew[bucket];
      var oldest: Option<Key> := None;
      while todo != {}
        invariant Tables() == Without(b, bucket, gone) && Swept(b, bucket, now, todo, gone, oldest)
        decreases todo
      {
        var k :| k in todo;
        WithoutOneMore(b, bucket, gone, k);
        var v := addrIndex[k];
        if IsBad(v, now) {
          SweepBad(b, bucket, now, todo, gone, oldest, k);
          DropFrom(bucket, k);
          gone := gone + {k};
        } else {
          SweepKeep(b, bucket, now, todo, gone, oldest, k);
          if oldest.None? || v.timestamp <= addrIndex[oldest.value].timestamp {
            oldest := Some(k);
          }
        }
        todo := todo - {k};
      }
      gone := DropOldest(bucket, now, b, gone, oldest);
      ExpiresMeans(b, bucket, now, gone);
    }

    /** The part of expireNew after the loop. */
    method DropOldest(bucket: nat, now: int, ghost b: Book, ghost bad: set<Key>, oldest: Option<Key>)
      returns (ghost gone: set<Key>)
      requires bucket < |b.news| && Tables() == Without(b, bucket, bad) && Swept(b, bucket, now, {}, bad, oldest)
      modifies this
      ensures Tables() == Without(b, bucket, gone) && Expires(b, bucket, now, gone)
    {
      gone := bad;
      SweepEnd(b, bucket, now, gone, oldest);
      if oldest.Some? {
        WithoutOneMore(b, bucket, gone, oldest.value);
        DropFrom(bucket, oldest.value);
        gone := gone + {oldest.value};
      }
    }

    /**
     * updateAddress.  The dice are never asked about an empty range, because a new address always is in at
     * least one bucket.
     */
    method UpdateAddress(addr: Key, src: Key, timestamp: int, services: set<nat>, routable: bool, roll: nat, now: int)
      returns (ghost gone: set<Key>)
      requires Valid()
      modifies this
      ensures Valid()
      ensures !routable ==> Tables() == old(Tables())
      ensures routable ==> var b, i := Seen(old(Tables()), addr, src, timestamp, services), NewBucket(addr, src);
        Tables() == if Stays(old(Tables()), addr, roll) || addr in b.news[i] then b else Admit(b, i, addr, gone)
      ensures var b, i := Seen(old(Tables()), addr, src, timestamp, services), NewBucket(addr, src);
        if routable && !Stays(old(Tables()), addr, roll) && addr !in b.news[i] && |b.news[i]| > NEW_BUCKET_SIZE
        then Expires(b, i, now, gone) else gone == {}
      ensures routable ==> addr in addrIndex
      ensures routable && addr !in old(addrIndex) ==> addr in addrNew[NewBucket(addr, src)]
      ensures routable && addr !in old(addrIndex) ==>
        addrIndex[addr] == Known(addr, src, timestamp, services, 0, -62_135_596_800, -62_135_596_800, false, 1)
      ensures routable && addr in old(addrIndex) ==>
        Announced(old(addrIndex)[addr], addrIndex[addr], timestamp, services)
      ensures routable && addr in old(addrIndex) && !old(addrIndex)[addr].tried ==> old(addrIndex)[addr].refs > 0
      ensures routable && addr in old(addrIndex) ==>
        var ka := old(addrIndex)[addr];
        if ka.tried || ka.refs == 8 || roll % (2 * ka.refs) != 0 then addrNew == old(addrNew)
        else addr in addrNew[NewBucket(addr, src)]
    {
      gone := {};
      if !routable {
        return;
      }
      ghost var b := Tables();
      SeenSafe(b, addr, src, timestamp, services);
      if addr in addrIndex {
        var ka := Refresh(addrIndex[addr], timestamp, services);
        addrIndex := addrIndex[addr := ka];
        assert KeyOk(b, addr, {});
        if ka.tried {
          return;
        }
        if ka.refs == NEW_BUCKETS_PER_ADDRESS {
          return;
        }
        var factor := 2 * ka.refs;
        if roll % factor != 0 {
          return;
        }
      } else {
        addrIndex := addrIndex[addr := Fresh(addr, src, timestamp, services)];
        nNew := nNew + 1;
      }
      var bucket := NewBucket(addr, src);
      if addr in addrNew[bucket] {
        HeldKnown(b, addr, src, timestamp, services, bucket);
        return;
      }
      ghost var pending := if addr in b.index then {} else {addr};
      assert pending - {addr} == {};
      gone := AddTo(bucket, addr, now, pending);
    }

    /** What a further announcement changes: the services grow, a later time counts, nothing else is touched. */
    static predicate Announced(was: Known, ka: Known, timestamp: int, services: set<nat>) {
      && ka.services == was.services + services
      && (timestamp >= was.timestamp ==> ka.timestamp == timestamp)
      && (timestamp < was.timestamp && services <= was.services ==> ka.timestamp == was.timestamp)
      && ka.addr == was.addr && ka.src == was.src && ka.attempts == was.attempts && ka.tried == was.tried
      && ka.lastAttempt == was.lastAttempt && ka.lastSuccess == was.lastSuccess
      && was.refs <= ka.refs <= was.refs + 1
    }

    /** Put an indexed address into a bucket that lacks it, after making room if need be. */
    method AddTo(bucket: nat, addr: Key, now: int, ghost pending: set<Key>) returns (ghost gone: set<Key>)
      requires Inv(Tables(), pending) && bucket < NEW_BUCKET_COUNT && addr in addrIndex && !addrIndex[addr].tried
      requires addrIndex[addr].refs < NEW_BUCKETS_PER_ADDRESS && addr !in addrNew[bucket]
      modifies this
      ensures Inv(Tables(), pending - {addr}) && Tables() == Admit(old(Tables()), bucket, addr, gone)
      ensures addr in addrIndex && addrIndex[addr] == old(addrIndex)[addr].(refs := old(addrIndex)[addr].refs + 1)
      ensures |addrNew| == NEW_BUCKET_COUNT && addr in addrNew[bucket]
      ensures if |old(addrNew)[bucket]| > NEW_BUCKET_SIZE then Expires(old(Tables()), bucket, now, gone) else gone == {}
    {
      ghost var b := Tables();
      WithoutNone(b, bucket);
      gone := {};
      if |addrNew[bucket]| > NEW_BUCKET_SIZE {
        gone := ExpireNew(bucket, now, pending);
      }
      RoomMade(b, bucket, addr, now, gone, pending);
      addrIndex := addrIndex[addr := addrIndex[addr].(refs := addrIndex[addr].refs + 1)];
      addrNew := addrNew[bucket := addrNew[bucket] + {addr}];
    }

    /** pickTried: the first of the eldest addresses of a tried list that is not empty. */
    method PickTried(bucket: nat) returns (p: nat)
      requires bucket < |addrTried| && addrTried[bucket] != []
      requires forall q :: 0 <= q < |addrTried[bucket]| ==> addrTried[bucket][q] in addrIndex
      ensures Eldest(Tables(), bucket, p)
    {
      p := 0;
      for q := 1 to |addrTried[bucket]|
        invariant p < q
        invariant forall r :: 0 <= r < q ==>
          addrIndex[addrTried[bucket][p]].timestamp <= addrIndex[addrTried[bucket][r]].timestamp
        invariant forall r :: 0 <= r < p ==>
          addrIndex[addrTried[bucket][p]].timestamp < addrIndex[addrTried[bucket][r]].timestamp
      {
        if addrIndex[addrTried[bucket][p]].timestamp > addrIndex[addrTried[bucket][q]].timestamp {
          p := q;
        }
      }
    }

    /** The loop of Good that takes the address out of all new buckets and remembers the first of them. */
    method LeaveNew(k: Key) returns (oldBucket: int)
      requires Inv(Tables(), {}) && k in addrIndex && !addrIndex[k].tried
      modifies this
      ensures Tables() == Withdraw(old(Tables()), k)
      ensures 0 <= oldBucket && IsFirst(old(addrNew), k, oldBucket)
    {
      ghost var b := Tables();
      assert KeyOk(b, k, {});
      oldBucket := -1;
      for i := 0 to |addrNew|
        invariant Left(b, k, i, Tables()) && LeftFirst(b.news, k, i, oldBucket)
      {
        LeaveStep(b, k, i, Tables());
        if k in addrNew[i] {
          addrNew := addrNew[i := addrNew[i] - {k}];
          addrIndex := addrIndex[k := addrIndex[k].(refs := addrIndex[k].refs - 1)];
          if oldBucket == -1 {
            oldBucket := i;
          }
        }
      }
      LeaveEnd(b, k, Tables(), oldBucket);
    }

    /**
     * Good.  The address leaves the new buckets and joins the tried ones, if need be in exchange for the
     * eldest address of its list, which becomes new again.
     */
    method Good(addr: Key, now: int) returns (ghost p: nat, ghost home: nat)
      requires Valid()
      modifies this
      ensures Valid()
      ensures addr !in old(addrIndex) ==> Tables() == old(Tables())
      ensures addr in old(addrIndex) ==> var b := Touch(old(Tables()), Succeeded(old(addrIndex)[addr], now));
        if b.index[addr].tried then Tables() == b
        else var w, j := Withdraw(b, addr), TriedBucket(addr);
        if |w.lists[j]| < TRIED_BUCKET_SIZE then Tables() == Promote(w, addr, j)
        else Eldest(w, j, p) && IsHome(b, w, addr, w.lists[j][p], home) && Tables() == Replace(w, addr, j, p, home)
      ensures addrIndex.Keys == old(addrIndex).Keys
      ensures addr in addrIndex ==>
        var ka := old(addrIndex)[addr];
        addrIndex[addr] == ka.(lastSuccess := now, lastAttempt := now, attempts := 0, tried := true, refs := 0)
      ensures addr in addrIndex && !old(addrIndex)[addr].tried ==>
        Joined(old(addrTried), addrTried, addr, TriedBucket(addr))
    {
      p, home := 0, 0;
      if addr !in addrIndex {
        return;
      }
      assert KeyOk(Tables(), addr, {});
      TouchSafe(Tables(), Succeeded(addrIndex[addr], now), {});
      addrIndex := addrIndex[addr := Succeeded(addrIndex[addr], now)];
      if addrIndex[addr].tried {
        return;
      }
      p, home := MoveToTried(addr);
    }

    /** The part of Good that moves a new address to the tried table. */
    method MoveToTried(addr: Key) returns (ghost p: nat, ghost home: nat)
      requires Valid() && addr in addrIndex && !addrIndex[addr].tried
      modifies this
      ensures Valid()
      ensures var b := old(Tables()); var w, j := Withdraw(b, addr), TriedBucket(addr);
        if |w.lists[j]| < TRIED_BUCKET_SIZE then Tables() == Promote(w, addr, j)
        else Eldest(w, j, p) && IsHome(b, w, addr, w.lists[j][p], home) && Tables() == Replace(w, addr, j, p, home)
      ensures addrIndex.Keys == old(addrIndex).Keys && Joined(old(addrTried), addrTried, addr, TriedBucket(addr))
      ensures addrIndex[addr] == old(addrIndex)[addr].(tried := true, refs := 0)
    {
      p, home := 0, 0;
      assert KeyOk(Tables(), addr, {});
      ghost var b := Tables();
      WithdrawSafe(b, addr);
      var oldBucket := LeaveNew(addr);
      ghost var w := Tables();
      nNew := nNew - 1;
      if oldBucket == -1 {
        return;
      }
      var bucket := TriedBucket(addr);
      if |addrTried[bucket]| < TRIED_BUCKET_SIZE {
        PromoteSafe(w, addr, bucket);
        addrIndex := addrIndex[addr := addrIndex[addr].(tried := true)];
        addrTried := addrTried[bucket := addrTried[bucket] + [addr]];
        nTried := nTried + 1;
        return;
      }
      ListedKnown(w, bucket, {addr});
      NotListed(w, addr, {addr});
      p, home := Exchange(addr, bucket, oldBucket, b, w);
      HomeFits(b, w, addr, w.lists[bucket][p], home);
      ReplaceSafe(w, addr, bucket, p, home);
    }

    /** The part of Good that evicts a tried address. */
    method Exchange(addr: Key, bucket: nat, oldBucket: nat, ghost b: Book, ghost w: Book)
      returns (ghost p: nat, ghost home: nat)
      requires addr in w.index && |b.news| == |w.news| == NEW_BUCKET_COUNT
      requires Tables() == w.(nNew := w.nNew - 1) && IsFirst(b.news, addr, oldBucket)
      requires bucket < |w.lists| && w.lists[bucket] != [] && addr !in w.lists[bucket]
      requires forall q :: 0 <= q < |w.lists[bucket]| ==> w.lists[bucket][q] in w.index
      modifies this
      ensures Eldest(w, bucket, p) && IsHome(b, w, addr, w.lists[bucket][p], home)
      ensures Tables() == Replace(w, addr, bucket, p, home)
      ensures |w.lists[bucket]| >= 256 ==> Joined(w.lists, addrTried, addr, bucket)
      ensures addrIndex.Keys == w.index.Keys && addrIndex[addr] == w.index[addr].(tried := true)
    {
      var entry := PickTried(bucket);
      var rmkey := addrTried[bucket][entry];
      var rmka := addrIndex[rmkey];
      var newBucket := NewBucket(rmka.addr, rmka.src);
      if |addrNew[newBucket]| >= NEW_BUCKET_SIZE {
        newBucket := oldBucket;
      }
      p, home := entry, newBucket;
      addrIndex := addrIndex[addr := addrIndex[addr].(tried := true)];
      addrTried := addrTried[bucket := addrTried[bucket][entry := addr]];
      addrIndex := addrIndex[rmkey := rmka.(tried := false, refs := rmka.refs + 1)];
      nNew := nNew + 1;
      addrNew := addrNew[newBucket := addrNew[newBucket] + {rmkey}];
      assert TookPlace(w.lists[bucket], addrTried[bucket], addr, entry);
    }

    /** Where an evicted address goes: its own bucket, or the one the promoted address made room in first. */
    ghost predicate IsHome(b: Book, w: Book, k: Key, rm: Key, home: nat) {
      && rm in w.index && |w.news| == NEW_BUCKET_COUNT
      && var own := NewBucket(w.index[rm].addr, w.index[rm].src);
      if |w.news[own]| >= NEW_BUCKET_SIZE then IsFirst(b.news, k, home) else home == own
    }

    lemma HomeFits(b: Book, w: Book, k: Key, rm: Key, home: nat)
      requires Inv(b, {}) && k in b.index && w == Withdraw(b, k) && IsHome(b, w, k, rm, home)
      ensures home < |w.news| && |w.news[home]| <= NEW_BUCKET_SIZE
    {
      assert home < NEW_BUCKET_COUNT;
      assert BucketOk(b, home);
      if k in b.news[home] {
        assert w.news[home] == b.news[home] - {k};
      }
    }

    /** Attempt. */
    method Attempt(addr: Key, now: int)
      requires Valid()
      modifies this
      ensures Valid()
      ensures Tables() == if addr !in old(addrIndex) then old(Tables())
        else Touch(old(Tables()),
          old(addrIndex)[addr].(attempts := old(addrIndex)[addr].attempts + 1, lastAttempt := now))
    {
      if addr !in addrIndex {
        return;
      }
      assert KeyOk(Tables(), addr, {});
      var ka := addrIndex[addr].(attempts := addrIndex[addr].attempts + 1, lastAttempt := now);
      TouchSafe(Tables(), ka, {});
      addrIndex := addrIndex[addr := ka];
    }

    /** Which table GetAddress picks from; there is a non-empty bucket in it, so the search for one can succeed. */
    method ChooseTable(coin: bool) returns (tried: Option<bool>)
      requires Valid()
      ensures tried.None? <==> addrIndex == map[]
      ensures tried == Some(true) ==> exists j :: 0 <= j < |addrTried| && addrTried[j] != []
      ensures tried == Some(false) ==> exists i :: 0 <= i < |addrNew| && addrNew[i] != {}
      ensures tried == Some(true) ==> nTried > 0 && (nNew == 0 || coin)
      ensures tried == Some(false) ==> nNew > 0 && (nTried == 0 || !coin)
    {
      CountersSum(Tables(), {});
      TablesNonempty(Tables());
      if nTried + nNew == 0 {
        return None;
      }
      return Some(nTried > 0 && (nNew == 0 || coin));
    }
  }

  /** The limits by the numbers. */
  lemma Limits(b: Book)
    requires Inv(b, {})
    ensures |b.news| == 1024 && |b.lists| == 64
    ensures forall i :: 0 <= i < 1024 ==> |b.news[i]| <= 65
    ensures forall j :: 0 <= j < 64 ==> |b.lists[j]| <= 256
    ensures forall k :: k in b.index && !b.index[k].tried ==> 1 <= |Holding(b.news, k)| <= 8 && !Listed(b.lists, k)
    ensures forall k :: k in b.index && b.index[k].tried ==> Holding(b.news, k) == {} && Listed(b.lists, k)
    ensures b.nNew + b.nTried == |b.index|
  {
    forall i | 0 <= i < 1024 ensures |b.news[i]| <= 65 {
      assert BucketOk(b, i);
    }
    forall j | 0 <= j < 64 ensures |b.lists[j]| <= 256 {
      assert ListOk(b, j);
    }
    forall k | k in b.index
      ensures !b.index[k].tried ==> 1 <= |Holding(b.news, k)| <= 8 && !Listed(b.lists, k)
      ensures b.index[k].tried ==> Holding(b.news, k) == {} && Listed(b.lists, k)
    {
      assert KeyOk(b, k, {});
      if !b.index[k].tried {
        NotListed(b, k, {});
      }
    }
    CountersSum(b, {});
  }

  lemma ListedKnown(b: Book, j: nat, pending: set<Key>)
    requires Inv(b, pending) && j < |b.lists|
    ensures forall q :: 0 <= q < |b.lists[j]| ==> b.lists[j][q] in b.index
  {
    assert ListOk(b, j);
    assert forall q :: 0 <= q < |b.lists[j]| ==> Tried(b.index, b.lists[j][q]);
  }

  /** The address has left the first i new buckets, and its count has followed. */
  ghost predicate Left(b: Book, k: Key, i: nat, now: Book) {
    && i <= |b.news| == |now.news| && k in b.index && k in now.index
    && (forall m :: 0 <= m < |b.news| ==> now.news[m] == if m < i then b.news[m] - {k} else b.news[m])
    && now.index == b.index[k := b.index[k].(refs := |Holding(now.news, k)|)]
    && now.lists == b.lists && now.nNew == b.nNew && now.nTried == b.nTried
  }

  ghost predicate LeftFirst(news: seq<set<Key>>, k: Key, i: nat, oldBucket: int) {
    if oldBucket == -1 then i <= |news| && forall m :: 0 <= m < i ==> k !in news[m]
    else 0 <= oldBucket < i <= |news| && IsFirst(news, k, oldBucket)
  }

  lemma LeaveStep(b: Book, k: Key, i: nat, now: Book)
    requires Left(b, k, i, now) && i < |b.news|
    ensures k in now.news[i] <==> k in b.news[i]
    ensures k in now.news[i] ==>
      Left(b, k, i + 1, now.(news := now.news[i := now.news[i] - {k}],
        index := now.index[k := now.index[k].(refs := now.index[k].refs - 1)]))
    ensures k !in now.news[i] ==> Left(b, k, i + 1, now)
  {
    HoldingRemove(now.news, i, k, k);
    if k in now.news[i] {
      assert i in Holding(now.news, k);
    }
  }

  lemma LeaveEnd(b: Book, k: Key, now: Book, oldBucket: int)
    requires Inv(b, {}) && Left(b, k, |b.news|, now) && LeftFirst(b.news, k, |b.news|, oldBucket) && !b.index[k].tried
    ensures now == Withdraw(b, k) && oldBucket != -1
  {
    assert Holding(now.news, k) == {};
    assert now.news == Purge(b.news, k);
    assert KeyOk(b, k, {});
    HeldSomewhere(b, k, {});
  }

  lemma SeenSafe(b: Book, addr: Key, src: Key, timestamp: int, services: set<nat>)
    requires Inv(b, {})
    ensures Inv(Seen(b, addr, src, timestamp, services), if addr in b.index then {} else {addr})
  {
    if addr in b.index {
      assert KeyOk(b, addr, {});
      TouchSafe(b, Refresh(b.index[addr], timestamp, services), {});
    } else {
      EnterSafe(b, Fresh(addr, src, timestamp, services));
    }
  }

  /** An address that is already in the bucket was known before. */
  lemma HeldKnown(b: Book, addr: Key, src: Key, timestamp: int, services: set<nat>, bucket: nat)
    requires Inv(b, {}) && bucket < |b.news| && addr in b.news[bucket]
    ensures addr in b.index && Inv(Seen(b, addr, src, timestamp, services), {})
  {
    assert BucketOk(b, bucket);
    SeenSafe(b, addr, src, timestamp, services);
  }

  lemma RoomMade(b: Book, i: nat, k: Key, now: int, gone: set<Key>, pending: set<Key>)
    requires Inv(b, pending) && i < |b.news| && k in b.index && !b.index[k].tried && k !in b.news[i]
    requires b.index[k].refs < NEW_BUCKETS_PER_ADDRESS
    requires if |b.news[i]| > NEW_BUCKET_SIZE then Expires(b, i, now, gone) else gone == {}
    ensures var room := Without(b, i, gone); k in room.index && room.index[k] == b.index[k] && k !in room.news[i]
    ensures Inv(Admit(b, i, k, gone), pending - {k})
  {
    var room := Without(b, i, gone);
    assert BucketOk(b, i);
    WithoutSafe(b, i, gone, pending);
    assert |room.news[i]| <= NEW_BUCKET_SIZE by {
      if gone != {} {
        var x :| x in gone;
        SubsetSize(room.news[i], b.news[i] - {x});
      }
    }
    InsertSafe(room, i, k, pending);
  }
}
