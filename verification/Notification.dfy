/** The notification manager of the websocket server (rpcwebsocket.go). */
module Notifications {
  import opened Primitives
  import opened Utxo
  import opened Watches

  /** A transaction as far as notifications go; an output comes with the addresses its script pays to. */
  datatype WatchedTx = WatchedTx(hash: Hash, ins: seq<OutPoint>, outs: seq<seq<string>>)

  datatype Kind = Redeeming | Received

  /** A notification queued for a client, and whether the transaction is in a block. */
  datatype Note = Note(client: Client, kind: Kind, tx: Hash, confirmed: bool)

  datatype Message =
    | BlockConnected(txs: seq<WatchedTx>)
    | BlockDisconnected
    | TxAcceptedByMempool(tx: WatchedTx)
    | RegisterBlocks(client: Client)
    | UnregisterBlocks(client: Client)
    | RegisterClient(client: Client)
    | UnregisterClient(client: Client)
    | RegisterSpent(client: Client, ops: seq<OutPoint>)
    | UnregisterSpent(client: Client, op: OutPoint)
    | RegisterAddr(client: Client, addrs: seq<string>)
    | UnregisterAddr(client: Client, addr: string)
    | RegisterNewMempoolTxs(client: Client)
    | UnregisterNewMempoolTxs(client: Client)

  // --- Spending inputs

  /** The client watches one of the outpoints. */
  predicate Interested(w: Watch<OutPoint>, ops: seq<OutPoint>, c: Client) {
    exists i :: 0 <= i < |ops| && IsWatched(w, c, ops[i])
  }

  /** The notes go to the given clients, one to each. */
  predicate OneEach(notes: seq<Note>, clients: set<Client>, note: Note) {
    && (forall i :: 0 <= i < |notes| ==> notes[i] == note.(client := notes[i].client) && notes[i].client in clients)
    && (forall i, j :: 0 <= i < j < |notes| ==> notes[i].client != notes[j].client)
    && (forall c :: c in clients ==> exists i :: 0 <= i < |notes| && notes[i].client == c)
  }

  lemma OneMoreNote(notes: seq<Note>, clients: set<Client>, note: Note, c: Client)
    requires OneEach(notes, clients, note) && c !in clients
    ensures OneEach(notes + [note.(client := c)], clients + {c}, note)
  {
    var more := notes + [note.(client := c)];
    forall d | d in clients + {c} ensures exists i :: 0 <= i < |more| && more[i].client == d {
      if d == c {
        assert more[|notes|].client == d;
      } else {
        var i :| 0 <= i < |notes| && notes[i].client == d;
        assert more[i].client == d;
      }
    }
  }

  /** After the first n inputs: who was told, and what is still watched. */
  ghost predicate InputsDone(before: Watch<OutPoint>, now: Watch<OutPoint>, ins: seq<OutPoint>, confirmed: bool,
                             told: set<Client>) {
    && Agrees(now)
    && (forall c, k {:trigger IsWatched(now, c, k)} :: IsWatched(now, c, k) <==>
      IsWatched(before, c, k) && !(confirmed && k in ins))
    && (forall c {:trigger Interested(before, ins, c)} :: c in told <==> Interested(before, ins, c))
  }

  /** In the middle of an input: the clients still to be told are those left over from the watchers. */
  ghost predicate InputHalfDone(before: Watch<OutPoint>, now: Watch<OutPoint>, ins: seq<OutPoint>, op: OutPoint,
                                all: set<Client>, todo: set<Client>,
                                confirmed: bool, told: set<Client>) {
    && Agrees(now) && todo <= all
    && (forall c, k {:trigger IsWatched(now, c, k)} ::
      IsWatched(now, c, k) <==> IsWatched(before, c, k) && !(confirmed && (k in ins || (k == op && c in all - todo))))
    && (forall c {:trigger Interested(before, ins, c)} :: c in told <==> Interested(before, ins, c) || c in all - todo)
  }

  lemma InputsStart(w: Watch<OutPoint>, confirmed: bool)
    requires Agrees(w)
    ensures InputsDone(w, w, [], confirmed, {})
  {
  }

  lemma InputBegins(before: Watch<OutPoint>, now: Watch<OutPoint>, ins: seq<OutPoint>, op: OutPoint, confirmed: bool,
                    told: set<Client>)
    requires InputsDone(before, now, ins, confirmed, told)
    ensures InputHalfDone(before, now, ins, op, WatchersOf(now, op), WatchersOf(now, op), confirmed, told)
  {
  }

  lemma ClientTold(before: Watch<OutPoint>, now: Watch<OutPoint>, ins: seq<OutPoint>, op: OutPoint, all: set<Client>,
                   todo: set<Client>,
                   confirmed: bool, told: set<Client>, c: Client)
    requires InputHalfDone(before, now, ins, op, all, todo, confirmed, told) && c in todo
    ensures var next := if confirmed then Remove(now, c, op) else now;
      InputHalfDone(before, next, ins, op, all, todo - {c}, confirmed, told + {c})
  {
    RemoveAgrees(now, c, op);
    var next := if confirmed then Remove(now, c, op) else now;
    forall d, k ensures IsWatched(next, d, k) <==>
      IsWatched(before, d, k) && !(confirmed && (k in ins || (k == op && d in all - (todo - {c})))) {
      assert IsWatched(now, d, k) <==>
        IsWatched(before, d, k) && !(confirmed && (k in ins || (k == op && d in all - todo)));
    }
    forall d ensures d in told + {c} <==> Interested(before, ins, d) || d in all - (todo - {c}) {
      assert d in told <==> Interested(before, ins, d) || d in all - todo;
    }
    assert InputHalfDone(before, next, ins, op, all, todo - {c}, confirmed, told + {c});
  }

  lemma InputEnds(before: Watch<OutPoint>, start: Watch<OutPoint>, now: Watch<OutPoint>, ins: seq<OutPoint>,
                  op: OutPoint,
                  confirmed: bool, was: set<Client>, told: set<Client>)
    requires InputsDone(before, start, ins, confirmed, was)
    requires InputHalfDone(before, now, ins, op, WatchersOf(start, op), {}, confirmed, told)
    ensures InputsDone(before, now, ins + [op], confirmed, told)
  {
    var more := ins + [op];
    forall c ensures c in told <==> Interested(before, more, c) {
      assert IsWatched(start, c, op) <==> c in WatchersOf(start, op);
      if Interested(before, ins, c) {
        var i :| 0 <= i < |ins| && IsWatched(before, c, ins[i]);
        assert more[i] == ins[i];
      }
      if IsWatched(before, c, op) {
        assert more[|ins|] == op;
        if op in ins {
          var i :| 0 <= i < |ins| && ins[i] == op;
          assert IsWatched(before, c, ins[i]);
        }
      }
      if Interested(before, more, c) {
        var i :| 0 <= i < |more| && IsWatched(before, c, more[i]);
        assert i < |ins| ==> more[i] == ins[i];
      }
    }
    forall c, k ensures IsWatched(now, c, k) <==> IsWatched(before, c, k) && !(confirmed && k in more) {
      assert k in more <==> k in ins || k == op;
      assert IsWatched(start, c, op) <==> c in WatchersOf(start, op);
    }
  }

  // --- Adding requests

  /** The client watches the given outpoints too. */
  ghost predicate Added<K(!new)>(before: Watch<K>, now: Watch<K>, c: Client, ks: seq<K>) {
    && Agrees(now)
    && forall d, k {:trigger IsWatched(now, d, k)} :: IsWatched(now, d, k) <==>
      IsWatched(before, d, k) || (d == c && k in ks)
  }

  lemma AddOne<K(!new)>(before: Watch<K>, now: Watch<K>, c: Client, ks: seq<K>, k: K)
    requires Added(before, now, c, ks)
    ensures Added(before, Add(now, c, k), c, ks + [k])
  {
    AddAgrees(now, c, k);
    forall d, j ensures IsWatched(Add(now, c, k), d, j) <==> IsWatched(before, d, j) || (d == c && j in ks + [k]) {
      assert IsWatched(now, d, j) <==> IsWatched(before, d, j) || (d == c && j in ks);
    }
  }

  /** The loop that addSpentRequests and addAddrRequests share. */
  method AddAll<K(!new, ==)>(w: Watch<K>, c: Client, ks: seq<K>) returns (v: Watch<K>)
    requires Agrees(w)
    ensures Added(w, v, c, ks)
  {
    v := w;
    SliceAll(ks);
    for i := 0 to |ks|
      invariant Added(w, v, c, ks[..i])
    {
      SliceStep(ks, i);
      AddOne(w, v, c, ks[..i], ks[i]);
      v := Add(v, c, ks[i]);
    }
  }

  /** The memory pool names a transaction for an outpoint only if it spends it, and knows one transaction per hash. */
  ghost predicate PoolConsistent(mempool: OutPoint -> Option<WatchedTx>) {
    && (forall k :: mempool(k).Some? ==> k in mempool(k).value.ins)
    && (forall j, k {:trigger mempool(j), mempool(k)} ::
      mempool(j).Some? && mempool(k).Some? && mempool(j).value.hash == mempool(k).value.hash ==>
      mempool(j) == mempool(k))
  }

  /** The pool's transactions that spend the outpoints, by hash. */
  ghost predicate SpendsOf(mempool: OutPoint -> Option<WatchedTx>, ks: seq<OutPoint>, spends: map<Hash, WatchedTx>) {
    && (forall i :: 0 <= i < |ks| && mempool(ks[i]).Some? ==> mempool(ks[i]).value.hash in spends)
    && (forall h :: h in spends ==> exists i ::
      0 <= i < |ks| && mempool(ks[i]) == Some(spends[h]) && spends[h].hash == h)
  }

  method FindSpends(mempool: OutPoint -> Option<WatchedTx>, ks: seq<OutPoint>) returns (spends: map<Hash, WatchedTx>)
    ensures SpendsOf(mempool, ks, spends)
  {
    spends := map[];
    SliceAll(ks);
    for i := 0 to |ks|
      invariant SpendsOf(mempool, ks[..i], spends)
    {
      SliceStep(ks, i);
      ghost var before := spends;
      var spend := mempool(ks[i]);
      if spend.Some? {
        spends := spends[spend.value.hash := spend.value];
      }
      MoreSpends(mempool, ks[..i], ks[i], before, spends);
    }
  }

  lemma MoreSpends(mempool: OutPoint -> Option<WatchedTx>, ks: seq<OutPoint>, k: OutPoint,
                   before: map<Hash, WatchedTx>, spends: map<Hash, WatchedTx>)
    requires SpendsOf(mempool, ks, before)
    requires spends == if mempool(k).Some? then before[mempool(k).value.hash := mempool(k).value] else before
    ensures SpendsOf(mempool, ks + [k], spends)
  {
    var more := ks + [k];
    forall h | h in spends
      ensures exists i :: 0 <= i < |more| && mempool(more[i]) == Some(spends[h]) && spends[h].hash == h
    {
      if mempool(k) == Some(spends[h]) && spends[h].hash == h {
        assert more[|ks|] == k;
      } else {
        var i :| 0 <= i < |ks| && mempool(ks[i]) == Some(before[h]) && before[h].hash == h;
        assert more[i] == ks[i];
      }
    }
  }

  // --- Paying to addresses

  /** The payments of the first n outputs: the outpoint and the address, one entry per address. */
  function Payments(tx: WatchedTx, n: nat): seq<(OutPoint, string)>
    requires n <= |tx.outs|
  {
    if n == 0 then [] else Payments(tx, n - 1) + PaymentsOf(OutPoint(tx.hash, n - 1), tx.outs[n - 1])
  }

  function PaymentsOf(op: OutPoint, to: seq<string>): (p: seq<(OutPoint, string)>)
    ensures |p| == |to| && forall i :: 0 <= i < |to| ==> p[i] == (op, to[i])
  {
    seq(|to|, i requires 0 <= i < |to| => (op, to[i]))
  }

  /** One of the payments creates the outpoint and goes to an address the client watches. */
  predicate PaidIn(w: Watch<string>, paid: seq<(OutPoint, string)>, c: Client, k: OutPoint) {
    exists i :: 0 <= i < |paid| && paid[i].0 == k && IsWatched(w, c, paid[i].1)
  }

  predicate PaidAny(w: Watch<string>, paid: seq<(OutPoint, string)>, c: Client) {
    exists i :: 0 <= i < |paid| && IsWatched(w, c, paid[i].1)
  }

  /** What the payments of a transaction mean for a client. */
  lemma {:induction false} PaidMeans(w: Watch<string>, tx: WatchedTx, n: nat, c: Client, k: OutPoint)
    requires n <= |tx.outs|
    ensures PaidIn(w, Payments(tx, n), c, k) <==>
      k.txHash == tx.hash && k.index < n && exists a :: a in tx.outs[k.index] && IsWatched(w, c, a)
  {
    if n > 0 {
      PaidMeans(w, tx, n - 1, c, k);
      var op := OutPoint(tx.hash, n - 1);
      PaidSplit(w, Payments(tx, n - 1), PaymentsOf(op, tx.outs[n - 1]), c, k);
      PaidOne(w, op, tx.outs[n - 1], c, k);
    }
  }

  lemma PaidSplit(w: Watch<string>, p: seq<(OutPoint, string)>, q: seq<(OutPoint, string)>, c: Client, k: OutPoint)
    ensures PaidIn(w, p + q, c, k) <==> PaidIn(w, p, c, k) || PaidIn(w, q, c, k)
    ensures PaidAny(w, p + q, c) <==> PaidAny(w, p, c) || PaidAny(w, q, c)
  {
    var both := p + q;
    assert forall i :: 0 <= i < |p| ==> both[i] == p[i];
    assert forall i :: 0 <= i < |q| ==> both[|p| + i] == q[i];
    forall i | 0 <= i < |both| && IsWatched(w, c, both[i].1) ensures PaidAny(w, p, c) || PaidAny(w, q, c) {
      assert i >= |p| ==> both[i] == q[i - |p|];
    }
    forall i | 0 <= i < |both| && both[i].0 == k && IsWatched(w, c, both[i].1)
      ensures PaidIn(w, p, c, k) || PaidIn(w, q, c, k)
    {
      assert i >= |p| ==> both[i] == q[i - |p|];
    }
  }

  lemma PaidOne(w: Watch<string>, op: OutPoint, to: seq<string>, c: Client, k: OutPoint)
    ensures PaidIn(w, PaymentsOf(op, to), c, k) <==> k == op && exists a :: a in to && IsWatched(w, c, a)
  {
    var p := PaymentsOf(op, to);
    if k == op {
      if a :| a in to && IsWatched(w, c, a) {
        var i :| 0 <= i < |to| && to[i] == a;
        assert p[i] == (op, a);
      }
    }
  }

  /** After some payments: who was told, and what is watched now. */
  ghost predicate OutputsDone(before: Watch<OutPoint>, now: Watch<OutPoint>, w: Watch<string>,
                              paid: seq<(OutPoint, string)>, told: set<Client>) {
    && Agrees(now)
    && (forall c, k {:trigger IsWatched(now, c, k)} :: IsWatched(now, c, k) <==>
      IsWatched(before, c, k) || PaidIn(w, paid, c, k))
    && (forall c {:trigger PaidAny(w, paid, c)} :: c in told <==> PaidAny(w, paid, c))
  }

  /** In the middle of a payment. */
  ghost predicate OutputHalfDone(before: Watch<OutPoint>, now: Watch<OutPoint>, w: Watch<string>,
                                 paid: seq<(OutPoint, string)>, op: OutPoint, served: set<Client>,
                                 told: set<Client>) {
    && Agrees(now)
    && (forall c, k {:trigger IsWatched(now, c, k)} ::
      IsWatched(now, c, k) <==> IsWatched(before, c, k) || PaidIn(w, paid, c, k) || (k == op && c in served))
    && (forall c {:trigger PaidAny(w, paid, c)} :: c in told <==> PaidAny(w, paid, c) || c in served)
  }

  lemma ClientServed(before: Watch<OutPoint>, now: Watch<OutPoint>, next: Watch<OutPoint>, w: Watch<string>,
                     paid: seq<(OutPoint, string)>, op: OutPoint,
                     served: set<Client>, told: set<Client>, c: Client)
    requires OutputHalfDone(before, now, w, paid, op, served, told) && Added(now, next, c, [op])
    ensures OutputHalfDone(before, next, w, paid, op, served + {c}, told + {c})
  {
    forall d, k ensures IsWatched(next, d, k) <==>
      IsWatched(before, d, k) || PaidIn(w, paid, d, k) || (k == op && d in served + {c}) {
      assert IsWatched(now, d, k) <==> IsWatched(before, d, k) || PaidIn(w, paid, d, k) || (k == op && d in served);
    }
    forall d ensures d in told + {c} <==> PaidAny(w, paid, d) || d in served + {c} {
      assert d in told <==> PaidAny(w, paid, d) || d in served;
    }
  }

  lemma PaymentEnds(before: Watch<OutPoint>, now: Watch<OutPoint>, w: Watch<string>, paid: seq<(OutPoint, string)>,
                    op: OutPoint, a: string, told: set<Client>)
    requires OutputHalfDone(before, now, w, paid, op, WatchersOf(w, a), told)
    ensures OutputsDone(before, now, w, paid + [(op, a)], told)
  {
    var more := paid + [(op, a)];
    assert [(op, a)][0] == (op, a);
    forall c ensures c in told <==> PaidAny(w, more, c) {
      PaidSplit(w, paid, [(op, a)], c, op);
      assert c in told <==> PaidAny(w, paid, c) || c in WatchersOf(w, a);
    }
    forall c, k ensures IsWatched(now, c, k) <==> IsWatched(before, c, k) || PaidIn(w, more, c, k) {
      PaidSplit(w, paid, [(op, a)], c, k);
    }
  }

  // --- Kinds of notes

  function Only(s: seq<Note>, kind: Kind): seq<Note> {
    if s == [] then []
    else
      var last := s[|s| - 1];
      Only(s[..|s| - 1], kind) + if last.kind == kind then [last] else []
  }

  lemma {:induction false} OnlyAppend(s: seq<Note>, t: seq<Note>, kind: Kind)
    requires forall i :: 0 <= i < |t| ==> t[i].kind != kind
    ensures Only(s + t, kind) == Only(s, kind)
  {
    if t == [] {
      assert s + t == s;
    } else {
      OnlyAppend(s, t[..|t| - 1], kind);
      assert (s + t)[..|s + t| - 1] == s + t[..|t| - 1];
    }
  }

  lemma OnlyOne(s: seq<Note>, n: Note)
    ensures Only(s + [n], n.kind) == Only(s, n.kind) + [n]
  {
    assert (s + [n])[..|s|] == s;
  }

  // --- The manager

  class NotificationManager {
    /** The memory pool's answer to CheckSpend. */
    const mempool: OutPoint -> Option<WatchedTx>

    var clients: set<Client>
    var blockNotifications: set<Client>
    var txNotifications: set<Client>
    /** watchedOutPoints and watchedAddrs with the request maps of the clients. */
    var ops: Watch<OutPoint>
    var addrs: Watch<string>
    /** What was queued for clients about watched outpoints and addresses. */
    var queued: seq<Note>

    ghost predicate Valid()
      reads this
    {
      Agrees(ops) && Agrees(addrs)
    }

    constructor (mempool: OutPoint -> Option<WatchedTx>)
      ensures Valid() && clients == blockNotifications == txNotifications == {} && queued == []
      ensures ops == Nobody() && addrs == Nobody()
    {
      this.mempool := mempool;
      clients, blockNotifications, txNotifications := {}, {}, {};
      ops, addrs, queued := Nobody(), Nobody(), [];
    }

    /** notifyForTxIns for one input: tell every watcher, and drop its request when the spend is in a block. */
    method NotifyForInput(op: OutPoint, note: Note, told: set<Client>, ghost before: Watch<OutPoint>,
                          ghost ins: seq<OutPoint>, ghost notes: seq<Note>)
      returns (toldNow: set<Client>, ghost notesNow: seq<Note>)
      requires InputsDone(before, ops, ins, note.confirmed, told) && OneEach(notes, told, note)
      modifies this`ops, this`queued
      ensures InputsDone(before, ops, ins + [op], note.confirmed, toldNow) && OneEach(notesNow, toldNow, note)
      ensures !note.confirmed ==> ops == old(ops)
      ensures notes <= notesNow && queued == old(queued) + notesNow[|notes|..]
    {
      ghost var start := ops;
      var todo := WatchersOf(ops, op);
      toldNow, notesNow := told, notes;
      InputBegins(before, ops, ins, op, note.confirmed, told);
      while todo != {}
        invariant InputHalfDone(before, ops, ins, op, WatchersOf(start, op), todo, note.confirmed, toldNow)
        invariant OneEach(notesNow, toldNow, note) && notes <= notesNow && queued == old(queued) + notesNow[|notes|..]
        invariant !note.confirmed ==> ops == start
        decreases todo
      {
        var c :| c in todo;
        ClientTold(before, ops, ins, op, WatchersOf(start, op), todo, note.confirmed, toldNow, c);
        if note.confirmed {
          ops := Remove(ops, c, op);
        }
        if c !in toldNow {
          OneMoreNote(notesNow, toldNow, note, c);
          queued := queued + [note.(client := c)];
          notesNow := notesNow + [note.(client := c)];
        } else {
          assert toldNow + {c} == toldNow;
        }
        toldNow := toldNow + {c};
        todo := todo - {c};
      }
      InputEnds(before, start, ops, ins, op, note.confirmed, told, toldNow);
    }

    /**
     * notifyForTxIns: every client that watches an input is told once, and nobody else is; the inputs of a
     * transaction in a block are not watched any more afterwards.
     */
    method NotifyForTxIns(tx: WatchedTx, confirmed: bool) returns (ghost told: set<Client>, ghost notes: seq<Note>)
      requires Agrees(ops)
      modifies this`ops, this`queued
      ensures Agrees(ops) && (!confirmed ==> ops == old(ops))
      ensures confirmed ==> forall c, k :: IsWatched(ops, c, k) <==> IsWatched(old(ops), c, k) && k !in tx.ins
      ensures confirmed ==> forall k :: k in tx.ins ==> k !in ops.watchers
      ensures queued == old(queued) + notes && OneEach(notes, told, Note(0, Redeeming, tx.hash, confirmed))
      ensures forall c :: c in told <==> Interested(old(ops), tx.ins, c)
    {
      var note := Note(0, Redeeming, tx.hash, confirmed);
      var wscNotified := {};
      notes := [];
      ghost var before := ops;
      InputsStart(ops, confirmed);
      SliceAll(tx.ins);
      for i := 0 to |tx.ins|
        invariant InputsDone(before, ops, tx.ins[..i], confirmed, wscNotified) && OneEach(notes, wscNotified, note)
        invariant (!confirmed ==> ops == before) && queued == old(queued) + notes
      {
        SliceStep(tx.ins, i);
        ghost var so := notes;
        wscNotified, notes := NotifyForInput(tx.ins[i], note, wscNotified, before, tx.ins[..i], notes);
        assert so + notes[|so|..] == notes;
      }
      told := wscNotified;
      if confirmed {
        NoWatcherLeft(before, ops, tx.ins, told);
      }
    }

    /** The end of addSpentRequests: what the memory pool already holds is announced right away. */
    method NotifySpends(spends: map<Hash, WatchedTx>)
      requires Agrees(ops)
      modifies this`ops, this`queued
      ensures ops == old(ops) && old(queued) <= queued && Only(queued, Received) == Only(old(queued), Received)
      ensures forall h, c :: h in spends && Interested(ops, spends[h].ins, c) ==>
        Told(old(queued), queued, Note(c, Redeeming, spends[h].hash, false))
    {
      var todo := spends.Keys;
      while todo != {}
        invariant ops == old(ops) && old(queued) <= queued && Only(queued, Received) == Only(old(queued), Received)
        invariant forall h, c :: h in spends.Keys - todo && Interested(ops, spends[h].ins, c) ==>
          Told(old(queued), queued, Note(c, Redeeming, spends[h].hash, false))
        decreases todo
      {
        var h :| h in todo;
        ghost var start := queued;
        NotifySpend(spends[h]);
        forall g, c | g in spends.Keys - todo && Interested(ops, spends[g].ins, c)
          ensures Told(old(queued), queued, Note(c, Redeeming, spends[g].hash, false)) {
          StillTold(old(queued), start, queued, Note(c, Redeeming, spends[g].hash, false));
        }
        forall c | Interested(ops, spends[h].ins, c)
          ensures Told(old(queued), queued, Note(c, Redeeming, spends[h].hash, false))
        {
          ToldLater(old(queued), start, queued, Note(c, Redeeming, spends[h].hash, false));
        }
        todo := todo - {h};
      }
    }

    /** notifyForTx without addresses and without a block. */
    method NotifySpend(spend: WatchedTx)
      requires Agrees(ops)
      modifies this`ops, this`queued
      ensures ops == old(ops) && old(queued) <= queued && Only(queued, Received) == Only(old(queued), Received)
      ensures forall c :: Interested(ops, spend.ins, c) ==>
        Told(old(queued), queued, Note(c, Redeeming, spend.hash, false))
    {
      if ops.watchers != map[] {
        ghost var told, notes := NotifyForTxIns(spend, false);
        OnlyAppend(old(queued), notes, Received);
        forall c | Interested(ops, spend.ins, c)
          ensures Told(old(queued), queued, Note(c, Redeeming, spend.hash, false))
        {
          assert c in told;
          var i :| 0 <= i < |notes| && notes[i].client == c;
          assert queued[|old(queued)| + i] == notes[i];
        }
      }
    }

    method AddSpentRequests(c: Client, ks: seq<OutPoint>)
      requires Agrees(ops)
      modifies this`ops, this`queued
      ensures Added(old(ops), ops, c, ks)
      ensures old(queued) <= queued && Only(queued, Received) == Only(old(queued), Received)
      ensures PoolConsistent(mempool) ==> forall i :: 0 <= i < |ks| && mempool(ks[i]).Some? ==>
        Told(old(queued), queued, Note(c, Redeeming, mempool(ks[i]).value.hash, false))
    {
      ops := AddAll(ops, c, ks);
      var spends := FindSpends(mempool, ks);
      NotifySpends(spends);
      if PoolConsistent(mempool) {
        forall i | 0 <= i < |ks| && mempool(ks[i]).Some?
          ensures Told(old(queued), queued, Note(c, Redeeming, mempool(ks[i]).value.hash, false)) {
          SpendWatched(mempool, ks, spends, ops, c, i);
        }
      }
    }

    /** notifyForTxOuts for one client that watches an address: it watches the output from now on and is told once. */
    method NotifyPaid(c: Client, op: OutPoint, note: Note, told: set<Client>, ghost before: Watch<OutPoint>,
                      ghost paid: seq<(OutPoint, string)>, ghost served: set<Client>, ghost notes: seq<Note>)
      returns (toldNow: set<Client>, ghost notesNow: seq<Note>)
      requires OutputHalfDone(before, ops, addrs, paid, op, served, told) && OneEach(notes, told, note)
      requires note.kind == Received
      modifies this`ops, this`queued
      ensures OutputHalfDone(before, ops, addrs, paid, op, served + {c}, toldNow) && OneEach(notesNow, toldNow, note)
      ensures notes <= notesNow && Only(queued, Received) == Only(old(queued), Received) + notesNow[|notes|..]
      ensures old(queued) <= queued
    {
      ghost var now := ops;
      AddSpentRequests(c, [op]);
      ClientServed(before, now, ops, addrs, paid, op, served, told, c);
      toldNow, notesNow := told + {c}, notes;
      if c !in told {
        OneMoreNote(notes, told, note, c);
        OnlyOne(queued, note.(client := c));
        queued := queued + [note.(client := c)];
        notesNow := notes + [note.(client := c)];
      } else {
        assert told + {c} == told;
      }
    }

    /** notifyForTxOuts for one address of one output. */
    method NotifyForPayment(op: OutPoint, a: string, note: Note, told: set<Client>, ghost before: Watch<OutPoint>,
                            ghost paid: seq<(OutPoint, string)>,
                            ghost notes: seq<Note>)
      returns (toldNow: set<Client>, ghost notesNow: seq<Note>)
      requires OutputsDone(before, ops, addrs, paid, told) && OneEach(notes, told, note) && note.kind == Received
      modifies this`ops, this`queued
      ensures OutputsDone(before, ops, addrs, paid + [(op, a)], toldNow) && OneEach(notesNow, toldNow, note)
      ensures notes <= notesNow && Only(queued, Received) == Only(old(queued), Received) + notesNow[|notes|..]
      ensures old(queued) <= queued
    {
      var all := WatchersOf(addrs, a);
      var todo := all;
      toldNow, notesNow := told, notes;
      while todo != {}
        invariant OutputHalfDone(before, ops, addrs, paid, op, all - todo, toldNow) && todo <= all
        invariant OneEach(notesNow, toldNow, note) && notes <= notesNow
        invariant Only(queued, Received) == Only(old(queued), Received) + notesNow[|notes|..] && old(queued) <= queued
        decreases todo
      {
        var c :| c in todo;
        assert all - todo + {c} == all - (todo - {c});
        ghost var so := notesNow;
        toldNow, notesNow := NotifyPaid(c, op, note, toldNow, before, paid, all - todo, notesNow);
        assert so[|notes|..] + notesNow[|so|..] == notesNow[|notes|..];
        todo := todo - {c};
      }
      assert all - {} == all;
      PaymentEnds(before, ops, addrs, paid, op, a, toldNow);
    }

    /** notifyForTxOuts for one output. */
    method NotifyForOutput(op: OutPoint, to: seq<string>, note: Note, told: set<Client>, ghost before: Watch<OutPoint>,
                           ghost paid: seq<(OutPoint, string)>,
                           ghost notes: seq<Note>)
      returns (toldNow: set<Client>, ghost notesNow: seq<Note>)
      requires OutputsDone(before, ops, addrs, paid, told) && OneEach(notes, told, note) && note.kind == Received
      modifies this`ops, this`queued
      ensures OutputsDone(before, ops, addrs, paid + PaymentsOf(op, to), toldNow) && OneEach(notesNow, toldNow, note)
      ensures notes <= notesNow && Only(queued, Received) == Only(old(queued), Received) + notesNow[|notes|..]
      ensures old(queued) <= queued
    {
      toldNow, notesNow := told, notes;
      ghost var all := PaymentsOf(op, to);
      assert paid + all[..0] == paid;
      for i := 0 to |to|
        invariant OutputsDone(before, ops, addrs, paid + all[..i], toldNow) && OneEach(notesNow, toldNow, note)
        invariant notes <= notesNow && Only(queued, Received) == Only(old(queued), Received) + notesNow[|notes|..]
        invariant old(queued) <= queued
      {
        ghost var so := notesNow;
        toldNow, notesNow := NotifyForPayment(op, to[i], note, toldNow, before, paid + all[..i], notesNow);
        assert paid + all[..i] + [all[i]] == paid + all[..i + 1];
        assert so[|notes|..] + notesNow[|so|..] == notesNow[|notes|..];
      }
      assert all[..|to|] == all;
    }

    /**
     * notifyForTxOuts: every client that watches an address the transaction pays to is told once, and from
     * then on watches the outputs that pay to it.
     */
    method NotifyForTxOuts(tx: WatchedTx, confirmed: bool) returns (ghost told: set<Client>, ghost notes: seq<Note>)
      requires Agrees(ops)
      modifies this`ops, this`queued
      ensures Agrees(ops)
      ensures forall c, k :: IsWatched(ops, c, k) <==>
        IsWatched(old(ops), c, k) || PaidIn(addrs, Payments(tx, |tx.outs|), c, k)
      ensures old(queued) <= queued && Only(queued, Received) == Only(old(queued), Received) + notes
      ensures OneEach(notes, told, Note(0, Received, tx.hash, confirmed))
      ensures forall c :: c in told <==> PaidAny(addrs, Payments(tx, |tx.outs|), c)
    {
      var note := Note(0, Received, tx.hash, confirmed);
      var wscNotified: set<Client> := {};
      notes := [];
      ghost var before := ops;
      for i := 0 to |tx.outs|
        invariant OutputsDone(before, ops, addrs, Payments(tx, i), wscNotified) && OneEach(notes, wscNotified, note)
        invariant old(queued) <= queued && Only(queued, Received) == Only(old(queued), Received) + notes
      {
        ghost var so := notes;
        wscNotified, notes := NotifyForOutput(OutPoint(tx.hash, i), tx.outs[i], note, wscNotified, before,
          Payments(tx, i), notes);
        assert so + notes[|so|..] == notes;
      }
      told := wscNotified;
    }

    /** notifyForTx: whoever watches an input or an address is told, and exactly the right outpoints are watched. */
    method NotifyForTx(tx: WatchedTx, confirmed: bool)
      requires Valid()
      modifies this`ops, this`queued
      ensures Valid() && old(queued) <= queued
      ensures forall c, k :: IsWatched(ops, c, k) <==>
        (IsWatched(old(ops), c, k) && !(confirmed && k in tx.ins)) || PaidIn(addrs, Payments(tx, |tx.outs|), c, k)
      ensures AllTold(old(ops), addrs, tx, confirmed, old(queued), queued)
    {
      if ops.watchers != map[] {
        ghost var told, notes := NotifyForTxIns(tx, confirmed);
        SpendersTold(old(ops), tx, confirmed, old(queued), queued, notes, told);
      }
      ghost var middle := queued;
      if addrs.watchers != map[] {
        ghost var told, notes := NotifyForTxOuts(tx, confirmed);
        ReceiversTold(addrs, tx, confirmed, middle, queued, notes, told);
      }
      BothTold(old(ops), addrs, tx, confirmed, old(queued), middle, queued);
    }

    /** The transactions of a connected block, one after the other. */
    method ConnectBlock(txs: seq<WatchedTx>)
      requires Valid()
      modifies this`ops, this`queued
      ensures Valid() && AfterBlock(old(ops), addrs, txs, |txs|, ops)
      ensures old(queued) <= queued && BlockTold(old(ops), addrs, txs, |txs|, old(queued), queued)
    {
      if ops.watchers != map[] || addrs.watchers != map[] {
        for i := 0 to |txs|
          invariant Valid() && AfterBlock(old(ops), addrs, txs, i, ops)
          invariant old(queued) <= queued && BlockTold(old(ops), addrs, txs, i, old(queued), queued)
        {
          ghost var before, middle := ops, queued;
          NotifyForTx(txs[i], true);
          AfterNext(old(ops), addrs, txs, i, before, ops);
          ToldNext(old(ops), addrs, txs, i, before, old(queued), middle, queued);
        }
      } else {
        AfterNothing(ops, addrs, txs, |txs|);
        NobodyToTell(ops, addrs, txs, |txs|, queued);
      }
    }

    /** One message of notificationHandler. */
    method Handle(m: Message)
      requires Valid()
      modifies this
      ensures Valid()
      ensures m.UnregisterClient? ==>
        m.client !in clients && m.client !in blockNotifications && m.client !in txNotifications
      ensures m.UnregisterClient? ==> forall k :: k in ops.watchers ==> m.client !in ops.watchers[k]
      ensures m.UnregisterClient? ==> forall a :: a in addrs.watchers ==> m.client !in addrs.watchers[a]
      ensures m.RegisterSpent? ==> Added(old(ops), ops, m.client, m.ops) && addrs == old(addrs)
      ensures m.RegisterAddr? ==> Added(old(addrs), addrs, m.client, m.addrs) && ops == old(ops)
      ensures m.UnregisterSpent? ==> ops == Remove(old(ops), m.client, m.op) && addrs == old(addrs)
      ensures m.UnregisterAddr? ==> addrs == Remove(old(addrs), m.client, m.addr) && ops == old(ops)
      ensures m.UnregisterClient? ==> forall c, k :: c != m.client ==>
        (IsWatched(ops, c, k) <==> IsWatched(old(ops), c, k))
      ensures m.UnregisterClient? ==>
        forall c, a :: c != m.client ==> (IsWatched(addrs, c, a) <==> IsWatched(old(addrs), c, a))
      ensures m.BlockConnected? ==> addrs == old(addrs) && AfterBlock(old(ops), addrs, m.txs, |m.txs|, ops)
      ensures m.BlockConnected? ==> BlockTold(old(ops), addrs, m.txs, |m.txs|, old(queued), queued)
      ensures m.TxAcceptedByMempool? ==> AllTold(old(ops), addrs, m.tx, false, old(queued), queued)
      ensures m.RegisterSpent? && PoolConsistent(mempool) ==>
        forall i :: 0 <= i < |m.ops| && mempool(m.ops[i]).Some? ==>
          Told(old(queued), queued, Note(m.client, Redeeming, mempool(m.ops[i]).value.hash, false))
      ensures old(queued) <= queued
      ensures !m.BlockConnected? && !m.TxAcceptedByMempool? && !m.RegisterSpent? ==> queued == old(queued)
      ensures m.TxAcceptedByMempool? ==> addrs == old(addrs) && forall c, k :: IsWatched(ops, c, k) <==>
        IsWatched(old(ops), c, k) || PaidIn(addrs, Payments(m.tx, |m.tx.outs|), c, k)
      ensures KeepsRequests(m) ==> ops == old(ops) && addrs == old(addrs)
      ensures blockNotifications == if m.RegisterBlocks? then old(blockNotifications) + {m.client}
        else if m.UnregisterBlocks? || m.UnregisterClient? then old(blockNotifications) - {m.client}
        else old(blockNotifications)
      ensures txNotifications == if m.RegisterNewMempoolTxs? then old(txNotifications) + {m.client}
        else if m.UnregisterNewMempoolTxs? || m.UnregisterClient? then old(txNotifications) - {m.client}
        else old(txNotifications)
      ensures clients == if m.RegisterClient? then old(clients) + {m.client}
        else if m.UnregisterClient? then old(clients) - {m.client} else old(clients)
    {
      if m.BlockConnected? {
        ConnectBlock(m.txs);
      } else if m.TxAcceptedByMempool? {
        NotifyForTx(m.tx, false);
      } else if m.UnregisterClient? {
        Unregister(m.client);
      } else if KeepsRequests(m) {
        Subscribe(m);
      } else {
        Request(m);
      }
    }

    /** The messages that add or remove a watched outpoint or address. */
    method Request(m: Message)
      requires Valid() && (m.RegisterSpent? || m.UnregisterSpent? || m.RegisterAddr? || m.UnregisterAddr?)
      modifies this`ops, this`addrs, this`queued
      ensures Valid() && old(queued) <= queued && (!m.RegisterSpent? ==> queued == old(queued))
      ensures m.RegisterSpent? ==> Added(old(ops), ops, m.client, m.ops) && addrs == old(addrs)
      ensures m.RegisterAddr? ==> Added(old(addrs), addrs, m.client, m.addrs) && ops == old(ops)
      ensures m.UnregisterSpent? ==> ops == Remove(old(ops), m.client, m.op) && addrs == old(addrs)
      ensures m.UnregisterAddr? ==> addrs == Remove(old(addrs), m.client, m.addr) && ops == old(ops)
      ensures m.RegisterSpent? && PoolConsistent(mempool) ==>
        forall i :: 0 <= i < |m.ops| && mempool(m.ops[i]).Some? ==>
          Told(old(queued), queued, Note(m.client, Redeeming, mempool(m.ops[i]).value.hash, false))
    {
      match m
      case RegisterSpent(c, ks) => AddSpentRequests(c, ks);
      case UnregisterSpent(c, k) =>
        RemoveAgrees(ops, c, k);
        ops := Remove(ops, c, k);
      case RegisterAddr(c, ks) => addrs := AddAll(addrs, c, ks);
      case UnregisterAddr(c, a) =>
        RemoveAgrees(addrs, c, a);
        addrs := Remove(addrs, c, a);
    }

    /** The messages that only concern the sets of clients. */
    method Subscribe(m: Message)
      requires KeepsRequests(m)
      modifies this`clients, this`blockNotifications, this`txNotifications
      ensures clients == if m.RegisterClient? then old(clients) + {m.client} else old(clients)
      ensures blockNotifications == if m.RegisterBlocks? then old(blockNotifications) + {m.client}
        else if m.UnregisterBlocks? then old(blockNotifications) - {m.client} else old(blockNotifications)
      ensures txNotifications == if m.RegisterNewMempoolTxs? then old(txNotifications) + {m.client}
        else if m.UnregisterNewMempoolTxs? then old(txNotifications) - {m.client} else old(txNotifications)
    {
      match m
      case BlockDisconnected =>
      case RegisterBlocks(c) => blockNotifications := blockNotifications + {c};
      case UnregisterBlocks(c) => blockNotifications := blockNotifications - {c};
      case RegisterClient(c) => clients := clients + {c};
      case RegisterNewMempoolTxs(c) => txNotifications := txNotifications + {c};
      case UnregisterNewMempoolTxs(c) => txNotifications := txNotifications - {c};
    }

    method Unregister(c: Client)
      requires Valid()
      modifies this
      ensures Valid() && clients == old(clients) - {c} && queued == old(queued)
      ensures blockNotifications == old(blockNotifications) - {c} && txNotifications == old(txNotifications) - {c}
      ensures forall k :: k in ops.watchers ==> c !in ops.watchers[k]
      ensures forall a :: a in addrs.watchers ==> c !in addrs.watchers[a]
      ensures forall d, k :: d != c ==> (IsWatched(ops, d, k) <==> IsWatched(old(ops), d, k))
      ensures forall d, a :: d != c ==> (IsWatched(addrs, d, a) <==> IsWatched(old(addrs), d, a))
    {
      blockNotifications := blockNotifications - {c};
      txNotifications := txNotifications - {c};
      ops := Forget(ops, c);
      addrs := Forget(addrs, c);
      clients := clients - {c};
      NoRequests(ops, c);
      NoRequests(addrs, c);
    }
  }

  /** Messages that leave the watched outpoints and addresses alone. */
  predicate KeepsRequests(m: Message) {
    || m.BlockDisconnected? || m.RegisterBlocks? || m.UnregisterBlocks? || m.RegisterClient?
    || m.RegisterNewMempoolTxs? || m.UnregisterNewMempoolTxs?
  }

  /**
   * Whether a client watches an outpoint after the first n transactions of a block: a spent one is not watched
   * any more, and one that pays to a watched address is.
   */
  predicate WatchedAfter(w: Watch<OutPoint>, a: Watch<string>, txs: seq<WatchedTx>, n: nat, c: Client, k: OutPoint)
    requires n <= |txs|
  {
    if n == 0 then IsWatched(w, c, k)
    else
      || (WatchedAfter(w, a, txs, n - 1, c, k) && k !in txs[n - 1].ins)
      || PaidIn(a, Payments(txs[n - 1], |txs[n - 1].outs|), c, k)
  }

  /** Exactly that is watched now. */
  ghost predicate AfterBlock(w: Watch<OutPoint>, a: Watch<string>, txs: seq<WatchedTx>, n: nat, now: Watch<OutPoint>)
    requires n <= |txs|
  {
    forall c, k {:trigger IsWatched(now, c, k)} :: IsWatched(now, c, k) <==> WatchedAfter(w, a, txs, n, c, k)
  }

  lemma AfterNext(w: Watch<OutPoint>, a: Watch<string>, txs: seq<WatchedTx>, i: nat, before: Watch<OutPoint>,
                  now: Watch<OutPoint>)
    requires i < |txs| && AfterBlock(w, a, txs, i, before)
    requires forall c, k {:trigger IsWatched(now, c, k)} :: IsWatched(now, c, k) <==>
        (IsWatched(before, c, k) && k !in txs[i].ins) || PaidIn(a, Payments(txs[i], |txs[i].outs|), c, k)
    ensures AfterBlock(w, a, txs, i + 1, now)
  {
    forall c, k ensures IsWatched(now, c, k) <==> WatchedAfter(w, a, txs, i + 1, c, k) {
      assert IsWatched(before, c, k) <==> WatchedAfter(w, a, txs, i, c, k);
    }
  }

  /** When nobody watches anything, nobody does after the block. */
  lemma {:induction false} AfterNothing(w: Watch<OutPoint>, a: Watch<string>, txs: seq<WatchedTx>, n: nat)
    requires n <= |txs| && w.watchers == map[] && a.watchers == map[]
    ensures AfterBlock(w, a, txs, n, w)
  {
    if n > 0 {
      AfterNothing(w, a, txs, n - 1);
      forall c, k ensures !WatchedAfter(w, a, txs, n, c, k) {
        assert !IsWatched(w, c, k);
        assert !WatchedAfter(w, a, txs, n - 1, c, k);
      }
    }
  }

  /** The client watches one of the outpoints after the first n transactions of a block. */
  predicate InterestedAfter(w: Watch<OutPoint>, a: Watch<string>, txs: seq<WatchedTx>, n: nat, ks: seq<OutPoint>,
                            c: Client)
    requires n <= |txs|
  {
    exists i :: 0 <= i < |ks| && WatchedAfter(w, a, txs, n, c, ks[i])
  }

  /** Who is to be told about the i-th transaction of a block has been told since. */
  ghost predicate TxTold(w: Watch<OutPoint>, a: Watch<string>, txs: seq<WatchedTx>, i: nat, before: seq<Note>,
                         now: seq<Note>)
    requires i < |txs|
  {
    && (forall c {:trigger InterestedAfter(w, a, txs, i, txs[i].ins, c)} ::
      InterestedAfter(w, a, txs, i, txs[i].ins, c) ==> Told(before, now, Note(c, Redeeming, txs[i].hash, true)))
    && AllReceiversTold(a, txs[i], true, before, now)
  }

  /** So it is for each of the first n transactions. */
  ghost predicate BlockTold(w: Watch<OutPoint>, a: Watch<string>, txs: seq<WatchedTx>, n: nat, before: seq<Note>,
                            now: seq<Note>)
    requires n <= |txs|
  {
    forall i {:trigger TxTold(w, a, txs, i, before, now)} :: 0 <= i < n ==> TxTold(w, a, txs, i, before, now)
  }

  lemma TxToldHere(w: Watch<OutPoint>, a: Watch<string>, txs: seq<WatchedTx>, i: nat, here: Watch<OutPoint>,
                   before: seq<Note>, middle: seq<Note>, now: seq<Note>)
    requires i < |txs| && AfterBlock(w, a, txs, i, here) && AllTold(here, a, txs[i], true, middle, now)
    requires before <= middle
    ensures TxTold(w, a, txs, i, before, now)
  {
    forall c | InterestedAfter(w, a, txs, i, txs[i].ins, c)
      ensures Told(before, now, Note(c, Redeeming, txs[i].hash, true))
    {
      var k :| 0 <= k < |txs[i].ins| && WatchedAfter(w, a, txs, i, c, txs[i].ins[k]);
      assert IsWatched(here, c, txs[i].ins[k]);
      assert Interested(here, txs[i].ins, c);
      ToldLater(before, middle, now, Note(c, Redeeming, txs[i].hash, true));
    }
    forall c | PaidAny(a, Payments(txs[i], |txs[i].outs|), c)
      ensures Told(before, now, Note(c, Received, txs[i].hash, true))
    {
      ToldLater(before, middle, now, Note(c, Received, txs[i].hash, true));
    }
  }

  lemma TxStillTold(w: Watch<OutPoint>, a: Watch<string>, txs: seq<WatchedTx>, i: nat, before: seq<Note>,
                    middle: seq<Note>, now: seq<Note>)
    requires i < |txs| && TxTold(w, a, txs, i, before, middle) && middle <= now
    ensures TxTold(w, a, txs, i, before, now)
  {
  }

  lemma ToldNext(w: Watch<OutPoint>, a: Watch<string>, txs: seq<WatchedTx>, i: nat, here: Watch<OutPoint>,
                 before: seq<Note>, middle: seq<Note>, now: seq<Note>)
    requires i < |txs| && AfterBlock(w, a, txs, i, here) && AllTold(here, a, txs[i], true, middle, now)
    requires BlockTold(w, a, txs, i, before, middle) && before <= middle <= now
    ensures BlockTold(w, a, txs, i + 1, before, now)
  {
    forall j | 0 <= j < i + 1 ensures TxTold(w, a, txs, j, before, now) {
      if j < i {
        assert TxTold(w, a, txs, j, before, middle);
        TxStillTold(w, a, txs, j, before, middle, now);
      } else {
        TxToldHere(w, a, txs, i, here, before, middle, now);
      }
    }
  }

  lemma NobodyToTell(w: Watch<OutPoint>, a: Watch<string>, txs: seq<WatchedTx>, n: nat, notes: seq<Note>)
    requires n <= |txs| && w.watchers == map[] && a.watchers == map[]
    ensures BlockTold(w, a, txs, n, notes, notes)
  {
    forall i | 0 <= i < n ensures TxTold(w, a, txs, i, notes, notes) {
      AfterNothing(w, a, txs, i);
      forall c ensures !InterestedAfter(w, a, txs, i, txs[i].ins, c) {
        forall k | 0 <= k < |txs[i].ins| ensures !WatchedAfter(w, a, txs, i, c, txs[i].ins[k]) {
          assert !IsWatched(w, c, txs[i].ins[k]);
        }
      }
    }
  }

  /** The outpoint was created before this block. */
  predicate FromBefore(txs: seq<WatchedTx>, k: OutPoint) {
    forall i :: 0 <= i < |txs| ==> txs[i].hash != k.txHash
  }

  /** After a block nobody watches an older outpoint that the block spends, and nobody else's request is lost. */
  lemma {:induction false} OlderAfter(w: Watch<OutPoint>, a: Watch<string>, txs: seq<WatchedTx>, n: nat, c: Client,
                                      k: OutPoint)
    requires n <= |txs| && FromBefore(txs, k)
    ensures WatchedAfter(w, a, txs, n, c, k) <==>
      IsWatched(w, c, k) && forall j :: 0 <= j < n ==> k !in txs[j].ins
  {
    if n > 0 {
      OlderAfter(w, a, txs, n - 1, c, k);
      PaidMeans(a, txs[n - 1], |txs[n - 1].outs|, c, k);
    }
  }

  /** The note is among those queued since. */
  predicate Told(before: seq<Note>, now: seq<Note>, n: Note) {
    exists i :: |before| <= i < |now| && now[i] == n
  }

  ghost predicate AllSpendersTold(w: Watch<OutPoint>, tx: WatchedTx, confirmed: bool, before: seq<Note>,
                                  now: seq<Note>) {
    forall c {:trigger Interested(w, tx.ins, c)} ::
      Interested(w, tx.ins, c) ==> Told(before, now, Note(c, Redeeming, tx.hash, confirmed))
  }

  ghost predicate AllReceiversTold(a: Watch<string>, tx: WatchedTx, confirmed: bool, before: seq<Note>,
                                   now: seq<Note>) {
    forall c {:trigger PaidAny(a, Payments(tx, |tx.outs|), c)} ::
      PaidAny(a, Payments(tx, |tx.outs|), c) ==> Told(before, now, Note(c, Received, tx.hash, confirmed))
  }

  /** Every client that watches an input or an address of the transaction has been told since. */
  ghost predicate AllTold(w: Watch<OutPoint>, a: Watch<string>, tx: WatchedTx, confirmed: bool, before: seq<Note>,
                          now: seq<Note>) {
    AllSpendersTold(w, tx, confirmed, before, now) && AllReceiversTold(a, tx, confirmed, before, now)
  }

  lemma SpendersTold(w: Watch<OutPoint>, tx: WatchedTx, confirmed: bool, before: seq<Note>, now: seq<Note>,
                     notes: seq<Note>, told: set<Client>)
    requires now == before + notes && OneEach(notes, told, Note(0, Redeeming, tx.hash, confirmed))
    requires forall c :: c in told <==> Interested(w, tx.ins, c)
    ensures AllSpendersTold(w, tx, confirmed, before, now)
  {
    forall c | Interested(w, tx.ins, c) ensures Told(before, now, Note(c, Redeeming, tx.hash, confirmed)) {
      assert c in told;
      var i :| 0 <= i < |notes| && notes[i].client == c;
      assert now[|before| + i] == notes[i];
    }
  }

  lemma ReceiversTold(a: Watch<string>, tx: WatchedTx, confirmed: bool, before: seq<Note>, now: seq<Note>,
                      notes: seq<Note>, told: set<Client>)
    requires before <= now && Only(now, Received) == Only(before, Received) + notes
    requires OneEach(notes, told, Note(0, Received, tx.hash, confirmed))
    requires forall c :: c in told <==> PaidAny(a, Payments(tx, |tx.outs|), c)
    ensures AllReceiversTold(a, tx, confirmed, before, now)
  {
    forall c | PaidAny(a, Payments(tx, |tx.outs|), c) ensures Told(before, now, Note(c, Received, tx.hash, confirmed)) {
      assert c in told;
      var i :| 0 <= i < |notes| && notes[i].client == c;
      OnlySince(before, now, notes, notes[i]);
    }
  }

  lemma {:induction false} OnlyConcat(s: seq<Note>, t: seq<Note>, kind: Kind)
    ensures Only(s + t, kind) == Only(s, kind) + Only(t, kind)
  {
    if t == [] {
      assert s + t == s;
    } else {
      OnlyConcat(s, t[..|t| - 1], kind);
      assert (s + t)[..|s + t| - 1] == s + t[..|t| - 1];
    }
  }

  /** A note of one kind is among all notes. */
  lemma {:induction false} OnlyIn(s: seq<Note>, kind: Kind, i: nat) returns (j: nat)
    requires i < |Only(s, kind)|
    ensures j < |s| && s[j] == Only(s, kind)[i]
  {
    var init := s[..|s| - 1];
    if i < |Only(init, kind)| {
      j := OnlyIn(init, kind, i);
    } else {
      j := |s| - 1;
    }
  }

  /** The notes of one kind that came since are among all notes that came since. */
  lemma OnlySince(before: seq<Note>, now: seq<Note>, notes: seq<Note>, n: Note)
    requires before <= now && Only(now, n.kind) == Only(before, n.kind) + notes && n in notes
    ensures Told(before, now, n)
  {
    var since := now[|before|..];
    assert now == before + since;
    OnlyConcat(before, since, n.kind);
    assert Only(since, n.kind) == Only(now, n.kind)[|Only(before, n.kind)|..] == notes;
    var i :| 0 <= i < |notes| && notes[i] == n;
    var j := OnlyIn(since, n.kind, i);
    assert now[|before| + j] == n;
  }

  lemma BothTold(w: Watch<OutPoint>, a: Watch<string>, tx: WatchedTx, confirmed: bool, before: seq<Note>,
                 middle: seq<Note>, now: seq<Note>)
    requires AllSpendersTold(w, tx, confirmed, before, middle) && AllReceiversTold(a, tx, confirmed, middle, now)
    requires before <= middle <= now
    ensures AllTold(w, a, tx, confirmed, before, now)
  {
  }

  lemma StillTold(before: seq<Note>, middle: seq<Note>, now: seq<Note>, n: Note)
    requires Told(before, middle, n) && middle <= now
    ensures Told(before, now, n)
  {
    var i :| |before| <= i < |middle| && middle[i] == n;
    assert now[i] == n;
  }

  lemma ToldLater(before: seq<Note>, middle: seq<Note>, now: seq<Note>, n: Note)
    requires Told(middle, now, n) && before <= middle
    ensures Told(before, now, n)
  {
  }

  lemma SpendWatched(mempool: OutPoint -> Option<WatchedTx>, ks: seq<OutPoint>, spends: map<Hash, WatchedTx>,
                     w: Watch<OutPoint>, c: Client, i: nat)
    requires PoolConsistent(mempool) && SpendsOf(mempool, ks, spends) && i < |ks| && mempool(ks[i]).Some?
    requires IsWatched(w, c, ks[i])
    ensures var tx := mempool(ks[i]).value; tx.hash in spends && spends[tx.hash] == tx && Interested(w, tx.ins, c)
  {
    var tx := mempool(ks[i]).value;
    var j :| 0 <= j < |ks| && mempool(ks[j]) == Some(spends[tx.hash]) && spends[tx.hash].hash == tx.hash;
    assert ks[i] in tx.ins;
    var n :| 0 <= n < |tx.ins| && tx.ins[n] == ks[i];
    assert IsWatched(w, c, tx.ins[n]);
  }

  lemma NoWatcherLeft(before: Watch<OutPoint>, now: Watch<OutPoint>, ins: seq<OutPoint>, told: set<Client>)
    requires InputsDone(before, now, ins, true, told)
    ensures forall k :: k in ins ==> k !in now.watchers
  {
    forall k | k in ins ensures k !in now.watchers {
      if k in now.watchers {
        assert now.watchers[k] != {};
        var c :| c in now.watchers[k];
        assert IsWatched(now, c, k);
      }
    }
  }
}
