/**
 * Two-sided subscriptions (rpcwebsocket.go): who watches a thing is kept with the thing, and what a client
 * watches is kept with the client, so that each can be found from the other.
 */
module Watches {
  /** A websocket client, identified by its quit channel. */
  type Client = nat

  datatype Watch<K> = Watch(watchers: map<K, set<Client>>, requests: map<Client, set<K>>)

  predicate IsWatched<K>(w: Watch<K>, c: Client, k: K) {
    k in w.watchers && c in w.watchers[k]
  }

  function RequestsOf<K>(w: Watch<K>, c: Client): set<K> {
    if c in w.requests then w.requests[c] else {}
  }

  function WatchersOf<K>(w: Watch<K>, k: K): set<Client> {
    if k in w.watchers then w.watchers[k] else {}
  }

  /** Both sides say the same, and nothing is kept for things nobody watches. */
  ghost predicate Agrees<K(!new)>(w: Watch<K>) {
    && (forall c, k {:trigger IsWatched(w, c, k)} {:trigger k in RequestsOf(w, c)} :: IsWatched(w, c, k) <==>
      k in RequestsOf(w, c))
    && (forall k :: k in w.watchers ==> w.watchers[k] != {})
  }

  function Nobody<K>(): Watch<K> {
    Watch(map[], map[])
  }

  /** One round of addSpentRequests or addAddrRequests. */
  function Add<K>(w: Watch<K>, c: Client, k: K): Watch<K> {
    Watch(w.watchers[k := WatchersOf(w, k) + {c}], w.requests[c := RequestsOf(w, c) + {k}])
  }

  /** removeSpentRequest and removeAddrRequest. */
  function Remove<K>(w: Watch<K>, c: Client, k: K): Watch<K> {
    var requests := w.requests[c := RequestsOf(w, c) - {k}];
    if k !in w.watchers then Watch(w.watchers, requests)
    else
      var left := w.watchers[k] - {c};
      Watch(if left == {} then w.watchers - {k} else w.watchers[k := left], requests)
  }

  lemma AddAgrees<K(!new)>(w: Watch<K>, c: Client, k: K)
    requires Agrees(w)
    ensures Agrees(Add(w, c, k))
    ensures forall d, j {:trigger IsWatched(Add(w, c, k), d, j)} :: IsWatched(Add(w, c, k), d, j) <==>
      IsWatched(w, d, j) || (d == c && j == k)
  {
    var v := Add(w, c, k);
    forall d, j ensures IsWatched(v, d, j) <==> IsWatched(w, d, j) || (d == c && j == k)
      ensures IsWatched(v, d, j) <==> j in RequestsOf(v, d) {
      assert IsWatched(w, d, j) <==> j in RequestsOf(w, d);
    }
  }

  lemma RemoveAgrees<K(!new)>(w: Watch<K>, c: Client, k: K)
    requires Agrees(w)
    ensures Agrees(Remove(w, c, k))
    ensures forall d, j {:trigger IsWatched(Remove(w, c, k), d, j)} :: IsWatched(Remove(w, c, k), d, j) <==>
      IsWatched(w, d, j) && !(d == c && j == k)
  {
    var v := Remove(w, c, k);
    forall d, j ensures IsWatched(v, d, j) <==> IsWatched(w, d, j) && !(d == c && j == k)
      ensures IsWatched(v, d, j) <==> j in RequestsOf(v, d) {
      assert IsWatched(w, d, j) <==> j in RequestsOf(w, d);
      if k in w.watchers && w.watchers[k] - {c} == {} && j == k {
        assert d !in w.watchers[k] - {c};
      }
    }
  }

  /** A client with no requests is found nowhere. */
  lemma NoRequests<K(!new)>(w: Watch<K>, c: Client)
    requires Agrees(w) && RequestsOf(w, c) == {}
    ensures forall k :: k in w.watchers ==> c !in w.watchers[k]
  {
    forall k | k in w.watchers ensures c !in w.watchers[k] {
      assert IsWatched(w, c, k) <==> k in RequestsOf(w, c);
    }
  }

  // --- All requests of one client

  /** The requests of c among the given things have been removed. */
  ghost predicate Forgotten<K(!new)>(before: Watch<K>, after: Watch<K>, c: Client, gone: set<K>) {
    && Agrees(after)
    && forall d, k {:trigger IsWatched(after, d, k)} :: IsWatched(after, d, k) <==>
      IsWatched(before, d, k) && !(d == c && k in gone)
  }

  lemma ForgetOne<K(!new)>(before: Watch<K>, after: Watch<K>, c: Client, gone: set<K>, k: K)
    requires Agrees(before) && Forgotten(before, after, c, gone)
    ensures Forgotten(before, Remove(after, c, k), c, gone + {k})
  {
    RemoveAgrees(after, c, k);
  }

  lemma ForgotAll<K(!new)>(before: Watch<K>, after: Watch<K>, c: Client, gone: set<K>)
    requires Agrees(before) && Forgotten(before, after, c, gone) && RequestsOf(before, c) <= gone
    ensures RequestsOf(after, c) == {}
  {
    forall k ensures k !in RequestsOf(after, c) {
      assert IsWatched(after, c, k) <==> k in RequestsOf(after, c);
      assert IsWatched(before, c, k) <==> k in RequestsOf(before, c);
    }
  }

  /** The loop of notificationUnregisterClient over the requests of a client. */
  method Forget<K(!new, ==)>(w: Watch<K>, c: Client) returns (v: Watch<K>)
    requires Agrees(w)
    ensures Agrees(v) && RequestsOf(v, c) == {}
    ensures forall d, k :: d != c ==> (IsWatched(v, d, k) <==> IsWatched(w, d, k))
  {
    v := w;
    var todo := RequestsOf(w, c);
    ghost var gone: set<K> := {};
    while todo != {}
      invariant Forgotten(w, v, c, gone) && gone + todo == RequestsOf(w, c)
      decreases todo
    {
      var k :| k in todo;
      ForgetOne(w, v, c, gone, k);
      v := Remove(v, c, k);
      gone := gone + {k};
      todo := todo - {k};
    }
    ForgotAll(w, v, c, gone);
  }
}
