/** The bookkeeping of connected peers (server.go). */
module PeerStates {
  import opened Primitives

  type Group = string

  /** A peer; its id is unique, and only outbound peers are persistent. */
  datatype Peer = Peer(id: nat, inbound: bool, persistent: bool, group: Group)

  type Peers = map<nat, Peer>

  function Members(m: Peers, g: Group): set<nat> {
    set id | id in m && m[id].group == g
  }

  function CountOf(groups: map<Group, int>, g: Group): int {
    if g in groups then groups[g] else 0
  }

  function Plus(groups: map<Group, int>, g: Group, n: int): map<Group, int> {
    groups[g := CountOf(groups, g) + n]
  }

  lemma MembersAdd(m: Peers, p: Peer, g: Group)
    requires p.id !in m
    ensures |Members(m[p.id := p], g)| == |Members(m, g)| + if p.group == g then 1 else 0
  {
    if p.group == g {
      assert Members(m[p.id := p], g) == Members(m, g) + {p.id};
    } else {
      assert Members(m[p.id := p], g) == Members(m, g);
    }
  }

  lemma MembersRemove(m: Peers, id: nat, g: Group)
    requires id in m
    ensures |Members(m - {id}, g)| == |Members(m, g)| - if m[id].group == g then 1 else 0
  {
    if m[id].group == g {
      assert Members(m - {id}, g) == Members(m, g) - {id};
    } else {
      assert Members(m - {id}, g) == Members(m, g);
    }
  }

  lemma SizeRemove(m: Peers, id: nat)
    requires id in m
    ensures |m - {id}| == |m| - 1
  {
    assert (m - {id}).Keys == m.Keys - {id};
    assert |m.Keys| == |m| && |(m - {id}).Keys| == |m - {id}|;
  }

  /**
   * The three maps and the counts as one value.  `leaked` counts the outbound peers that left without being
   * taken off their count, because their version was not known.  The server never lists such a peer: it adds
   * a peer from the callback for the version message, which comes after the version became known.
   */
  datatype Tables = Tables(
    inbound: Peers,
    outbound: Peers,
    persistent: Peers,
    groups: map<Group, int>,
    leaked: map<Group, int>)

  /** The peer has the id and belongs to the map of the given kind. */
  predicate Belongs(p: Peer, id: nat, inbound: bool, persistent: bool) {
    p.id == id && p.inbound == inbound && p.persistent == persistent
  }

  predicate Placed(t: Tables, id: nat) {
    && (id in t.inbound ==> Belongs(t.inbound[id], id, true, false) && id !in t.outbound && id !in t.persistent)
    && (id in t.outbound ==> Belongs(t.outbound[id], id, false, false) && id !in t.persistent)
    && (id in t.persistent ==> Belongs(t.persistent[id], id, false, true))
  }

  predicate Counted(t: Tables, g: Group) {
    && CountOf(t.groups, g) == |Members(t.outbound, g)| + |Members(t.persistent, g)| + CountOf(t.leaked, g)
    && CountOf(t.leaked, g) >= 0
  }

  /** Every peer is in the one map it belongs to, the counts are right but for leaks, and there are not too many. */
  ghost predicate Inv(t: Tables, maxPeers: nat) {
    && (forall id {:trigger Placed(t, id)} :: Placed(t, id))
    && (forall g {:trigger Counted(t, g)} :: Counted(t, g))
    && |t.inbound| + |t.outbound| + |t.persistent| <= maxPeers
  }

  const NO_PEERS := Tables(map[], map[], map[], map[], map[])

  predicate Fresh(t: Tables, p: Peer) {
    p.id !in t.inbound && p.id !in t.outbound && p.id !in t.persistent && (p.persistent ==> !p.inbound)
  }

  function Add(t: Tables, p: Peer): Tables {
    if p.inbound then t.(inbound := t.inbound[p.id := p])
    else if p.persistent then t.(groups := Plus(t.groups, p.group, 1), persistent := t.persistent[p.id := p])
    else t.(groups := Plus(t.groups, p.group, 1), outbound := t.outbound[p.id := p])
  }

  lemma AddSafe(t: Tables, p: Peer, maxPeers: nat)
    requires Inv(t, maxPeers) && Fresh(t, p) && |t.inbound| + |t.outbound| + |t.persistent| < maxPeers
    ensures Inv(Add(t, p), maxPeers)
  {
    var d := Add(t, p);
    forall id ensures Placed(d, id) {
      assert Placed(t, id);
    }
    forall g ensures Counted(d, g) {
      assert Counted(t, g);
      MembersAdd(t.outbound, p, g);
      MembersAdd(t.persistent, p, g);
    }
  }

  /** The map a peer belongs to. */
  function ListOf(t: Tables, p: Peer): Peers {
    if p.persistent then t.persistent else if p.inbound then t.inbound else t.outbound
  }

  /** Take a peer out of the map it belongs to. */
  function Unlisted(t: Tables, p: Peer): Tables {
    if p.persistent then t.(persistent := t.persistent - {p.id})
    else if p.inbound then t.(inbound := t.inbound - {p.id})
    else t.(outbound := t.outbound - {p.id})
  }

  /** Take an outbound peer off the count of its group, provided that its version is known. */
  function Uncounted(t: Tables, p: Peer, versionKnown: bool): Tables {
    if p.inbound then t
    else if versionKnown then t.(groups := Plus(t.groups, p.group, -1))
    else t.(leaked := Plus(t.leaked, p.group, 1))
  }

  /** handleDonePeerMsg on the tables. */
  function Done(t: Tables, p: Peer, versionKnown: bool): Tables {
    if p.id !in ListOf(t, p) then t else Unlisted(Uncounted(t, p, versionKnown), p)
  }

  /** The peer of the message is the one in the map, if that holds its id. */
  predicate Same(t: Tables, p: Peer) {
    p.id in ListOf(t, p) ==> ListOf(t, p)[p.id] == p
  }

  lemma DoneSafe(t: Tables, p: Peer, versionKnown: bool, maxPeers: nat)
    requires Inv(t, maxPeers) && Same(t, p)
    ensures Inv(Done(t, p, versionKnown), maxPeers)
  {
    if p.id in ListOf(t, p) {
      var d := Done(t, p, versionKnown);
      assert Placed(t, p.id);
      SizeRemove(ListOf(t, p), p.id);
      forall id ensures Placed(d, id) {
        assert Placed(t, id);
      }
      forall g ensures Counted(d, g) {
        assert Counted(t, g);
        if !p.inbound {
          MembersRemove(ListOf(t, p), p.id, g);
        }
      }
    }
  }

  /** Take an outbound or persistent peer out, with its count. */
  function Drop(t: Tables, p: Peer): Tables {
    var groups := Plus(t.groups, p.group, -1);
    if p.persistent then t.(persistent := t.persistent - {p.id}, groups := groups)
    else t.(outbound := t.outbound - {p.id}, groups := groups)
  }

  lemma DropIsDone(t: Tables, p: Peer, maxPeers: nat)
    requires Inv(t, maxPeers) && p.id in ListOf(t, p) && ListOf(t, p)[p.id] == p && !p.inbound
    ensures Drop(t, p) == Done(t, p, true) && Inv(Drop(t, p), maxPeers)
  {
    assert Placed(t, p.id);
    DoneSafe(t, p, true, maxPeers);
  }

  // --- When the counts are exact

  predicate ExactFor(t: Tables, g: Group) {
    CountOf(t.groups, g) == |Members(t.outbound, g)| + |Members(t.persistent, g)|
  }

  ghost predicate Exact(t: Tables) {
    forall g {:trigger ExactFor(t, g)} :: ExactFor(t, g)
  }

  /** A done message keeps the count of a group exact, unless it is that of an outbound peer of unknown version. */
  lemma DoneExactFor(t: Tables, p: Peer, versionKnown: bool, g: Group)
    requires p.id in ListOf(t, p) && ListOf(t, p)[p.id] == p && Placed(t, p.id) && ExactFor(t, g)
    ensures ExactFor(Done(t, p, versionKnown), g) <==> p.inbound || versionKnown || g != p.group
  {
    if !p.inbound {
      MembersRemove(ListOf(t, p), p.id, g);
    }
  }

  /**
   * From exact counts a done message leads to exact counts precisely when the peer is not listed, is
   * inbound, or has its version known.
   */
  lemma DoneExact(t: Tables, p: Peer, versionKnown: bool, maxPeers: nat)
    requires Inv(t, maxPeers) && Same(t, p) && Exact(t)
    ensures Exact(Done(t, p, versionKnown)) <==> p.id !in ListOf(t, p) || p.inbound || versionKnown
  {
    var d := Done(t, p, versionKnown);
    if p.id !in ListOf(t, p) {
      assert d == t;
    } else {
      assert Placed(t, p.id);
      forall g ensures ExactFor(d, g) <==> p.inbound || versionKnown || g != p.group {
        assert ExactFor(t, g);
        DoneExactFor(t, p, versionKnown, g);
      }
      assert ExactFor(d, p.group) <==> p.inbound || versionKnown;
    }
  }

  lemma AddExact(t: Tables, p: Peer, maxPeers: nat)
    requires Inv(t, maxPeers) && Fresh(t, p) && Exact(t)
    ensures Exact(Add(t, p))
  {
    var d := Add(t, p);
    forall g ensures ExactFor(d, g) {
      assert ExactFor(t, g);
      MembersAdd(t.outbound, p, g);
      MembersAdd(t.persistent, p, g);
    }
  }

  // --- Whole runs

  datatype Event = Joined(peer: Peer) | Left(peer: Peer, versionKnown: bool)

  /** One message; removing or disconnecting an outbound peer by request is leaving with the version known. */
  function Step(t: Tables, e: Event, maxPeers: nat): Tables {
    match e
    case Joined(p) => if Fresh(t, p) && |t.inbound| + |t.outbound| + |t.persistent| < maxPeers then Add(t, p) else t
    case Left(p, versionKnown) => if Same(t, p) then Done(t, p, versionKnown) else t
  }

  function Run(events: seq<Event>, maxPeers: nat): Tables {
    if events == [] then NO_PEERS else Step(Run(events[..|events| - 1], maxPeers), events[|events| - 1], maxPeers)
  }

  /**
   * After every run each peer is in one map, there are at most maxPeers, and every group count is right but
   * for the leaks; if the versions of all peers that left were known, it is right.
   */
  lemma {:induction false} RunSafe(events: seq<Event>, maxPeers: nat)
    ensures Inv(Run(events, maxPeers), maxPeers)
    ensures (forall i :: 0 <= i < |events| && events[i].Left? ==> events[i].versionKnown) ==>
      Exact(Run(events, maxPeers))
  {
    if events != [] {
      var before, e := Run(events[..|events| - 1], maxPeers), events[|events| - 1];
      RunSafe(events[..|events| - 1], maxPeers);
      match e
      case Joined(p) =>
        if Fresh(before, p) && |before.inbound| + |before.outbound| + |before.persistent| < maxPeers {
          AddSafe(before, p, maxPeers);
          if Exact(before) {
            AddExact(before, p, maxPeers);
          }
        }
      case Left(p, versionKnown) =>
        if Same(before, p) {
          DoneSafe(before, p, versionKnown, maxPeers);
          if Exact(before) {
            DoneExact(before, p, versionKnown, maxPeers);
          }
        }
    }
  }

  /** A peer that joins is in one table; outbound ones count for their group. */
  lemma AddMeans(t: Tables, p: Peer, g: Group)
    ensures var d := Add(t, p);
      && d.inbound == (if p.inbound then t.inbound[p.id := p] else t.inbound)
      && d.outbound == (if !p.inbound && !p.persistent then t.outbound[p.id := p] else t.outbound)
      && d.persistent == (if !p.inbound && p.persistent then t.persistent[p.id := p] else t.persistent)
      && CountOf(d.groups, g) == CountOf(t.groups, g) + (if !p.inbound && g == p.group then 1 else 0)
  {
  }

  /** A peer that leaves is in no table; an outbound one stops counting when its version was known. */
  lemma DoneMeans(t: Tables, p: Peer, versionKnown: bool, g: Group)
    ensures var d := Done(t, p, versionKnown);
      && d.inbound == (if p.inbound && !p.persistent then t.inbound - {p.id} else t.inbound)
      && d.outbound == (if !p.inbound && !p.persistent then t.outbound - {p.id} else t.outbound)
      && d.persistent == (if p.persistent then t.persistent - {p.id} else t.persistent)
    ensures var listed := p.id in if p.persistent then t.persistent else t.outbound;
      CountOf(Done(t, p, versionKnown).groups, g) == CountOf(t.groups, g)
        - (if versionKnown && g == p.group && !p.inbound && listed then 1 else 0)
  {
    if p.id !in ListOf(t, p) {
      assert ListOf(t, p) - {p.id} == ListOf(t, p);
    }
  }

  // --- The handlers

  class PeerState {
    const maxPeers: nat
    var inboundPeers: Peers
    var outboundPeers: Peers
    var persistentPeers: Peers
    /** When the ban of a host ends. */
    var banned: map<string, int>
    var outboundGroups: map<Group, int>
    ghost var leaked: map<Group, int>

    ghost function All(): Tables
      reads this
    {
      Tables(inboundPeers, outboundPeers, persistentPeers, outboundGroups, leaked)
    }

    ghost predicate Valid()
      reads this
    {
      Inv(All(), maxPeers)
    }

    constructor (maxPeers: nat)
      ensures Valid() && All() == NO_PEERS && banned == map[] && this.maxPeers == maxPeers
    {
      this.maxPeers := maxPeers;
      inboundPeers, outboundPeers, persistentPeers := map[], map[], map[];
      banned, outboundGroups, leaked := map[], map[], map[];
      RunSafe([], maxPeers);
    }

    function Count(): int
      reads this
    {
      |inboundPeers| + |outboundPeers| + |persistentPeers|
    }

    /** handleAddPeerMsg; the host is missing when the address does not split. */
    method HandleAddPeer(p: Peer, host: Option<string>, now: int, shutdown: bool) returns (added: bool)
      requires Valid() && Fresh(All(), p)
      modifies this
      ensures All() == if added then Add(old(All()), p) else old(All())
      ensures Valid()
      ensures added <==>
        && !shutdown && host.Some? && old(Count()) < maxPeers
        && !(host.value in old(banned) && now < old(banned)[host.value])
      ensures banned == if !shutdown && host.Some? && host.value in old(banned) && now >= old(banned)[host.value]
        then old(banned) - {host.value} else old(banned)
    {
      if shutdown || host.None? {
        return false;
      }
      if host.value in banned {
        if now < banned[host.value] {
          return false;
        }
        banned := banned - {host.value};
      }
      if Count() >= maxPeers {
        return false;
      }
      AddSafe(All(), p, maxPeers);
      if p.inbound {
        inboundPeers := inboundPeers[p.id := p];
      } else {
        outboundGroups := Plus(outboundGroups, p.group, 1);
        if p.persistent {
          persistentPeers := persistentPeers[p.id := p];
        } else {
          outboundPeers := outboundPeers[p.id := p];
        }
      }
      return true;
    }

    /** handleDonePeerMsg. */
    method HandleDonePeer(p: Peer, versionKnown: bool)
      requires Valid() && Same(All(), p)
      modifies this
      ensures All() == Done(old(All()), p, versionKnown) && banned == old(banned)
      ensures Valid()
    {
      ghost var before := All();
      var list := if p.persistent then persistentPeers else if p.inbound then inboundPeers else outboundPeers;
      if p.id in list {
        if !p.inbound {
          if versionKnown {
            outboundGroups := Plus(outboundGroups, p.group, -1);
          } else {
            leaked := Plus(leaked, p.group, 1);
          }
        }
        assert All() == Uncounted(before, p, versionKnown);
        Unlist(p);
      }
      DoneSafe(before, p, versionKnown, maxPeers);
    }

    /** Delete a peer from the map it belongs to. */
    method Unlist(p: Peer)
      modifies this`inboundPeers, this`outboundPeers, this`persistentPeers
      ensures All() == Unlisted(old(All()), p)
    {
      if p.persistent {
        persistentPeers := persistentPeers - {p.id};
      } else if p.inbound {
        inboundPeers := inboundPeers - {p.id};
      } else {
        outboundPeers := outboundPeers - {p.id};
      }
    }

    /** The removeNodeMsg query: one persistent peer that matches goes. */
    method RemoveNode(cmp: Peer -> bool) returns (found: Option<Peer>)
      requires Valid()
      modifies this
      ensures Valid() && banned == old(banned)
      ensures found.None? ==> All() == old(All()) && NoMatch(persistentPeers, cmp)
      ensures found.Some? ==>
        cmp(found.value) && found.value.id in old(persistentPeers)
          && found.value == old(persistentPeers)[found.value.id]
      ensures found.Some? ==> All() == Drop(old(All()), found.value)
    {
      KeysAreIds(All(), maxPeers);
      found := FindPeer(persistentPeers, cmp);
      if found.Some? {
        assert Placed(All(), found.value.id);
        DropIsDone(All(), found.value, maxPeers);
        outboundGroups := Plus(outboundGroups, found.value.group, -1);
        persistentPeers := persistentPeers - {found.value.id};
      }
    }

    /** One outbound peer that matches goes. */
    method DropOutbound(cmp: Peer -> bool) returns (found: Option<Peer>)
      requires Valid()
      modifies this
      ensures Valid() && banned == old(banned) && inboundPeers == old(inboundPeers)
      ensures persistentPeers == old(persistentPeers) && leaked == old(leaked)
      ensures found.None? ==> All() == old(All()) && NoMatch(outboundPeers, cmp)
      ensures found.Some? ==>
        cmp(found.value) && found.value.id in old(outboundPeers) && found.value == old(outboundPeers)[found.value.id]
      ensures found.Some? ==>
        outboundPeers == old(outboundPeers) - {found.value.id} && |outboundPeers| < |old(outboundPeers)|
    {
      KeysAreIds(All(), maxPeers);
      found := FindPeer(outboundPeers, cmp);
      if found.Some? {
        assert Placed(All(), found.value.id);
        DropIsDone(All(), found.value, maxPeers);
        SizeRemove(outboundPeers, found.value.id);
        outboundGroups := Plus(outboundGroups, found.value.group, -1);
        outboundPeers := outboundPeers - {found.value.id};
      }
    }

    /** All outbound peers that match go, one after the other. */
    method DropAllOutbound(cmp: Peer -> bool) returns (found: bool)
      requires Valid()
      modifies this
      ensures Valid() && banned == old(banned) && inboundPeers == old(inboundPeers)
      ensures persistentPeers == old(persistentPeers) && leaked == old(leaked)
      ensures found == AnyMatch(old(outboundPeers), cmp) && outboundPeers == Unmatched(old(outboundPeers), cmp)
    {
      ghost var before := outboundPeers;
      var peer := DropOutbound(cmp);
      found := peer.Some?;
      while peer.Some?
        invariant Valid() && banned == old(banned) && inboundPeers == old(inboundPeers)
        invariant persistentPeers == old(persistentPeers) && leaked == old(leaked)
        invariant Dropped(before, outboundPeers, cmp) && (peer.None? ==> NoMatch(outboundPeers, cmp))
        decreases |outboundPeers|, peer.Some?
      {
        peer := DropOutbound(cmp);
      }
      AllDropped(before, outboundPeers, cmp);
    }

    /** One inbound peer that matches goes. */
    method DropInbound(cmp: Peer -> bool) returns (found: Option<Peer>)
      requires Valid()
      modifies this`inboundPeers
      ensures Valid()
      ensures found.None? ==> NoMatch(inboundPeers, cmp) && inboundPeers == old(inboundPeers)
      ensures found.Some? ==>
        cmp(found.value) && found.value.id in old(inboundPeers) && found.value == old(inboundPeers)[found.value.id]
      ensures found.Some? ==> inboundPeers == old(inboundPeers) - {found.value.id}
    {
      KeysAreIds(All(), maxPeers);
      found := FindPeer(inboundPeers, cmp);
      if found.Some? {
        assert Placed(All(), found.value.id);
        DoneSafe(All(), found.value, true, maxPeers);
        inboundPeers := inboundPeers - {found.value.id};
      }
    }

    /** The disconnectNodeMsg query: one inbound peer that matches goes or, if there is none, all outbound ones do. */
    method DisconnectNode(cmp: Peer -> bool) returns (found: bool)
      requires Valid()
      modifies this
      ensures Valid() && banned == old(banned) && persistentPeers == old(persistentPeers) && leaked == old(leaked)
      ensures found == (AnyMatch(old(inboundPeers), cmp) || AnyMatch(old(outboundPeers), cmp))
      ensures AnyMatch(old(inboundPeers), cmp) ==>
        outboundPeers == old(outboundPeers) && outboundGroups == old(outboundGroups)
      ensures AnyMatch(old(inboundPeers), cmp) ==> OneGone(old(inboundPeers), inboundPeers, cmp)
      ensures NoMatch(old(inboundPeers), cmp) ==>
        inboundPeers == old(inboundPeers) && outboundPeers == Unmatched(old(outboundPeers), cmp)
    {
      var peer := DropInbound(cmp);
      if peer.Some? {
        return true;
      }
      found := DropAllOutbound(cmp);
    }
  }

  /** One matching peer is gone. */
  predicate OneGone(before: Peers, now: Peers, cmp: Peer -> bool) {
    exists id :: id in before && cmp(before[id]) && now == before - {id}
  }

  predicate AnyMatch(m: Peers, cmp: Peer -> bool) {
    exists id :: id in m && cmp(m[id])
  }

  predicate NoMatch(m: Peers, cmp: Peer -> bool) {
    !AnyMatch(m, cmp)
  }

  function Unmatched(m: Peers, cmp: Peer -> bool): Peers {
    map id | id in m && !cmp(m[id]) :: m[id]
  }

  /** Some matching peers are gone, and nothing else changed. */
  ghost predicate Dropped(before: Peers, now: Peers, cmp: Peer -> bool) {
    && (forall id :: id in now ==> id in before && now[id] == before[id])
    && (forall id :: id in before && id !in now ==> cmp(before[id]))
  }

  lemma AllDropped(before: Peers, now: Peers, cmp: Peer -> bool)
    requires Dropped(before, now, cmp) && NoMatch(now, cmp)
    ensures now == Unmatched(before, cmp)
  {
    var kept := Unmatched(before, cmp);
    forall id: nat ensures id in now <==> id in kept {
    }
    assert now.Keys == kept.Keys;
  }

  lemma KeysAreIds(t: Tables, maxPeers: nat)
    requires Inv(t, maxPeers)
    ensures forall id :: id in t.inbound ==> t.inbound[id].id == id
    ensures forall id :: id in t.outbound ==> t.outbound[id].id == id
    ensures forall id :: id in t.persistent ==> t.persistent[id].id == id
  {
    forall id: nat
      ensures id in t.inbound ==> t.inbound[id].id == id
      ensures id in t.outbound ==> t.outbound[id].id == id
      ensures id in t.persistent ==> t.persistent[id].id == id
    {
      assert Placed(t, id);
    }
  }

  /** The loop of disconnectPeer. */
  method FindPeer(list: Peers, cmp: Peer -> bool) returns (found: Option<Peer>)
    requires forall id :: id in list ==> list[id].id == id
    ensures found.None? ==> NoMatch(list, cmp)
    ensures found.Some? ==> cmp(found.value) && found.value.id in list && list[found.value.id] == found.value
  {
    var todo := list.Keys;
    while todo != {}
      invariant todo <= list.Keys && forall id :: id in list && id !in todo ==> !cmp(list[id])
      decreases todo
    {
      var id :| id in todo;
      if cmp(list[id]) {
        return Some(list[id]);
      }
      todo := todo - {id};
    }
    return None;
  }
}
