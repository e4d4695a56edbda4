/** The server's flow table: public UDP peers named by flow IDs, both ways, with idle expiry. */
module Flows {
  import opened Prelude
  import opened Bytes

  const MAX_ID := 0xFFFF_FFFF_FFFF_FFFF

  datatype SocketAddr = SocketAddr(ip: nat, port: u16)

  datatype Flow = Flow(service: u16, peer: SocketAddr, touched: nat)

  type Key = (u16, SocketAddr)

  datatype Table = Table(next: u64, byId: map<u64, Flow>, byPeer: map<Key, u64>)

  datatype IngressError = FlowIdsExhausted

  function KeyOf(f: Flow): Key {
    (f.service, f.peer)
  }

  /** The two maps are inverse to each other, live IDs were handed out, and there are not too many. */
  ghost predicate Wf(t: Table, max: nat) {
    && (forall key | key in t.byPeer :: t.byPeer[key] in t.byId && KeyOf(t.byId[t.byPeer[key]]) == key)
    && (forall id | id in t.byId :: KeyOf(t.byId[id]) in t.byPeer && t.byPeer[KeyOf(t.byId[id])] == id)
    && (forall id | id in t.byId :: id < t.next)
    && |t.byId| <= max
  }

  // ----- the operations

  /** Flows idle for the given time or longer are dropped, and so are the peers' entries for them. */
  function Swept(t: Table, now: nat, idle: nat): Table {
    var byId := map id | id in t.byId && now - t.byId[id].touched < idle :: t.byId[id];
    t.(byId := byId, byPeer := map key | key in t.byPeer && t.byPeer[key] in byId :: t.byPeer[key])
  }

  datatype Ingress = Ingress(table: Table, flow: Result<Option<u64>, IngressError>)

  /** A public packet arrives: its flow is touched, or a new one is made if there is room. */
  function Arrived(t: Table, service: u16, peer: SocketAddr, now: nat, max: nat): Ingress
    requires Wf(t, max)
  {
    var key := (service, peer);
    if key in t.byPeer then
      var id := t.byPeer[key];
      Ingress(t.(byId := t.byId[id := t.byId[id].(touched := now)]), Ok(Some(id)))
    else if |t.byId| >= max then Ingress(t, Ok(None))
    else if t.next == MAX_ID then Ingress(t, Err(FlowIdsExhausted))
    else
      Ingress(Table(t.next + 1, t.byId[t.next := Flow(service, peer, now)], t.byPeer[key := t.next]),
              Ok(Some(t.next)))
  }

  datatype Routing = Routing(table: Table, destination: Option<SocketAddr>)

  /** A reply arrives from the tunnel: it goes to the flow's peer if the flow is live and of that service. */
  function Routed(t: Table, service: u16, id: u64, now: nat): Routing {
    if id in t.byId && t.byId[id].service == service then
      Routing(t.(byId := t.byId[id := t.byId[id].(touched := now)]), Some(t.byId[id].peer))
    else Routing(t, None)
  }

  // ----- what every operation keeps

  lemma SweptWf(t: Table, now: nat, idle: nat, max: nat)
    requires Wf(t, max)
    ensures Wf(Swept(t, now, idle), max)
  {
    SmallerMap(Swept(t, now, idle).byId, t.byId);
  }

  lemma TouchedWf(t: Table, id: u64, now: nat, max: nat)
    requires Wf(t, max) && id in t.byId
    ensures Wf(t.(byId := t.byId[id := t.byId[id].(touched := now)]), max)
  {
    var byId := t.byId[id := t.byId[id].(touched := now)];
    assert byId.Keys == t.byId.Keys;
    SmallerMap(byId, t.byId);
  }

  lemma AddedWf(t: Table, f: Flow, max: nat)
    requires Wf(t, max) && |t.byId| < max && t.next != MAX_ID && KeyOf(f) !in t.byPeer
    ensures Wf(Table(t.next + 1, t.byId[t.next := f], t.byPeer[KeyOf(f) := t.next]), max)
  {
    var byId := t.byId[t.next := f];
    assert byId.Keys == t.byId.Keys + {t.next};
    assert |byId| == |byId.Keys| && |t.byId| == |t.byId.Keys|;
  }

  lemma ArrivedWf(t: Table, service: u16, peer: SocketAddr, now: nat, max: nat)
    requires Wf(t, max)
    ensures Wf(Arrived(t, service, peer, now, max).table, max)
  {
    if (service, peer) in t.byPeer {
      TouchedWf(t, t.byPeer[(service, peer)], now, max);
    } else if |t.byId| < max && t.next != MAX_ID {
      AddedWf(t, Flow(service, peer, now), max);
    }
  }

  lemma RoutedWf(t: Table, service: u16, id: u64, now: nat, max: nat)
    requires Wf(t, max)
    ensures Wf(Routed(t, service, id, now).table, max)
  {
    if id in t.byId {
      TouchedWf(t, id, now, max);
    }
  }

  // ----- the object

  class FlowTable {
    var next: u64
    var byId: map<u64, Flow>
    var byPeer: map<Key, u64>
    const max: nat

    ghost function State(): Table
      reads this
    {
      Table(next, byId, byPeer)
    }

    ghost predicate Valid()
      reads this
    {
      Wf(State(), max)
    }

    constructor (max: nat)
      ensures Valid() && State() == Table(0, map[], map[]) && this.max == max
    {
      next, byId, byPeer, this.max := 0, map[], map[], max;
    }

    method Expire(now: nat, idle: nat)
      requires Valid()
      modifies this
      ensures Valid() && State() == Swept(old(State()), now, idle)
    {
      SweptWf(State(), now, idle, max);
      byId := map id | id in byId && now - byId[id].touched < idle :: byId[id];
      byPeer := map key | key in byPeer && byPeer[key] in byId :: byPeer[key];
    }

    /**
     * A peer that has a flow keeps it. Any other gets the next ID, unless as many flows as allowed are live
     * or no ID is left. Either way the flow is the peer's, touched now, and every other flow is as it was.
     */
    method Arrive(service: u16, peer: SocketAddr, now: nat) returns (flow: Result<Option<u64>, IngressError>)
      requires Valid()
      modifies this
      ensures Valid() && Ingress(State(), flow) == Arrived(old(State()), service, peer, now, max)
      ensures (service, peer) in old(byPeer) ==> flow == Ok(Some(old(byPeer)[(service, peer)])) && next == old(next)
      ensures (service, peer) !in old(byPeer) ==>
                && (|old(byId)| >= max ==> flow == Ok(None))
                && (|old(byId)| < max && old(next) == MAX_ID ==> flow == Err(FlowIdsExhausted))
                && (|old(byId)| < max && old(next) < MAX_ID ==> flow == Ok(Some(old(next))) && next == old(next) + 1)
      ensures match flow
              case Ok(Some(id)) =>
                && byId == old(byId)[id := Flow(service, peer, now)]
                && byPeer == old(byPeer)[(service, peer) := id]
              case _ => unchanged(this)
    {
      ArrivedWf(State(), service, peer, now, max);
      var key := (service, peer);
      if key in byPeer {
        var id := byPeer[key];
        byId := byId[id := byId[id].(touched := now)];
        flow := Ok(Some(id));
      } else if |byId| < max {
        var id := next;
        if next == MAX_ID {
          return Err(FlowIdsExhausted);
        }
        next := next + 1;
        byPeer := byPeer[key := id];
        byId := byId[id := Flow(service, peer, now)];
        flow := Ok(Some(id));
      } else {
        flow := Ok(None);
      }
    }

    /** A reply goes to the peer of its flow exactly if the flow is live for that service, and then touches it. */
    method Route(service: u16, id: u64, now: nat) returns (destination: Option<SocketAddr>)
      requires Valid()
      modifies this
      ensures Valid() && Routing(State(), destination) == Routed(old(State()), service, id, now)
      ensures next == old(next) && byPeer == old(byPeer)
      ensures if id in old(byId) && old(byId)[id].service == service then
                && destination == Some(old(byId)[id].peer)
                && byId == old(byId)[id := Flow(service, old(byId)[id].peer, now)]
              else destination == None && byId == old(byId)
    {
      RoutedWf(State(), service, id, now, max);
      if id in byId && byId[id].service == service {
        destination := Some(byId[id].peer);
        byId := byId[id := byId[id].(touched := now)];
      } else {
        destination := None;
      }
    }
  }

  // ----- whole runs

  datatype Event =
    | Packet(service: u16, peer: SocketAddr, now: nat)
    | Reply(service: u16, id: u64, now: nat)
    | Sweep(now: nat, idle: nat)

  function Next(t: Table, e: Event, max: nat): (r: Table)
    requires Wf(t, max)
    ensures Wf(r, max)
  {
    match e
    case Packet(service, peer, now) =>
      ArrivedWf(t, service, peer, now, max); Arrived(t, service, peer, now, max).table
    case Reply(service, id, now) =>
      RoutedWf(t, service, id, now, max); Routed(t, service, id, now).table
    case Sweep(now, idle) =>
      SweptWf(t, now, idle, max); Swept(t, now, idle)
  }

  const EMPTY := Table(0, map[], map[])

  /** The table after the first `k` events of a run. */
  function After(events: seq<Event>, k: nat, max: nat): (t: Table)
    requires k <= |events|
    ensures Wf(t, max)
  {
    if k == 0 then EMPTY else Next(After(events, k - 1, max), events[k - 1], max)
  }

  /** The flow that event `k`, a public packet, is sent into the tunnel under, if any. */
  function FlowOf(events: seq<Event>, k: nat, max: nat): Option<u64>
    requires k < |events| && events[k].Packet?
  {
    var e := events[k];
    match Arrived(After(events, k, max), e.service, e.peer, e.now, max).flow
    case Ok(id) => id
    case Err(_) => None
  }

  /** Where event `k`, a reply, is sent, if anywhere. */
  function DestinationOf(events: seq<Event>, k: nat, max: nat): Option<SocketAddr>
    requires k < |events| && events[k].Reply?
  {
    Routed(After(events, k, max), events[k].service, events[k].id, events[k].now).destination
  }

  lemma NextIdsGrow(t: Table, e: Event, max: nat, id: u64)
    requires Wf(t, max)
    ensures t.next <= Next(t, e, max).next
    ensures id in t.byId && id in Next(t, e, max).byId ==> KeyOf(Next(t, e, max).byId[id]) == KeyOf(t.byId[id])
    ensures id !in t.byId && id < t.next ==> id !in Next(t, e, max).byId
  {
  }

  /** From the moment an ID is handed out, it is live with that owner or gone for good. */
  lemma {:induction false} OwnedOrGone(events: seq<Event>, j: nat, k: nat, max: nat, id: u64)
    requires j <= k <= |events| && id < After(events, j, max).next
    ensures id < After(events, k, max).next
    ensures id !in After(events, j, max).byId ==> id !in After(events, k, max).byId
    ensures id in After(events, j, max).byId && id in After(events, k, max).byId ==>
              KeyOf(After(events, k, max).byId[id]) == KeyOf(After(events, j, max).byId[id])
    decreases k
  {
    hide Wf, Next;
    if j < k {
      OwnedOrGone(events, j, k - 1, max, id);
      NextIdsGrow(After(events, k - 1, max), events[k - 1], max, id);
    }
  }

  /** After a packet is given a flow ID, that ID is live and belongs to the packet's service and peer. */
  lemma GivenIsOwned(events: seq<Event>, k: nat, max: nat)
    requires k < |events| && events[k].Packet? && FlowOf(events, k, max).Some?
    ensures var id := FlowOf(events, k, max).value;
            && id in After(events, k + 1, max).byId && id < After(events, k + 1, max).next
            && KeyOf(After(events, k + 1, max).byId[id]) == (events[k].service, events[k].peer)
  {
  }

  /** No flow ID ever names two different (service, peer) pairs, expired or not. */
  lemma FlowIdsNeverReused(events: seq<Event>, j: nat, k: nat, max: nat)
    requires j < k < |events| && events[j].Packet? && events[k].Packet?
    requires FlowOf(events, j, max).Some? && FlowOf(events, j, max) == FlowOf(events, k, max)
    ensures events[j].service == events[k].service && events[j].peer == events[k].peer
  {
    hide Wf, After, FlowOf;
    var id := FlowOf(events, j, max).value;
    GivenIsOwned(events, j, max);
    GivenIsOwned(events, k, max);
    OwnedOrGone(events, j + 1, k + 1, max, id);
  }

  /** Some live flow belongs to the peer, for that service. */
  ghost predicate HasFlow(t: Table, service: u16, peer: SocketAddr) {
    exists id | id in t.byId :: KeyOf(t.byId[id]) == (service, peer)
  }

  lemma ByPeerIsByOwner(t: Table, service: u16, peer: SocketAddr, max: nat)
    requires Wf(t, max)
    ensures (service, peer) in t.byPeer <==> HasFlow(t, service, peer)
  {
    var key := (service, peer);
    if key in t.byPeer {
      assert KeyOf(t.byId[t.byPeer[key]]) == key;
    }
  }

  /**
   * In every run a public packet gets a flow exactly if its peer has a live one for the service, or fewer
   * flows than allowed are live and an ID is left; and then that flow is the peer's, now touched.
   */
  lemma FlowIsGivenExactly(events: seq<Event>, k: nat, max: nat)
    requires k < |events| && events[k].Packet?
    ensures var t, e := After(events, k, max), events[k];
            FlowOf(events, k, max).Some?
            <==> HasFlow(t, e.service, e.peer) || (|t.byId| < max && t.next < MAX_ID)
    ensures var after, e := After(events, k + 1, max), events[k];
            FlowOf(events, k, max).Some? ==>
              var id := FlowOf(events, k, max).value;
              id in after.byId && after.byId[id] == Flow(e.service, e.peer, e.now)
  {
    ByPeerIsByOwner(After(events, k, max), events[k].service, events[k].peer, max);
  }

  lemma NewIdIsGiven(t: Table, e: Event, max: nat, id: u64)
    requires Wf(t, max) && id !in t.byId && id in Next(t, e, max).byId
    ensures e.Packet? && Arrived(t, e.service, e.peer, e.now, max).flow == Ok(Some(id))
    ensures KeyOf(Next(t, e, max).byId[id]) == (e.service, e.peer)
  {
  }

  lemma {:induction false} LiveWasGiven(events: seq<Event>, k: nat, max: nat, id: u64) returns (j: nat)
    requires k <= |events| && id in After(events, k, max).byId
    ensures j < k && events[j].Packet? && FlowOf(events, j, max) == Some(id)
    ensures KeyOf(After(events, k, max).byId[id]) == (events[j].service, events[j].peer)
    decreases k
  {
    hide Wf, Next, Arrived, KeyOf;
    var before, e := After(events, k - 1, max), events[k - 1];
    if id in before.byId {
      NextIdsGrow(before, e, max, id);
      j := LiveWasGiven(events, k - 1, max, id);
    } else {
      NewIdIsGiven(before, e, max, id);
      j := k - 1;
    }
  }

  /** A reply is only ever sent to the peer whose own packet was given the flow ID the reply carries. */
  lemma RepliesReachTheirPeer(events: seq<Event>, k: nat, max: nat) returns (j: nat)
    requires k < |events| && events[k].Reply? && DestinationOf(events, k, max).Some?
    ensures j < k && events[j].Packet? && FlowOf(events, j, max) == Some(events[k].id)
    ensures events[j].service == events[k].service && events[j].peer == DestinationOf(events, k, max).value
  {
    j := LiveWasGiven(events, k, max, events[k].id);
  }

  /** A reply for an ID that was handed out and has expired is dropped, however late it comes. */
  lemma LateRepliesAreDropped(events: seq<Event>, j: nat, k: nat, max: nat)
    requires j <= k < |events| && events[k].Reply?
    requires events[k].id < After(events, j, max).next && events[k].id !in After(events, j, max).byId
    ensures DestinationOf(events, k, max) == None
  {
    OwnedOrGone(events, j, k, max, events[k].id);
  }

  /** Event `k` uses the flow: a packet sent into the tunnel under it, or a reply routed by it. */
  predicate Uses(events: seq<Event>, k: nat, max: nat, id: u64)
    requires k < |events|
  {
    match events[k]
    case Packet(_, _, _) => FlowOf(events, k, max) == Some(id)
    case Reply(_, to, _) => to == id && DestinationOf(events, k, max).Some?
    case Sweep(_, _) => false
  }

  /** The time of the last use of the flow among the first `k` events. */
  function LastUse(events: seq<Event>, k: nat, max: nat, id: u64): Option<nat>
    requires k <= |events|
  {
    if k == 0 then None
    else if Uses(events, k - 1, max, id) then Some(events[k - 1].now)
    else LastUse(events, k - 1, max, id)
  }

  lemma TouchedByUse(events: seq<Event>, k: nat, max: nat, id: u64)
    requires k < |events| && id in After(events, k + 1, max).byId
    ensures Uses(events, k, max, id) ==> After(events, k + 1, max).byId[id].touched == events[k].now
    ensures !Uses(events, k, max, id) ==>
              id in After(events, k, max).byId && After(events, k + 1, max).byId[id] == After(events, k, max).byId[id]
  {
    hide Wf;
    var t := After(events, k, max);
    assert After(events, k + 1, max) == Next(t, events[k], max);
  }

  lemma {:induction false} TouchedIsLastUse(events: seq<Event>, k: nat, max: nat, id: u64)
    requires k <= |events| && id in After(events, k, max).byId
    ensures LastUse(events, k, max, id) == Some(After(events, k, max).byId[id].touched)
    decreases k
  {
    hide Wf, Next, Uses;
    TouchedByUse(events, k - 1, max, id);
    if !Uses(events, k - 1, max, id) {
      TouchedIsLastUse(events, k - 1, max, id);
    }
  }

  /** A sweep keeps exactly the live flows that were last used less than the idle time ago. */
  lemma SweepKeepsActive(events: seq<Event>, k: nat, max: nat, id: u64)
    requires k < |events| && events[k].Sweep?
    ensures id in After(events, k + 1, max).byId
       <==> && id in After(events, k, max).byId
            && LastUse(events, k, max, id).Some?
            && events[k].now - LastUse(events, k, max, id).value < events[k].idle
  {
    if id in After(events, k, max).byId {
      TouchedIsLastUse(events, k, max, id);
    }
  }
}
