/**
 * From a public peer to a client's worker: the server's flow table names the peer, the datagram channel
 * carries the packet, and the client queues it for the worker of its flow.
 */
module Requests {
  import opened Prelude
  import opened Bytes
  import opened Fragments
  import opened Reassembly
  import opened DatagramChannel
  import opened ChannelSafety
  import opened Replies
  import F = Flows
  import W = Forwarding

  /** A packet that a worker has taken from its queue. */
  datatype Taken = Taken(key: W.Key, item: W.Item)

  /**
   * Both ends. Public packet number `n` that was admitted had payload `payloads[n]` and got `given[n]`;
   * `waiting` are those not yet handed to `send`, and `from[j]` is the one message `j` was made of.
   */
  datatype World = World(
    table: F.Table, given: seq<Given>, payloads: seq<seq<byte>>, waiting: set<nat>,
    channel: Channel, from: seq<nat>,
    client: W.Client, taken: seq<Taken>)

  datatype Event =
    | Public(service: u16, peer: F.SocketAddr, payload: seq<byte>, now: nat)
    | Send(n: nat)
    | Reply(service: u16, id: u64, now: nat)
    | Sweep(now: nat, idle: nat)
    | Tunnel(step: Step)
    | Work(event: W.Event)

  /** The flow limits of the two ends, and the services the client forwards for. */
  datatype Limits = Limits(server: nat, client: nat, destinations: set<u16>)

  // ----- steps

  /** A public packet arrives. Oversized ones are ignored before the flow table is looked at. */
  function Admitted(w: World, service: u16, peer: F.SocketAddr, payload: seq<byte>, now: nat, max: nat): World
    requires F.Wf(w.table, max)
  {
    var r := F.Arrived(w.table, service, peer, now, max);
    if |payload| > MAX_PAYLOAD then w
    else match r.flow
    case Ok(Some(id)) =>
      w.(table := r.table, given := w.given + [Given(id, (service, peer))], payloads := w.payloads + [payload],
         waiting := w.waiting + {|w.given|})
    case _ => w.(table := r.table)
  }

  /** `send` is called for an admitted packet; it refuses those past the last message ID. */
  ghost function HandedOver(w: World, n: nat): World
    requires Wf(w.channel.rx.pending)
  {
    if n !in w.waiting || n >= |w.given| || n >= |w.payloads| then w
    else
      var rest := w.(waiting := w.waiting - {n});
      if MayBegin(w.channel.tx, w.payloads[n]) then
        rest.(channel := DatagramChannel.Next(w.channel, Begin(w.given[n].key.0, w.given[n].id, w.payloads[n])),
              from := w.from + [n])
      else rest
  }

  function OfferOf(d: Delivery): (e: W.Event)
    ensures e.Packet?
  {
    W.Packet((d.packet.service, d.packet.flow), W.Item(d.id, d.packet.payload))
  }

  /** A packet the channel has just delivered is offered to the client's workers. */
  function Offer(c: W.Client, d: Delivery, limits: Limits): W.Client {
    W.Next(c, OfferOf(d), limits.destinations, limits.client)
  }

  ghost function Carried(w: World, step: Step, limits: Limits): World
    requires Wf(w.channel.rx.pending)
  {
    var c := DatagramChannel.Next(w.channel, step);
    var grown := |c.rx.delivered| > |w.channel.rx.delivered|;
    w.(channel := c,
       client := if grown then Offer(w.client, c.rx.delivered[|c.rx.delivered| - 1], limits) else w.client)
  }

  /** What an event of the workers takes from a queue. */
  function TakenBy(c: W.Client, e: W.Event): seq<Taken> {
    if e.Take? && e.worker < |c.workers|
       && c.workers[e.worker].running && c.workers[e.worker].hand.None? && |c.workers[e.worker].queue| > 0
    then [Taken(c.workers[e.worker].key, c.workers[e.worker].queue[0])]
    else []
  }

  function Worked(w: World, e: W.Event, limits: Limits): World {
    w.(client := W.Next(w.client, e, limits.destinations, limits.client), taken := w.taken + TakenBy(w.client, e))
  }

  ghost predicate Sound(w: World, limits: Limits) {
    Wf(w.channel.rx.pending) && F.Wf(w.table, limits.server)
  }

  ghost function Next(w: World, e: Event, limits: Limits): (r: World)
    requires Sound(w, limits)
    ensures Sound(r, limits)
  {
    match e
    case Public(service, peer, payload, now) =>
      F.ArrivedWf(w.table, service, peer, now, limits.server);
      Admitted(w, service, peer, payload, now, limits.server)
    case Send(n) => HandedOver(w, n)
    case Reply(service, id, now) =>
      F.RoutedWf(w.table, service, id, now, limits.server);
      w.(table := F.Routed(w.table, service, id, now).table)
    case Sweep(now, idle) =>
      F.SweptWf(w.table, now, idle, limits.server);
      w.(table := F.Swept(w.table, now, idle))
    case Tunnel(step) => if step.Begin? then w else Carried(w, step, limits)
    case Work(event) => if event.Packet? then w else Worked(w, event, limits)
  }

  function Initial(registration: seq<byte>, cipher: seq<byte>): World {
    World(F.EMPTY, [], [], {}, Start(registration, cipher), [], W.IDLE, [])
  }

  ghost function Run(w: World, events: seq<Event>, limits: Limits): (r: World)
    requires Sound(w, limits)
    ensures Sound(r, limits)
  {
    if events == [] then w else Next(Run(w, events[..|events| - 1], limits), events[|events| - 1], limits)
  }

  // ----- counting packets

  /** Queued packets that came in message `t`. */
  function Count(items: seq<W.Item>, t: u64): nat {
    if items == [] then 0 else (if items[0].message == t then 1 else 0) + Count(items[1..], t)
  }

  function Queued(workers: seq<W.Worker>, t: u64): nat {
    if workers == [] then 0 else Count(workers[0].queue, t) + Queued(workers[1..], t)
  }

  function Items(taken: seq<Taken>): (r: seq<W.Item>)
    ensures |r| == |taken|
  {
    seq(|taken|, i requires 0 <= i < |taken| => taken[i].item)
  }

  lemma {:induction false} CountSnoc(items: seq<W.Item>, p: W.Item, t: u64)
    ensures Count(items + [p], t) == Count(items, t) + if p.message == t then 1 else 0
  {
    if items == [] {
      assert [p][1..] == [];
    } else {
      CountSnoc(items[1..], p, t);
      assert (items + [p])[1..] == items[1..] + [p];
    }
  }

  lemma {:induction false} CountsOne(items: seq<W.Item>, i: nat)
    requires i < |items|
    ensures Count(items, items[i].message) >= 1
  {
    if i > 0 {
      CountsOne(items[1..], i - 1);
    }
  }

  lemma {:induction false} CountsTwo(items: seq<W.Item>, i: nat, j: nat)
    requires i < j < |items| && items[i].message == items[j].message
    ensures Count(items, items[i].message) >= 2
    decreases i
  {
    if i > 0 {
      CountsTwo(items[1..], i - 1, j - 1);
    } else {
      CountsOne(items[1..], j - 1);
    }
  }

  lemma {:induction false} QueuedAfterUpdate(workers: seq<W.Worker>, i: nat, w: W.Worker, t: u64)
    requires i < |workers|
    ensures Queued(workers[i := w], t) + Count(workers[i].queue, t) == Queued(workers, t) + Count(w.queue, t)
  {
    if i > 0 {
      QueuedAfterUpdate(workers[1..], i - 1, w, t);
      assert workers[i := w][1..] == workers[1..][i - 1 := w];
    } else {
      assert workers[0 := w][1..] == workers[1..];
    }
  }

  lemma {:induction false} QueuedAfterSpawn(workers: seq<W.Worker>, w: W.Worker, t: u64)
    ensures Queued(workers + [w], t) == Queued(workers, t) + Count(w.queue, t)
  {
    if workers == [] {
      assert [w][1..] == [];
    } else {
      QueuedAfterSpawn(workers[1..], w, t);
      assert (workers + [w])[1..] == workers[1..] + [w];
    }
  }

  lemma {:induction false} QueuedAfterJoin(workers: seq<W.Worker>, i: nat, t: u64)
    requires i < |workers|
    ensures Queued(workers[..i] + workers[i + 1..], t) <= Queued(workers, t)
  {
    if i == 0 {
      assert workers[..0] + workers[1..] == workers[1..];
    } else {
      QueuedAfterJoin(workers[1..], i - 1, t);
      assert (workers[..i] + workers[i + 1..])[1..] == workers[1..][..i - 1] + workers[1..][i..];
    }
  }

  /** A packet from the channel is queued at most once. */
  lemma ReceiveCounts(c: W.Client, key: W.Key, p: W.Item, max: nat, t: u64)
    ensures Queued(W.Received(c, key, p, max).workers, t) <= Queued(c.workers, t) + if p.message == t then 1 else 0
  {
    hide Queued, Count;
    var d := if key in c.flows || |c.flows| >= max then c else W.Spawned(c, key);
    if d != c {
      QueuedAfterSpawn(c.workers, d.workers[|c.workers|], t);
      assert Count([], t) == 0 by { NoItems(t); }
    }
    var i := W.IndexOf(d.workers, key);
    if key in d.flows && i < |d.workers| {
      QueuedAfterUpdate(d.workers, i, W.Offered(d, i, p).workers[i], t);
      CountSnoc(d.workers[i].queue, p, t);
    }
  }

  lemma NoItems(t: u64)
    ensures Count([], t) == 0
  {
  }

  /** What a worker takes leaves its queue; nothing the workers do adds to one. */
  lemma WorkCounts(c: W.Client, e: W.Event, limits: Limits, t: u64)
    requires !e.Packet?
    ensures Queued(W.Next(c, e, limits.destinations, limits.client).workers, t)
            + Count(Items(TakenBy(c, e)), t) <= Queued(c.workers, t)
  {
    hide Queued, W.Held;
    var after := W.Next(c, e, limits.destinations, limits.client).workers;
    assert TakenBy(c, e) == [] ==> Items(TakenBy(c, e)) == [];
    if e.worker < |c.workers| {
      if e.Join? {
        QueuedAfterJoin(c.workers, e.worker, t);
      } else {
        QueuedAfterUpdate(c.workers, e.worker, after[e.worker], t);
        assert TakenBy(c, e) != [] ==> Items(TakenBy(c, e)) == [c.workers[e.worker].queue[0]];
      }
      assert c.workers[e.worker := c.workers[e.worker]] == c.workers;
    }
  }

  // ----- invariant

  /** The packet is that of a message sent for this service and flow. */
  predicate Carries(jobs: seq<Job>, key: W.Key, item: W.Item) {
    && item.message < |jobs|
    && var m := jobs[item.message].message;
       item.payload == m.payload && key == (m.service, m.flow)
  }

  predicate QueuesInv(jobs: seq<Job>, workers: seq<W.Worker>) {
    forall i, a | 0 <= i < |workers| && 0 <= a < |workers[i].queue| ::
      Carries(jobs, workers[i].key, workers[i].queue[a])
  }

  predicate TakenInv(jobs: seq<Job>, taken: seq<Taken>) {
    forall k | 0 <= k < |taken| :: Carries(jobs, taken[k].key, taken[k].item)
  }

  /** The message is made of the public packet. */
  predicate MadeOf(m: Message, g: Given, payload: seq<byte>) {
    m.flow == g.id && m.service == g.key.0 && m.payload == payload
  }

  /** Each message is made of one public packet, and no packet makes two. */
  predicate FromInv(jobs: seq<Job>, from: seq<nat>, given: seq<Given>, payloads: seq<seq<byte>>, waiting: set<nat>) {
    && |from| == |jobs| && |payloads| == |given|
    && (forall j | 0 <= j < |from| ::
          from[j] < |given| && MadeOf(jobs[j].message, given[from[j]], payloads[from[j]]) && from[j] !in waiting)
    && (forall i, j | 0 <= i < j < |from| :: from[i] != from[j])
    && (forall n | n in waiting :: n < |given|)
  }

  /** A message is queued or taken at most once, and not before it is delivered. */
  predicate OnceInv(ids: set<u64>, workers: seq<W.Worker>, taken: seq<Taken>) {
    forall t: u64 :: Queued(workers, t) + Count(Items(taken), t) <= if t in ids then 1 else 0
  }

  /** Workers run, and have run, only for services with a destination. */
  predicate ServesInv(c: W.Client, taken: seq<Taken>, destinations: set<u16>) {
    W.ForDestinations(c, destinations) && forall k | 0 <= k < |taken| :: taken[k].key.0 in destinations
  }

  ghost predicate WorldInv(w: World, limits: Limits) {
    && Inv(w.channel) && F.Wf(w.table, limits.server)
    && GivenInv(w.table, w.given)
    && FromInv(w.channel.tx.jobs, w.from, w.given, w.payloads, w.waiting)
    && QueuesInv(w.channel.tx.jobs, w.client.workers)
    && TakenInv(w.channel.tx.jobs, w.taken)
    && OnceInv(Ids(w.channel.rx.delivered), w.client.workers, w.taken)
    && ServesInv(w.client, w.taken, limits.destinations)
  }

  // ----- the server's side

  lemma FromGrows(jobs: seq<Job>, from: seq<nat>, given: seq<Given>, payloads: seq<seq<byte>>, waiting: set<nat>,
                  g: Given, payload: seq<byte>)
    requires FromInv(jobs, from, given, payloads, waiting)
    ensures FromInv(jobs, from, given + [g], payloads + [payload], waiting + {|given|})
  {
  }

  lemma PublicKeepsInv(w: World, service: u16, peer: F.SocketAddr, payload: seq<byte>, now: nat, limits: Limits)
    requires WorldInv(w, limits)
    ensures WorldInv(Admitted(w, service, peer, payload, now, limits.server), limits)
  {
    hide Inv, F.Wf, F.Arrived, GivenInv, FromInv, QueuesInv, TakenInv, OnceInv, Ids;
    F.ArrivedWf(w.table, service, peer, now, limits.server);
    AdmitKeepsGiven(Server(w.channel, w.table, w.given, []), service, peer, now, limits.server);
    match F.Arrived(w.table, service, peer, now, limits.server).flow {
      case Ok(Some(id)) =>
        FromGrows(w.channel.tx.jobs, w.from, w.given, w.payloads, w.waiting, Given(id, (service, peer)), payload);
      case _ =>
    }
  }

  /** Jobs keep their messages. */
  predicate Kept(jobs: seq<Job>, after: seq<Job>) {
    |jobs| <= |after| && forall j | 0 <= j < |jobs| :: after[j].message == jobs[j].message
  }

  lemma KeptStays(jobs: seq<Job>, after: seq<Job>, workers: seq<W.Worker>, taken: seq<Taken>)
    requires Kept(jobs, after) && QueuesInv(jobs, workers) && TakenInv(jobs, taken)
    ensures QueuesInv(after, workers) && TakenInv(after, taken)
  {
  }

  lemma SendKeepsInv(w: World, n: nat, limits: Limits)
    requires WorldInv(w, limits) && Wf(w.channel.rx.pending)
    ensures WorldInv(HandedOver(w, n), limits)
  {
    hide Inv, Wf, F.Wf, GivenInv, QueuesInv, TakenInv, OnceInv, Ids;
    if n in w.waiting && MayBegin(w.channel.tx, w.payloads[n]) {
      var step := Begin(w.given[n].key.0, w.given[n].id, w.payloads[n]);
      ChannelSafety.NextKeepsInv(w.channel, step);
      var after := DatagramChannel.Next(w.channel, step);
      KeptStays(w.channel.tx.jobs, after.tx.jobs, w.client.workers, w.taken);
    }
  }

  lemma SweepKeepsGiven(table: F.Table, given: seq<Given>, now: nat, idle: nat)
    requires GivenInv(table, given)
    ensures GivenInv(F.Swept(table, now, idle), given)
  {
  }

  // ----- the client's side

  lemma ReceiveKeepsQueues(jobs: seq<Job>, c: W.Client, key: W.Key, p: W.Item, max: nat)
    requires QueuesInv(jobs, c.workers) && Carries(jobs, key, p)
    ensures QueuesInv(jobs, W.Received(c, key, p, max).workers)
  {
    hide Carries, W.Cost;
  }

  lemma WorkKeepsQueues(jobs: seq<Job>, c: W.Client, e: W.Event, limits: Limits)
    requires QueuesInv(jobs, c.workers) && !e.Packet?
    ensures QueuesInv(jobs, W.Next(c, e, limits.destinations, limits.client).workers)
    ensures TakenInv(jobs, TakenBy(c, e))
  {
    hide Carries, W.Held, W.Cost;
  }

  lemma TakeKeepsOnce(ids: set<u64>, c: W.Client, e: W.Event, taken: seq<Taken>, limits: Limits)
    requires OnceInv(ids, c.workers, taken) && !e.Packet?
    ensures OnceInv(ids, W.Next(c, e, limits.destinations, limits.client).workers, taken + TakenBy(c, e))
  {
    hide Queued, Count, W.Next;
    var more := TakenBy(c, e);
    forall t: u64
      ensures Count(Items(taken + more), t) == Count(Items(taken), t) + Count(Items(more), t)
    {
      NoItems(t);
      if more == [] {
        assert taken + more == taken && Items(more) == [];
      } else {
        assert Items(taken + more) == Items(taken) + [more[0].item];
        assert Items(more) == [] + [more[0].item];
        CountSnoc(Items(taken), more[0].item, t);
        CountSnoc([], more[0].item, t);
      }
    }
    forall t: u64 {
      WorkCounts(c, e, limits, t);
    }
  }

  lemma WorkKeepsInv(w: World, e: W.Event, limits: Limits)
    requires WorldInv(w, limits) && !e.Packet?
    ensures WorldInv(Worked(w, e, limits), limits)
  {
    hide Inv, F.Wf, GivenInv, FromInv, QueuesInv, Carries, OnceInv, Ids, W.Next;
    WorkKeepsQueues(w.channel.tx.jobs, w.client, e, limits);
    W.NextForDestinations(w.client, e, limits.destinations, limits.client);
    TakeKeepsOnce(Ids(w.channel.rx.delivered), w.client, e, w.taken, limits);
  }

  lemma OfferKeepsOnce(ids: set<u64>, c: W.Client, d: Delivery, taken: seq<Taken>, limits: Limits)
    requires OnceInv(ids, c.workers, taken) && d.id !in ids
    ensures OnceInv(ids + {d.id}, Offer(c, d, limits).workers, taken)
  {
    hide Queued, Count, W.Received;
    var key, item := (d.packet.service, d.packet.flow), W.Item(d.id, d.packet.payload);
    forall t: u64 {
      ReceiveCounts(c, key, item, limits.client, t);
    }
  }

  lemma OfferKeepsQueues(jobs: seq<Job>, c: W.Client, d: Delivery, limits: Limits)
    requires QueuesInv(jobs, c.workers) && d.id < |jobs| && d.packet == PacketOf(jobs[d.id].message)
    ensures QueuesInv(jobs, Offer(c, d, limits).workers)
  {
    hide QueuesInv, W.Received;
    ReceiveKeepsQueues(jobs, c, (d.packet.service, d.packet.flow), W.Item(d.id, d.packet.payload), limits.client);
  }

  // ----- the channel between them

  lemma JobsStay(c: Channel, step: Step)
    requires Wf(c.rx.pending) && !step.Begin?
    ensures var before, after := c.tx.jobs, DatagramChannel.Next(c, step).tx.jobs;
            |after| == |before| && Kept(before, after)
  {
    hide Wf, Pushed, Parse;
  }

  lemma KeptFrom(jobs: seq<Job>, after: seq<Job>, w: World)
    requires Kept(jobs, after) && |after| == |jobs| && FromInv(jobs, w.from, w.given, w.payloads, w.waiting)
    ensures FromInv(after, w.from, w.given, w.payloads, w.waiting)
  {
  }

  lemma TunnelKeepsInv(w: World, step: Step, limits: Limits)
    requires WorldInv(w, limits) && Wf(w.channel.rx.pending) && !step.Begin?
    ensures WorldInv(Carried(w, step, limits), limits)
  {
    hide Inv, Wf, F.Wf, GivenInv, FromInv, QueuesInv, TakenInv, OnceInv, Ids, Kept, W.Next, DatagramChannel.Next;
    ChannelSafety.NextKeepsInv(w.channel, step);
    StepDelivers(w.channel, step);
    JobsStay(w.channel, step);
    var c, prior := DatagramChannel.Next(w.channel, step), w.channel.rx.delivered;
    KeptStays(w.channel.tx.jobs, c.tx.jobs, w.client.workers, w.taken);
    KeptFrom(w.channel.tx.jobs, c.tx.jobs, w);
    if |c.rx.delivered| > |prior| {
      var d := c.rx.delivered[|c.rx.delivered| - 1];
      assert c.rx.delivered == prior + [d];
      NewDelivery(c, d, prior);
      OfferKeepsOnce(Ids(prior), w.client, d, w.taken, limits);
      OfferKeepsQueues(c.tx.jobs, w.client, d, limits);
      W.NextForDestinations(w.client, OfferOf(d), limits.destinations, limits.client);
    }
  }

  // ----- every run

  lemma EventKeepsInv(w: World, e: Event, limits: Limits)
    requires WorldInv(w, limits) && Sound(w, limits)
    ensures WorldInv(Next(w, e, limits), limits)
  {
    hide Inv, Wf, F.Wf, GivenInv, FromInv, QueuesInv, TakenInv, OnceInv, Ids, Admitted, HandedOver, Carried, Worked;
    match e
    case Public(service, peer, payload, now) => PublicKeepsInv(w, service, peer, payload, now, limits);
    case Send(n) => SendKeepsInv(w, n, limits);
    case Reply(service, id, now) =>
      F.RoutedWf(w.table, service, id, now, limits.server);
      RouteKeepsGiven(w.table, w.given, service, id, now);
    case Sweep(now, idle) =>
      F.SweptWf(w.table, now, idle, limits.server);
      SweepKeepsGiven(w.table, w.given, now, idle);
    case Tunnel(step) =>
      if !step.Begin? {
        TunnelKeepsInv(w, step, limits);
      }
    case Work(event) =>
      if !event.Packet? {
        WorkKeepsInv(w, event, limits);
      }
  }

  lemma {:induction false} RunKeepsInv(w: World, events: seq<Event>, limits: Limits)
    requires WorldInv(w, limits) && Sound(w, limits)
    ensures WorldInv(Run(w, events, limits), limits)
  {
    hide WorldInv, Sound, Next;
    if events != [] {
      RunKeepsInv(w, events[..|events| - 1], limits);
      EventKeepsInv(Run(w, events[..|events| - 1], limits), events[|events| - 1], limits);
    }
  }

  lemma InitialInv(registration: seq<byte>, cipher: seq<byte>, limits: Limits)
    ensures WorldInv(Initial(registration, cipher), limits) && Sound(Initial(registration, cipher), limits)
  {
    hide Inv;
    StartInv(registration, cipher);
  }

  /** What was taken for a flow is a packet of the one peer that ever had the flow's ID. */
  ghost predicate FromItsPeer(w: World, x: Taken) {
    && x.item.message < |w.from| && |w.payloads| == |w.given|
    && var n := w.from[x.item.message];
       && n < |w.given|
       && x.item.payload == w.payloads[n]
       && x.key == (w.given[n].key.0, w.given[n].id)
       && forall g | g in w.given && g.id == x.key.1 :: g.key == w.given[n].key
  }

  /**
   * Each packet taken is one that a public peer sent to a service with a destination, on a flow that is that
   * peer's alone; none is taken twice.
   */
  ghost predicate TakenRightly(w: World, destinations: set<u16>) {
    && (forall k | 0 <= k < |w.taken| :: FromItsPeer(w, w.taken[k]) && w.taken[k].key.0 in destinations)
    && (forall k, l | 0 <= k < l < |w.taken| ::
          w.from[w.taken[k].item.message] != w.from[w.taken[l].item.message])
  }

  lemma InvMeansRightly(w: World, limits: Limits)
    requires WorldInv(w, limits)
    ensures TakenRightly(w, limits.destinations)
  {
    hide Inv, F.Wf, Queued, Count;
    forall k, l | 0 <= k < l < |w.taken|
      ensures w.taken[k].item.message != w.taken[l].item.message
    {
      if w.taken[k].item.message == w.taken[l].item.message {
        CountsTwo(Items(w.taken), k, l);
      }
    }
  }

  /**
   * In every run of both ends, each packet a worker takes for a service and flow is one that a public peer
   * sent to that service, and that peer and service alone were ever given the flow's ID; and no public
   * packet is taken twice.
   */
  lemma RequestsComeFromTheirPeerOnce(registration: seq<byte>, cipher: seq<byte>, events: seq<Event>, limits: Limits)
    requires Sound(Initial(registration, cipher), limits)
    ensures TakenRightly(Run(Initial(registration, cipher), events, limits), limits.destinations)
  {
    hide Run, WorldInv, Sound, TakenRightly;
    InitialInv(registration, cipher, limits);
    RunKeepsInv(Initial(registration, cipher), events, limits);
    InvMeansRightly(Run(Initial(registration, cipher), events, limits), limits);
  }
}
