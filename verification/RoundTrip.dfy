/**
 * The UDP path both ways over one flow table: public packets reach the client's workers, what a worker's
 * local service answers goes back on the worker's flow, and the server sends it to the flow's peer.
 */
module RoundTrip {
  import opened Prelude
  import opened Bytes
  import opened Fragments
  import opened Reassembly
  import opened DatagramChannel
  import opened ChannelSafety
  import opened Replies
  import F = Flows
  import W = Forwarding
  import R = Requests

  /**
   * `down` is everything on the way to the workers, the flow table among it; `up` is the channel back.
   * `made[key]` is the number of the public packet that the present worker of a flow was made for, and
   * `origin[j]` that of the worker which sent answer `j`. `sent` is what the server sent to its peers.
   */
  datatype Trip = Trip(down: R.World, made: map<W.Key, nat>, up: Channel, origin: seq<nat>, sent: seq<Sent>)

  datatype Event =
    | Forth(event: R.Event)
    | Answer(worker: nat, payload: seq<byte>)
    | Back(step: Step)

  /** The server as the channel back sees it. */
  function ServerOf(t: Trip): Server {
    Server(t.up, t.down.table, t.down.given, t.sent)
  }

  ghost predicate Sound(t: Trip, limits: R.Limits) {
    R.Sound(t.down, limits) && Ready(ServerOf(t), limits.server)
  }

  /** A packet that is delivered makes a worker if its flow has none and there is room for one. */
  function Makers(before: R.World, after: R.World, made: map<W.Key, nat>): map<W.Key, nat> {
    var n, m := |before.channel.rx.delivered|, |after.channel.rx.delivered|;
    if m > n then
      var d := after.channel.rx.delivered[m - 1];
      var key := (d.packet.service, d.packet.flow);
      if key in after.client.flows - before.client.flows && d.id < |after.from| then made[key := after.from[d.id]]
      else made
    else made
  }

  ghost function Went(t: Trip, e: R.Event, limits: R.Limits): Trip
    requires Sound(t, limits)
  {
    var down := R.Next(t.down, e, limits);
    t.(down := down, made := Makers(t.down, down, t.made))
  }

  /** A worker passes on what its local service answered. (By the invariant below every worker has a maker.) */
  ghost function Answered(t: Trip, i: nat, payload: seq<byte>): Trip
    requires Wf(t.up.rx.pending)
  {
    if i < |t.down.client.workers| && t.down.client.workers[i].running && t.down.client.workers[i].key in t.made
       && MayBegin(t.up.tx, payload)
    then
      var key := t.down.client.workers[i].key;
      t.(up := DatagramChannel.Next(t.up, Begin(key.0, key.1, payload)), origin := t.origin + [t.made[key]])
    else t
  }

  ghost function Came(t: Trip, step: Step, limits: R.Limits): Trip
    requires Sound(t, limits)
  {
    var s := Replies.Next(ServerOf(t), Tunnel(step), limits.server);
    t.(down := t.down.(table := s.table), up := s.channel, sent := s.sent)
  }

  ghost function Next(t: Trip, e: Event, limits: R.Limits): (r: Trip)
    requires Sound(t, limits)
    ensures Sound(r, limits)
  {
    match e
    case Forth(event) => if event.Reply? then t else Went(t, event, limits)
    case Answer(i, payload) => Answered(t, i, payload)
    case Back(step) => if step.Begin? then t else Came(t, step, limits)
  }

  ghost function Run(t: Trip, events: seq<Event>, limits: R.Limits): (r: Trip)
    requires Sound(t, limits)
    ensures Sound(r, limits)
  {
    if events == [] then t else Next(Run(t, events[..|events| - 1], limits), events[|events| - 1], limits)
  }

  /** The two directions start from the two messages of the registration exchange. */
  function Initial(request: seq<byte>, reply: seq<byte>, up: seq<byte>, down: seq<byte>): Trip {
    Trip(R.Initial(reply, down), map[], Start(request, up), [], [])
  }

  // ----- invariant

  /** Public packet `n` came in on the flow. */
  predicate OnFlow(given: seq<Given>, n: nat, key: W.Key) {
    n < |given| && given[n].id == key.1 && given[n].key.0 == key.0
  }

  predicate MadeInv(flows: set<W.Key>, made: map<W.Key, nat>, given: seq<Given>) {
    forall key | key in flows :: key in made && OnFlow(given, made[key], key)
  }

  predicate OriginInv(jobs: seq<Job>, origin: seq<nat>, given: seq<Given>) {
    && |origin| == |jobs|
    && forall j | 0 <= j < |jobs| :: OnFlow(given, origin[j], (jobs[j].message.service, jobs[j].message.flow))
  }

  ghost predicate TripInv(t: Trip, limits: R.Limits) {
    && R.WorldInv(t.down, limits)
    && ServerInv(ServerOf(t), limits.server)
    && W.Inv(t.down.client, limits.client)
    && MadeInv(t.down.client.flows, t.made, t.down.given)
    && OriginInv(t.up.tx.jobs, t.origin, t.down.given)
  }

  // ----- the way forth

  /** Packets given a flow ID so far stay as they are. */
  lemma GivenGrows(w: R.World, e: R.Event, limits: R.Limits)
    requires R.Sound(w, limits)
    ensures w.given <= R.Next(w, e, limits).given
  {
    hide Wf, F.Wf, F.Arrived, DatagramChannel.Next, W.Next;
  }

  lemma StaysOnFlow(given: seq<Given>, after: seq<Given>, flows: set<W.Key>, made: map<W.Key, nat>,
                    jobs: seq<Job>, origin: seq<nat>)
    requires given <= after && MadeInv(flows, made, given) && OriginInv(jobs, origin, given)
    ensures MadeInv(flows, made, after) && OriginInv(jobs, origin, after)
  {
  }

  /** The server's table and what it has given change as they do for the channel back. */
  lemma ForthKeepsServer(t: Trip, e: R.Event, limits: R.Limits)
    requires Sound(t, limits) && ServerInv(ServerOf(t), limits.server) && !e.Reply?
    ensures ServerInv(ServerOf(Went(t, e, limits)), limits.server)
  {
    hide Wf, Inv, F.Wf, F.Arrived, F.Swept, GivenInv, OnceInv, SentInv, Ids, DatagramChannel.Next, W.Next;
    match e
    case Public(service, peer, payload, now) => AdmitKeepsInv(ServerOf(t), service, peer, now, limits.server);
    case Sweep(now, idle) => SweepKeepsInv(ServerOf(t), now, idle, limits.server);
    case _ =>
  }

  /** A delivered packet is the only thing that adds a flow, and only its own. */
  lemma FlowsAfter(c: W.Client, e: W.Event, destinations: set<u16>, max: nat)
    ensures W.Next(c, e, destinations, max).flows <= if e.Packet? then c.flows + {e.key} else c.flows
  {
    hide W.Held, W.Cost;
  }

  lemma ForthKeepsWorkers(w: R.World, e: R.Event, limits: R.Limits)
    requires R.Sound(w, limits) && W.Inv(w.client, limits.client)
    ensures W.Inv(R.Next(w, e, limits).client, limits.client)
  {
    hide W.Inv, W.Next, Wf, F.Wf, F.Arrived, DatagramChannel.Next;
    if e.Work? {
      W.NextKeepsInv(w.client, e.event, limits.destinations, limits.client);
    } else if e.Tunnel? && !e.step.Begin? {
      var c := DatagramChannel.Next(w.channel, e.step);
      if |c.rx.delivered| > |w.channel.rx.delivered| {
        var d := c.rx.delivered[|c.rx.delivered| - 1];
        W.NextKeepsInv(w.client, R.OfferOf(d), limits.destinations, limits.client);
      }
    }
  }

  /** A worker's maker came in on the worker's flow. */
  lemma ForthKeepsMakers(t: Trip, e: R.Event, limits: R.Limits)
    requires Sound(t, limits) && R.WorldInv(t.down, limits) && MadeInv(t.down.client.flows, t.made, t.down.given)
    ensures var after := Went(t, e, limits); MadeInv(after.down.client.flows, after.made, after.down.given)
  {
    hide Wf, Inv, F.Wf, F.Arrived, F.Swept, GivenInv, Ids, DatagramChannel.Next, W.Next, R.OnceInv, R.QueuesInv;
    GivenGrows(t.down, e, limits);
    var w := t.down;
    if e.Work? {
      FlowsAfter(w.client, e.event, limits.destinations, limits.client);
    } else if e.Tunnel? && !e.step.Begin? {
      var c := DatagramChannel.Next(w.channel, e.step);
      StepDelivers(w.channel, e.step);
      if |c.rx.delivered| > |w.channel.rx.delivered| {
        var d := c.rx.delivered[|c.rx.delivered| - 1];
        FlowsAfter(w.client, R.OfferOf(d), limits.destinations, limits.client);
        MakerOnFlow(w, e.step, d, limits);
      }
    }
  }

  lemma MakerOnFlow(w: R.World, step: Step, d: Delivery, limits: R.Limits)
    requires R.WorldInv(w, limits) && Wf(w.channel.rx.pending) && !step.Begin?
    requires DatagramChannel.Next(w.channel, step).rx.delivered == w.channel.rx.delivered + [d]
    ensures d.id < |w.from| && OnFlow(w.given, w.from[d.id], (d.packet.service, d.packet.flow))
  {
    hide Wf, Inv, F.Wf, GivenInv, Ids, DatagramChannel.Next, R.OnceInv, R.QueuesInv, R.TakenInv;
    ChannelSafety.NextKeepsInv(w.channel, step);
    R.JobsStay(w.channel, step);
    NewDelivery(DatagramChannel.Next(w.channel, step), d, w.channel.rx.delivered);
  }

  lemma ForthKeepsInv(t: Trip, e: R.Event, limits: R.Limits)
    requires Sound(t, limits) && TripInv(t, limits) && !e.Reply?
    ensures TripInv(Went(t, e, limits), limits)
  {
    hide R.WorldInv, ServerInv, W.Inv, R.Next, Makers, MadeInv, OriginInv, R.Sound, Ready;
    R.EventKeepsInv(t.down, e, limits);
    ForthKeepsServer(t, e, limits);
    ForthKeepsWorkers(t.down, e, limits);
    ForthKeepsMakers(t, e, limits);
    GivenGrows(t.down, e, limits);
    StaysOnFlow(t.down.given, R.Next(t.down, e, limits).given, t.down.client.flows, t.made, t.up.tx.jobs, t.origin);
  }

  // ----- and back

  lemma AnswerKeepsInv(t: Trip, i: nat, payload: seq<byte>, limits: R.Limits)
    requires Sound(t, limits) && TripInv(t, limits)
    ensures TripInv(Answered(t, i, payload), limits)
  {
    hide R.WorldInv, ServerInv, Wf, F.Wf, W.AllHeld, W.WorkerInv;
    var workers := t.down.client.workers;
    if i < |workers| && workers[i].running && workers[i].key in t.made && MayBegin(t.up.tx, payload) {
      var key := workers[i].key;
      TunnelKeepsInv(ServerOf(t), Begin(key.0, key.1, payload), limits.server);
      assert OnFlow(t.down.given, t.made[key], key);
    }
  }

  lemma BackKeepsWorld(w: R.World, table: F.Table, limits: R.Limits)
    requires R.WorldInv(w, limits) && F.Wf(table, limits.server) && GivenInv(table, w.given)
    ensures R.WorldInv(w.(table := table), limits)
  {
    hide Inv, F.Wf, GivenInv, Ids, R.FromInv, R.QueuesInv, R.TakenInv, R.OnceInv;
  }

  lemma GivenStays(s: Server, step: Step, max: nat)
    requires Ready(s, max)
    ensures var after := Replies.Next(s, Tunnel(step), max);
            after.given == s.given && after.channel == DatagramChannel.Next(s.channel, step)
  {
    hide Wf, F.Wf, DatagramChannel.Next, F.Routed;
  }

  lemma BackKeepsInv(t: Trip, step: Step, limits: R.Limits)
    requires Sound(t, limits) && TripInv(t, limits) && !step.Begin?
    ensures TripInv(Came(t, step, limits), limits)
  {
    hide R.WorldInv, Wf, F.Wf, Inv, GivenInv, OnceInv, SentInv, Ids, W.Inv, MadeInv;
    hide Replies.Next, DatagramChannel.Next;
    TunnelKeepsInv(ServerOf(t), step, limits.server);
    GivenStays(ServerOf(t), step, limits.server);
    R.JobsStay(t.up, step);
    BackKeepsWorld(t.down, Replies.Next(ServerOf(t), Tunnel(step), limits.server).table, limits);
  }

  // ----- every run

  lemma EventKeepsInv(t: Trip, e: Event, limits: R.Limits)
    requires Sound(t, limits) && TripInv(t, limits)
    ensures TripInv(Next(t, e, limits), limits)
  {
    hide TripInv, Sound, Went, Answered, Came;
    match e
    case Forth(event) =>
      if !event.Reply? {
        ForthKeepsInv(t, event, limits);
      }
    case Answer(i, payload) => AnswerKeepsInv(t, i, payload, limits);
    case Back(step) =>
      if !step.Begin? {
        BackKeepsInv(t, step, limits);
      }
  }

  lemma {:induction false} RunKeepsInv(t: Trip, events: seq<Event>, limits: R.Limits)
    requires Sound(t, limits) && TripInv(t, limits)
    ensures TripInv(Run(t, events, limits), limits)
  {
    hide TripInv, Sound, Next;
    if events != [] {
      RunKeepsInv(t, events[..|events| - 1], limits);
      EventKeepsInv(Run(t, events[..|events| - 1], limits), events[|events| - 1], limits);
    }
  }

  lemma InitialInv(request: seq<byte>, reply: seq<byte>, up: seq<byte>, down: seq<byte>, limits: R.Limits)
    ensures var t := Initial(request, reply, up, down); Sound(t, limits) && TripInv(t, limits)
  {
    hide Inv;
    R.InitialInv(reply, down, limits);
    Replies.InitialInv(request, up, limits.server);
  }

  /** What the server sent to a peer answers a packet of that very peer, through the worker made for it. */
  ghost predicate AnswersItsPeer(t: Trip, x: Sent) {
    && x.message < |t.up.tx.jobs| && x.message < |t.origin|
    && var m, n := t.up.tx.jobs[x.message].message, t.origin[x.message];
       && x.payload == m.payload
       && n < |t.down.given| && t.down.given[n] == Given(m.flow, (m.service, x.peer))
  }

  /**
   * There and back, in every run with both directions over one flow table: workers take what is theirs, as
   * in `Requests`; whatever the server sends to a peer is what a worker sent back, unaltered, and the packet
   * that made the worker was that peer's own, to the same service; and nothing a worker sent back goes out
   * twice.
   */
  lemma AnswersReturnToTheirPeerOnce(request: seq<byte>, reply: seq<byte>, up: seq<byte>, down: seq<byte>,
                                     events: seq<Event>, limits: R.Limits)
    requires Sound(Initial(request, reply, up, down), limits)
    ensures var t := Run(Initial(request, reply, up, down), events, limits);
            && R.TakenRightly(t.down, limits.destinations)
            && (forall k | 0 <= k < |t.sent| :: AnswersItsPeer(t, t.sent[k]))
            && (forall k, l | 0 <= k < l < |t.sent| :: t.sent[k].message != t.sent[l].message)
  {
    hide Run, Sound, Inv, F.Wf, R.WorldInv, R.TakenRightly, W.Inv, Ids;
    InitialInv(request, reply, up, down, limits);
    RunKeepsInv(Initial(request, reply, up, down), events, limits);
    var t := Run(Initial(request, reply, up, down), events, limits);
    R.InvMeansRightly(t.down, limits);
    forall k | 0 <= k < |t.sent|
      ensures AnswersItsPeer(t, t.sent[k])
    {
      assert SentInv(t.up, t.down.given, t.sent[k]);
      var m := t.up.tx.jobs[t.sent[k].message].message;
      assert OnFlow(t.down.given, t.origin[t.sent[k].message], (m.service, m.flow));
    }
  }
}
