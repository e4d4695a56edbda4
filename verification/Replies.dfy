/**
 * The server's end of the tunnel put together: the datagram channel from the client feeds the flow
 * table, which decides where each packet goes.
 */
module Replies {
  import opened Prelude
  import opened Bytes
  import opened Fragments
  import opened Reassembly
  import opened DatagramChannel
  import opened ChannelSafety
  import F = Flows

  /** A public packet was sent into the tunnel under this flow ID. */
  datatype Given = Given(id: u64, key: F.Key)

  /** The payload of a delivered message was sent to a public peer. */
  datatype Sent = Sent(message: u64, peer: F.SocketAddr, payload: seq<byte>)

  datatype Server = Server(channel: Channel, table: F.Table, given: seq<Given>, sent: seq<Sent>)

  datatype Event =
    | Tunnel(step: Step)
    | Public(service: u16, peer: F.SocketAddr, now: nat)
    | Sweep(now: nat, idle: nat)

  /** A packet the channel has just delivered is routed; without a destination it is dropped. */
  function Forward(s: Server, d: Delivery): Server {
    var r := F.Routed(s.table, d.packet.service, d.packet.flow, s.channel.rx.now);
    s.(table := r.table,
       sent := if r.destination.Some? then s.sent + [Sent(d.id, r.destination.value, d.packet.payload)] else s.sent)
  }

  function Admit(s: Server, service: u16, peer: F.SocketAddr, now: nat, max: nat): Server
    requires F.Wf(s.table, max)
  {
    var r := F.Arrived(s.table, service, peer, now, max);
    s.(table := r.table,
       given := match r.flow
                case Ok(Some(id)) => s.given + [Given(id, (service, peer))]
                case _ => s.given)
  }

  /** Both tables are well formed. */
  ghost predicate Ready(s: Server, max: nat) {
    Wf(s.channel.rx.pending) && F.Wf(s.table, max)
  }

  ghost function Next(s: Server, e: Event, max: nat): (r: Server)
    requires Ready(s, max)
    ensures Ready(r, max)
  {
    match e
    case Tunnel(step) =>
      var c := DatagramChannel.Next(s.channel, step);
      var after := s.(channel := c);
      if |c.rx.delivered| > |s.channel.rx.delivered| then
        var d := c.rx.delivered[|c.rx.delivered| - 1];
        F.RoutedWf(s.table, d.packet.service, d.packet.flow, c.rx.now, max);
        Forward(after, d)
      else after
    case Public(service, peer, now) =>
      F.ArrivedWf(s.table, service, peer, now, max);
      Admit(s, service, peer, now, max)
    case Sweep(now, idle) =>
      F.SweptWf(s.table, now, idle, max);
      s.(table := F.Swept(s.table, now, idle))
  }

  function Initial(registration: seq<byte>, cipher: seq<byte>): Server {
    Server(Start(registration, cipher), F.EMPTY, [], [])
  }

  ghost function Run(s: Server, events: seq<Event>, max: nat): (r: Server)
    requires Ready(s, max)
    ensures Ready(r, max)
  {
    if events == [] then s else Next(Run(s, events[..|events| - 1], max), events[|events| - 1], max)
  }

  // ----- invariant

  /** Every live flow was given out, every ID given out is below `next`, and never to two owners. */
  ghost predicate GivenInv(table: F.Table, given: seq<Given>) {
    && (forall id | id in table.byId :: Given(id, F.KeyOf(table.byId[id])) in given)
    && (forall g | g in given :: g.id < table.next)
    && (forall g, h | g in given && h in given && g.id == h.id :: g == h)
  }

  /** The payload was sent by the client, on a flow given to this very peer. */
  ghost predicate SentInv(c: Channel, given: seq<Given>, x: Sent) {
    && x.message < |c.tx.jobs|
    && var m := c.tx.jobs[x.message].message;
       x.payload == m.payload && Given(m.flow, (m.service, x.peer)) in given
  }

  ghost function Ids(delivered: seq<Delivery>): set<u64> {
    set d | d in delivered :: d.id
  }

  /** What is sent out comes from deliveries, each used at most once. */
  ghost predicate OnceInv(ids: set<u64>, sent: seq<Sent>) {
    && (forall k | 0 <= k < |sent| :: sent[k].message in ids)
    && (forall k, l | 0 <= k < l < |sent| :: sent[k].message != sent[l].message)
  }

  ghost predicate ServerInv(s: Server, max: nat) {
    && Inv(s.channel)
    && F.Wf(s.table, max)
    && GivenInv(s.table, s.given)
    && (forall k | 0 <= k < |s.sent| :: SentInv(s.channel, s.given, s.sent[k]))
    && OnceInv(Ids(s.channel.rx.delivered), s.sent)
  }

  // ----- steps

  lemma StepDelivers(c: Channel, s: Step)
    requires Wf(c.rx.pending)
    ensures var before, after := c.rx.delivered, DatagramChannel.Next(c, s).rx.delivered;
            after == before || (|after| == |before| + 1 && after[..|before|] == before)
    ensures var before, after := c.tx.jobs, DatagramChannel.Next(c, s).tx.jobs;
            forall j | 0 <= j < |before| :: j < |after| && after[j].message == before[j].message
  {
    hide Wf, Pushed, Parse;
  }

  lemma AgainKeepsGiven(table: F.Table, given: seq<Given>, id: u64, now: nat)
    requires GivenInv(table, given) && id in table.byId
    ensures GivenInv(table.(byId := table.byId[id := table.byId[id].(touched := now)]),
                     given + [Given(id, F.KeyOf(table.byId[id]))])
  {
  }

  lemma NewKeepsGiven(table: F.Table, given: seq<Given>, f: F.Flow)
    requires GivenInv(table, given) && table.next < F.MAX_ID
    ensures GivenInv(F.Table(table.next + 1, table.byId[table.next := f], table.byPeer[F.KeyOf(f) := table.next]),
                     given + [Given(table.next, F.KeyOf(f))])
  {
  }

  lemma AdmitKeepsGiven(s: Server, service: u16, peer: F.SocketAddr, now: nat, max: nat)
    requires F.Wf(s.table, max) && GivenInv(s.table, s.given)
    ensures GivenInv(Admit(s, service, peer, now, max).table, Admit(s, service, peer, now, max).given)
  {
    hide GivenInv;
    var key := (service, peer);
    if key in s.table.byPeer {
      AgainKeepsGiven(s.table, s.given, s.table.byPeer[key], now);
    } else if |s.table.byId| < max && s.table.next != F.MAX_ID {
      NewKeepsGiven(s.table, s.given, F.Flow(service, peer, now));
    }
  }

  lemma RouteKeepsGiven(table: F.Table, given: seq<Given>, service: u16, id: u64, now: nat)
    requires GivenInv(table, given)
    ensures GivenInv(F.Routed(table, service, id, now).table, given)
  {
  }

  lemma NewDelivery(c: Channel, d: Delivery, prior: seq<Delivery>)
    requires Inv(c) && c.rx.delivered == prior + [d]
    ensures d.id < |c.tx.jobs| && d.packet == PacketOf(c.tx.jobs[d.id].message)
    ensures d.id !in Ids(prior) && Ids(c.rx.delivered) == Ids(prior) + {d.id}
  {
    hide SendingInv, OpenedInv, TableInv, Genuine;
    assert c.rx.delivered[|prior|] == d && Genuine(c.tx.jobs[d.id], c.rx, d.packet, d.at);
    GenuinePacket(c.tx.jobs[d.id], c.rx, d.packet, d.at);
    assert forall k | 0 <= k < |prior| :: c.rx.delivered[k] == prior[k];
  }

  lemma GenuinePacket(job: Job, rx: Receiving, packet: Packet, at: nat)
    requires Genuine(job, rx, packet, at)
    ensures packet == PacketOf(job.message)
  {
  }

  lemma RoutedWasGiven(table: F.Table, given: seq<Given>, service: u16, id: u64, now: nat)
    requires GivenInv(table, given) && F.Routed(table, service, id, now).destination.Some?
    ensures Given(id, (service, F.Routed(table, service, id, now).destination.value)) in given
  {
  }

  lemma ForwardKeepsInv(s: Server, d: Delivery, prior: seq<Delivery>, max: nat)
    requires Inv(s.channel) && F.Wf(s.table, max) && GivenInv(s.table, s.given)
    requires forall k | 0 <= k < |s.sent| :: SentInv(s.channel, s.given, s.sent[k])
    requires s.channel.rx.delivered == prior + [d] && OnceInv(Ids(prior), s.sent)
    ensures ServerInv(Forward(s, d), max)
  {
    hide Inv, F.Wf, GivenInv, Ids, F.Routed;
    var now := s.channel.rx.now;
    F.RoutedWf(s.table, d.packet.service, d.packet.flow, now, max);
    RouteKeepsGiven(s.table, s.given, d.packet.service, d.packet.flow, now);
    NewDelivery(s.channel, d, prior);
    if F.Routed(s.table, d.packet.service, d.packet.flow, now).destination.Some? {
      RoutedWasGiven(s.table, s.given, d.packet.service, d.packet.flow, now);
    }
  }

  lemma SentStays(c: Channel, step: Step, given: seq<Given>, x: Sent)
    requires Wf(c.rx.pending) && SentInv(c, given, x)
    ensures SentInv(DatagramChannel.Next(c, step), given, x)
  {
    hide Wf, DatagramChannel.Next;
    StepDelivers(c, step);
  }

  lemma TunnelKeepsInv(s: Server, step: Step, max: nat)
    requires ServerInv(s, max) && Wf(s.channel.rx.pending) && Ready(s, max)
    ensures ServerInv(Next(s, Tunnel(step), max), max)
  {
    hide Wf, Inv, F.Wf, GivenInv, OnceInv, SentInv, Ids, DatagramChannel.Next, Forward;
    NextKeepsInv(s.channel, step);
    StepDelivers(s.channel, step);
    var c := DatagramChannel.Next(s.channel, step);
    var prior := s.channel.rx.delivered;
    forall k | 0 <= k < |s.sent| ensures SentInv(c, s.given, s.sent[k]) {
      SentStays(s.channel, step, s.given, s.sent[k]);
    }
    if |c.rx.delivered| > |prior| {
      var d := c.rx.delivered[|c.rx.delivered| - 1];
      assert c.rx.delivered == prior + [d];
      ForwardKeepsInv(s.(channel := c), d, prior, max);
    }
  }

  lemma AdmitKeepsInv(s: Server, service: u16, peer: F.SocketAddr, now: nat, max: nat)
    requires ServerInv(s, max)
    ensures ServerInv(Admit(s, service, peer, now, max), max)
  {
    hide Inv, F.Wf, GivenInv, OnceInv, F.Arrived;
    F.ArrivedWf(s.table, service, peer, now, max);
    AdmitKeepsGiven(s, service, peer, now, max);
  }

  lemma SweepKeepsInv(s: Server, now: nat, idle: nat, max: nat)
    requires ServerInv(s, max)
    ensures ServerInv(s.(table := F.Swept(s.table, now, idle)), max)
  {
    hide Inv, F.Wf, OnceInv, SentInv;
    F.SweptWf(s.table, now, idle, max);
  }

  lemma EventKeepsInv(s: Server, e: Event, max: nat)
    requires ServerInv(s, max) && Ready(s, max)
    ensures ServerInv(Next(s, e, max), max)
  {
    hide ServerInv, F.Wf, Wf, DatagramChannel.Next, Forward, Admit;
    match e
    case Tunnel(step) => TunnelKeepsInv(s, step, max);
    case Public(service, peer, now) => AdmitKeepsInv(s, service, peer, now, max);
    case Sweep(now, idle) => SweepKeepsInv(s, now, idle, max);
  }

  // ----- every run

  lemma {:induction false} RunKeepsInv(s: Server, events: seq<Event>, max: nat)
    requires ServerInv(s, max) && Ready(s, max)
    ensures ServerInv(Run(s, events, max), max)
  {
    hide ServerInv, Ready, Next;
    if events != [] {
      RunKeepsInv(s, events[..|events| - 1], max);
      EventKeepsInv(Run(s, events[..|events| - 1], max), events[|events| - 1], max);
    }
  }

  lemma InitialInv(registration: seq<byte>, cipher: seq<byte>, max: nat)
    ensures ServerInv(Initial(registration, cipher), max) && Ready(Initial(registration, cipher), max)
  {
    StartInv(registration, cipher);
  }

  /** The server's part of a payload that left for a peer: who sent it, and whose flow it was. */
  ghost predicate RightPeer(s: Server, x: Sent) {
    && x.message < |s.channel.tx.jobs|
    && var m := s.channel.tx.jobs[x.message].message;
       && x.payload == m.payload
       && Given(m.flow, (m.service, x.peer)) in s.given
       && forall g | g in s.given && g.id == m.flow :: g.key == (m.service, x.peer)
  }

  /**
   * In every run of the server, each payload it sends to a public peer is the payload of a message the
   * client sent on a flow ID that was given to that service and peer, and to no other; and no message is
   * sent out twice.
   */
  lemma PayloadsReachTheirPeerOnce(registration: seq<byte>, cipher: seq<byte>, events: seq<Event>, max: nat)
    requires Ready(Initial(registration, cipher), max)
    ensures var s := Run(Initial(registration, cipher), events, max);
            && (forall i | 0 <= i < |s.sent| :: RightPeer(s, s.sent[i]))
            && (forall i, j | 0 <= i < j < |s.sent| :: s.sent[i].message != s.sent[j].message)
  {
    hide Run, Inv, Ready, F.Wf;
    InitialInv(registration, cipher, max);
    RunKeepsInv(Initial(registration, cipher), events, max);
  }
}
