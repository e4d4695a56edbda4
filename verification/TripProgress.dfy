/**
 * What gets through: a small packet of a public peer reaches the worker of its flow, and what the worker
 * sends back reaches that peer, from every state a run can be in.
 */
module TripProgress {
  import opened Prelude
  import opened Bytes
  import opened Crypto
  import opened Fragments
  import opened Reassembly
  import opened DatagramChannel
  import opened ChannelSafety
  import opened ChannelProgress
  import opened Replies
  import F = Flows
  import W = Forwarding
  import R = Requests
  import T = RoundTrip

  // ----- states of runs

  /** Everything that holds of both directions at any point of a run. */
  ghost predicate Going(t: T.Trip, limits: R.Limits) {
    T.Sound(t, limits) && T.TripInv(t, limits) && Reachable(t.down.channel) && Reachable(t.up)
  }

  lemma ReachableNext(c: Channel, s: Step)
    requires Reachable(c) && Wf(c.rx.pending)
    ensures Reachable(DatagramChannel.Next(c, s))
  {
    hide Reachable, Wf, DatagramChannel.Next;
    RunOneMore(c, [], s);
    assert [] + [s] == [s];
    ReachableRun(c, [s]);
  }

  lemma WorldReachable(w: R.World, e: R.Event, limits: R.Limits)
    requires R.Sound(w, limits) && Reachable(w.channel)
    ensures Reachable(R.Next(w, e, limits).channel)
  {
    hide Reachable, Wf, F.Wf, DatagramChannel.Next, F.Arrived, W.Next;
    if e.Tunnel? {
      ReachableNext(w.channel, e.step);
    } else if e.Send? && e.n < |w.given| && e.n < |w.payloads| {
      ReachableNext(w.channel, Begin(w.given[e.n].key.0, w.given[e.n].id, w.payloads[e.n]));
    }
  }

  lemma EventKeepsGoing(t: T.Trip, e: T.Event, limits: R.Limits)
    requires Going(t, limits)
    ensures Going(T.Next(t, e, limits), limits)
  {
    hide Reachable, Wf, F.Wf, T.TripInv, DatagramChannel.Next, R.Next, Replies.Next;
    T.EventKeepsInv(t, e, limits);
    match e
    case Forth(event) => WorldReachable(t.down, event, limits);
    case Answer(i, payload) =>
      if i < |t.down.client.workers| {
        var key := t.down.client.workers[i].key;
        ReachableNext(t.up, Begin(key.0, key.1, payload));
      }
    case Back(step) =>
      ReachableNext(t.up, step);
      T.GivenStays(T.ServerOf(t), step, limits.server);
  }

  lemma {:induction false} RunKeepsGoing(t: T.Trip, events: seq<T.Event>, limits: R.Limits)
    requires Going(t, limits)
    ensures Going(T.Run(t, events, limits), limits)
  {
    hide T.Sound, T.TripInv, Reachable, T.Next;
    if events != [] {
      RunKeepsGoing(t, events[..|events| - 1], limits);
      EventKeepsGoing(T.Run(t, events[..|events| - 1], limits), events[|events| - 1], limits);
    }
  }

  /** Every state of every run is such a state. */
  lemma EveryRunIsGoing(request: seq<byte>, reply: seq<byte>, up: seq<byte>, down: seq<byte>,
                        events: seq<T.Event>, limits: R.Limits)
    requires T.Sound(T.Initial(request, reply, up, down), limits)
    ensures Going(T.Run(T.Initial(request, reply, up, down), events, limits), limits)
  {
    hide T.TripInv, Reachable, T.Run;
    T.InitialInv(request, reply, up, down, limits);
    StartIsReachable(request, up);
    StartIsReachable(reply, down);
    RunKeepsGoing(T.Initial(request, reply, up, down), events, limits);
  }

  // ----- one packet, forth

  /** A flow is there for the peer or can be made. */
  ghost predicate HasRoom(t: F.Table, service: u16, peer: F.SocketAddr, max: nat) {
    F.HasFlow(t, service, peer) || (|t.byId| < max && t.next < F.MAX_ID)
  }

  /** The flow a packet of the peer gets. */
  function FlowFor(t: F.Table, service: u16, peer: F.SocketAddr): u64 {
    if (service, peer) in t.byPeer then t.byPeer[(service, peer)] else t.next
  }

  /**
   * In every state a public packet of at most 65507 octets is admitted, under the flow of its peer, exactly
   * if there is or can be one, and that flow is touched; any other packet changes nothing.
   */
  lemma AdmittedExactly(w: R.World, service: u16, peer: F.SocketAddr, payload: seq<byte>, now: nat, limits: R.Limits)
    requires R.Sound(w, limits)
    ensures var after := R.Next(w, R.Public(service, peer, payload, now), limits);
            if |payload| <= MAX_PAYLOAD && HasRoom(w.table, service, peer, limits.server) then
              var id, n := FlowFor(w.table, service, peer), |w.given|;
              && after.given == w.given + [Given(id, (service, peer))]
              && after.payloads == w.payloads + [payload] && after.waiting == w.waiting + {n}
              && id in after.table.byId && after.table.byId[id] == F.Flow(service, peer, now)
              && after == w.(table := after.table, given := after.given, payloads := after.payloads,
                             waiting := after.waiting)
            else after == w
  {
    hide Wf;
    F.ByPeerIsByOwner(w.table, service, peer, limits.server);
  }

  /** A packet that waits is sent as it came, under the flow it was given, if a message ID is left. */
  lemma SentAsGiven(w: R.World, n: nat, limits: R.Limits)
    requires R.Sound(w, limits) && n in w.waiting && n < |w.given| == |w.payloads| && |w.payloads[n]| <= MAX_PAYLOAD
    ensures var after, g := R.Next(w, R.Send(n), limits), w.given[n];
            if w.channel.tx.nextMessage < MAX_MESSAGE then
              && after.from == w.from + [n]
              && after.channel == DatagramChannel.Next(w.channel, Begin(g.key.0, g.id, w.payloads[n]))
              && after == w.(waiting := w.waiting - {n}, channel := after.channel, from := after.from)
            else after == w.(waiting := w.waiting - {n})
  {
    hide Wf, F.Wf;
  }

  /**
   * A packet that the channel delivers is queued for the worker of its flow exactly if its service has a
   * destination and there is room.
   */
  lemma DeliveredIsOffered(w: R.World, step: Step, d: Delivery, limits: R.Limits)
    requires R.Sound(w, limits) && W.Inv(w.client, limits.client) && !step.Begin?
    requires DatagramChannel.Next(w.channel, step).rx.delivered == w.channel.rx.delivered + [d]
    ensures var after, key := R.Next(w, R.Tunnel(step), limits), (d.packet.service, d.packet.flow);
            && after == w.(channel := DatagramChannel.Next(w.channel, step), client := after.client)
            && if key.0 in limits.destinations then
                 W.QueuedIfRoom(w.client, after.client, key, W.Item(d.id, d.packet.payload), limits.client)
               else after.client == w.client
  {
    hide Wf, F.Wf, W.Inv, W.Received, W.QueuedIfRoom, DatagramChannel.Next;
    var key, item := (d.packet.service, d.packet.flow), W.Item(d.id, d.packet.payload);
    W.DroppedOnlyWithoutRoom(w.client, key, item, limits.client);
  }

  lemma NothingDelivered(w: R.World, step: Step, limits: R.Limits)
    requires R.Sound(w, limits) && !step.Begin?
    requires DatagramChannel.Next(w.channel, step).rx == w.channel.rx
    ensures R.Next(w, R.Tunnel(step), limits) == w.(channel := DatagramChannel.Next(w.channel, step))
  {
    hide Wf, F.Wf, DatagramChannel.Next;
  }

  /** The events by which a small packet of a public peer goes through the tunnel at once. */
  ghost function RequestEvents(w: R.World, service: u16, peer: F.SocketAddr, payload: seq<byte>, now: nat,
                               cipher: seq<byte>): (r: seq<R.Event>)
    ensures |r| == 4 && forall k | 0 <= k < 4 :: !r[k].Reply?
  {
    [R.Public(service, peer, payload, now), R.Send(|w.given|),
     R.Tunnel(SealPart(|w.channel.tx.jobs|, cipher, true)),
     R.Tunnel(Deliver(BigEndian(w.channel.tx.next, NONCE) + cipher))]
  }

  ghost function Four(w: R.World, events: seq<R.Event>, limits: R.Limits): (r: R.World)
    requires R.Sound(w, limits) && |events| == 4
    ensures R.Sound(r, limits)
  {
    R.Next(R.Next(R.Next(R.Next(w, events[0], limits), events[1], limits), events[2], limits), events[3], limits)
  }

  /** What a packet needs to go through at once. */
  ghost predicate Passable(w: R.World, service: u16, peer: F.SocketAddr, payload: seq<byte>, cipher: seq<byte>,
                           limits: R.Limits)
  {
    && HasRoom(w.table, service, peer, limits.server)
    && CanSendSmall(w.channel.tx, payload, cipher)
    && service in limits.destinations
  }

  lemma RequestIsSealed(w: R.World, service: u16, peer: F.SocketAddr, payload: seq<byte>, now: nat,
                        cipher: seq<byte>, limits: R.Limits) returns (b: R.World)
    requires R.Sound(w, limits) && R.WorldInv(w, limits) && Reachable(w.channel)
    requires Passable(w, service, peer, payload, cipher, limits)
    ensures R.Sound(b, limits) && b.client == w.client && b.taken == w.taken
    ensures var id := FlowFor(w.table, service, peer);
            && b.given == w.given + [Given(id, (service, peer))]
            && id in b.table.byId && b.table.byId[id] == F.Flow(service, peer, now)
            && b.channel == SentSmall(w.channel, service, id, payload, cipher)
    ensures var e := RequestEvents(w, service, peer, payload, now, cipher);
            b == R.Next(R.Next(R.Next(w, e[0], limits), e[1], limits), e[2], limits)
  {
    hide Wf, F.Wf, Inv, Reachable, HasRoom, R.Next, R.QueuesInv, R.OnceInv, R.TakenInv, DatagramChannel.Next;
    var e, id := RequestEvents(w, service, peer, payload, now, cipher), FlowFor(w.table, service, peer);
    AdmittedExactly(w, service, peer, payload, now, limits);
    var a := R.Next(w, e[0], limits);
    SentAsGiven(a, |w.given|, limits);
    var s := R.Next(a, e[1], limits);
    AfterSmall(w.channel, service, id, payload, cipher);
    BeginKeepsReceiver(w.channel, Begin(service, id, payload));
    NothingDelivered(s, e[2].step, limits);
    b := R.Next(s, e[2], limits);
  }

  lemma BeginKeepsReceiver(c: Channel, s: Step)
    requires Wf(c.rx.pending) && s.Begin?
    ensures DatagramChannel.Next(c, s).rx == c.rx
  {
  }

  /**
   * A small packet of a public peer that goes through at once is queued for the worker of the peer's flow
   * exactly if there is room for it there.
   */
  lemma RequestIsQueued(w: R.World, service: u16, peer: F.SocketAddr, payload: seq<byte>, now: nat,
                        cipher: seq<byte>, limits: R.Limits)
    requires R.Sound(w, limits) && R.WorldInv(w, limits) && Reachable(w.channel) && W.Inv(w.client, limits.client)
    requires Passable(w, service, peer, payload, cipher, limits)
    ensures var id := FlowFor(w.table, service, peer);
            var after := Four(w, RequestEvents(w, service, peer, payload, now, cipher), limits);
            && W.QueuedIfRoom(w.client, after.client, (service, id), W.Item(w.channel.tx.nextMessage, payload),
                              limits.client)
            && id in after.table.byId && after.table.byId[id] == F.Flow(service, peer, now)
            && after.given == w.given + [Given(id, (service, peer))]
  {
    hide Wf, F.Wf, Inv, Reachable, HasRoom, FlowFor, R.Next, R.WorldInv, W.Inv, W.QueuedIfRoom;
    hide DatagramChannel.Next, SentSmall;
    var id := FlowFor(w.table, service, peer);
    var b := RequestIsSealed(w, service, peer, payload, now, cipher, limits);
    AfterSmall(w.channel, service, id, payload, cipher);
    SmallIsDelivered(w.channel, service, id, payload, cipher);
    var deliver := Deliver(BigEndian(w.channel.tx.next, NONCE) + cipher);
    var d := Delivery(w.channel.tx.nextMessage, Packet(service, id, payload), w.channel.rx.now);
    DeliveredIsOffered(b, deliver, d, limits);
  }

  /** A worker that takes its next packet is on record as having taken it. */
  lemma TakenOnRecord(w: R.World, i: nat, limits: R.Limits)
    requires R.Sound(w, limits) && i < |w.client.workers|
    requires var worker := w.client.workers[i]; worker.running && worker.hand.None? && worker.queue != []
    ensures var worker := w.client.workers[i];
            var after := R.Next(R.Next(w, R.Work(W.Take(i)), limits), R.Work(W.Sent(i)), limits);
            && after.taken == w.taken + [R.Taken(worker.key, worker.queue[0])]
            && after.client.workers
               == w.client.workers[i := worker.(queue := worker.queue[1..], taken := worker.taken + [worker.queue[0]])]
  {
    hide Wf, F.Wf, W.Next;
    W.OneDrained(w.client, i, limits.destinations, limits.client);
    assert w.taken + [] == w.taken;
    assert R.TakenBy(W.Next(w.client, W.Take(i), limits.destinations, limits.client), W.Sent(i)) == [];
    var taken := w.taken + R.TakenBy(w.client, W.Take(i));
    assert taken + [] == taken;
  }

  /** The event of the flow table that an event on the way forth is, if it is one. */
  function TableEvent(e: R.Event): Option<F.Event> {
    match e
    case Public(service, peer, payload, now) =>
      if |payload| <= MAX_PAYLOAD then Some(F.Packet(service, peer, now)) else None
    case Reply(service, id, now) => Some(F.Reply(service, id, now))
    case Sweep(now, idle) => Some(F.Sweep(now, idle))
    case _ => None
  }

  /** The flow table of a run forth goes through the events of the flow table and no others. */
  lemma TableForth(w: R.World, e: R.Event, limits: R.Limits)
    requires R.Sound(w, limits)
    ensures R.Next(w, e, limits).table
         == if TableEvent(e).Some? then F.Next(w.table, TableEvent(e).value, limits.server) else w.table
  {
    hide Wf, F.Wf, DatagramChannel.Next, F.Arrived, F.Swept, F.Routed, W.Next;
  }

  /** So does that of a run back, where a delivered packet is a reply. */
  lemma TableBack(s: Server, e: Replies.Event, max: nat)
    requires Ready(s, max)
    ensures var after, n := Replies.Next(s, e, max), |s.channel.rx.delivered|;
            after.table
            == match e
               case Public(service, peer, now) => F.Next(s.table, F.Packet(service, peer, now), max)
               case Sweep(now, idle) => F.Next(s.table, F.Sweep(now, idle), max)
               case Tunnel(_) =>
                 if |after.channel.rx.delivered| > n then
                   var p := after.channel.rx.delivered[n].packet;
                   F.Next(s.table, F.Reply(p.service, p.flow, after.channel.rx.now), max)
                 else s.table
  {
    hide Wf, F.Wf, DatagramChannel.Next, F.Arrived, F.Swept, F.Routed;
    if e.Tunnel? {
      StepDelivers(s.channel, e.step);
    }
  }

  // ----- and its answer, back

  /** The events by which a worker's small answer goes back at once. */
  ghost function AnswerEvents(t: T.Trip, i: nat, payload: seq<byte>, cipher: seq<byte>): (r: seq<T.Event>)
    ensures |r| == 3
  {
    [T.Answer(i, payload), T.Back(SealPart(|t.up.tx.jobs|, cipher, true)),
     T.Back(Deliver(BigEndian(t.up.tx.next, NONCE) + cipher))]
  }

  ghost function Three(t: T.Trip, events: seq<T.Event>, limits: R.Limits): (r: T.Trip)
    requires T.Sound(t, limits) && |events| == 3
    ensures T.Sound(r, limits)
  {
    T.Next(T.Next(T.Next(t, events[0], limits), events[1], limits), events[2], limits)
  }

  /** A worker that runs can always pass on an answer if a message ID is left. */
  lemma WorkerAnswers(t: T.Trip, i: nat, payload: seq<byte>, limits: R.Limits)
    requires Going(t, limits) && i < |t.down.client.workers| && t.down.client.workers[i].running
    requires MayBegin(t.up.tx, payload)
    ensures var after, key := T.Next(t, T.Answer(i, payload), limits), t.down.client.workers[i].key;
            && after.up == DatagramChannel.Next(t.up, Begin(key.0, key.1, payload))
            && after.down == t.down && after.sent == t.sent
  {
    hide Reachable, Wf, F.Wf, R.WorldInv, ServerInv, W.WorkerInv, W.AllHeld, DatagramChannel.Next;
    assert t.down.client.workers[i].key in t.down.client.flows;
  }

  /** A step of the channel back that delivers a packet sends it to its flow's peer exactly if the flow is live. */
  lemma DeliveredIsRouted(t: T.Trip, step: Step, d: Delivery, limits: R.Limits)
    requires T.Sound(t, limits) && !step.Begin?
    requires DatagramChannel.Next(t.up, step).rx.delivered == t.up.rx.delivered + [d]
    ensures var after, p := T.Next(t, T.Back(step), limits), d.packet;
            after.sent
            == if p.flow in t.down.table.byId && t.down.table.byId[p.flow].service == p.service
               then t.sent + [Sent(d.id, t.down.table.byId[p.flow].peer, p.payload)] else t.sent
  {
    hide Wf, F.Wf, DatagramChannel.Next;
  }

  lemma NothingCame(t: T.Trip, step: Step, limits: R.Limits)
    requires T.Sound(t, limits) && !step.Begin?
    requires DatagramChannel.Next(t.up, step).rx == t.up.rx
    ensures T.Next(t, T.Back(step), limits) == t.(up := DatagramChannel.Next(t.up, step))
  {
    hide Wf, F.Wf, DatagramChannel.Next;
  }

  /**
   * A small answer of a running worker that goes back at once is sent to the peer of the worker's flow, as
   * it is, exactly if the flow is still live.
   */
  lemma AnswerIsSent(t: T.Trip, i: nat, payload: seq<byte>, cipher: seq<byte>, limits: R.Limits)
    requires Going(t, limits) && i < |t.down.client.workers| && t.down.client.workers[i].running
    requires CanSendSmall(t.up.tx, payload, cipher)
    ensures var after, key := Three(t, AnswerEvents(t, i, payload, cipher), limits), t.down.client.workers[i].key;
            after.sent
            == if key.1 in t.down.table.byId && t.down.table.byId[key.1].service == key.0
               then t.sent + [Sent(t.up.tx.nextMessage, t.down.table.byId[key.1].peer, payload)] else t.sent
  {
    hide Reachable, Wf, T.Next, T.TripInv, DatagramChannel.Next;
    var key, events := t.down.client.workers[i].key, AnswerEvents(t, i, payload, cipher);
    WorkerAnswers(t, i, payload, limits);
    AfterSmall(t.up, key.0, key.1, payload, cipher);
    SmallIsDelivered(t.up, key.0, key.1, payload, cipher);
    BeginKeepsReceiver(t.up, Begin(key.0, key.1, payload));
    var a := T.Next(t, events[0], limits);
    NothingCame(a, events[1].step, limits);
    var b := T.Next(a, events[1], limits);
    var d := Delivery(t.up.tx.nextMessage, Packet(key.0, key.1, payload), t.up.rx.now);
    DeliveredIsRouted(b, events[2].step, d, limits);
  }

  // ----- there and back

  ghost function Forth(t: T.Trip, events: seq<R.Event>, limits: R.Limits): (r: T.Trip)
    requires T.Sound(t, limits) && |events| == 4
    ensures T.Sound(r, limits)
  {
    T.Next(T.Next(T.Next(T.Next(t, T.Forth(events[0]), limits), T.Forth(events[1]), limits),
                  T.Forth(events[2]), limits), T.Forth(events[3]), limits)
  }

  lemma ForthOne(t: T.Trip, e: R.Event, limits: R.Limits)
    requires Going(t, limits) && !e.Reply?
    ensures var after := T.Next(t, T.Forth(e), limits);
            Going(after, limits) && after.down == R.Next(t.down, e, limits) && after.up == t.up && after.sent == t.sent
  {
    hide Reachable, T.TripInv, R.Next, Wf, F.Wf, T.Makers;
    EventKeepsGoing(t, T.Forth(e), limits);
  }

  lemma ForthFour(t: T.Trip, events: seq<R.Event>, limits: R.Limits)
    requires Going(t, limits) && |events| == 4 && forall k | 0 <= k < 4 :: !events[k].Reply?
    ensures var after := Forth(t, events, limits);
            && Going(after, limits) && after.down == Four(t.down, events, limits)
            && after.up == t.up && after.sent == t.sent
  {
    hide T.Sound, T.TripInv, Reachable, T.Next, R.Next;
    assert R.Sound(t.down, limits) by { DownSound(t, limits); }
    ForthOne(t, events[0], limits);
    var a := T.Next(t, T.Forth(events[0]), limits);
    ForthOne(a, events[1], limits);
    var b := T.Next(a, T.Forth(events[1]), limits);
    ForthOne(b, events[2], limits);
    ForthOne(T.Next(b, T.Forth(events[2]), limits), events[3], limits);
  }

  lemma DownSound(t: T.Trip, limits: R.Limits)
    requires T.Sound(t, limits)
    ensures R.Sound(t.down, limits)
  {
  }

  lemma DownGoing(t: T.Trip, limits: R.Limits)
    requires Going(t, limits)
    ensures R.Sound(t.down, limits) && R.WorldInv(t.down, limits) && W.Inv(t.down.client, limits.client)
  {
    hide R.WorldInv, W.Inv, ServerInv, Reachable;
  }

  lemma RequestArrives(t: T.Trip, service: u16, peer: F.SocketAddr, payload: seq<byte>, now: nat,
                       cipher: seq<byte>, limits: R.Limits) returns (there: T.Trip, i: nat)
    requires Going(t, limits) && Passable(t.down, service, peer, payload, cipher, limits)
    requires W.Room(t.down.client, (service, FlowFor(t.down.table, service, peer)),
                    W.Item(t.down.channel.tx.nextMessage, payload), limits.client)
    ensures there == Forth(t, RequestEvents(t.down, service, peer, payload, now, cipher), limits)
    ensures Going(there, limits) && there.up == t.up && there.sent == t.sent && i < |there.down.client.workers|
    ensures var w, id := there.down.client.workers[i], FlowFor(t.down.table, service, peer);
            && w.key == (service, id) && w.running && w.queue != [] && w.queue[|w.queue| - 1].payload == payload
            && id in there.down.table.byId && there.down.table.byId[id] == F.Flow(service, peer, now)
  {
    hide Going, R.WorldInv, W.Inv, R.Sound, T.Sound, Reachable, HasRoom, FlowFor, W.Room, W.QueuedIfRoom;
    hide Forth, Four, RequestEvents;
    var events, id := RequestEvents(t.down, service, peer, payload, now, cipher), FlowFor(t.down.table, service, peer);
    assert T.Sound(t, limits) && Reachable(t.down.channel) by { IsGoing(t, limits); }
    DownGoing(t, limits);
    RequestIsQueued(t.down, service, peer, payload, now, cipher, limits);
    ForthFour(t, events, limits);
    there := Forth(t, events, limits);
    i := QueuedAt(t.down.client, there.down.client, (service, id), W.Item(t.down.channel.tx.nextMessage, payload),
                  limits.client);
  }

  lemma IsGoing(t: T.Trip, limits: R.Limits)
    requires Going(t, limits)
    ensures T.Sound(t, limits) && Reachable(t.down.channel)
  {
  }

  /**
   * A round trip, from any state of any run: a small packet of a public peer for which there is room on the
   * way is queued for the running worker of the peer's flow, and a small answer of that worker comes back to
   * that very peer, as the worker sent it.
   */
  lemma RoundTripCompletes(t: T.Trip, service: u16, peer: F.SocketAddr, payload: seq<byte>, now: nat,
                           cipher: seq<byte>, answer: seq<byte>, back: seq<byte>, limits: R.Limits)
    returns (there: T.Trip, i: nat, home: T.Trip)
    requires Going(t, limits) && Passable(t.down, service, peer, payload, cipher, limits)
    requires W.Room(t.down.client, (service, FlowFor(t.down.table, service, peer)),
                    W.Item(t.down.channel.tx.nextMessage, payload), limits.client)
    requires CanSendSmall(t.up.tx, answer, back)
    ensures there == Forth(t, RequestEvents(t.down, service, peer, payload, now, cipher), limits)
    ensures i < |there.down.client.workers|
    ensures var w := there.down.client.workers[i];
            && w.key == (service, FlowFor(t.down.table, service, peer)) && w.running
            && w.queue != [] && w.queue[|w.queue| - 1].payload == payload
    ensures T.Sound(there, limits) && home == Three(there, AnswerEvents(there, i, answer, back), limits)
    ensures home.sent == t.sent + [Sent(t.up.tx.nextMessage, peer, answer)]
  {
    hide Going, Passable, FlowFor, W.Room, Forth, Three, AnswerEvents, RequestEvents, T.Sound;
    there, i := RequestArrives(t, service, peer, payload, now, cipher, limits);
    assert T.Sound(there, limits) by { IsGoing(there, limits); }
    AnswerIsSent(there, i, answer, back, limits);
    home := Three(there, AnswerEvents(there, i, answer, back), limits);
  }

  lemma QueuedAt(c: W.Client, after: W.Client, key: W.Key, p: W.Item, max: nat) returns (i: nat)
    requires W.Room(c, key, p, max) && W.QueuedIfRoom(c, after, key, p, max)
    ensures i < |after.workers| && after.workers[i].key == key && after.workers[i].running
    ensures var q := after.workers[i].queue; q != [] && q[|q| - 1] == p
  {
    hide W.Room;
    i :| 0 <= i < |after.workers|
         && after.workers[i].key == key && after.workers[i].running
         && after.workers[i].queue == (if i < |c.workers| then c.workers[i].queue else []) + [p];
  }
}
