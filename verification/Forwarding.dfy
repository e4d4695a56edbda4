/** The client's UDP forwarding: one worker per flow, bounded queues, and a shared byte budget. */
module Forwarding {
  import opened Prelude
  import opened Bytes

  const BUDGET := 8 * 1024 * 1024
  const QUEUE := 8

  type Key = (u16, u64)

  /** A packet from the tunnel, with the ID of the message it came in. */
  datatype Item = Item(message: u64, payload: seq<byte>)

  /**
   * A worker that has not been joined: what is queued for it, the packet it is sending, and whether it
   * still runs. `offered` and `taken` record every packet of its flow and every packet it has received.
   */
  datatype Worker = Worker(key: Key, queue: seq<Item>, hand: Option<Item>, running: bool,
                           offered: seq<Item>, taken: seq<Item>)

  /** The session: free permits, the flow table's keys, and the workers. */
  datatype Client = Client(available: nat, flows: set<Key>, workers: seq<Worker>)

  datatype Event =
    | Packet(key: Key, item: Item)
    | Take(worker: nat)
    | Sent(worker: nat)
    | Exit(worker: nat)
    | Join(worker: nat)

  /** Permits a packet needs: one per octet, and at least one. */
  function Cost(p: Item): nat {
    if |p.payload| == 0 then 1 else |p.payload|
  }

  // ----- steps

  function IndexOf(workers: seq<Worker>, key: Key): (i: nat)
    ensures i <= |workers|
    ensures i < |workers| ==> workers[i].key == key
    ensures forall j | 0 <= j < i :: workers[j].key != key
  {
    if workers == [] || workers[0].key == key then 0 else 1 + IndexOf(workers[1..], key)
  }

  function Spawned(c: Client, key: Key): Client {
    c.(flows := c.flows + {key}, workers := c.workers + [Worker(key, [], None, true, [], [])])
  }

  /** A packet for a live flow is queued if permits and a queue slot are free, and dropped otherwise. */
  function Offered(c: Client, i: nat, p: Item): Client
    requires i < |c.workers|
  {
    var w := c.workers[i].(offered := c.workers[i].offered + [p]);
    if Cost(p) <= c.available && w.running && |w.queue| < QUEUE then
      Client(c.available - Cost(p), c.flows, c.workers[i := w.(queue := w.queue + [p])])
    else c.(workers := c.workers[i := w])
  }

  function Received(c: Client, key: Key, p: Item, max: nat): Client {
    var d := if key in c.flows then c
             else if |c.flows| >= max then c
             else Spawned(c, key);
    var i := IndexOf(d.workers, key);
    if key in d.flows && i < |d.workers| then Offered(d, i, p) else d
  }

  function Took(w: Worker): Worker
    requires |w.queue| > 0
  {
    w.(queue := w.queue[1..], hand := Some(w.queue[0]), taken := w.taken + [w.queue[0]])
  }

  /** `destinations` are the service IDs the client forwards for. */
  function Next(c: Client, e: Event, destinations: set<u16>, max: nat): Client {
    match e
    case Packet(key, p) => if key.0 in destinations then Received(c, key, p, max) else c
    case Take(i) =>
      if i < |c.workers| && c.workers[i].running && c.workers[i].hand.None? && |c.workers[i].queue| > 0 then
        c.(workers := c.workers[i := Took(c.workers[i])])
      else c
    case Sent(i) =>
      if i < |c.workers| && c.workers[i].running && c.workers[i].hand.Some? then
        c.(available := c.available + Cost(c.workers[i].hand.value),
           workers := c.workers[i := c.workers[i].(hand := None)])
      else c
    case Exit(i) =>
      if i < |c.workers| && c.workers[i].running then
        c.(available := c.available + Held(c.workers[i]),
           workers := c.workers[i := c.workers[i].(queue := [], hand := None, running := false)])
      else c
    case Join(i) =>
      if i < |c.workers| && !c.workers[i].running then
        c.(flows := c.flows - {c.workers[i].key}, workers := c.workers[..i] + c.workers[i + 1..])
      else c
  }

  const IDLE := Client(BUDGET, {}, [])

  function Run(events: seq<Event>, destinations: set<u16>, max: nat): Client {
    if events == [] then IDLE
    else Next(Run(events[..|events| - 1], destinations, max), events[|events| - 1], destinations, max)
  }

  // ----- what is conserved

  function QueueCost(queue: seq<Item>): nat {
    if queue == [] then 0 else Cost(queue[0]) + QueueCost(queue[1..])
  }

  /** Permits held by a worker's queued packets and the one in its hand. */
  function Held(w: Worker): nat {
    QueueCost(w.queue) + if w.hand.Some? then Cost(w.hand.value) else 0
  }

  function AllHeld(workers: seq<Worker>): nat {
    if workers == [] then 0 else Held(workers[0]) + AllHeld(workers[1..])
  }

  /** `a` is what is left of `b` after some packets are dropped; the order stays. */
  predicate Subsequence(a: seq<Item>, b: seq<Item>) {
    if a == [] then true
    else if b == [] then false
    else if a[|a| - 1] == b[|b| - 1] && Subsequence(a[..|a| - 1], b[..|b| - 1]) then true
    else Subsequence(a, b[..|b| - 1])
  }

  predicate WorkerInv(w: Worker) {
    && |w.queue| <= QUEUE
    && (!w.running ==> w.queue == [] && w.hand.None?)
    && Subsequence(w.taken + w.queue, w.offered)
  }

  /** One worker for each key of the flow table, and no other. */
  predicate OneToOne(flows: set<Key>, workers: seq<Worker>) {
    && |workers| == |flows|
    && (forall i | 0 <= i < |workers| :: workers[i].key in flows)
    && (forall i, j | 0 <= i < j < |workers| :: workers[i].key != workers[j].key)
    && (forall key | key in flows :: exists i | 0 <= i < |workers| :: workers[i].key == key)
  }

  predicate Inv(c: Client, max: nat) {
    && c.available + AllHeld(c.workers) == BUDGET
    && OneToOne(c.flows, c.workers) && |c.flows| <= max
    && forall i | 0 <= i < |c.workers| :: WorkerInv(c.workers[i])
  }

  lemma {:induction false} HeldAfterUpdate(workers: seq<Worker>, i: nat, w: Worker)
    requires i < |workers|
    ensures AllHeld(workers[i := w]) + Held(workers[i]) == AllHeld(workers) + Held(w)
  {
    if i > 0 {
      HeldAfterUpdate(workers[1..], i - 1, w);
      assert workers[i := w][1..] == workers[1..][i - 1 := w];
    } else {
      assert workers[0 := w][1..] == workers[1..];
    }
  }

  lemma {:induction false} HeldAfterSpawn(workers: seq<Worker>, w: Worker)
    ensures AllHeld(workers + [w]) == AllHeld(workers) + Held(w)
  {
    if workers == [] {
      assert [w][1..] == [];
    } else {
      HeldAfterSpawn(workers[1..], w);
      assert (workers + [w])[1..] == workers[1..] + [w];
    }
  }

  lemma {:induction false} HeldAfterJoin(workers: seq<Worker>, i: nat)
    requires i < |workers|
    ensures AllHeld(workers[..i] + workers[i + 1..]) + Held(workers[i]) == AllHeld(workers)
  {
    if i == 0 {
      assert workers[..0] + workers[1..] == workers[1..];
    } else {
      HeldAfterJoin(workers[1..], i - 1);
      assert (workers[..i] + workers[i + 1..])[1..] == workers[1..][..i - 1] + workers[1..][i..];
    }
  }

  lemma {:induction false} QueueCostSnoc(queue: seq<Item>, p: Item)
    ensures QueueCost(queue + [p]) == QueueCost(queue) + Cost(p)
  {
    if queue == [] {
      assert [p][1..] == [];
    } else {
      QueueCostSnoc(queue[1..], p);
      assert (queue + [p])[1..] == queue[1..] + [p];
    }
  }

  lemma SubsequenceGrows(a: seq<Item>, b: seq<Item>, p: Item)
    requires Subsequence(a, b)
    ensures Subsequence(a + [p], b + [p]) && Subsequence(a, b + [p])
  {
    assert (a + [p])[..|a|] == a && (b + [p])[..|b|] == b;
    if a == [] {
    } else {
      assert Subsequence(a, (b + [p])[..|b|]);
    }
  }

  // ----- every event keeps it

  lemma SpawnKeepsPairs(flows: set<Key>, workers: seq<Worker>, w: Worker)
    requires OneToOne(flows, workers) && w.key !in flows
    ensures OneToOne(flows + {w.key}, workers + [w])
  {
    var after := workers + [w];
    assert after[|workers|] == w;
    forall k | k in flows + {w.key}
      ensures exists i | 0 <= i < |after| :: after[i].key == k
    {
      if k in flows {
        var i :| 0 <= i < |workers| && workers[i].key == k;
        assert after[i].key == k;
      }
    }
  }

  lemma SpawnKeepsInv(c: Client, key: Key, max: nat)
    requires Inv(c, max) && key !in c.flows && |c.flows| < max
    ensures Inv(Spawned(c, key), max)
  {
    hide OneToOne, AllHeld;
    var w := Worker(key, [], None, true, [], []);
    HeldAfterSpawn(c.workers, w);
    SpawnKeepsPairs(c.flows, c.workers, w);
  }

  /** A worker is replaced by one with the same key that is itself in order. */
  lemma ReplaceKeepsInv(c: Client, i: nat, w: Worker, available: nat, max: nat)
    requires Inv(c, max) && i < |c.workers| && w.key == c.workers[i].key && WorkerInv(w)
    requires available + Held(w) == c.available + Held(c.workers[i])
    ensures Inv(Client(available, c.flows, c.workers[i := w]), max)
  {
    hide WorkerInv, Held, AllHeld;
    HeldAfterUpdate(c.workers, i, w);
    var after := c.workers[i := w];
    assert forall j | 0 <= j < |after| :: after[j].key == c.workers[j].key;
  }

  lemma OfferedWorker(w: Worker, p: Item)
    requires WorkerInv(w)
    ensures var v := w.(offered := w.offered + [p]);
            && WorkerInv(v) && Held(v) == Held(w)
            && (w.running && |w.queue| < QUEUE ==>
                  WorkerInv(v.(queue := w.queue + [p])) && Held(v.(queue := w.queue + [p])) == Held(w) + Cost(p))
  {
    hide Subsequence, QueueCost;
    SubsequenceGrows(w.taken + w.queue, w.offered, p);
    assert w.taken + w.queue + [p] == w.taken + (w.queue + [p]);
    QueueCostSnoc(w.queue, p);
  }

  lemma OfferKeepsInv(c: Client, i: nat, p: Item, max: nat)
    requires Inv(c, max) && i < |c.workers|
    ensures Inv(Offered(c, i, p), max)
  {
    hide WorkerInv, Held, AllHeld, OneToOne;
    var w := c.workers[i];
    OfferedWorker(w, p);
    var v := w.(offered := w.offered + [p]);
    if Cost(p) <= c.available && w.running && |w.queue| < QUEUE {
      ReplaceKeepsInv(c, i, v.(queue := w.queue + [p]), c.available - Cost(p), max);
    } else {
      ReplaceKeepsInv(c, i, v, c.available, max);
    }
  }

  lemma ReceiveKeepsInv(c: Client, key: Key, p: Item, max: nat)
    requires Inv(c, max)
    ensures Inv(Received(c, key, p, max), max)
  {
    hide Inv, Spawned, Offered;
    var d := if key in c.flows || |c.flows| >= max then c else Spawned(c, key);
    if d != c {
      SpawnKeepsInv(c, key, max);
    }
    var i := IndexOf(d.workers, key);
    if i < |d.workers| {
      OfferKeepsInv(d, i, p, max);
    }
  }

  lemma WorkerSteps(w: Worker)
    requires WorkerInv(w) && w.running
    ensures |w.queue| > 0 && w.hand.None? ==> WorkerInv(Took(w)) && Held(Took(w)) == Held(w)
    ensures w.hand.Some? ==> WorkerInv(w.(hand := None)) && Held(w.(hand := None)) + Cost(w.hand.value) == Held(w)
    ensures var v := w.(queue := [], hand := None, running := false); WorkerInv(v) && Held(v) == 0
  {
    if |w.queue| > 0 {
      assert w.taken + [w.queue[0]] + w.queue[1..] == w.taken + w.queue;
    }
    SubsequencePrefix(w.taken, w.queue, w.offered);
    assert w.taken + [] == w.taken;
  }

  lemma {:induction false} SubsequencePrefix(a: seq<Item>, more: seq<Item>, b: seq<Item>)
    requires Subsequence(a + more, b)
    ensures Subsequence(a, b)
    decreases |b|
  {
    if a == [] {
    } else if more == [] {
      assert a + more == a;
    } else {
      var whole := a + more;
      if whole[|whole| - 1] == b[|b| - 1] && Subsequence(whole[..|whole| - 1], b[..|b| - 1]) {
        assert whole[..|whole| - 1] == a + more[..|more| - 1];
        SubsequencePrefix(a, more[..|more| - 1], b[..|b| - 1]);
      } else {
        SubsequencePrefix(a, more, b[..|b| - 1]);
      }
    }
  }

  lemma JoinKeepsInv(c: Client, i: nat, max: nat)
    requires Inv(c, max) && i < |c.workers| && !c.workers[i].running
    ensures Inv(Client(c.available, c.flows - {c.workers[i].key}, c.workers[..i] + c.workers[i + 1..]), max)
  {
    hide Held, AllHeld, WorkerInv, OneToOne;
    HeldAfterJoin(c.workers, i);
    IdleHoldsNothing(c.workers[i]);
    JoinKeepsPairs(c.flows, c.workers, i);
  }

  /** Worker `j` of those left after worker `i` is joined. */
  lemma AfterJoin(workers: seq<Worker>, i: nat, j: nat)
    requires i < |workers| && j < |workers| - 1
    ensures (workers[..i] + workers[i + 1..])[j] == workers[if j < i then j else j + 1]
  {
  }

  lemma JoinKeepsKeys(flows: set<Key>, workers: seq<Worker>, i: nat, key: Key) returns (k: nat)
    requires OneToOne(flows, workers) && i < |workers| && key in flows - {workers[i].key}
    ensures k < |workers| - 1 && (workers[..i] + workers[i + 1..])[k].key == key
  {
    var j :| 0 <= j < |workers| && workers[j].key == key;
    k := if j < i then j else j - 1;
    AfterJoin(workers, i, k);
  }

  lemma JoinKeepsPairs(flows: set<Key>, workers: seq<Worker>, i: nat)
    requires OneToOne(flows, workers) && i < |workers|
    ensures OneToOne(flows - {workers[i].key}, workers[..i] + workers[i + 1..])
  {
    var gone, after := workers[i].key, workers[..i] + workers[i + 1..];
    forall key | key in flows - {gone}
      ensures exists j | 0 <= j < |after| :: after[j].key == key
    {
      var j := JoinKeepsKeys(flows, workers, i, key);
    }
    forall j | 0 <= j < |after|
      ensures after[j] == workers[if j < i then j else j + 1]
    {
      AfterJoin(workers, i, j);
    }
  }

  lemma IdleHoldsNothing(w: Worker)
    requires WorkerInv(w) && !w.running
    ensures Held(w) == 0
  {
  }

  lemma NextKeepsInv(c: Client, e: Event, destinations: set<u16>, max: nat)
    requires Inv(c, max)
    ensures Inv(Next(c, e, destinations, max), max)
  {
    hide WorkerInv, Held, AllHeld, OneToOne, Received;
    match e
    case Packet(key, p) => ReceiveKeepsInv(c, key, p, max);
    case Take(i) =>
      if i < |c.workers| && c.workers[i].running && c.workers[i].hand.None? && |c.workers[i].queue| > 0 {
        WorkerSteps(c.workers[i]);
        ReplaceKeepsInv(c, i, Took(c.workers[i]), c.available, max);
      }
    case Sent(i) =>
      if i < |c.workers| && c.workers[i].running && c.workers[i].hand.Some? {
        WorkerSteps(c.workers[i]);
        ReplaceKeepsInv(c, i, c.workers[i].(hand := None), c.available + Cost(c.workers[i].hand.value), max);
      }
    case Exit(i) =>
      if i < |c.workers| && c.workers[i].running {
        WorkerSteps(c.workers[i]);
        ReplaceKeepsInv(c, i, c.workers[i].(queue := [], hand := None, running := false),
                        c.available + Held(c.workers[i]), max);
      }
    case Join(i) =>
      if i < |c.workers| && !c.workers[i].running {
        JoinKeepsInv(c, i, max);
      }
  }

  /**
   * In every run: free permits and those held by queued and in-hand packets always total 8 MiB, the flow
   * table and the unjoined workers match one to one within the limit, and each worker has received a
   * subsequence of its flow's packets, in order.
   */
  lemma {:induction false} BudgetIsConserved(events: seq<Event>, destinations: set<u16>, max: nat)
    ensures Inv(Run(events, destinations, max), max)
  {
    if events != [] {
      BudgetIsConserved(events[..|events| - 1], destinations, max);
      NextKeepsInv(Run(events[..|events| - 1], destinations, max), events[|events| - 1], destinations, max);
    }
  }

  /** With every worker gone, every permit is back. */
  lemma AllPermitsReturn(events: seq<Event>, destinations: set<u16>, max: nat)
    requires Run(events, destinations, max).flows == {}
    ensures Run(events, destinations, max).available == BUDGET
  {
    BudgetIsConserved(events, destinations, max);
  }

  /** The packet's flow can take it: there is or can be a worker, its queue has a slot, and permits are free. */
  predicate Room(c: Client, key: Key, p: Item, max: nat) {
    && Max(1, |p.payload|) <= c.available
    && if key in c.flows then
         forall i | 0 <= i < |c.workers| && c.workers[i].key == key ::
           c.workers[i].running && |c.workers[i].queue| < QUEUE
       else |c.flows| < max
  }

  /**
   * What a packet for a known service leaves behind: with room it is last in the queue of its flow's
   * worker and its permits are taken; without, no queue changes. No other worker changes either way.
   */
  predicate QueuedIfRoom(c: Client, after: Client, key: Key, p: Item, max: nat) {
    if Room(c, key, p, max) then
      && after.available == c.available - Max(1, |p.payload|)
      && |c.workers| <= |after.workers|
      && exists i | 0 <= i < |after.workers| ::
           && after.workers[i].key == key && after.workers[i].running
           && after.workers[i].queue == (if i < |c.workers| then c.workers[i].queue else []) + [p]
           && forall j | 0 <= j < |c.workers| && j != i :: after.workers[j] == c.workers[j]
    else
      && after.available == c.available
      && |c.workers| <= |after.workers|
      && forall i | 0 <= i < |after.workers| ::
           after.workers[i].queue == if i < |c.workers| then c.workers[i].queue else []
  }

  /** In every reachable state a packet for a known service is dropped only for want of room. */
  lemma DroppedOnlyWithoutRoom(c: Client, key: Key, p: Item, max: nat)
    requires Inv(c, max)
    ensures QueuedIfRoom(c, Received(c, key, p, max), key, p, max)
  {
    hide WorkerInv, AllHeld, OneToOne, Offered, Spawned;
    if key in c.flows {
      var i := WorkerOf(c, key, max);
      OfferedQueues(c, i, p);
    } else if |c.flows| < max {
      var d := Spawned(c, key);
      SpawnKeepsInv(c, key, max);
      SpawnedQueues(c, key);
      var i := WorkerOf(d, key, max);
      OfferedQueues(d, i, p);
    }
  }

  /**
   * In every run a packet for a service with a destination is queued exactly if there is room, and one for
   * any other service changes nothing.
   */
  lemma PacketExactly(events: seq<Event>, n: nat, destinations: set<u16>, max: nat)
    requires n < |events| && events[n].Packet?
    ensures var before, after := Run(events[..n], destinations, max), Run(events[..n + 1], destinations, max);
            if events[n].key.0 in destinations then QueuedIfRoom(before, after, events[n].key, events[n].item, max)
            else after == before
  {
    hide QueuedIfRoom, Inv, Received;
    assert events[..n + 1][..n] == events[..n];
    BudgetIsConserved(events[..n], destinations, max);
    DroppedOnlyWithoutRoom(Run(events[..n], destinations, max), events[n].key, events[n].item, max);
  }

  /** Every flow and every worker is for a service with a destination. */
  predicate ForDestinations(c: Client, destinations: set<u16>) {
    && (forall key | key in c.flows :: key.0 in destinations)
    && forall i | 0 <= i < |c.workers| :: c.workers[i].key.0 in destinations
  }

  lemma NextForDestinations(c: Client, e: Event, destinations: set<u16>, max: nat)
    requires ForDestinations(c, destinations)
    ensures ForDestinations(Next(c, e, destinations, max), destinations)
  {
    hide Held, Cost;
  }

  lemma {:induction false} OnlyDestinations(events: seq<Event>, destinations: set<u16>, max: nat)
    ensures ForDestinations(Run(events, destinations, max), destinations)
  {
    hide Next, ForDestinations;
    if events == [] {
      NoneForDestinations(destinations);
    } else {
      OnlyDestinations(events[..|events| - 1], destinations, max);
      NextForDestinations(Run(events[..|events| - 1], destinations, max), events[|events| - 1], destinations, max);
    }
  }

  lemma NoneForDestinations(destinations: set<u16>)
    ensures ForDestinations(IDLE, destinations)
  {
  }

  // ----- what the workers get done

  /** Payload octets a worker holds, queued and in hand. */
  function Octets(queue: seq<Item>): nat {
    if queue == [] then 0 else |queue[0].payload| + Octets(queue[1..])
  }

  function AllOctets(workers: seq<Worker>): nat {
    if workers == [] then 0
    else
      Octets(workers[0].queue) + (if workers[0].hand.Some? then |workers[0].hand.value.payload| else 0)
      + AllOctets(workers[1..])
  }

  lemma {:induction false} OctetsCost(queue: seq<Item>)
    ensures Octets(queue) <= QueueCost(queue)
  {
    if queue != [] {
      OctetsCost(queue[1..]);
    }
  }

  lemma {:induction false} OctetsHeld(workers: seq<Worker>)
    ensures AllOctets(workers) <= AllHeld(workers)
  {
    if workers != [] {
      OctetsCost(workers[0].queue);
      OctetsHeld(workers[1..]);
    }
  }

  /** In every run the workers hold at most 8 MiB of payload between them, queued and in hand. */
  lemma MemoryIsBounded(events: seq<Event>, destinations: set<u16>, max: nat)
    ensures AllOctets(Run(events, destinations, max).workers) <= 8 * 1024 * 1024
  {
    BudgetIsConserved(events, destinations, max);
    OctetsHeld(Run(events, destinations, max).workers);
  }

  function Drain(i: nat, n: nat): seq<Event> {
    if n == 0 then [] else [Take(i), Sent(i)] + Drain(i, n - 1)
  }

  function From(c: Client, events: seq<Event>, destinations: set<u16>, max: nat): Client
    decreases |events|
  {
    if events == [] then c else From(Next(c, events[0], destinations, max), events[1..], destinations, max)
  }

  lemma OneDrained(c: Client, i: nat, destinations: set<u16>, max: nat)
    requires i < |c.workers| && c.workers[i].running && c.workers[i].hand.None? && c.workers[i].queue != []
    ensures var d, w := Next(Next(c, Take(i), destinations, max), Sent(i), destinations, max), c.workers[i];
            && d.available == c.available + Max(1, |w.queue[0].payload|) && d.flows == c.flows
            && d.workers == c.workers[i := w.(queue := w.queue[1..], taken := w.taken + [w.queue[0]])]
  {
  }

  /** Permits for a queue, told from the payloads. */
  function Permits(queue: seq<Item>): nat {
    if queue == [] then 0 else Max(1, |queue[0].payload|) + Permits(queue[1..])
  }

  /**
   * A running worker that is left to it takes all its queued packets, in the order in which they were
   * queued, and gives back their permits: one per octet and at least one each.
   */
  lemma {:induction false} QueueIsDrained(c: Client, i: nat, destinations: set<u16>, max: nat)
    requires i < |c.workers| && c.workers[i].running && c.workers[i].hand.None?
    ensures var w := c.workers[i];
            var d := From(c, Drain(i, |w.queue|), destinations, max);
            && d.available == c.available + Permits(w.queue) && d.flows == c.flows
            && d.workers == c.workers[i := w.(queue := [], taken := w.taken + w.queue)]
    decreases |c.workers[i].queue|
  {
    hide Next;
    var w := c.workers[i];
    if w.queue == [] {
      assert w.taken + [] == w.taken && c.workers[i := w] == c.workers;
    } else {
      OneDrained(c, i, destinations, max);
      var b := Next(c, Take(i), destinations, max);
      var d := Next(b, Sent(i), destinations, max);
      var rest := Drain(i, |w.queue| - 1);
      assert ([Take(i), Sent(i)] + rest)[1..] == [Sent(i)] + rest && ([Sent(i)] + rest)[1..] == rest;
      assert From(c, Drain(i, |w.queue|), destinations, max) == From(b, [Sent(i)] + rest, destinations, max);
      QueueIsDrained(d, i, destinations, max);
      assert w.taken + [w.queue[0]] + w.queue[1..] == w.taken + w.queue;
    }
  }

  /** A worker that ends gives back all its permits, and once joined its flow can be made anew. */
  lemma EndedWorkerIsGone(c: Client, i: nat, destinations: set<u16>, max: nat)
    requires Inv(c, max) && i < |c.workers| && c.workers[i].running
    ensures var w := c.workers[i];
            var d := Next(Next(c, Exit(i), destinations, max), Join(i), destinations, max);
            && d.flows == c.flows - {w.key} && d.workers == c.workers[..i] + c.workers[i + 1..]
            && d.available == c.available + Permits(w.queue)
                              + if w.hand.Some? then Max(1, |w.hand.value.payload|) else 0
  {
    hide Inv;
    QueueCostIsPermits(c.workers[i].queue);
    var w := c.workers[i];
    var after := c.workers[i := w.(queue := [], hand := None, running := false)];
    assert after[..i] == c.workers[..i] && after[i + 1..] == c.workers[i + 1..];
  }

  lemma {:induction false} QueueCostIsPermits(queue: seq<Item>)
    ensures QueueCost(queue) == Permits(queue)
  {
    if queue != [] {
      QueueCostIsPermits(queue[1..]);
    }
  }

  lemma WorkerOf(c: Client, key: Key, max: nat) returns (i: nat)
    requires Inv(c, max) && key in c.flows
    ensures i == IndexOf(c.workers, key) && i < |c.workers|
    ensures forall j | 0 <= j < |c.workers| && c.workers[j].key == key :: j == i
  {
    hide WorkerInv, AllHeld;
    i := IndexOf(c.workers, key);
    var j :| 0 <= j < |c.workers| && c.workers[j].key == key;
    assert i <= j;
  }

  lemma SpawnedQueues(c: Client, key: Key)
    ensures var d := Spawned(c, key);
            && key in d.flows && d.available == c.available && |d.workers| == |c.workers| + 1
            && d.workers[..|c.workers|] == c.workers && d.workers[|c.workers|] == Worker(key, [], None, true, [], [])
  {
  }

  lemma OfferedQueues(c: Client, i: nat, p: Item)
    requires i < |c.workers|
    ensures var d, w := Offered(c, i, p), c.workers[i];
            && |d.workers| == |c.workers| && d.workers[i].key == w.key && d.workers[i].running == w.running
            && (forall j | 0 <= j < |c.workers| && j != i :: d.workers[j] == c.workers[j])
            && if Cost(p) <= c.available && w.running && |w.queue| < QUEUE then
                 d.available == c.available - Cost(p) && d.workers[i].queue == w.queue + [p]
               else d.available == c.available && d.workers[i].queue == w.queue
  {
  }

  // ----- the event loop

  /** A packet comes in for a known service: the budget stays in balance, and only want of room drops it. */
  method OnPacket(available: nat, flows: set<Key>, workers: seq<Worker>, key: Key, p: Item, max: nat)
    returns (available': nat, flows': set<Key>, workers': seq<Worker>)
    requires Inv(Client(available, flows, workers), max)
    ensures Client(available', flows', workers') == Received(Client(available, flows, workers), key, p, max)
    ensures Inv(Client(available', flows', workers'), max)
    ensures QueuedIfRoom(Client(available, flows, workers), Client(available', flows', workers'), key, p, max)
  {
    hide Inv, QueuedIfRoom;
    ReceiveKeepsInv(Client(available, flows, workers), key, p, max);
    DroppedOnlyWithoutRoom(Client(available, flows, workers), key, p, max);
    available', flows', workers' := available, flows, workers;
    if key !in flows {
      if |flows| >= max {
        return;
      }
      flows' := flows + {key};
      workers' := workers + [Worker(key, [], None, true, [], [])];
    }
    var i := IndexOf(workers', key);
    if i < |workers'| {
      var w := workers'[i].(offered := workers'[i].offered + [p]);
      if Cost(p) <= available && w.running && |w.queue| < QUEUE {
        available' := available - Cost(p);
        w := w.(queue := w.queue + [p]);
      }
      workers' := workers'[i := w];
    }
  }

  /** The select loop, on any sequence of events, is such a run. */
  method Session(events: seq<Event>, destinations: set<u16>, max: nat)
    returns (available: nat, flows: set<Key>, workers: seq<Worker>)
    ensures Client(available, flows, workers) == Run(events, destinations, max)
    ensures Inv(Client(available, flows, workers), max)
    ensures ForDestinations(Client(available, flows, workers), destinations)
    ensures AllOctets(workers) <= 8 * 1024 * 1024
  {
    hide Inv, Received, Held, Took, ForDestinations, AllOctets;
    OnlyDestinations(events, destinations, max);
    MemoryIsBounded(events, destinations, max);
    available, flows, workers := BUDGET, {}, [];
    for n := 0 to |events|
      invariant Client(available, flows, workers) == Run(events[..n], destinations, max)
    {
      assert events[..n + 1][..n] == events[..n];
      BudgetIsConserved(events[..n], destinations, max);
      match events[n] {
        case Packet(key, p) =>
          if key.0 in destinations {
            available, flows, workers := OnPacket(available, flows, workers, key, p, max);
          }
        case Take(i) =>
          if i < |workers| && workers[i].running && workers[i].hand.None? && |workers[i].queue| > 0 {
            workers := workers[i := Took(workers[i])];
          }
        case Sent(i) =>
          if i < |workers| && workers[i].running && workers[i].hand.Some? {
            available := available + Cost(workers[i].hand.value);
            workers := workers[i := workers[i].(hand := None)];
          }
        case Exit(i) =>
          if i < |workers| && workers[i].running {
            available := available + Held(workers[i]);
            workers := workers[i := workers[i].(queue := [], hand := None, running := false)];
          }
        case Join(i) =>
          if i < |workers| && !workers[i].running {
            flows := flows - {workers[i].key};
            workers := workers[..i] + workers[i + 1..];
          }
      }
    }
    assert events[..|events|] == events;
    BudgetIsConserved(events, destinations, max);
  }
}
