/** The channel delivers what arrives in time: completeness of reassembly carried over to whole runs. */
module ChannelProgress {
  import opened Prelude
  import opened Bytes
  import opened Replay
  import opened Cipher
  import opened Crypto
  import opened Fragments
  import opened Reassembly
  import opened DatagramChannel
  import opened ChannelSafety
  import Completeness

  type Event = Completeness.Event

  /** What a step of the channel does to the reassembler. */
  ghost function EventOf(c: Channel, s: Step): (events: seq<Event>)
    ensures |events| <= 1
  {
    match s
    case Deliver(datagram) =>
      (match Opened(c.rx.openedAt.Keys, IdealDecrypt(c.tx.sealed), datagram)
       case Ok(plain) => [Completeness.Arrival(plain, c.rx.now)]
       case Err(_) => [])
    case Expire => [Completeness.Tick(c.rx.now)]
    case _ => []
  }

  ghost function Events(c: Channel, steps: seq<Step>): seq<Event>
    requires Wf(c.rx.pending)
  {
    if steps == [] then []
    else
      var before := steps[..|steps| - 1];
      Events(c, before) + EventOf(Run(c, before), steps[|steps| - 1])
  }

  lemma EventFollows(c: Channel, s: Step)
    requires Wf(c.rx.pending)
    ensures EventOf(c, s) == [] ==> Next(c, s).rx.pending == c.rx.pending
    ensures EventOf(c, s) != [] ==> Next(c, s).rx.pending == Completeness.Step(c.rx.pending, EventOf(c, s)[0]).pending
  {
    hide Wf, Pushed, Opened, Expired;
  }

  /** The reassembly table goes through exactly the recorded events. */
  lemma {:induction false} TableFollows(c: Channel, steps: seq<Step>)
    requires Wf(c.rx.pending)
    ensures Run(c, steps).rx.pending == Completeness.After(c.rx.pending, Events(c, steps))
  {
    hide Wf, Next, EventOf, Completeness.Step;
    if steps != [] {
      var before, s := steps[..|steps| - 1], steps[|steps| - 1];
      TableFollows(c, before);
      EventFollows(Run(c, before), s);
      var prior, now := Events(c, before), EventOf(Run(c, before), s);
      if now == [] {
        assert prior + now == prior;
      } else {
        assert (prior + now)[..|prior|] == prior && (prior + now)[|prior|] == now[0];
      }
    }
  }

  lemma ClockMoves(c: Channel, s: Step)
    requires Wf(c.rx.pending)
    ensures Next(c, s).rx.now >= c.rx.now
    ensures EventOf(c, s) != [] ==> EventOf(c, s)[0].now == c.rx.now
  {
    hide Wf, Pushed, Opened, Expired;
  }

  lemma {:induction false} EventsInOrder(c: Channel, steps: seq<Step>)
    requires Wf(c.rx.pending)
    ensures forall k | 0 <= k < |Events(c, steps)| :: Events(c, steps)[k].now <= Run(c, steps).rx.now
    ensures forall k, l | 0 <= k < l < |Events(c, steps)| :: Events(c, steps)[k].now <= Events(c, steps)[l].now
  {
    hide Wf, Next, EventOf;
    if steps != [] {
      EventsInOrder(c, steps[..|steps| - 1]);
      ClockMoves(Run(c, steps[..|steps| - 1]), steps[|steps| - 1]);
    }
  }

  /** Whatever reaches the assembly of a sent message is a fragment of it. */
  lemma OwnFragment(c: Channel, s: Step, j: u64)
    requires Inv(c) && j < |c.tx.jobs| && EventOf(c, s) != [] && Completeness.Concerns(EventOf(c, s)[0], j)
    ensures Sendable(c.tx.jobs[j].message)
    ensures exists i: nat | i < Parts(c.tx.jobs[j].message) ::
              Completeness.CarriesPart(EventOf(c, s)[0], c.tx.jobs[j].message, i)
  {
    var e := EventOf(c, s)[0];
    OpenedIsNewPart(c, s.datagram, e.p);
    var o := c.tx.sealed[NonceOf(s.datagram)].origin;
    assert SealedAs(c.tx, NonceOf(s.datagram), o.job, o.index);
    assert o.job == j;
    assert Completeness.CarriesPart(e, c.tx.jobs[j].message, o.index);
  }

  lemma {:induction false} OwnFragments(c: Channel, steps: seq<Step>, j: u64, k: nat)
    requires Inv(c) && Wf(c.rx.pending) && j < |c.tx.jobs| && Sendable(c.tx.jobs[j].message)
    requires k < |Events(c, steps)| && Completeness.Concerns(Events(c, steps)[k], j)
    ensures exists i | 0 <= i < Parts(c.tx.jobs[j].message) ::
              Completeness.CarriesPart(Events(c, steps)[k], c.tx.jobs[j].message, i)
  {
    hide Inv, Wf, EventOf, Next, Completeness.Concerns, Completeness.CarriesPart;
    var before, s := steps[..|steps| - 1], steps[|steps| - 1];
    if k < |Events(c, before)| {
      OwnFragments(c, before, j, k);
    } else {
      RunKeepsInv(c, before);
      JobsGrow(c, before, j);
      assert Events(c, steps)[k] == EventOf(Run(c, before), s)[0];
      OwnFragment(Run(c, before), s, j);
    }
  }

  lemma DeliveryOf(c: Channel, s: Step, j: u64, packet: Packet)
    requires Wf(c.rx.pending) && EventOf(c, s) != []
    requires Completeness.Step(c.rx.pending, EventOf(c, s)[0]).result == Ok(Some(packet))
    requires Completeness.Concerns(EventOf(c, s)[0], j)
    ensures Next(c, s).rx.delivered == c.rx.delivered + [Delivery(j, packet, c.rx.now)]
  {
    hide Wf, Pushed, Opened;
  }

  lemma LastConcerns(pending: Pending, events: seq<Event>, m: Message)
    requires Sendable(m) && Parts(m) > 1 && |events| > 0
    requires Completeness.AllSeen(events, m) && !Completeness.AllSeen(events[..|events| - 1], m)
    ensures Completeness.Concerns(events[|events| - 1], m.id)
  {
    var prior, e := events[..|events| - 1], events[|events| - 1];
    assert prior + [e] == events;
    var i :| 0 <= i < Parts(m) && !Completeness.Seen(prior, m, i);
    Completeness.SeenGrows(prior, e, m, i);
    Completeness.PartConcerns(e, m, i);
  }

  lemma IdIsIndex(c: Channel, j: u64)
    requires Inv(c) && j < |c.tx.jobs|
    ensures c.tx.jobs[j].message.id == j && Sendable(c.tx.jobs[j].message)
  {
    hide NoncesInv, TableInv, DeliveredInv, OpenedInv;
  }

  /**
   * The run opens fragments of message `j`, of which nothing is pending: the first finds room in the
   * table, the last comes less than two seconds later, and it is the run's last step that leaves none missing.
   */
  ghost predicate OpensAllInTime(c: Channel, steps: seq<Step>, j: u64)
    requires Wf(c.rx.pending)
  {
    && j < |c.tx.jobs| && Sendable(c.tx.jobs[j].message) && Parts(c.tx.jobs[j].message) > 1
    && |steps| > 0 && EventOf(Run(c, steps[..|steps| - 1]), steps[|steps| - 1]) != []
    && var m, events := c.tx.jobs[j].message, Events(c, steps);
       && Completeness.Concerns(events[0], j)
       && j !in Expired(c.rx.pending, events[0].now)
       && |Expired(c.rx.pending, events[0].now)| < MAX_ASSEMBLIES
       && events[|events| - 1].now - events[0].now < LIFETIME
       && Completeness.AllSeen(events, m) && !Completeness.AllSeen(events[..|events| - 1], m)
  }

  lemma RunIsTimely(c: Channel, steps: seq<Step>, j: u64)
    requires Inv(c) && Wf(c.rx.pending) && OpensAllInTime(c, steps, j)
    ensures Completeness.Timely(c.rx.pending, Events(c, steps), c.tx.jobs[j].message)
  {
    hide Inv, Wf, EventOf, Run, Completeness.Concerns, Completeness.CarriesPart, Completeness.AllSeen, Expired;
    var m, events := c.tx.jobs[j].message, Events(c, steps);
    IdIsIndex(c, j);
    EventsInOrder(c, steps);
    forall k | 0 <= k < |events| && Completeness.Concerns(events[k], j)
      ensures exists i | 0 <= i < Parts(m) :: Completeness.CarriesPart(events[k], m, i)
    {
      OwnFragments(c, steps, j, k);
    }
  }

  /** From any reachable state, a run that opens all fragments of a message in time delivers it at its last step. */
  lemma TimelyMessageIsDelivered(c: Channel, steps: seq<Step>, j: u64)
    requires Reachable(c) && Wf(c.rx.pending) && OpensAllInTime(c, steps, j)
    ensures Run(c, steps).rx.delivered
         == Run(c, steps[..|steps| - 1]).rx.delivered
            + [Delivery(j, PacketOf(c.tx.jobs[j].message), Run(c, steps[..|steps| - 1]).rx.now)]
  {
    hide Completeness.Concerns, Completeness.CarriesPart, Completeness.AllSeen, Completeness.Timely, Completeness.Step;
    hide Reachable, Inv, Wf, EventOf, Next, Expired;
    ReachableInv(c);
    var m, events := c.tx.jobs[j].message, Events(c, steps);
    var before, s := steps[..|steps| - 1], steps[|steps| - 1];
    IdIsIndex(c, j);
    RunIsTimely(c, steps, j);
    Completeness.EveryOrderCompletes(c.rx.pending, events, m);
    TableFollows(c, before);
    assert events[..|events| - 1] == Events(c, before) && events[|events| - 1] == EventOf(Run(c, before), s)[0];
    LastConcerns(c.rx.pending, events, m);
    DeliveryOf(Run(c, before), s, j, PacketOf(m));
  }

  // ----- from arrivals to openings

  /** Step `k` of the run brings the fragment's datagram unaltered, while its nonce is still fresh. */
  ghost predicate ArrivesAt(c: Channel, steps: seq<Step>, k: nat, j: nat, i: nat)
    requires Wf(c.rx.pending)
  {
    && k < |steps|
    && var mid := Run(c, steps[..k]);
       && Out(mid.tx, j, i) && steps[k] == Deliver(DatagramOf(mid.tx, j, i))
       && Fresh(mid.rx.openedAt.Keys, mid.tx.jobs[j].nonces[i])
  }

  /** Events of a shorter run come first among those of a longer one. */
  lemma {:induction false} EventsExtend(c: Channel, steps: seq<Step>, k: nat)
    requires Wf(c.rx.pending) && k <= |steps|
    ensures Events(c, steps[..k]) <= Events(c, steps)
    decreases |steps| - k
  {
    hide Wf, EventOf, Run;
    if k == |steps| {
      assert steps[..k] == steps;
    } else {
      EventsExtend(c, steps, k + 1);
      assert steps[..k + 1][..k] == steps[..k];
    }
  }

  lemma EventAt(c: Channel, steps: seq<Step>, k: nat)
    requires Wf(c.rx.pending) && k < |steps| && EventOf(Run(c, steps[..k]), steps[k]) != []
    ensures var n := |Events(c, steps[..k])|;
            n < |Events(c, steps)| && Events(c, steps)[n] == EventOf(Run(c, steps[..k]), steps[k])[0]
  {
    hide Wf, EventOf, Run, Events;
    EventsOneMore(c, steps, k);
    EventsExtend(c, steps, k + 1);
  }

  lemma EventsOneMore(c: Channel, steps: seq<Step>, k: nat)
    requires Wf(c.rx.pending) && k < |steps|
    ensures Events(c, steps[..k + 1]) == Events(c, steps[..k]) + EventOf(Run(c, steps[..k]), steps[k])
  {
    hide Wf, EventOf, Run;
    assert steps[..k + 1][..k] == steps[..k];
  }

  /** The step behind an event. */
  lemma {:induction false} StepOf(c: Channel, steps: seq<Step>, n: nat) returns (k: nat)
    requires Wf(c.rx.pending) && n < |Events(c, steps)|
    ensures k < |steps| && EventOf(Run(c, steps[..k]), steps[k]) == [Events(c, steps)[n]]
    ensures n == |Events(c, steps[..k])|
  {
    hide Wf, EventOf, Run;
    var before := steps[..|steps| - 1];
    if n < |Events(c, before)| {
      k := StepOf(c, before, n);
      assert before[..k] == steps[..k];
    } else {
      k := |steps| - 1;
    }
  }

  /** A fresh unaltered arrival is opened. */
  lemma ArrivalOpens(c: Channel, steps: seq<Step>, k: nat, j: nat, i: nat)
    requires Reachable(c) && Wf(c.rx.pending) && j < |c.tx.jobs| && ArrivesAt(c, steps, k, j, i)
    ensures Sendable(c.tx.jobs[j].message) && i < Parts(c.tx.jobs[j].message)
    ensures var mid := Run(c, steps[..k]);
            EventOf(mid, steps[k]) == [Completeness.Arrival(Encode(Cut(c.tx.jobs[j].message, i)), mid.rx.now)]
  {
    hide Reachable, Inv, Wf, Run, Encode, Cut, Fresh, Opened;
    var mid := Run(c, steps[..k]);
    ReachableRun(c, steps[..k]);
    ReachableInv(mid);
    HandedOver(mid, j, i);
    JobsGrow(c, steps[..k], j);
    var n := mid.tx.jobs[j].nonces[i];
    FreshDatagramOpens(mid, n, mid.tx.sealed[n].cipher);
  }

  /**
   * The run starts with the arrival of a fragment of message `j` that finds no live assembly of it and
   * room in the table. Fragment `i` arrives, fresh and unaltered, at step `at[i]`, the last of them with
   * the last step and less than two seconds after the first. Fragments may be handed over on the way.
   */
  ghost predicate ArrivesInTime(c: Channel, steps: seq<Step>, j: u64, at: seq<nat>)
    requires Wf(c.rx.pending)
  {
    && j < |c.tx.jobs| && |at| == Parts(c.tx.jobs[j].message) > 1
    && (forall i | 0 <= i < |at| :: ArrivesAt(c, steps, at[i], j, i))
    && 0 in at && |steps| - 1 in at
    && j !in Expired(c.rx.pending, c.rx.now)
    && |Expired(c.rx.pending, c.rx.now)| < MAX_ASSEMBLIES
    && Run(c, steps[..|steps| - 1]).rx.now - c.rx.now < LIFETIME
  }

  /** A fragment that arrives fresh at a step was not seen by the events before it. */
  lemma NotSeenBefore(c: Channel, steps: seq<Step>, k: nat, j: u64, i: nat)
    requires Reachable(c) && Wf(c.rx.pending) && j < |c.tx.jobs| && ArrivesAt(c, steps, k, j, i)
    requires Parts(c.tx.jobs[j].message) > 1
    ensures Sendable(c.tx.jobs[j].message) && i < Parts(c.tx.jobs[j].message)
    ensures !Completeness.Seen(Events(c, steps[..k]), c.tx.jobs[j].message, i)
  {
    hide Reachable, Wf, Run, Events, EventOf, Encode, Cut;
    ArrivalOpens(c, steps, k, j, i);
    var m, prior := c.tx.jobs[j].message, steps[..k];
    if Completeness.Seen(Events(c, prior), m, i) {
      var q :| 0 <= q < |Events(c, prior)| && Completeness.CarriesPart(Events(c, prior)[q], m, i);
      OpenedEarlier(c, prior, q, j, i);
    }
  }

  lemma OpenedEarlier(c: Channel, steps: seq<Step>, q: nat, j: u64, i: nat)
    requires Reachable(c) && Wf(c.rx.pending) && j < |c.tx.jobs|
    requires Sendable(c.tx.jobs[j].message) && i < Parts(c.tx.jobs[j].message)
    requires q < |Events(c, steps)| && Completeness.CarriesPart(Events(c, steps)[q], c.tx.jobs[j].message, i)
    ensures var end := Run(c, steps);
            j < |end.tx.jobs| && (i < |end.tx.jobs[j].nonces| ==> end.tx.jobs[j].nonces[i] in end.rx.openedAt)
  {
    hide Reachable, Wf, Inv, Encode, Cut, Run, Events, Next, EventOf;
    var k := StepOf(c, steps, q);
    JobsGrow(c, steps[..k], j);
    OpenedIsThatPart(c, steps[..k], steps[k], j, i);
    OpenedStays(c, steps, k, Run(c, steps[..k]).tx.jobs[j].nonces[i]);
    assert steps[..k] + steps[k..] == steps;
    RunConcat(c, steps[..k], steps[k..]);
    JobsGrow(Run(c, steps[..k]), steps[k..], j);
  }

  lemma OpenedStays(c: Channel, steps: seq<Step>, k: nat, n: nat)
    requires Wf(c.rx.pending) && k < |steps| && n in Next(Run(c, steps[..k]), steps[k]).rx.openedAt
    ensures n in Run(c, steps).rx.openedAt
  {
    hide Wf, Next, Run;
    RunOneMore(c, steps[..k], steps[k]);
    assert steps[..k] + [steps[k]] == steps[..k + 1];
    assert steps[..k + 1] + steps[k + 1..] == steps;
    RunConcat(c, steps[..k + 1], steps[k + 1..]);
    RunGrows(Run(c, steps[..k + 1]), steps[k + 1..]);
  }

  lemma OpenedIsThatPart(c: Channel, prior: seq<Step>, s: Step, j: u64, i: nat)
    requires Reachable(c) && Wf(c.rx.pending) && j < |c.tx.jobs| && j < |Run(c, prior).tx.jobs|
    requires Sendable(c.tx.jobs[j].message) && i < Parts(c.tx.jobs[j].message)
    requires var mid := Run(c, prior);
             EventOf(mid, s) != [] && Completeness.CarriesPart(EventOf(mid, s)[0], c.tx.jobs[j].message, i)
    ensures var mid := Run(c, prior);
            i < |mid.tx.jobs[j].nonces| && mid.tx.jobs[j].nonces[i] in Next(mid, s).rx.openedAt
  {
    var mid := Run(c, prior);
    ReachableInv(c);
    RunKeepsInv(c, prior);
    JobsGrow(c, prior, j);
    var plain := EventOf(mid, s)[0].p;
    OpenedIsNewPart(mid, s.datagram, plain);
    var n := NonceOf(s.datagram);
    var o := mid.tx.sealed[n].origin;
    IdIsIndex(c, j);
    IdIsIndex(mid, o.job);
    ParseExact(plain, Cut(c.tx.jobs[j].message, i));
    assert o.job == j && o.index == i;
    assert SealedAs(mid.tx, n, j, i);
  }

  lemma ArrivalsOpenAll(c: Channel, steps: seq<Step>, j: u64, at: seq<nat>)
    requires Reachable(c) && Wf(c.rx.pending) && ArrivesInTime(c, steps, j, at)
    ensures OpensAllInTime(c, steps, j)
  {
    hide Reachable, Wf, Inv, Encode, Cut, Expired, Run, Events, EventOf;
    hide Completeness.Seen, Completeness.Concerns, ArrivesAt;
    var m, events, last := c.tx.jobs[j].message, Events(c, steps), |steps| - 1;
    ReachableInv(c);
    IdIsIndex(c, j);
    forall i | 0 <= i < Parts(m)
      ensures Completeness.Seen(events, m, i)
    {
      ArrivalIsSeen(c, steps, at[i], j, i);
    }
    FirstEvent(c, steps, j, at);
    var l :| 0 <= l < |at| && at[l] == last;
    ArrivalOpens(c, steps, last, j, l);
    NotSeenBefore(c, steps, last, j, l);
    assert steps[..last + 1] == steps;
    EventsOneMore(c, steps, last);
    assert events[..|events| - 1] == Events(c, steps[..last]);
  }

  lemma ArrivalIsSeen(c: Channel, steps: seq<Step>, k: nat, j: nat, i: nat)
    requires Reachable(c) && Wf(c.rx.pending) && j < |c.tx.jobs| && ArrivesAt(c, steps, k, j, i)
    ensures Sendable(c.tx.jobs[j].message) && i < Parts(c.tx.jobs[j].message)
    ensures Completeness.Seen(Events(c, steps), c.tx.jobs[j].message, i)
  {
    hide Reachable, Wf, Encode, Cut, Events, Run, EventOf;
    ArrivalOpens(c, steps, k, j, i);
    EventAt(c, steps, k);
    assert Completeness.CarriesPart(Events(c, steps)[|Events(c, steps[..k])|], c.tx.jobs[j].message, i);
  }

  lemma FirstEvent(c: Channel, steps: seq<Step>, j: u64, at: seq<nat>)
    requires Reachable(c) && Wf(c.rx.pending) && ArrivesInTime(c, steps, j, at)
    ensures |Events(c, steps)| > 0 && Events(c, steps)[0].now == c.rx.now
    ensures Completeness.Concerns(Events(c, steps)[0], j)
  {
    hide Reachable, Wf, Inv, Encode, Cut, Expired, EventOf, Completeness.Concerns;
    var f :| 0 <= f < |at| && at[f] == 0;
    assert ArrivesAt(c, steps, 0, j, f);
    ReachableInv(c);
    IdIsIndex(c, j);
    ArrivalOpens(c, steps, 0, j, f);
    EventAt(c, steps, 0);
    assert steps[..0] == [] && Run(c, []) == c && Events(c, []) == [];
    Completeness.PartConcerns(Events(c, steps)[0], c.tx.jobs[j].message, f);
  }

  /**
   * Progress. From any reachable state, a run in which the datagrams of a message arrive in time, in any
   * order, fresh and unaltered, delivers exactly the packet that was sent with the last of them. Any other
   * steps may come in between, the handing over of its own later fragments among them.
   */
  lemma TimelyArrivalsAreDelivered(c: Channel, steps: seq<Step>, j: u64, at: seq<nat>)
    requires Reachable(c) && Wf(c.rx.pending) && ArrivesInTime(c, steps, j, at)
    ensures Run(c, steps).rx.delivered
         == Run(c, steps[..|steps| - 1]).rx.delivered
            + [Delivery(j, PacketOf(c.tx.jobs[j].message), Run(c, steps[..|steps| - 1]).rx.now)]
  {
    hide Reachable, Wf, Run, ArrivesInTime;
    assert |steps| > 0 && j < |c.tx.jobs| by { InRange(c, steps, j, at); }
    ArrivalsOpenAll(c, steps, j, at);
    TimelyMessageIsDelivered(c, steps, j);
  }

  lemma InRange(c: Channel, steps: seq<Step>, j: u64, at: seq<nat>)
    requires Wf(c.rx.pending) && ArrivesInTime(c, steps, j, at)
    ensures |steps| > 0 && j < |c.tx.jobs|
  {
  }

  /** Opening a fresh datagram adds its nonce, takes no time, and seals nothing. */
  lemma AfterArrival(c: Channel, j: nat, i: nat)
    requires Reachable(c) && Wf(c.rx.pending) && Out(c.tx, j, i)
    requires Fresh(c.rx.openedAt.Keys, c.tx.jobs[j].nonces[i])
    ensures var after := Next(c, Deliver(DatagramOf(c.tx, j, i)));
            && after.rx.openedAt.Keys == c.rx.openedAt.Keys + {c.tx.jobs[j].nonces[i]}
            && after.rx.now == c.rx.now && after.tx == c.tx
  {
    hide Reachable, TableInv, DeliveredInv, Wf, Opened, Pushed, Parse, Fresh;
    var n := c.tx.jobs[j].nonces[i];
    ReachableInv(c);
    HandedOver(c, j, i);
    FreshDatagramOpens(c, n, c.tx.sealed[n].cipher);
    NonceReadsBack(n, c.tx.sealed[n].cipher);
  }

  lemma TwoSteps(c: Channel, a: Step, b: Step)
    requires Wf(c.rx.pending)
    ensures Run(c, [a, b][..0]) == c && Run(c, [a, b][..1]) == Next(c, a)
  {
    hide Wf, Next;
    assert [a, b][..0] == [] && [a, b][..1] == [a] && [a][..0] == [];
  }

  lemma StillFresh(history: set<nat>, n: nat, other: nat)
    requires Fresh(history, n) && n != other && other - n < WINDOW
    ensures Fresh(history + {other}, n)
  {
  }

  /**
   * The conditions can be met: from any reachable state with room, the two fragments of a two-part message,
   * both fresh and the second arriving first, arrive in time if fewer than 1024 nonces lie between them.
   */
  lemma ReversedPairIsDelivered(c: Channel, j: u64)
    requires Reachable(c) && Wf(c.rx.pending) && j < |c.tx.jobs|
    requires |c.tx.jobs[j].nonces| == Parts(c.tx.jobs[j].message) == 2
    requires forall i | 0 <= i < 2 :: Out(c.tx, j, i) && Fresh(c.rx.openedAt.Keys, c.tx.jobs[j].nonces[i])
    requires c.tx.jobs[j].nonces[0] < c.tx.jobs[j].nonces[1] < c.tx.jobs[j].nonces[0] + WINDOW
    requires j !in Expired(c.rx.pending, c.rx.now) && |Expired(c.rx.pending, c.rx.now)| < MAX_ASSEMBLIES
    ensures var first := Deliver(DatagramOf(c.tx, j, 1));
            Run(c, [first, Deliver(DatagramOf(c.tx, j, 0))]).rx.delivered
            == Next(c, first).rx.delivered + [Delivery(j, PacketOf(c.tx.jobs[j].message), c.rx.now)]
  {
    hide Reachable, Wf, Next, Run, DatagramOf, Expired, Fresh, Parts;
    var first, second := Deliver(DatagramOf(c.tx, j, 1)), Deliver(DatagramOf(c.tx, j, 0));
    var steps, at := [first, second], [1, 0];
    AfterArrival(c, j, 1);
    TwoSteps(c, first, second);
    StillFresh(c.rx.openedAt.Keys, c.tx.jobs[j].nonces[0], c.tx.jobs[j].nonces[1]);
    assert ArrivesAt(c, steps, at[0], j, 0) && ArrivesAt(c, steps, at[1], j, 1);
    assert at[1] == 0 && at[0] == 1;
    TimelyArrivalsAreDelivered(c, steps, j, at);
  }

  /** The one datagram of a single-fragment message, arriving fresh and unaltered, delivers the message at once. */
  lemma SinglePartIsDelivered(c: Channel, n: nat)
    requires Reachable(c) && Wf(c.rx.pending)
    requires n < |c.tx.sealed| && c.tx.sealed[n].origin.Part? && Fresh(c.rx.openedAt.Keys, n)
    ensures c.tx.sealed[n].origin.job < |c.tx.jobs|
    ensures var m := c.tx.jobs[c.tx.sealed[n].origin.job].message;
            Parts(m) == 1 ==>
              Next(c, Deliver(BigEndian(n, NONCE) + c.tx.sealed[n].cipher)).rx.delivered
              == c.rx.delivered + [Delivery(m.id, PacketOf(m), c.rx.now)]
  {
    hide Reachable, Inv, Wf, Opened, Pushed, Encode, Parse, Fresh;
    ReachableInv(c);
    PartAtNonce(c, n);
    var datagram := BigEndian(n, NONCE) + c.tx.sealed[n].cipher;
    var o := c.tx.sealed[n].origin;
    var m := c.tx.jobs[o.job].message;
    FreshDatagramOpens(c, n, c.tx.sealed[n].cipher);
    if Parts(m) == 1 {
      ParseExact(Encode(Cut(m, 0)), Cut(m, 0));
      Completeness.SingleFragmentCompletes(c.rx.pending, m, c.rx.now);
    }
  }

  lemma PartAtNonce(c: Channel, n: nat)
    requires Inv(c) && n < |c.tx.sealed| && c.tx.sealed[n].origin.Part?
    ensures n >= 1
    ensures SealedAs(c.tx, n, c.tx.sealed[n].origin.job, c.tx.sealed[n].origin.index)
  {
    hide TableInv, DeliveredInv, JobsInv, SealedAs;
  }

  /** A small packet is sent: one call, one fragment, sealed to the given ciphertext and taken by the connection. */
  ghost function SentSmall(c: Channel, service: u16, flow: u64, payload: seq<byte>, cipher: seq<byte>): (r: Channel)
    requires Wf(c.rx.pending)
    ensures Wf(r.rx.pending)
  {
    Next(Next(c, Begin(service, flow, payload)), SealPart(|c.tx.jobs|, cipher, true))
  }

  /** There is an ID and a nonce left for a packet of one fragment. */
  predicate CanSendSmall(tx: Sending, payload: seq<byte>, cipher: seq<byte>) {
    && |payload| <= CHUNK && tx.nextMessage < MAX_MESSAGE && tx.next < BUDGET
    && |cipher| == HEADER + |payload| + TAG
  }

  lemma AfterSmall(c: Channel, service: u16, flow: u64, payload: seq<byte>, cipher: seq<byte>)
    requires Reachable(c) && Wf(c.rx.pending) && CanSendSmall(c.tx, payload, cipher)
    ensures var b, n := SentSmall(c, service, flow, payload, cipher), c.tx.next;
            && Reachable(b) && b.rx == c.rx && n < |b.tx.sealed|
            && c.tx.nextMessage == |c.tx.jobs|
            && b.tx.jobs == c.tx.jobs + [Job(Message(c.tx.nextMessage, service, flow, payload), [n], false)]
            && b.tx.sealed[n].origin == Part(|c.tx.jobs|, 0) && b.tx.sealed[n].cipher == cipher
            && Fresh(b.rx.openedAt.Keys, n)
  {
    hide Reachable, Wf, TableInv, DeliveredInv, Encode;
    ReachableInv(c);
    var begin := Begin(service, flow, payload);
    var seal := SealPart(|c.tx.jobs|, cipher, true);
    RunOneMore(c, [], begin);
    RunOneMore(c, [] + [begin], seal);
    ReachableRun(c, [] + [begin] + [seal]);
    var m := Message(c.tx.nextMessage, service, flow, payload);
    assert Next(c, begin).tx.jobs == c.tx.jobs + [Job(m, [], false)];
    assert MaySeal(Next(c, begin).tx, |c.tx.jobs|, cipher);
    assert [] + [c.tx.next] == [c.tx.next];
  }

  /**
   * From any reachable state with an ID and a nonce left, a packet of one fragment that is sent and arrives
   * before anything else is delivered at once, as it was sent.
   */
  lemma SmallIsDelivered(c: Channel, service: u16, flow: u64, payload: seq<byte>, cipher: seq<byte>)
    requires Reachable(c) && Wf(c.rx.pending) && CanSendSmall(c.tx, payload, cipher)
    ensures var b := SentSmall(c, service, flow, payload, cipher);
            Next(b, Deliver(BigEndian(c.tx.next, NONCE) + cipher)).rx.delivered
            == c.rx.delivered + [Delivery(c.tx.nextMessage, Packet(service, flow, payload), c.rx.now)]
  {
    hide Reachable, Wf, SentSmall, Next, Fresh;
    AfterSmall(c, service, flow, payload, cipher);
    SinglePartIsDelivered(SentSmall(c, service, flow, payload, cipher), c.tx.next);
  }
}
