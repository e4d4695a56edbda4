/** Reassembly loses nothing that arrives in time: every order and every interleaving completes. */
module Completeness {
  import opened Prelude
  import opened Bytes
  import opened Fragments
  import opened Reassembly

  /** What can happen to a reassembler: a plaintext is pushed, or the periodic tick expires assemblies. */
  datatype Event = Arrival(p: seq<byte>, now: nat) | Tick(now: nat)

  function Step(pending: Pending, e: Event): (o: Outcome)
    requires Wf(pending)
    ensures Wf(o.pending)
  {
    match e
    case Arrival(p, now) => PushKeepsWf(pending, p, now); Pushed(pending, p, now)
    case Tick(now) => Outcome(Expired(pending, now), Ok(None))
  }

  function After(pending: Pending, events: seq<Event>): (r: Pending)
    requires Wf(pending)
    ensures Wf(r)
  {
    if events == [] then pending
    else Step(After(pending, events[..|events| - 1]), events[|events| - 1]).pending
  }

  /** The event touches the assembly of message `m`. */
  predicate Concerns(e: Event, id: u64) {
    && e.Arrival?
    && Parse(e.p).Ok?
    && Parse(e.p).value.message == id
    && Count(Parse(e.p).value.length) > 1
  }

  predicate CarriesPart(e: Event, m: Message, i: nat)
    requires Sendable(m) && i < Parts(m)
  {
    e.Arrival? && e.p == Encode(Cut(m, i))
  }

  predicate Seen(events: seq<Event>, m: Message, i: nat)
    requires Sendable(m) && i < Parts(m)
  {
    exists k | 0 <= k < |events| :: CarriesPart(events[k], m, i)
  }

  predicate AllSeen(events: seq<Event>, m: Message)
    requires Sendable(m)
  {
    forall i | 0 <= i < Parts(m) :: Seen(events, m, i)
  }

  /**
   * A run around message `m`: time does not go back, the run lasts less than two seconds, whatever
   * concerns the message is one of its own fragments, and the first event is such a fragment, finding
   * no live earlier assembly and room in the table. Everything else is arbitrary.
   */
  ghost predicate Timely(pending: Pending, events: seq<Event>, m: Message)
    requires Wf(pending) && Sendable(m)
  {
    && Parts(m) > 1
    && |events| > 0
    && (forall j, k | 0 <= j < k < |events| :: events[j].now <= events[k].now)
    && events[|events| - 1].now - events[0].now < LIFETIME
    && (forall k | 0 <= k < |events| && Concerns(events[k], m.id) ::
          exists i | 0 <= i < Parts(m) :: CarriesPart(events[k], m, i))
    && Concerns(events[0], m.id)
    && m.id !in Expired(pending, events[0].now)
    && |Expired(pending, events[0].now)| < MAX_ASSEMBLIES
  }

  /** The assembly holds exactly the parts that have arrived. */
  ghost predicate Holds(a: Assembly, events: seq<Event>, m: Message, created: nat)
    requires Sendable(m)
  {
    && a.service == m.service && a.flow == m.flow && a.length == |m.payload| && a.created == created
    && |a.parts| == Parts(m)
    && forall i | 0 <= i < Parts(m) ::
         a.parts[i] == if Seen(events, m, i) then Some(Body(m.payload, i)) else None
  }

  lemma PartConcerns(e: Event, m: Message, i: nat)
    requires Sendable(m) && Parts(m) > 1 && i < Parts(m) && CarriesPart(e, m, i)
    ensures Concerns(e, m.id) && Parse(e.p) == Ok(Cut(m, i))
  {
    ParseExact(e.p, Cut(m, i));
  }

  lemma OnePartEach(e: Event, m: Message, i: nat, j: nat)
    requires Sendable(m) && Parts(m) > 1 && i < Parts(m) && j < Parts(m)
    requires CarriesPart(e, m, i) && CarriesPart(e, m, j)
    ensures i == j
  {
    PartConcerns(e, m, i);
    PartConcerns(e, m, j);
  }

  lemma SeenGrows(events: seq<Event>, e: Event, m: Message, i: nat)
    requires Sendable(m) && i < Parts(m)
    ensures Seen(events + [e], m, i) <==> Seen(events, m, i) || CarriesPart(e, m, i)
  {
    hide CarriesPart;
    var after := events + [e];
    assert after[|events|] == e;
    assert forall k | 0 <= k < |events| :: after[k] == events[k];
  }

  /** An event that does not concern the message leaves its live assembly, or its absence, alone. */
  lemma OtherEvent(pending: Pending, e: Event, m: u64)
    requires Wf(pending) && !Concerns(e, m)
    ensures m !in pending ==> m !in Step(pending, e).pending
    ensures m in pending && Live(pending[m], e.now) ==>
              m in Step(pending, e).pending && Step(pending, e).pending[m] == pending[m]
  {
    hide Wf, Parse, Pushed;
    if e.Arrival? {
      OthersUntouched(pending, e.p, e.now, m);
    }
  }

  lemma FillPart(a: Assembly, prior: seq<Event>, e: Event, m: Message, i: nat, created: nat)
    requires Sendable(m) && Parts(m) > 1 && i < Parts(m)
    requires Holds(a, prior, m, created) && CarriesPart(e, m, i)
    ensures Matches(a, Cut(m, i)) && Holds(WithPart(a, Cut(m, i)), prior + [e], m, created)
  {
    var b := WithPart(a, Cut(m, i));
    forall j | 0 <= j < Parts(m)
      ensures b.parts[j] == if Seen(prior + [e], m, j) then Some(Body(m.payload, j)) else None
    {
      SeenGrows(prior, e, m, j);
      if CarriesPart(e, m, j) {
        OnePartEach(e, m, i, j);
      }
    }
  }

  lemma HeldAndComplete(a: Assembly, events: seq<Event>, m: Message, created: nat)
    requires Sendable(m) && Holds(a, events, m, created)
    ensures Full(a.parts) <==> AllSeen(events, m)
    ensures Full(a.parts) ==> Concat(Values(a.parts)) == m.payload
  {
    hide Seen;
    if Full(a.parts) {
      assert Values(a.parts) == Bodies(m.payload) by {
        forall i | 0 <= i < Parts(m)
          ensures Values(a.parts)[i] == Bodies(m.payload)[i]
        {
          assert a.parts[i].Some?;
        }
      }
      JoinInvertsCut(m.payload);
      assert forall i | 0 <= i < Parts(m) :: a.parts[i].Some? ==> Seen(events, m, i);
    }
  }

  /** One fragment of the message, meeting the parts that arrived before it. */
  lemma PartEvent(pending: Pending, prior: seq<Event>, e: Event, m: Message, i: nat, created: nat)
    requires Wf(pending) && Sendable(m) && Parts(m) > 1 && i < Parts(m) && CarriesPart(e, m, i)
    requires Admitted(Expired(pending, e.now), m.id)
    requires Holds(Target(Expired(pending, e.now), Cut(m, i), e.now), prior, m, created)
    ensures AllSeen(prior + [e], m) ==>
              Step(pending, e).result == Ok(Some(Packet(m.service, m.flow, m.payload)))
    ensures !AllSeen(prior + [e], m) ==>
              && Step(pending, e).result == Ok(None)
              && m.id in Step(pending, e).pending
              && Holds(Step(pending, e).pending[m.id], prior + [e], m, created)
  {
    var f := Cut(m, i);
    var live := Expired(pending, e.now);
    var a := Target(live, f, e.now);
    PartConcerns(e, m, i);
    FillPart(a, prior, e, m, i, created);
    HeldAndComplete(WithPart(a, f), prior + [e], m, created);
    assert Step(pending, e) == Store(live, f, e.now);
  }

  lemma NothingSeen(m: Message, f: Fragment, now: nat)
    requires Sendable(m) && Parts(m) > 1 && f.service == m.service && f.flow == m.flow && f.length == |m.payload|
    ensures Holds(Blank(f, now), [], m, now)
  {
  }

  lemma StillHeld(pending: Pending, e: Event, prior: seq<Event>, m: Message, created: nat)
    requires Wf(pending) && Sendable(m) && Parts(m) > 1
    requires !Concerns(e, m.id) && m.id in pending && Live(pending[m.id], e.now)
    requires Holds(pending[m.id], prior, m, created)
    ensures m.id in Step(pending, e).pending && Holds(Step(pending, e).pending[m.id], prior + [e], m, created)
    ensures AllSeen(prior + [e], m) ==> AllSeen(prior, m)
  {
    OtherEvent(pending, e, m.id);
    forall i | 0 <= i < Parts(m)
      ensures Seen(prior + [e], m, i) <==> Seen(prior, m, i)
    {
      SeenGrows(prior, e, m, i);
      if CarriesPart(e, m, i) {
        PartConcerns(e, m, i);
      }
    }
  }

  lemma PrefixTimely(pending: Pending, events: seq<Event>, m: Message, n: nat)
    requires Wf(pending) && Sendable(m) && Timely(pending, events, m) && 0 < n <= |events|
    ensures Timely(pending, events[..n], m)
  {
    hide Concerns, CarriesPart, Expired;
    var prior := events[..n];
    assert forall k | 0 <= k < |prior| :: prior[k] == events[k];
  }

  lemma PrefixSeesLess(events: seq<Event>, m: Message, n: nat)
    requires Sendable(m) && n <= |events| && AllSeen(events[..n], m)
    ensures AllSeen(events, m)
  {
    hide CarriesPart;
    forall i | 0 <= i < Parts(m)
      ensures Seen(events, m, i)
    {
      assert Seen(events[..n], m, i);
      var k :| 0 <= k < |events[..n]| && CarriesPart(events[..n][k], m, i);
      assert CarriesPart(events[k], m, i);
    }
  }

  /** The fragment an event of a timely run carries for the message. */
  lemma PartOf(pending: Pending, events: seq<Event>, m: Message, k: nat) returns (i: nat)
    requires Wf(pending) && Sendable(m) && Timely(pending, events, m)
    requires k < |events| && Concerns(events[k], m.id)
    ensures i < Parts(m) && CarriesPart(events[k], m, i)
  {
    i :| 0 <= i < Parts(m) && CarriesPart(events[k], m, i);
  }

  /**
   * The state a timely run leaves before its last event, seen from the message: nothing yet, or exactly
   * the parts that arrived, in an assembly created by the first of them and still alive.
   */
  ghost predicate Ready(pending: Pending, prior: seq<Event>, m: Message, first: nat, now: nat)
    requires Wf(pending) && Sendable(m)
  {
    var live := Expired(pending, now);
    if prior == [] then m.id !in live && |live| < MAX_ASSEMBLIES && first == now
    else m.id in live && live[m.id] == pending[m.id] && Holds(live[m.id], prior, m, first)
  }

  lemma HeldIsReady(pending: Pending, prior: seq<Event>, m: Message, first: nat, now: nat)
    requires Wf(pending) && Sendable(m) && prior != [] && now - first < LIFETIME
    requires m.id in pending && Holds(pending[m.id], prior, m, first)
    ensures Ready(pending, prior, m, first, now)
  {
    hide Wf, Seen;
    assert Live(pending[m.id], now);
  }

  lemma ReadyTakesPart(pending: Pending, prior: seq<Event>, e: Event, m: Message, i: nat, first: nat)
    requires Wf(pending) && Sendable(m) && Parts(m) > 1 && i < Parts(m) && CarriesPart(e, m, i)
    requires Ready(pending, prior, m, first, e.now)
    ensures AllSeen(prior + [e], m) ==>
              Step(pending, e).result == Ok(Some(Packet(m.service, m.flow, m.payload)))
    ensures !AllSeen(prior + [e], m) ==>
              && Step(pending, e).result == Ok(None)
              && m.id in Step(pending, e).pending
              && Holds(Step(pending, e).pending[m.id], prior + [e], m, first)
  {
    NothingSeen(m, Cut(m, i), e.now);
    PartEvent(pending, prior, e, m, i, first);
  }

  lemma {:induction false} RunIsReady(pending: Pending, events: seq<Event>, m: Message)
    requires Wf(pending) && Sendable(m) && Timely(pending, events, m)
    requires !AllSeen(events[..|events| - 1], m)
    ensures var prior := events[..|events| - 1];
            Ready(After(pending, prior), prior, m, events[0].now, events[|events| - 1].now)
    decreases |events|
  {
    var prior, first, now := events[..|events| - 1], events[0].now, events[|events| - 1].now;
    if |events| > 1 {
      RunHolds(pending, events, m);
      HeldIsReady(After(pending, prior), prior, m, first, now);
    } else {
      assert prior == [];
    }
  }

  lemma {:induction false} RunHolds(pending: Pending, events: seq<Event>, m: Message)
    requires Wf(pending) && Sendable(m) && Timely(pending, events, m) && |events| > 1
    requires !AllSeen(events[..|events| - 1], m)
    ensures var prior := events[..|events| - 1];
            m.id in After(pending, prior) && Holds(After(pending, prior)[m.id], prior, m, events[0].now)
    decreases |events|, 0
  {
    hide Wf, AllSeen, Concerns, CarriesPart, Seen, Step;
    var prior := events[..|events| - 1];
    var earlier, e := prior[..|prior| - 1], prior[|prior| - 1];
    PrefixTimely(pending, events, m, |prior|);
    assert earlier + [e] == prior;
    if AllSeen(earlier, m) {
      PrefixSeesLess(prior, m, |earlier|);
    }
    RunIsReady(pending, prior, m);
    if Concerns(e, m.id) {
      var i := PartOf(pending, prior, m, |prior| - 1);
      ReadyTakesPart(After(pending, earlier), earlier, e, m, i, events[0].now);
    } else {
      StillHeld(After(pending, earlier), e, earlier, m, events[0].now);
    }
  }

  lemma CompletingEvent(pending: Pending, events: seq<Event>, m: Message)
    requires Wf(pending) && Sendable(m) && Timely(pending, events, m)
    requires AllSeen(events, m) && !AllSeen(events[..|events| - 1], m)
    ensures Step(After(pending, events[..|events| - 1]), events[|events| - 1]).result
         == Ok(Some(Packet(m.service, m.flow, m.payload)))
  {
    var prior, e := events[..|events| - 1], events[|events| - 1];
    assert prior + [e] == events;
    RunIsReady(pending, events, m);
    if Concerns(e, m.id) {
      var i := PartOf(pending, events, m, |events| - 1);
      ReadyTakesPart(After(pending, prior), prior, e, m, i, events[0].now);
    } else {
      StillHeld(After(pending, prior), e, prior, m, events[0].now);
    }
  }

  lemma IncompleteEvent(pending: Pending, events: seq<Event>, m: Message)
    requires Wf(pending) && Sendable(m) && Timely(pending, events, m)
    requires !AllSeen(events, m) && Concerns(events[|events| - 1], m.id)
    ensures Step(After(pending, events[..|events| - 1]), events[|events| - 1]).result == Ok(None)
  {
    hide Wf, AllSeen, Concerns, CarriesPart, Seen, Step, Ready;
    var prior, e := events[..|events| - 1], events[|events| - 1];
    assert prior + [e] == events;
    if AllSeen(prior, m) {
      PrefixSeesLess(events, m, |prior|);
    }
    RunIsReady(pending, events, m);
    var i := PartOf(pending, events, m, |events| - 1);
    ReadyTakesPart(After(pending, prior), prior, e, m, i, events[0].now);
  }

  lemma EarlierEvent(pending: Pending, events: seq<Event>, m: Message, k: nat)
    requires Wf(pending) && Sendable(m) && Timely(pending, events, m)
    requires !AllSeen(events[..|events| - 1], m) && k < |events| - 1 && Concerns(events[k], m.id)
    ensures Step(After(pending, events[..k]), events[k]).result == Ok(None)
  {
    hide Wf, AllSeen, Concerns, Step, Timely;
    var prior, run := events[..|events| - 1], events[..k + 1];
    assert run[..k] == events[..k] && prior[..k + 1] == run && run[k] == events[k];
    PrefixTimely(pending, events, m, k + 1);
    if AllSeen(run, m) {
      PrefixSeesLess(prior, m, k + 1);
    }
    IncompleteEvent(pending, run, m);
  }

  /**
   * Completeness. In every timely run whose last event is the first to leave no part of the message
   * missing, that event returns exactly the payload sent, and no earlier fragment returned anything.
   */
  lemma EveryOrderCompletes(pending: Pending, events: seq<Event>, m: Message)
    requires Wf(pending) && Sendable(m) && Timely(pending, events, m)
    requires AllSeen(events, m) && !AllSeen(events[..|events| - 1], m)
    ensures Step(After(pending, events[..|events| - 1]), events[|events| - 1]).result
         == Ok(Some(Packet(m.service, m.flow, m.payload)))
    ensures forall k | 0 <= k < |events| - 1 && Concerns(events[k], m.id) ::
              Step(After(pending, events[..k]), events[k]).result == Ok(None)
  {
    hide Wf, AllSeen, Concerns, Step, Timely;
    CompletingEvent(pending, events, m);
    forall k | 0 <= k < |events| - 1 && Concerns(events[k], m.id)
      ensures Step(After(pending, events[..k]), events[k]).result == Ok(None)
    {
      EarlierEvent(pending, events, m, k);
    }
  }

  /** A message of one fragment is returned as sent by the push of that fragment, and the table is not touched. */
  lemma SingleFragmentCompletes(pending: Pending, m: Message, now: nat)
    requires Wf(pending) && Sendable(m) && Parts(m) == 1
    ensures Pushed(pending, Encode(Cut(m, 0)), now) == Outcome(pending, Ok(Some(Packet(m.service, m.flow, m.payload))))
  {
    hide Wf, Encode, Parse;
    ParseExact(Encode(Cut(m, 0)), Cut(m, 0));
    assert Body(m.payload, 0) == m.payload;
  }

  /** For instance, the two fragments of a message of up to 2000 octets, the second one first, with a tick between. */
  lemma ReversedPairCompletes(pending: Pending, m: Message, t: nat, u: nat)
    requires Wf(pending) && |Expired(pending, t)| < MAX_ASSEMBLIES && m.id !in Expired(pending, t)
    requires Sendable(m) && Parts(m) == 2 && t <= u < t + LIFETIME
    ensures var events := [Arrival(Encode(Cut(m, 1)), t), Tick(u), Arrival(Encode(Cut(m, 0)), u)];
            && Step(pending, events[0]).result == Ok(None)
            && Step(After(pending, events[..2]), events[2]).result == Ok(Some(Packet(m.service, m.flow, m.payload)))
  {
    hide Wf, Encode, Cut, Step, After, Parse, Expired;
    var events := [Arrival(Encode(Cut(m, 1)), t), Tick(u), Arrival(Encode(Cut(m, 0)), u)];
    assert CarriesPart(events[0], m, 1) && CarriesPart(events[2], m, 0);
    PartConcerns(events[0], m, 1);
    assert Seen(events, m, 0) && Seen(events, m, 1);
    if Seen(events[..2], m, 0) {
      OnePartEach(events[0], m, 0, 1);
    }
    EveryOrderCompletes(pending, events, m);
    assert events[..0] == [] && After(pending, []) == pending by { Nothing(pending); }
  }

  lemma Nothing(pending: Pending)
    requires Wf(pending)
    ensures After(pending, []) == pending
  {
  }
}
