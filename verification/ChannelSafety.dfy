/**
 * What holds in every reachable state of the datagram channel: packets are delivered only as sent, at
 * most once, only if completely handed over, and only from fragments that arrived together.
 */
module ChannelSafety {
  import opened Prelude
  import opened Bytes
  import opened Replay
  import opened Cipher
  import opened Crypto
  import opened Fragments
  import opened Reassembly
  import opened DatagramChannel

  // ----- the sending side

  ghost predicate JobsInv(tx: Sending) {
    && tx.nextMessage == |tx.jobs| <= MAX_MESSAGE
    && forall j | 0 <= j < |tx.jobs| ::
         && tx.jobs[j].message.id == j
         && Sendable(tx.jobs[j].message)
         && |tx.jobs[j].nonces| <= Parts(tx.jobs[j].message)
         && (tx.jobs[j].stopped ==> |tx.jobs[j].nonces| < Parts(tx.jobs[j].message))
  }

  /** Nonce `n` carries fragment `i` of job `j`. */
  ghost predicate SealedAs(tx: Sending, n: nat, j: nat, i: nat) {
    && j < |tx.jobs| && i < |tx.jobs[j].nonces| && tx.jobs[j].nonces[i] == n
    && Sendable(tx.jobs[j].message) && i < Parts(tx.jobs[j].message)
    && n < |tx.sealed| && tx.sealed[n].origin == Part(j, i)
    && tx.sealed[n].plain == Encode(Cut(tx.jobs[j].message, i))
    && |tx.sealed[n].cipher| == |tx.sealed[n].plain| + TAG
  }

  /** Nonces are issued as 0, 1, 2, ... within the budget, one for each fragment sealed, handed over or not. */
  ghost predicate NoncesInv(tx: Sending) {
    && 0 < tx.next == |tx.sealed| <= BUDGET
    && (forall n | 0 <= n < |tx.sealed| :: tx.sealed[n].nonce == n)
    && tx.sealed[0].origin == Registration
    && (forall n | 1 <= n < |tx.sealed| ::
          !tx.sealed[n].origin.Registration? && |tx.sealed[n].cipher| <= HEADER + CHUNK + TAG)
    && (forall n | 0 <= n < |tx.sealed| && tx.sealed[n].origin.Part? ::
          SealedAs(tx, n, tx.sealed[n].origin.job, tx.sealed[n].origin.index))
    && (forall j, i | 0 <= j < |tx.jobs| && 0 <= i < |tx.jobs[j].nonces| ::
          SealedAs(tx, tx.jobs[j].nonces[i], j, i))
  }

  ghost predicate SendingInv(tx: Sending) {
    JobsInv(tx) && NoncesInv(tx)
  }

  // ----- the receiving side

  ghost predicate OpenedInv(tx: Sending, rx: Receiving) {
    && 0 in rx.openedAt
    && forall n | n in rx.openedAt :: n < |tx.sealed| && rx.openedAt[n] <= rx.now
  }

  /** A filled slot holds its fragment's body, opened since the assembly was created. */
  ghost predicate SlotInv(job: Job, rx: Receiving, a: Assembly, i: nat)
    requires i < |a.parts|
  {
    a.parts[i].Some? ==>
      && i < |job.nonces| && i < Parts(job.message)
      && job.nonces[i] in rx.openedAt && a.created <= rx.openedAt[job.nonces[i]]
      && a.parts[i].value == Body(job.message.payload, i)
  }

  ghost predicate AssemblyInv(job: Job, rx: Receiving, a: Assembly) {
    && a.service == job.message.service
    && a.flow == job.message.flow
    && a.length == |job.message.payload|
    && a.created <= rx.now
    && forall i | 0 <= i < |a.parts| :: SlotInv(job, rx, a, i)
  }

  ghost predicate TableInv(tx: Sending, rx: Receiving, table: Pending) {
    Wf(table) && forall m | m in table :: m < |tx.jobs| && AssemblyInv(tx.jobs[m], rx, table[m])
  }

  // ----- what a delivery means

  function PacketOf(m: Message): Packet {
    Packet(m.service, m.flow, m.payload)
  }

  /** Fragment `i` was opened by time `at` and, if it is one of several, less than two seconds before. */
  ghost predicate Arrived(job: Job, rx: Receiving, i: nat, at: nat)
    requires i < |job.nonces|
  {
    var n := job.nonces[i];
    && n in rx.openedAt && rx.openedAt[n] <= at
    && (Parts(job.message) > 1 ==> at - rx.openedAt[n] < LIFETIME)
  }

  /** The packet of a completely handed-over job, all of whose fragments arrived together. */
  ghost predicate Genuine(job: Job, rx: Receiving, packet: Packet, at: nat) {
    && packet == PacketOf(job.message)
    && |job.nonces| == Parts(job.message)
    && forall i | 0 <= i < |job.nonces| :: Arrived(job, rx, i, at)
  }

  ghost predicate DeliveredInv(tx: Sending, rx: Receiving) {
    && (forall k | 0 <= k < |rx.delivered| ::
          var d := rx.delivered[k];
          d.id < |tx.jobs| && Genuine(tx.jobs[d.id], rx, d.packet, d.at) && d.id !in rx.pending)
    && (forall k, l | 0 <= k < l < |rx.delivered| :: rx.delivered[k].id != rx.delivered[l].id)
  }

  ghost predicate Inv(c: Channel) {
    && SendingInv(c.tx)
    && OpenedInv(c.tx, c.rx)
    && TableInv(c.tx, c.rx, c.rx.pending)
    && DeliveredInv(c.tx, c.rx)
  }

  // ----- facts that stay true

  /** The job has more nonces, or is the same. */
  ghost predicate JobGrows(job: Job, job': Job) {
    job'.message == job.message && job.nonces <= job'.nonces
  }

  /** More is opened, or time has passed. */
  ghost predicate RxGrows(rx: Receiving, rx': Receiving) {
    && rx.now <= rx'.now
    && forall n | n in rx.openedAt :: n in rx'.openedAt && rx'.openedAt[n] == rx.openedAt[n]
  }

  lemma AssemblyStays(job: Job, rx: Receiving, job': Job, rx': Receiving, a: Assembly)
    requires AssemblyInv(job, rx, a) && JobGrows(job, job') && RxGrows(rx, rx')
    ensures AssemblyInv(job', rx', a)
  {
    forall i | 0 <= i < |a.parts|
      ensures SlotInv(job', rx', a, i)
    {
      assert SlotInv(job, rx, a, i);
    }
  }

  lemma GenuineStays(job: Job, rx: Receiving, job': Job, rx': Receiving, packet: Packet, at: nat)
    requires Genuine(job, rx, packet, at) && JobGrows(job, job') && RxGrows(rx, rx')
    requires |job'.nonces| <= Parts(job'.message)
    ensures Genuine(job', rx', packet, at)
  {
    forall i | 0 <= i < |job'.nonces|
      ensures Arrived(job', rx', i, at)
    {
      assert Arrived(job, rx, i, at);
    }
  }

  ghost predicate TxGrows(tx: Sending, tx': Sending) {
    |tx.jobs| <= |tx'.jobs| && forall j | 0 <= j < |tx.jobs| :: JobGrows(tx.jobs[j], tx'.jobs[j])
  }

  lemma TableStays(tx: Sending, rx: Receiving, tx': Sending, rx': Receiving, table: Pending)
    requires TableInv(tx, rx, table) && TxGrows(tx, tx') && RxGrows(rx, rx')
    ensures TableInv(tx', rx', table)
  {
    hide Wf, AssemblyInv, JobGrows, RxGrows;
    forall m | m in table
      ensures m < |tx'.jobs| && AssemblyInv(tx'.jobs[m], rx', table[m])
    {
      AssemblyStays(tx.jobs[m], rx, tx'.jobs[m], rx', table[m]);
    }
  }

  lemma DeliveredStays(tx: Sending, rx: Receiving, tx': Sending, rx': Receiving)
    requires DeliveredInv(tx, rx) && TxGrows(tx, tx') && RxGrows(rx, rx') && JobsInv(tx')
    requires rx'.delivered == rx.delivered && rx'.pending.Keys <= rx.pending.Keys
    ensures DeliveredInv(tx', rx')
  {
    hide Genuine, JobGrows, RxGrows;
    forall k | 0 <= k < |rx.delivered|
      ensures var d := rx.delivered[k];
              d.id < |tx'.jobs| && Genuine(tx'.jobs[d.id], rx', d.packet, d.at) && d.id !in rx'.pending
    {
      var d := rx.delivered[k];
      GenuineStays(tx.jobs[d.id], rx, tx'.jobs[d.id], rx', d.packet, d.at);
    }
  }

  // ----- sending steps

  lemma SendingKeepsInv(c: Channel, tx': Sending)
    requires Inv(c) && TxGrows(c.tx, tx') && |c.tx.sealed| <= |tx'.sealed| && SendingInv(tx')
    ensures Inv(c.(tx := tx'))
  {
    hide Wf, AssemblyInv, Genuine, JobGrows, NoncesInv;
    TableStays(c.tx, c.rx, tx', c.rx, c.rx.pending);
    DeliveredStays(c.tx, c.rx, tx', c.rx);
  }

  lemma BeginKeepsInv(c: Channel, service: u16, flow: u64, payload: seq<byte>)
    requires Inv(c) && MayBegin(c.tx, payload)
    ensures Inv(c.(tx := Begun(c.tx, service, flow, payload)))
  {
    hide Wf, TableInv, DeliveredInv;
    var tx' := Begun(c.tx, service, flow, payload);
    assert NoncesInv(tx') by {
      assert forall n, j, i | SealedAs(c.tx, n, j, i) :: SealedAs(tx', n, j, i);
    }
    SendingKeepsInv(c, tx');
  }

  lemma SealKeepsOld(tx: Sending, j: nat, cipher: seq<byte>, accepted: bool, n: nat, k: nat, l: nat)
    requires MaySeal(tx, j, cipher) && SealedAs(tx, n, k, l)
    ensures SealedAs(SealedPart(tx, j, cipher, accepted), n, k, l)
  {
  }

  lemma SealAddsNew(tx: Sending, j: nat, cipher: seq<byte>)
    requires SendingInv(tx) && MaySeal(tx, j, cipher)
    ensures SealedAs(SealedPart(tx, j, cipher, true), tx.next, j, |tx.jobs[j].nonces|)
  {
  }

  lemma NextPlainFits(job: Job)
    requires Sendable(job.message) && |job.nonces| < Parts(job.message)
    ensures |NextPlain(job)| <= HEADER + CHUNK
  {
  }

  lemma SealKeepsNonces(tx: Sending, j: nat, cipher: seq<byte>, accepted: bool)
    requires SendingInv(tx) && MaySeal(tx, j, cipher)
    ensures SendingInv(SealedPart(tx, j, cipher, accepted))
  {
    hide SealedAs, NextPlain;
    var tx' := SealedPart(tx, j, cipher, accepted);
    SealAddsNew(tx, j, cipher);
    NextPlainFits(tx.jobs[j]);
    forall n, k, l | SealedAs(tx, n, k, l)
      ensures SealedAs(tx', n, k, l)
    {
      SealKeepsOld(tx, j, cipher, accepted, n, k, l);
    }
    forall k, l | 0 <= k < |tx'.jobs| && 0 <= l < |tx'.jobs[k].nonces|
      ensures SealedAs(tx', tx'.jobs[k].nonces[l], k, l)
    {
      if k != j || l != |tx.jobs[j].nonces| {
        assert SealedAs(tx, tx.jobs[k].nonces[l], k, l);
      }
    }
  }

  lemma SealKeepsInv(c: Channel, j: nat, cipher: seq<byte>, accepted: bool)
    requires Inv(c) && MaySeal(c.tx, j, cipher)
    ensures Inv(c.(tx := SealedPart(c.tx, j, cipher, accepted)))
  {
    hide Wf, TableInv, DeliveredInv, SendingInv;
    SealKeepsNonces(c.tx, j, cipher, accepted);
    SendingKeepsInv(c, SealedPart(c.tx, j, cipher, accepted));
  }

  // ----- time

  lemma ExpiryKeepsInv(c: Channel)
    requires Inv(c)
    ensures Inv(c.(rx := c.rx.(pending := Expired(c.rx.pending, c.rx.now))))
  {
    var rx' := c.rx.(pending := Expired(c.rx.pending, c.rx.now));
    TableStays(c.tx, c.rx, c.tx, rx', c.rx.pending);
    DeliveredStays(c.tx, c.rx, c.tx, rx');
  }

  lemma AdvanceKeepsInv(c: Channel, now: nat)
    requires Inv(c) && now >= c.rx.now
    ensures Inv(c.(rx := c.rx.(now := now)))
  {
    var rx' := c.rx.(now := now);
    TableStays(c.tx, c.rx, c.tx, rx', c.rx.pending);
    DeliveredStays(c.tx, c.rx, c.tx, rx');
  }

  // ----- receiving steps

  /** Only a fragment that was sealed, and not opened before, gets past `open`. */
  lemma OpenedIsNewPart(c: Channel, datagram: seq<byte>, plain: seq<byte>)
    requires Inv(c) && Opened(c.rx.openedAt.Keys, IdealDecrypt(c.tx.sealed), datagram) == Ok(plain)
    ensures var n := NonceOf(datagram);
            && 1 <= n < |c.tx.sealed| && n !in c.rx.openedAt
            && c.tx.sealed[n].origin.Part? && c.tx.sealed[n].plain == plain
            && SealedAs(c.tx, n, c.tx.sealed[n].origin.job, c.tx.sealed[n].origin.index)
            && Parse(plain) == Ok(Cut(c.tx.jobs[c.tx.sealed[n].origin.job].message, c.tx.sealed[n].origin.index))
  {
    hide TableInv, DeliveredInv, Parse, Encode;
    var n := NonceOf(datagram);
    assert n !in c.rx.openedAt.Keys;
    var o := c.tx.sealed[n].origin;
    assert SealedAs(c.tx, n, o.job, o.index);
    ParseExact(plain, Cut(c.tx.jobs[o.job].message, o.index));
  }

  lemma NotingKeepsInv(c: Channel, n: nat)
    requires Inv(c) && n < |c.tx.sealed| && n !in c.rx.openedAt
    ensures Inv(c.(rx := Noted(c.rx, n)))
  {
    var rx' := Noted(c.rx, n);
    TableStays(c.tx, c.rx, c.tx, rx', c.rx.pending);
    DeliveredStays(c.tx, c.rx, c.tx, rx');
  }

  /** No message is delivered while one of its fragments is still unopened. */
  lemma NotYetDelivered(c: Channel, n: nat, j: nat, i: nat, k: nat)
    requires Inv(c) && SealedAs(c.tx, n, j, i) && n !in c.rx.openedAt && k < |c.rx.delivered|
    ensures c.rx.delivered[k].id != j
  {
    hide TableInv, SendingInv;
    var d := c.rx.delivered[k];
    if d.id == j && Arrived(c.tx.jobs[j], c.rx, i, d.at) {
      assert false;
    }
  }

  /** Fragment `i` of the job has just been opened. */
  ghost predicate JustOpened(job: Job, rx: Receiving, i: nat) {
    && Sendable(job.message) && i < |job.nonces| <= Parts(job.message)
    && job.nonces[i] in rx.openedAt && rx.openedAt[job.nonces[i]] == rx.now
    && forall n | n in rx.openedAt :: rx.openedAt[n] <= rx.now
  }

  lemma BlankInv(job: Job, rx: Receiving, i: nat)
    requires JustOpened(job, rx, i)
    ensures AssemblyInv(job, rx, Blank(Cut(job.message, i), rx.now))
  {
  }

  lemma WithPartInv(job: Job, rx: Receiving, i: nat, a: Assembly)
    requires JustOpened(job, rx, i) && AssemblyInv(job, rx, a) && |a.parts| == Parts(job.message)
    ensures Matches(a, Cut(job.message, i)) && AssemblyInv(job, rx, WithPart(a, Cut(job.message, i)))
  {
    var b := WithPart(a, Cut(job.message, i));
    forall k | 0 <= k < |b.parts|
      ensures SlotInv(job, rx, b, k)
    {
      assert SlotInv(job, rx, a, k);
    }
  }

  /** A full assembly is the whole message, completely handed over, its fragments opened within its lifetime. */
  lemma FullIsWhole(job: Job, rx: Receiving, i: nat, b: Assembly)
    requires JustOpened(job, rx, i) && AssemblyInv(job, rx, b) && |b.parts| == Parts(job.message)
    requires Full(b.parts) && Live(b, rx.now)
    ensures Genuine(job, rx, Packet(b.service, b.flow, Concat(Values(b.parts))), rx.now)
  {
    forall k | 0 <= k < |b.parts|
      ensures Values(b.parts)[k] == Bodies(job.message.payload)[k] && k < |job.nonces| && Arrived(job, rx, k, rx.now)
    {
      assert SlotInv(job, rx, b, k);
    }
    assert Values(b.parts) == Bodies(job.message.payload);
    JoinInvertsCut(job.message.payload);
    assert SlotInv(job, rx, b, |b.parts| - 1);
  }

  /** What pushing a fragment of job `j` does to the table, and what it may deliver. */
  ghost predicate PushedWell(tx: Sending, rx: Receiving, j: nat, o: Outcome) {
    && j < |tx.jobs|
    && TableInv(tx, rx, o.pending)
    && (forall m | m in o.pending :: m in rx.pending || m == j)
    && o.result.Ok?
    && (o.result.value.Some? ==> j !in o.pending && Genuine(tx.jobs[j], rx, o.result.value.value, rx.now))
  }

  lemma TargetInv(tx: Sending, rx: Receiving, live: Pending, j: nat, i: nat)
    requires j < |tx.jobs| && tx.jobs[j].message.id == j && JustOpened(tx.jobs[j], rx, i)
    requires Parts(tx.jobs[j].message) > 1
    requires TableInv(tx, rx, live) && forall m | m in live :: Live(live[m], rx.now)
    ensures var a := Target(live, Cut(tx.jobs[j].message, i), rx.now);
            AssemblyInv(tx.jobs[j], rx, a) && Live(a, rx.now) && |a.parts| == Parts(tx.jobs[j].message)
  {
    TargetSized(live, Cut(tx.jobs[j].message, i), rx.now);
    BlankInv(tx.jobs[j], rx, i);
  }

  lemma TablePutInv(tx: Sending, rx: Receiving, live: Pending, j: u64, b: Assembly)
    requires TableInv(tx, rx, live) && Wf(live[j := b])
    requires j < |tx.jobs| && AssemblyInv(tx.jobs[j], rx, b)
    ensures TableInv(tx, rx, live[j := b])
  {
    hide Wf, AssemblyInv;
  }

  lemma TableDropInv(tx: Sending, rx: Receiving, live: Pending, j: u64)
    requires TableInv(tx, rx, live)
    ensures TableInv(tx, rx, live - {j})
  {
    hide Wf, AssemblyInv;
    DropKeepsWf(live, j);
  }

  lemma StoreInv(tx: Sending, rx: Receiving, live: Pending, j: nat, i: nat)
    requires j < |tx.jobs| && tx.jobs[j].message.id == j && JustOpened(tx.jobs[j], rx, i)
    requires Parts(tx.jobs[j].message) > 1
    requires TableInv(tx, rx, live) && Wf(live) && live.Keys <= rx.pending.Keys
    requires forall m | m in live :: Live(live[m], rx.now)
    ensures PushedWell(tx, rx, j, Store(live, Cut(tx.jobs[j].message, i), rx.now))
  {
    hide Wf, TableInv, AssemblyInv, Genuine, Full, Target, Sized;
    var job, f := tx.jobs[j], Cut(tx.jobs[j].message, i);
    var a := Target(live, f, rx.now);
    TargetInv(tx, rx, live, j, i);
    StoreKeepsWf(live, f, rx.now);
    WithPartInv(job, rx, i, a);
    var b := WithPart(a, f);
    if !Admitted(live, j) {
    } else if Full(b.parts) {
      FullIsWhole(job, rx, i, b);
      TableDropInv(tx, rx, live, j);
    } else {
      TablePutInv(tx, rx, live, j, b);
    }
  }

  lemma AcceptInv(tx: Sending, rx: Receiving, j: nat, i: nat)
    requires TableInv(tx, rx, rx.pending)
    requires j < |tx.jobs| && tx.jobs[j].message.id == j && JustOpened(tx.jobs[j], rx, i)
    ensures PushedWell(tx, rx, j, Accept(rx.pending, Cut(tx.jobs[j].message, i), rx.now))
  {
    var job := tx.jobs[j];
    if Parts(job.message) > 1 {
      StoreInv(tx, rx, Expired(rx.pending, rx.now), j, i);
    } else {
      assert Body(job.message.payload, 0) == job.message.payload;
      assert Arrived(job, rx, 0, rx.now);
      assert j !in rx.pending;
    }
  }

  lemma SameFacts(rx: Receiving, rx': Receiving, job: Job, packet: Packet, at: nat)
    requires Genuine(job, rx, packet, at) && RxGrows(rx, rx')
    ensures Genuine(job, rx', packet, at)
  {
    GenuineStays(job, rx, job, rx', packet, at);
  }

  lemma FinishKeepsInv(c: Channel, j: u64, o: Outcome)
    requires Inv(c) && PushedWell(c.tx, c.rx, j, o)
    requires forall k | 0 <= k < |c.rx.delivered| :: c.rx.delivered[k].id != j
    ensures Inv(c.(rx := Finished(c.rx, j, o)))
  {
    hide TableInv, SendingInv, Genuine;
    var rx' := Finished(c.rx, j, o);
    TableStays(c.tx, c.rx, c.tx, rx', o.pending);
    forall job: Job, packet, at | Genuine(job, c.rx, packet, at)
      ensures Genuine(job, rx', packet, at)
    {
      SameFacts(c.rx, rx', job, packet, at);
    }
  }

  lemma ReceiveKeepsInv(c: Channel, datagram: seq<byte>)
    requires Inv(c)
    ensures Inv(c.(rx := Received(c.rx, IdealDecrypt(c.tx.sealed), datagram)))
  {
    var r := Opened(c.rx.openedAt.Keys, IdealDecrypt(c.tx.sealed), datagram);
    if r.Ok? {
      var n := NonceOf(datagram);
      OpenedIsNewPart(c, datagram, r.value);
      var j, i := c.tx.sealed[n].origin.job, c.tx.sealed[n].origin.index;
      NotingKeepsInv(c, n);
      var mid := c.(rx := Noted(c.rx, n));
      assert JustOpened(c.tx.jobs[j], mid.rx, i);
      AcceptInv(c.tx, mid.rx, j, i);
      forall k | 0 <= k < |c.rx.delivered| ensures c.rx.delivered[k].id != j { NotYetDelivered(c, n, j, i, k); }
      FinishKeepsInv(mid, j, Accept(c.rx.pending, Cut(c.tx.jobs[j].message, i), c.rx.now));
    }
  }

  // ----- every run

  lemma NextKeepsInv(c: Channel, s: Step)
    requires Inv(c)
    ensures Inv(Next(c, s))
  {
    match s
    case Begin(service, flow, payload) =>
      if MayBegin(c.tx, payload) { BeginKeepsInv(c, service, flow, payload); }
    case SealPart(j, cipher, accepted) =>
      if MaySeal(c.tx, j, cipher) { SealKeepsInv(c, j, cipher, accepted); }
    case Deliver(datagram) => ReceiveKeepsInv(c, datagram);
    case Expire => ExpiryKeepsInv(c);
    case Advance(now) => if now >= c.rx.now { AdvanceKeepsInv(c, now); }
  }

  lemma {:induction false} RunKeepsInv(c: Channel, steps: seq<Step>)
    requires Inv(c)
    ensures Inv(Run(c, steps))
  {
    if steps != [] {
      RunKeepsInv(c, steps[..|steps| - 1]);
      NextKeepsInv(Run(c, steps[..|steps| - 1]), steps[|steps| - 1]);
    }
  }

  /** A state some run reaches from the end of a registration exchange. */
  ghost predicate Reachable(c: Channel) {
    exists registration, cipher, steps :: c == Run(Start(registration, cipher), steps)
  }

  lemma RunOneMore(c: Channel, steps: seq<Step>, s: Step)
    requires Wf(c.rx.pending)
    ensures Run(c, steps + [s]) == Next(Run(c, steps), s)
  {
    hide Next, Wf;
    assert (steps + [s])[..|steps|] == steps;
  }

  /** A run continued is a run. */
  lemma {:induction false} RunConcat(c: Channel, a: seq<Step>, b: seq<Step>)
    requires Wf(c.rx.pending)
    ensures Run(c, a + b) == Run(Run(c, a), b)
  {
    hide Next, Wf;
    if b == [] {
      assert a + b == a;
    } else {
      RunConcat(c, a, b[..|b| - 1]);
      assert (a + b)[..|a + b| - 1] == a + b[..|b| - 1];
    }
  }

  /** What is sealed and what is opened stays so. */
  lemma {:induction false} RunGrows(c: Channel, steps: seq<Step>)
    requires Wf(c.rx.pending)
    ensures c.tx.sealed <= Run(c, steps).tx.sealed
    ensures c.rx.openedAt.Keys <= Run(c, steps).rx.openedAt.Keys
  {
    hide Wf, Pushed, Opened;
    if steps != [] {
      RunGrows(c, steps[..|steps| - 1]);
    }
  }

  lemma {:induction false} JobsGrow(c: Channel, steps: seq<Step>, j: nat)
    requires Wf(c.rx.pending) && j < |c.tx.jobs|
    ensures j < |Run(c, steps).tx.jobs| && JobGrows(c.tx.jobs[j], Run(c, steps).tx.jobs[j])
  {
    hide Wf, Received;
    if steps != [] {
      JobsGrow(c, steps[..|steps| - 1], j);
    }
  }

  lemma ReachableRun(c: Channel, steps: seq<Step>)
    requires Reachable(c) && Wf(c.rx.pending)
    ensures Reachable(Run(c, steps))
  {
    hide Run;
    var registration, cipher, before :| c == Run(Start(registration, cipher), before);
    RunConcat(Start(registration, cipher), before, steps);
  }

  lemma StartIsReachable(registration: seq<byte>, cipher: seq<byte>)
    ensures Reachable(Start(registration, cipher))
  {
    assert Run(Start(registration, cipher), []) == Start(registration, cipher);
  }

  lemma StartInv(registration: seq<byte>, cipher: seq<byte>)
    ensures Inv(Start(registration, cipher))
  {
  }

  lemma ReachableInv(c: Channel)
    requires Reachable(c)
    ensures Inv(c)
  {
    hide Inv, Run;
    var registration, cipher, steps :| c == Run(Start(registration, cipher), steps);
    StartInv(registration, cipher);
    RunKeepsInv(Start(registration, cipher), steps);
  }

  /**
   * Integrity and at-most-once delivery. Whatever the senders' interleaving and the network do, every
   * packet the receiver returned is the (service, flow, payload) of a `send` that handed over all of its
   * fragments and was not stopped, and no two of them are the same send.
   */
  lemma DeliveredAsSentAtMostOnce(c: Channel)
    requires Reachable(c)
    ensures forall k | 0 <= k < |c.rx.delivered| ::
              var d := c.rx.delivered[k];
              && d.id < |c.tx.jobs|
              && d.packet == PacketOf(c.tx.jobs[d.id].message)
              && |c.tx.jobs[d.id].nonces| == Parts(c.tx.jobs[d.id].message)
              && !c.tx.jobs[d.id].stopped
    ensures forall k, l | 0 <= k < l < |c.rx.delivered| :: c.rx.delivered[k].id != c.rx.delivered[l].id
  {
    hide NoncesInv, TableInv, Reachable;
    ReachableInv(c);
  }

  /** All fragments of a delivered multi-fragment packet were opened within one span shorter than two seconds. */
  lemma DeliveredFragmentsArrivedTogether(c: Channel, k: nat, i: nat, l: nat)
    requires Reachable(c) && k < |c.rx.delivered|
    ensures var d := c.rx.delivered[k];
            && d.id < |c.tx.jobs|
            && (i < |c.tx.jobs[d.id].nonces| && l < |c.tx.jobs[d.id].nonces| && i != l ==>
                  var n, o := c.tx.jobs[d.id].nonces[i], c.tx.jobs[d.id].nonces[l];
                  && n in c.rx.openedAt && o in c.rx.openedAt
                  && c.rx.openedAt[n] - c.rx.openedAt[o] < LIFETIME)
  {
    hide SendingInv, TableInv, Reachable;
    ReachableInv(c);
    var d := c.rx.delivered[k];
    var job := c.tx.jobs[d.id];
    if i < |job.nonces| && l < |job.nonces| {
      assert Arrived(job, c.rx, i, d.at) && Arrived(job, c.rx, l, d.at);
    }
  }

  /** Nonces are 0, 1, 2, ... in sealing order and never exceed the budget; message IDs never repeat. */
  lemma NumbersAreUnique(c: Channel)
    requires Reachable(c)
    ensures |c.tx.sealed| <= BUDGET
    ensures forall n | 0 <= n < |c.tx.sealed| :: c.tx.sealed[n].nonce == n
    ensures forall j, k | 0 <= j < k < |c.tx.jobs| :: c.tx.jobs[j].message.id != c.tx.jobs[k].message.id
  {
    hide TableInv, DeliveredInv, Reachable;
    ReachableInv(c);
  }

  /** A datagram sealed for a fragment is at most 1046 octets. */
  lemma DatagramsFit(c: Channel, n: nat)
    requires Reachable(c) && 1 <= n < |c.tx.sealed|
    ensures |BigEndian(n, NONCE) + c.tx.sealed[n].cipher| <= 1046
  {
    hide TableInv, DeliveredInv, Reachable;
    ReachableInv(c);
  }

  /**
   * Nothing but a fragment that was handed over ever reaches the reassembler, in particular not the registration
   * plaintext sealed under nonce 0, and the reassembler never finds fault with what does.
   */
  lemma OnlyFragmentsArePushed(c: Channel, datagram: seq<byte>, plain: seq<byte>)
    requires Reachable(c) && Opened(c.rx.openedAt.Keys, IdealDecrypt(c.tx.sealed), datagram) == Ok(plain)
    ensures var n := NonceOf(datagram);
            && 1 <= n < |c.tx.sealed| && n !in c.rx.openedAt && plain == c.tx.sealed[n].plain
            && c.tx.sealed[n].origin.Part?
            && SealedAs(c.tx, n, c.tx.sealed[n].origin.job, c.tx.sealed[n].origin.index)
    ensures Wf(c.rx.pending) && Pushed(c.rx.pending, plain, c.rx.now).result.Ok?
  {
    ReachableInv(c);
    OpenedIsNewPart(c, datagram, plain);
    var n := NonceOf(datagram);
    var j, i := c.tx.sealed[n].origin.job, c.tx.sealed[n].origin.index;
    NotingKeepsInv(c, n);
    assert JustOpened(c.tx.jobs[j], Noted(c.rx, n), i);
    AcceptInv(c.tx, Noted(c.rx, n), j, i);
  }

  /** A datagram that is still fresh opens to what was sealed exactly when it was handed over and is unaltered. */
  lemma FreshDatagramOpens(c: Channel, n: nat, cipher: seq<byte>)
    requires Reachable(c) && 1 <= n < |c.tx.sealed| && Fresh(c.rx.openedAt.Keys, n)
    ensures Opened(c.rx.openedAt.Keys, IdealDecrypt(c.tx.sealed), BigEndian(n, NONCE) + cipher)
              == Ok(c.tx.sealed[n].plain)
       <==> cipher == c.tx.sealed[n].cipher && !c.tx.sealed[n].origin.Refused?
  {
    hide TableInv, DeliveredInv, Reachable;
    ReachableInv(c);
    var o := c.tx.sealed[n].origin;
    assert o.Part? ==> SealedAs(c.tx, n, o.job, o.index);
    NonceReadsBack(n, cipher);
  }

  lemma HandedOver(c: Channel, j: nat, i: nat)
    requires Inv(c) && j < |c.tx.jobs| && i < |c.tx.jobs[j].nonces|
    ensures 1 <= c.tx.jobs[j].nonces[i] < |c.tx.sealed|
    ensures SealedAs(c.tx, c.tx.jobs[j].nonces[i], j, i)
  {
    hide TableInv, DeliveredInv, JobsInv;
    assert SealedAs(c.tx, c.tx.jobs[j].nonces[i], j, i);
  }

  /** The datagram of a fragment that was handed over opens to that fragment, if it is fresh when it arrives. */
  lemma OwnDatagramOpens(c: Channel, j: nat, i: nat)
    requires Reachable(c) && Out(c.tx, j, i) && Fresh(c.rx.openedAt.Keys, c.tx.jobs[j].nonces[i])
    ensures Sendable(c.tx.jobs[j].message) && i < Parts(c.tx.jobs[j].message)
    ensures Opened(c.rx.openedAt.Keys, IdealDecrypt(c.tx.sealed), DatagramOf(c.tx, j, i))
         == Ok(Encode(Cut(c.tx.jobs[j].message, i)))
  {
    hide Inv, Reachable, Opened, Fresh, Encode, Cut;
    ReachableInv(c);
    HandedOver(c, j, i);
    var n := c.tx.jobs[j].nonces[i];
    FreshDatagramOpens(c, n, c.tx.sealed[n].cipher);
  }

  /** A delivery that a run adds is that of a completely handed-over send which had not been delivered before. */
  lemma NewestDelivery(c: Channel, before: seq<Delivery>, d: Delivery)
    requires Reachable(c) && c.rx.delivered == before + [d]
    ensures d.id < |c.tx.jobs| && d.packet == PacketOf(c.tx.jobs[d.id].message)
    ensures |c.tx.jobs[d.id].nonces| == Parts(c.tx.jobs[d.id].message) && !c.tx.jobs[d.id].stopped
    ensures forall k | 0 <= k < |before| :: before[k].id != d.id
  {
    hide Reachable;
    DeliveredAsSentAtMostOnce(c);
    assert c.rx.delivered[|before|] == d;
    assert forall k | 0 <= k < |before| :: c.rx.delivered[k] == before[k];
  }
}
