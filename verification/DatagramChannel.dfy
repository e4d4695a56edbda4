/**
 * One direction of the datagram channel as a step system: concurrent senders, a network that may lose,
 * repeat, reorder and invent datagrams, and one receiver that opens and reassembles.
 */
module DatagramChannel {
  import opened Prelude
  import opened Bytes
  import opened Replay
  import opened Cipher
  import opened Crypto
  import opened Fragments
  import opened Reassembly

  const MAX_MESSAGE := 0xFFFF_FFFF_FFFF_FFFF

  /**
   * A call of `send`: its message, the nonces of the fragments it has handed to the connection, and
   * whether it has stopped because the connection refused one.
   */
  datatype Job = Job(message: Message, nonces: seq<nat>, stopped: bool)

  /**
   * What was sealed: the registration, a fragment of a job that was handed to the connection, or a
   * fragment that the connection refused and that nobody else ever saw.
   */
  datatype Origin = Registration | Part(job: nat, index: nat) | Refused

  datatype Record = Record(nonce: nat, plain: seq<byte>, cipher: seq<byte>, origin: Origin)

  /** A packet returned by the receiver, the message ID in the fragment that completed it, and when. */
  datatype Delivery = Delivery(id: u64, packet: Packet, at: nat)

  /** The sending side: message IDs and jobs, nonces and everything sealed so far in order. */
  datatype Sending = Sending(nextMessage: nat, jobs: seq<Job>, next: nat, sealed: seq<Record>)

  /** The receiving side: when each nonce was opened, the reassembly table, the clock, the packets returned. */
  datatype Receiving = Receiving(openedAt: map<nat, nat>, pending: Pending, now: nat, delivered: seq<Delivery>)

  datatype Channel = Channel(tx: Sending, rx: Receiving)

  datatype Step =
    | Begin(service: u16, flow: u64, payload: seq<byte>)
    | SealPart(job: nat, cipher: seq<byte>, accepted: bool)
    | Deliver(datagram: seq<byte>)
    | Expire
    | Advance(now: nat)

  /**
   * The ideal cipher: a ciphertext opens at a nonce only if the peer sealed it at that nonce and let it
   * out, and then to what was sealed.
   */
  function IdealDecrypt(sealed: seq<Record>): Decrypt {
    (n: nat, cipher: seq<byte>) =>
      if n < |sealed| && sealed[n].nonce == n && sealed[n].cipher == cipher && !sealed[n].origin.Refused?
      then Some(sealed[n].plain) else None
  }

  /** After the registration exchange: one nonce spent by the sender and opened by the receiver. */
  function Start(registration: seq<byte>, cipher: seq<byte>): Channel {
    Channel(Sending(0, [], 1, [Record(0, registration, cipher, Registration)]),
            Receiving(map[0 := 0], map[], 0, []))
  }

  // ----- sending steps

  predicate MayBegin(tx: Sending, payload: seq<byte>) {
    |payload| <= MAX_PAYLOAD && tx.nextMessage < MAX_MESSAGE
  }

  function Begun(tx: Sending, service: u16, flow: u64, payload: seq<byte>): Sending
    requires MayBegin(tx, payload)
  {
    tx.(nextMessage := tx.nextMessage + 1,
        jobs := tx.jobs + [Job(Message(tx.nextMessage, service, flow, payload), [], false)])
  }

  /** The job has a fragment left, and the key a nonce. */
  predicate MaySeal(tx: Sending, j: nat, cipher: seq<byte>) {
    && j < |tx.jobs|
    && Sendable(tx.jobs[j].message) && !tx.jobs[j].stopped
    && |tx.jobs[j].nonces| < Parts(tx.jobs[j].message)
    && tx.next < BUDGET
    && |cipher| == |NextPlain(tx.jobs[j])| + TAG
  }

  function NextPlain(job: Job): seq<byte>
    requires Sendable(job.message) && |job.nonces| < Parts(job.message)
  {
    Encode(Cut(job.message, |job.nonces|))
  }

  /** The next fragment is sealed. If the connection takes it, it is out; if not, the call stops. */
  function SealedPart(tx: Sending, j: nat, cipher: seq<byte>, accepted: bool): Sending
    requires MaySeal(tx, j, cipher)
  {
    var job := tx.jobs[j];
    var origin := if accepted then Part(j, |job.nonces|) else Refused;
    tx.(next := tx.next + 1,
        sealed := tx.sealed + [Record(tx.next, NextPlain(job), cipher, origin)],
        jobs := tx.jobs[j := if accepted then job.(nonces := job.nonces + [tx.next]) else job.(stopped := true)])
  }

  /** Fragment `i` of job `j` has been handed to the network. */
  predicate Out(tx: Sending, j: nat, i: nat) {
    j < |tx.jobs| && i < |tx.jobs[j].nonces| && tx.jobs[j].nonces[i] < |tx.sealed|
  }

  /** Its datagram: the nonce and the ciphertext sealed at it. */
  function DatagramOf(tx: Sending, j: nat, i: nat): seq<byte>
    requires Out(tx, j, i)
  {
    BigEndian(tx.jobs[j].nonces[i], NONCE) + tx.sealed[tx.jobs[j].nonces[i]].cipher
  }

  // ----- receiving steps

  /** The receiver after a nonce is opened, before the plaintext is pushed. */
  function Noted(rx: Receiving, n: nat): Receiving {
    rx.(openedAt := rx.openedAt[n := rx.now])
  }

  /** The receiver after a fragment of message `id` is pushed with the given outcome. */
  function Finished(rx: Receiving, id: u64, o: Outcome): Receiving {
    rx.(pending := o.pending,
        delivered := rx.delivered
          + match o.result
            case Ok(Some(packet)) => [Delivery(id, packet, rx.now)]
            case _ => [])
  }

  /** One turn of the receive loop on arbitrary bytes: open, then push what was opened. */
  ghost function Received(rx: Receiving, decrypt: Decrypt, datagram: seq<byte>): Receiving
    requires Wf(rx.pending)
  {
    match Opened(rx.openedAt.Keys, decrypt, datagram)
    case Err(_) => rx
    case Ok(plain) =>
      Finished(Noted(rx, NonceOf(datagram)),
               if Parse(plain).Ok? then Parse(plain).value.message else 0,
               Pushed(rx.pending, plain, rx.now))
  }

  lemma ReceivedWf(rx: Receiving, decrypt: Decrypt, datagram: seq<byte>)
    requires Wf(rx.pending)
    ensures Wf(Received(rx, decrypt, datagram).pending)
  {
    var r := Opened(rx.openedAt.Keys, decrypt, datagram);
    if r.Ok? {
      PushKeepsWf(rx.pending, r.value, rx.now);
    }
  }

  // ----- runs

  ghost function Next(c: Channel, s: Step): (r: Channel)
    requires Wf(c.rx.pending)
    ensures Wf(r.rx.pending)
  {
    match s
    case Begin(service, flow, payload) =>
      if MayBegin(c.tx, payload) then c.(tx := Begun(c.tx, service, flow, payload)) else c
    case SealPart(j, cipher, accepted) =>
      if MaySeal(c.tx, j, cipher) then c.(tx := SealedPart(c.tx, j, cipher, accepted)) else c
    case Deliver(datagram) =>
      ReceivedWf(c.rx, IdealDecrypt(c.tx.sealed), datagram);
      c.(rx := Received(c.rx, IdealDecrypt(c.tx.sealed), datagram))
    case Expire => c.(rx := c.rx.(pending := Expired(c.rx.pending, c.rx.now)))
    case Advance(now) => if now >= c.rx.now then c.(rx := c.rx.(now := now)) else c
  }

  ghost function Run(c: Channel, steps: seq<Step>): (r: Channel)
    requires Wf(c.rx.pending)
    ensures Wf(r.rx.pending)
  {
    if steps == [] then c else Next(Run(c, steps[..|steps| - 1]), steps[|steps| - 1])
  }
}
