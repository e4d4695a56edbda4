/** The code that sends and reads packets, shown to take the steps of the datagram channel and no others. */
module Session {
  import opened Prelude
  import opened Bytes
  import opened Replay
  import opened Cipher
  import opened Crypto
  import opened Frames
  import opened Fragments
  import opened Reassembly
  import opened DatagramChannel
  import opened ChannelSafety

  datatype SendError = PayloadTooLarge | MessageIdsExhausted | SealFailed(cause: CryptoError) | ConnectionRefused

  /** Job `j` is a call sending message `m`, not stopped, which has handed over fragments under these nonces. */
  ghost predicate Handing(tx: Sending, j: nat, m: Message, nonces: seq<nat>) {
    j < |tx.jobs| && tx.jobs[j] == Job(m, nonces, false)
  }

  /** The counters that all calls share. */
  datatype Counters = Counters(nonce: nat, message: nat)

  /**
   * What goes on beside a call: before it takes the lock for fragment `i`, others take the steps
   * `others[i]`, and it then finds the counters at `seen[i]`.
   */
  datatype Beside = Beside(seen: seq<Counters>, others: seq<seq<Step>>)

  function Nonces(seen: seq<Counters>, n: nat): (r: seq<nat>)
    requires n <= |seen|
    ensures |r| == n
  {
    seq(n, i requires 0 <= i < n => seen[i].nonce)
  }

  lemma NoncesOneMore(seen: seq<Counters>, n: nat)
    requires n < |seen|
    ensures Nonces(seen, n) + [seen[n].nonce] == Nonces(seen, n + 1)
  {
  }

  /** A call's own step for fragment `i`, at the nonce it finds. */
  function OwnStep(m: Message, encrypt: Encrypt, accepts: nat -> bool, j: nat, nonce: nat, i: nat): Step
    requires Sendable(m) && i < Parts(m)
  {
    var cipher := encrypt(nonce, Encode(Cut(m, i)));
    SealPart(j, if cipher.Some? then cipher.value else [], accepts(i))
  }

  /** The steps up to fragment `n`, the call's own and those of others in the order they are taken. */
  function Woven(m: Message, encrypt: Encrypt, accepts: nat -> bool, j: nat, b: Beside, n: nat): seq<Step>
    requires Sendable(m) && n <= Parts(m) && n <= |b.seen| && n <= |b.others|
  {
    if n == 0 then []
    else
      Woven(m, encrypt, accepts, j, b, n - 1) + b.others[n - 1]
      + [OwnStep(m, encrypt, accepts, j, b.seen[n - 1].nonce, n - 1)]
  }

  /** The others do anything but seal for this call, and the counters found are the channel's. */
  ghost predicate RunsBeside(c: Channel, m: Message, encrypt: Encrypt, accepts: nat -> bool, j: nat, b: Beside)
    requires Wf(c.rx.pending) && Sendable(m)
  {
    && |b.seen| == |b.others| == Parts(m)
    && (forall i | 0 <= i < Parts(m) :: LeavesAlone(b.others[i], j))
    && forall i | 0 <= i < Parts(m) ::
         b.seen[i] == CountersOf(Run(c, Woven(m, encrypt, accepts, j, b, i) + b.others[i]).tx)
  }

  function CountersOf(tx: Sending): Counters {
    Counters(tx.next, tx.nextMessage)
  }

  lemma {:induction false} WovenPrefix(m: Message, encrypt: Encrypt, accepts: nat -> bool, j: nat,
                                       b: Beside, more: seq<Counters>, n: nat)
    requires Sendable(m) && n <= Parts(m) && n <= |b.seen| && n <= |b.others|
    ensures Woven(m, encrypt, accepts, j, Beside(b.seen + more, b.others), n) == Woven(m, encrypt, accepts, j, b, n)
  {
    hide OwnStep;
    if n > 0 {
      WovenPrefix(m, encrypt, accepts, j, b, more, n - 1);
    }
  }

  /** Whatever the others do, there are counters for a call to find. */
  lemma {:induction false} AnyOthersWillDo(c: Channel, m: Message, encrypt: Encrypt, accepts: nat -> bool, j: nat,
                                           others: seq<seq<Step>>, n: nat) returns (seen: seq<Counters>)
    requires Wf(c.rx.pending) && Sendable(m) && n <= Parts(m) == |others|
    ensures |seen| == n
    ensures forall i | 0 <= i < n ::
              seen[i] == CountersOf(Run(c, Woven(m, encrypt, accepts, j, Beside(seen, others), i) + others[i]).tx)
  {
    hide Wf, Run, Woven;
    seen := [];
    if n > 0 {
      var prior := AnyOthersWillDo(c, m, encrypt, accepts, j, others, n - 1);
      var b := Beside(prior, others);
      var next := CountersOf(Run(c, Woven(m, encrypt, accepts, j, b, n - 1) + others[n - 1]).tx);
      seen := prior + [next];
      forall i | 0 <= i < n
        ensures Woven(m, encrypt, accepts, j, Beside(seen, others), i) == Woven(m, encrypt, accepts, j, b, i)
      {
        WovenPrefix(m, encrypt, accepts, j, b, [next], i);
      }
    }
  }

  ghost predicate LeavesAlone(steps: seq<Step>, j: nat) {
    forall k | 0 <= k < |steps| && steps[k].SealPart? :: steps[k].job != j
  }

  lemma {:induction false} OthersLeaveJob(c: Channel, steps: seq<Step>, j: nat)
    requires Wf(c.rx.pending) && LeavesAlone(steps, j) && j < |c.tx.jobs|
    ensures j < |Run(c, steps).tx.jobs| && Run(c, steps).tx.jobs[j] == c.tx.jobs[j]
  {
    hide Wf, Received;
    if steps != [] {
      OthersLeaveJob(c, steps[..|steps| - 1], j);
    }
  }

  lemma {:induction false} CountersBounded(c: Channel, steps: seq<Step>)
    requires Wf(c.rx.pending) && c.tx.next == |c.tx.sealed| <= BUDGET && c.tx.nextMessage <= MAX_MESSAGE
    ensures Run(c, steps).tx.next == |Run(c, steps).tx.sealed| <= BUDGET
    ensures Run(c, steps).tx.nextMessage <= MAX_MESSAGE
  {
    hide Wf, Received;
    if steps != [] {
      CountersBounded(c, steps[..|steps| - 1]);
    }
  }

  lemma Lengths(c: Channel, m: Message, encrypt: Encrypt, accepts: nat -> bool, j: nat, b: Beside)
    requires Wf(c.rx.pending) && Sendable(m) && RunsBeside(c, m, encrypt, accepts, j, b)
    ensures |b.seen| == |b.others| == Parts(m) && Nonces(b.seen, 0) == []
    ensures Woven(m, encrypt, accepts, j, b, 0) == []
  {
  }

  /** What a call finds when it takes the lock for its next fragment. */
  lemma BeforeFragment(c: Channel, m: Message, encrypt: Encrypt, accepts: nat -> bool, j: nat, b: Beside, i: nat,
                       datagrams: seq<seq<byte>>)
    requires Wf(c.rx.pending) && c.tx.next == |c.tx.sealed| <= BUDGET && c.tx.nextMessage <= MAX_MESSAGE
    requires Sendable(m) && RunsBeside(c, m, encrypt, accepts, j, b) && i < Parts(m)
    requires Handing(Run(c, Woven(m, encrypt, accepts, j, b, i)).tx, j, m, Nonces(b.seen, i))
    requires AllOut(Run(c, Woven(m, encrypt, accepts, j, b, i)).tx, j, datagrams)
    ensures var tx := Run(c, Woven(m, encrypt, accepts, j, b, i) + b.others[i]).tx;
            && Handing(tx, j, m, Nonces(b.seen, i)) && AllOut(tx, j, datagrams)
            && b.seen[i] == CountersOf(tx) && tx.next == |tx.sealed| <= BUDGET && tx.nextMessage <= MAX_MESSAGE
  {
    hide Wf, Run, Nonces, Woven, AllOut;
    var prior := Woven(m, encrypt, accepts, j, b, i);
    RunConcat(c, prior, b.others[i]);
    OthersLeaveJob(Run(c, prior), b.others[i], j);
    AllOutStays(Run(c, prior), b.others[i], j, datagrams);
    CountersBounded(c, prior + b.others[i]);
  }

  /** These are the datagrams of the first fragments of job `j`, as they are on the network. */
  ghost predicate AllOut(tx: Sending, j: nat, datagrams: seq<seq<byte>>) {
    forall i | 0 <= i < |datagrams| :: Out(tx, j, i) && datagrams[i] == DatagramOf(tx, j, i)
  }

  lemma AllOutStays(c: Channel, steps: seq<Step>, j: nat, datagrams: seq<seq<byte>>)
    requires Wf(c.rx.pending) && j < |c.tx.jobs| && AllOut(c.tx, j, datagrams)
    ensures AllOut(Run(c, steps).tx, j, datagrams)
  {
    hide Wf, Run, BigEndian;
    RunGrows(c, steps);
    JobsGrow(c, steps, j);
    var tx := Run(c, steps).tx;
    forall i | 0 <= i < |datagrams|
      ensures Out(tx, j, i) && datagrams[i] == DatagramOf(tx, j, i)
    {
      assert Out(c.tx, j, i);
      assert tx.jobs[j].nonces[i] == c.tx.jobs[j].nonces[i];
    }
  }

  lemma AllOutOneMore(c: Channel, steps: seq<Step>, step: Step, j: nat, datagrams: seq<seq<byte>>, more: seq<seq<byte>>)
    requires Wf(c.rx.pending) && j < |Run(c, steps).tx.jobs| && AllOut(Run(c, steps).tx, j, datagrams)
    requires |more| <= 1
    requires var tx, i := Next(Run(c, steps), step).tx, |datagrams|;
             more != [] ==> Out(tx, j, i) && more[0] == DatagramOf(tx, j, i)
    ensures Run(c, steps + [step]) == Next(Run(c, steps), step)
    ensures AllOut(Run(c, steps + [step]).tx, j, datagrams + more)
  {
    hide Wf, Run, Next, DatagramOf;
    RunOneMore(c, steps, step);
    RunConcat(c, steps, [step]);
    AllOutStays(Run(c, steps), [step], j, datagrams);
  }

  /** Each of them that arrives fresh opens to its fragment. */
  ghost predicate EachOpens(c: Channel, j: nat, datagrams: seq<seq<byte>>, m: Message)
    requires Sendable(m) && |datagrams| <= Parts(m)
  {
    forall i | 0 <= i < |datagrams| && Out(c.tx, j, i) && Fresh(c.rx.openedAt.Keys, c.tx.jobs[j].nonces[i]) ::
      Opened(c.rx.openedAt.Keys, IdealDecrypt(c.tx.sealed), datagrams[i]) == Ok(Encode(Cut(m, i)))
  }

  lemma AllOutOpen(c: Channel, j: nat, datagrams: seq<seq<byte>>)
    requires Reachable(c) && j < |c.tx.jobs| && AllOut(c.tx, j, datagrams)
    requires Sendable(c.tx.jobs[j].message) && |datagrams| <= Parts(c.tx.jobs[j].message)
    ensures EachOpens(c, j, datagrams, c.tx.jobs[j].message)
  {
    hide Reachable, Opened, Fresh, Encode, Cut, DatagramOf;
    forall i | 0 <= i < |datagrams| && Out(c.tx, j, i) && Fresh(c.rx.openedAt.Keys, c.tx.jobs[j].nonces[i])
      ensures Opened(c.rx.openedAt.Keys, IdealDecrypt(c.tx.sealed), datagrams[i])
           == Ok(Encode(Cut(c.tx.jobs[j].message, i)))
    {
      OwnDatagramOpens(c, j, i);
    }
  }

  /** Steps of senders only. */
  ghost predicate OnlySends(steps: seq<Step>) {
    forall k | 0 <= k < |steps| :: steps[k].Begin? || steps[k].SealPart?
  }

  /** The receiver sees nothing of what is sent until it arrives. */
  lemma {:induction false} SendingLeavesReceiver(c: Channel, steps: seq<Step>)
    requires Wf(c.rx.pending) && OnlySends(steps)
    ensures Run(c, steps).rx == c.rx
  {
    hide Wf;
    if steps != [] {
      SendingLeavesReceiver(c, steps[..|steps| - 1]);
    }
  }

  lemma {:induction false} WovenSends(m: Message, encrypt: Encrypt, accepts: nat -> bool, j: nat, b: Beside, n: nat)
    requires Sendable(m) && n <= Parts(m) == |b.seen| == |b.others|
    requires forall i | 0 <= i < n :: OnlySends(b.others[i])
    ensures OnlySends(Woven(m, encrypt, accepts, j, b, n))
  {
    hide Encode, Cut;
    if n > 0 {
      WovenSends(m, encrypt, accepts, j, b, n - 1);
    }
  }

  lemma EncodedSize(m: Message, i: nat)
    requires Sendable(m) && i < Parts(m)
    ensures |Encode(Cut(m, i))| <= HEADER + CHUNK
  {
  }

  lemma NothingOut(tx: Sending, j: nat)
    ensures AllOut(tx, j, [])
  {
  }

  lemma NoSteps(c: Channel)
    requires Wf(c.rx.pending)
    ensures Run(c, []) == c
  {
  }

  lemma AfterBegin(c: Channel, begin: Step, rest: seq<Step>)
    requires Wf(c.rx.pending)
    ensures Run(c, [begin] + rest) == Run(Next(c, begin), rest)
  {
    RunOneMore(c, [], begin);
    assert [] + [begin] == [begin];
    RunConcat(c, [begin], rest);
  }

  class Sender {
    const crypto: DatagramCrypto
    var nextMessage: nat

    ghost predicate Valid()
      reads this, crypto, crypto.replay, crypto.replay.seen
    {
      crypto.Valid() && nextMessage <= MAX_MESSAGE
    }

    /** The sender's counters are those of the channel's sending side. */
    ghost predicate Mirrors(tx: Sending)
      reads this, crypto
    {
      tx.next == |tx.sealed| == crypto.next && tx.nextMessage == nextMessage
    }

    constructor (crypto: DatagramCrypto)
      requires crypto.Valid()
      ensures Valid() && this.crypto == crypto && nextMessage == 0
    {
      this.crypto := crypto;
      nextMessage := 0;
    }

    /** Other calls have moved the counters while this one did not hold the lock. */
    method Resume(at: Counters)
      requires Valid() && at.nonce <= BUDGET && at.message <= MAX_MESSAGE
      modifies this, crypto
      ensures Valid() && crypto.next == at.nonce && nextMessage == at.message
    {
      crypto.next, nextMessage := at.nonce, at.message;
    }

    /** One fragment: sealing it and offering it to the connection is one step of its job. */
    method SealFragment(m: Message, i: nat, encrypt: Encrypt, accepts: nat -> bool,
                        ghost c: Channel, ghost j: nat, ghost nonces: seq<nat>)
      returns (s: Result<seq<byte>, CryptoError>)
      requires Valid() && Wf(c.rx.pending) && Mirrors(c.tx) && Seals(encrypt, HEADER + CHUNK)
      requires Sendable(m) && i < Parts(m) && |nonces| == i && Handing(c.tx, j, m, nonces)
      modifies crypto
      ensures Valid() && s == SealedAt(old(crypto.next), encrypt, Encode(Cut(m, i)))
      ensures s.Err? ==> s.error == BudgetExhausted && crypto.next == old(crypto.next) == BUDGET
      ensures s.Ok? ==>
                && |s.value| <= 1046
                && var tx := Next(c, OwnStep(m, encrypt, accepts, j, old(crypto.next), i)).tx;
                   && Mirrors(tx)
                   && (accepts(i) ==>
                         && Handing(tx, j, m, nonces + [old(crypto.next)])
                         && Out(tx, j, i) && s.value == DatagramOf(tx, j, i))
                   && (!accepts(i) ==> j < |tx.jobs| && tx.jobs[j] == Job(m, nonces, true))
    {
      hide Wf, Encode;
      EncodedSize(m, i);
      s := crypto.Seal(Encode(Cut(m, i)), encrypt);
    }

    /** The datagrams of a message's first fragments, sealed at the nonces the call found. */
    ghost predicate Handed(m: Message, encrypt: Encrypt, seen: seq<Counters>, datagrams: seq<seq<byte>>)
      requires Sendable(m)
    {
      && |datagrams| <= Parts(m) == |seen|
      && forall i | 0 <= i < |datagrams| ::
           SealedAt(seen[i].nonce, encrypt, Encode(Cut(m, i))) == Ok(datagrams[i]) && |datagrams[i]| <= 1046
    }

    /**
     * How a call that handed over `n` fragments has ended and by which steps: all fragments are out, or the
     * nonces are spent, or the connection refused the next datagram.
     */
    ghost predicate EndedBy(r: Result<(), SendError>, m: Message, encrypt: Encrypt, accepts: nat -> bool, j: nat,
                            b: Beside, n: nat, steps: seq<Step>)
      requires Sendable(m) && n <= Parts(m) == |b.seen| == |b.others|
    {
      match r
      case Ok(_) => n == Parts(m) && steps == Woven(m, encrypt, accepts, j, b, n)
      case Err(e) =>
        n < Parts(m)
        && if e == ConnectionRefused then !accepts(n) && steps == Woven(m, encrypt, accepts, j, b, n + 1)
           else && e == SealFailed(BudgetExhausted) && b.seen[n].nonce == BUDGET
                && steps == Woven(m, encrypt, accepts, j, b, n) + b.others[n]
    }

    /** One turn of the loop: the counters are as others left them, and the next fragment goes out. */
    method FragmentTurn(m: Message, encrypt: Encrypt, accepts: nat -> bool, b: Beside, i: nat,
                        ghost c: Channel, ghost j: nat, ghost datagrams: seq<seq<byte>>)
      returns (s: Result<seq<byte>, CryptoError>)
      requires Valid() && Seals(encrypt, HEADER + CHUNK) && Sendable(m) && i < Parts(m) && |datagrams| == i
      requires Wf(c.rx.pending) && c.tx.next == |c.tx.sealed| <= BUDGET && c.tx.nextMessage <= MAX_MESSAGE
      requires RunsBeside(c, m, encrypt, accepts, j, b)
      requires Handing(Run(c, Woven(m, encrypt, accepts, j, b, i)).tx, j, m, Nonces(b.seen, i))
      requires AllOut(Run(c, Woven(m, encrypt, accepts, j, b, i)).tx, j, datagrams)
      modifies this, crypto
      ensures Valid() && s == SealedAt(b.seen[i].nonce, encrypt, Encode(Cut(m, i)))
      ensures s.Err? ==>
                && s.error == BudgetExhausted && b.seen[i].nonce == BUDGET
                && var tx := Run(c, Woven(m, encrypt, accepts, j, b, i) + b.others[i]).tx;
                   Mirrors(tx) && Handing(tx, j, m, Nonces(b.seen, i)) && AllOut(tx, j, datagrams)
      ensures s.Ok? ==>
                && |s.value| <= 1046
                && var tx := Run(c, Woven(m, encrypt, accepts, j, b, i + 1)).tx;
                   && Mirrors(tx) && j < |tx.jobs|
                   && AllOut(tx, j, if accepts(i) then datagrams + [s.value] else datagrams)
                   && tx.jobs[j] == Job(m, Nonces(b.seen, if accepts(i) then i + 1 else i), !accepts(i))
    {
      hide Wf, Encode, Cut, SealedAt, OwnStep, Next, Run, RunsBeside, Nonces, Represents, DatagramOf, AllOut;
      Lengths(c, m, encrypt, accepts, j, b);
      BeforeFragment(c, m, encrypt, accepts, j, b, i, datagrams);
      ghost var steps := Woven(m, encrypt, accepts, j, b, i) + b.others[i];
      Resume(b.seen[i]);
      s := SealFragment(m, i, encrypt, accepts, Run(c, steps), j, Nonces(b.seen, i));
      if s.Ok? {
        ghost var step := OwnStep(m, encrypt, accepts, j, b.seen[i].nonce, i);
        AllOutOneMore(c, steps, step, j, datagrams, if accepts(i) then [s.value] else []);
        NoncesOneMore(b.seen, i);
        assert datagrams + [] == datagrams;
      }
    }

    method SendFragments(m: Message, encrypt: Encrypt, accepts: nat -> bool, b: Beside, ghost c: Channel, ghost j: nat)
      returns (r: Result<(), SendError>, datagrams: seq<seq<byte>>, ghost steps: seq<Step>)
      requires Valid() && Wf(c.rx.pending) && Mirrors(c.tx) && Seals(encrypt, HEADER + CHUNK)
      requires Sendable(m) && Handing(c.tx, j, m, []) && RunsBeside(c, m, encrypt, accepts, j, b)
      modifies this, crypto
      ensures Valid() && Mirrors(Run(c, steps).tx)
      ensures Handed(m, encrypt, b.seen, datagrams)
      ensures EndedBy(r, m, encrypt, accepts, j, b, |datagrams|, steps)
      ensures j < |Run(c, steps).tx.jobs|
      ensures Run(c, steps).tx.jobs[j] == Job(m, Nonces(b.seen, |datagrams|), r == Err(ConnectionRefused))
      ensures AllOut(Run(c, steps).tx, j, datagrams)
    {
      hide Wf, Encode, Cut, SealedAt, Next, Run, Woven, RunsBeside, Nonces, Represents, AllOut, Seals;
      datagrams, steps := [], [];
      NoSteps(c);
      NothingOut(c.tx, j);
      Lengths(c, m, encrypt, accepts, j, b);
      for i := 0 to Parts(m)
        invariant Valid() && Mirrors(Run(c, steps).tx)
        invariant steps == Woven(m, encrypt, accepts, j, b, i)
        invariant Handing(Run(c, steps).tx, j, m, Nonces(b.seen, i))
        invariant |datagrams| == i && Handed(m, encrypt, b.seen, datagrams)
        invariant AllOut(Run(c, steps).tx, j, datagrams)
      {
        var s := FragmentTurn(m, encrypt, accepts, b, i, c, j, datagrams);
        if s.Err? {
          return Err(SealFailed(s.error)), datagrams, steps + b.others[i];
        }
        steps := Woven(m, encrypt, accepts, j, b, i + 1);
        if !accepts(i) {
          return Err(ConnectionRefused), datagrams, steps;
        }
        datagrams := datagrams + [s.value];
      }
      r := Ok(());
    }

    /**
     * A whole `send`, with any others beside it: `accepts(i)` says whether the connection takes the datagram
     * of fragment `i`. The call is a run of the channel from `c`. The datagrams handed over are those of the
     * message's first fragments, in order, each at most 1046 octets, and all of them exactly on success; any
     * of them that then arrives fresh opens to its fragment.
     */
    method Send(service: u16, flow: u64, payload: seq<byte>, encrypt: Encrypt, accepts: nat -> bool, b: Beside,
                ghost c: Channel)
      returns (r: Result<(), SendError>, datagrams: seq<seq<byte>>, ghost steps: seq<Step>)
      requires Valid() && Wf(c.rx.pending) && Mirrors(c.tx) && Seals(encrypt, HEADER + CHUNK)
      requires |payload| <= MAX_PAYLOAD && nextMessage < MAX_MESSAGE ==>
                 RunsBeside(Next(c, Begin(service, flow, payload)), Message(nextMessage, service, flow, payload),
                            encrypt, accepts, |c.tx.jobs|, b)
      modifies this, crypto
      ensures Valid() && Mirrors(Run(c, steps).tx)
      ensures Reachable(c) ==> Reachable(Run(c, steps))
      ensures (forall i | 0 <= i < |b.others| :: OnlySends(b.others[i])) ==> Run(c, steps).rx == c.rx
      ensures |payload| > MAX_PAYLOAD || old(nextMessage) == MAX_MESSAGE ==>
                && r == Err(if |payload| > MAX_PAYLOAD then PayloadTooLarge else MessageIdsExhausted)
                && steps == [] && datagrams == []
      ensures |payload| <= MAX_PAYLOAD && old(nextMessage) < MAX_MESSAGE ==>
                var m, j := Message(old(nextMessage), service, flow, payload), |c.tx.jobs|;
                && Handed(m, encrypt, b.seen, datagrams)
                && steps != [] && steps[0] == Begin(service, flow, payload)
                && EndedBy(r, m, encrypt, accepts, j, b, |datagrams|, steps[1..])
                && j < |Run(c, steps).tx.jobs|
                && Run(c, steps).tx.jobs[j] == Job(m, Nonces(b.seen, |datagrams|), r == Err(ConnectionRefused))
                && AllOut(Run(c, steps).tx, j, datagrams)
                && (Reachable(c) ==> EachOpens(Run(c, steps), j, datagrams, m))
    {
      if |payload| > MAX_PAYLOAD {
        return Err(PayloadTooLarge), [], [];
      }
      if nextMessage == MAX_MESSAGE {
        return Err(MessageIdsExhausted), [], [];
      }
      hide Wf, Run, OnlySends, RunsBeside, Handed, EndedBy, AllOut, EachOpens, Reachable;
      var m := Message(nextMessage, service, flow, payload);
      nextMessage := nextMessage + 1;
      ghost var begin := Begin(service, flow, payload);
      ghost var rest;
      r, datagrams, rest := SendFragments(m, encrypt, accepts, b, Next(c, begin), |c.tx.jobs|);
      AfterBegin(c, begin, rest);
      steps := [begin] + rest;
      assert steps[1..] == rest;
      if Reachable(c) {
        ReachableRun(c, steps);
        AllOutOpen(Run(c, steps), |c.tx.jobs|, datagrams);
      }
      if forall i | 0 <= i < |b.others| :: OnlySends(b.others[i]) {
        CallSends(r, m, encrypt, accepts, |c.tx.jobs|, b, |datagrams|, rest);
        SendingLeavesReceiver(Next(c, begin), rest);
      }
    }

    lemma CallSends(r: Result<(), SendError>, m: Message, encrypt: Encrypt, accepts: nat -> bool, j: nat,
                    b: Beside, n: nat, steps: seq<Step>)
      requires Sendable(m) && n <= Parts(m) == |b.seen| == |b.others|
      requires EndedBy(r, m, encrypt, accepts, j, b, n, steps)
      requires forall i | 0 <= i < |b.others| :: OnlySends(b.others[i])
      ensures OnlySends(steps)
    {
      hide Woven;
      WovenSends(m, encrypt, accepts, j, b, n);
      if n < Parts(m) {
        WovenSends(m, encrypt, accepts, j, b, n + 1);
      }
    }
  }

  // ----- registration

  datatype ExchangeError = NotSealed(cause: CryptoError) | FrameRefused | FrameMissing | NotOpened

  /** A plaintext sealed with its nonce and tag fits a frame. */
  predicate FitsSealed(plain: seq<byte>) {
    NONCE + |plain| + TAG <= MAX_FRAME
  }

  /** What is sealed first under a key opens as it was. */
  ghost predicate OpensFirst(encrypt: Encrypt, decrypt: Decrypt, plain: seq<byte>) {
    encrypt(0, plain).Some? ==>
      && |encrypt(0, plain).value| == |plain| + TAG
      && decrypt(0, encrypt(0, plain).value) == Some(plain)
  }

  /** A frame goes over a reliable stream of its own; one that is too large is refused before it leaves. */
  method Carry(data: seq<byte>) returns (r: Result<seq<byte>, ExchangeError>)
    ensures r == if Fits(data) then Ok(data) else Err(FrameRefused)
  {
    var send := new SendStream();
    var written := send.WriteFrame(data);
    if written.Err? {
      return Err(FrameRefused);
    }
    ReadFramed(data, []);
    assert send.written == Framed(data) + [];
    var recv := new RecvStream(send.written);
    assert recv.bytes[0..] == send.written;
    var frame := recv.ReadFrame();
    if frame.Err? || frame.value.None? {
      return Err(FrameMissing);
    }
    r := Ok(frame.value.value);
  }

  /**
   * One message of the registration exchange: the first thing sealed under the key, written as a frame to
   * a reliable stream, read and opened. It arrives exactly if it can be sealed and fits a frame, and then
   * leaves both ends at the start of the channel; if not, the receiver has opened nothing.
   */
  method Establish(sender: DatagramCrypto, receiver: DatagramCrypto, registration: seq<byte>,
                   encrypt: Encrypt, decrypt: Decrypt)
    returns (r: Result<seq<byte>, ExchangeError>)
    requires sender.Valid() && receiver.Valid()
    requires sender.replay != receiver.replay && sender.replay.seen != receiver.replay.seen
    requires sender.next == 0 && receiver.replay.history == {}
    requires OpensFirst(encrypt, decrypt, registration)
    modifies sender, receiver.replay, receiver.replay.seen
    ensures sender.Valid() && receiver.Valid() && sender.next == 1
    ensures r.Ok? <==> encrypt(0, registration).Some? && FitsSealed(registration)
    ensures r.Err? ==> receiver.replay.history == {}
    ensures r.Err? ==> r.error == if encrypt(0, registration).None? then NotSealed(EncryptFailed) else FrameRefused
    ensures r.Ok? ==>
              && r.value == registration
              && var c := Start(registration, encrypt(0, registration).value);
                 c.tx.next == sender.next && c.rx.openedAt.Keys == receiver.replay.history && Reachable(c)
  {
    hide Represents, Run, BigEndian;
    var sealed := sender.Seal(registration, encrypt);
    if sealed.Err? {
      return Err(NotSealed(sealed.error));
    }
    var frame := Carry(sealed.value);
    if frame.Err? {
      return frame;
    }
    NonceReadsBack(0, encrypt(0, registration).value);
    assert Fresh(receiver.replay.history, 0);
    StartIsReachable(registration, encrypt(0, registration).value);
    var plain := receiver.Open(frame.value, decrypt);
    if plain.Err? {
      return Err(NotOpened);
    }
    r := Ok(plain.value);
  }

  // ----- reading

  /**
   * A datagram read from the connection, the time at which it is looked at, and the cipher at that
   * moment: the peer may have sealed more since the datagram before.
   */
  datatype Incoming = Incoming(bytes: seq<byte>, now: nat, decrypt: Decrypt)

  /** The receiver's objects hold what the channel's receiving side says. */
  ghost predicate Reflects(crypto: DatagramCrypto, assembly: Reassembler, rx: Receiving)
    reads crypto, crypto.replay, crypto.replay.seen, assembly
  {
    && crypto.Valid() && assembly.Valid()
    && rx.openedAt.Keys == crypto.replay.history
    && rx.pending == assembly.pending
  }

  /** `after` is `before`, followed by the packet, if there is one. */
  ghost predicate Appended(before: seq<Delivery>, after: seq<Delivery>, packet: Option<Packet>, now: nat) {
    match packet
    case None => after == before
    case Some(p) => exists d :: after == before + [d] && d.packet == p && d.at == now
  }

  /** One turn of the loop is one delivery. */
  method ReadOne(crypto: DatagramCrypto, assembly: Reassembler, incoming: Incoming, ghost rx: Receiving)
    returns (packet: Option<Packet>)
    requires Reflects(crypto, assembly, rx) && incoming.now == rx.now
    modifies crypto.replay, crypto.replay.seen, assembly
    ensures Reflects(crypto, assembly, Received(rx, incoming.decrypt, incoming.bytes))
    ensures Received(rx, incoming.decrypt, incoming.bytes).now == rx.now
    ensures Appended(rx.delivered, Received(rx, incoming.decrypt, incoming.bytes).delivered, packet, rx.now)
  {
    hide Wf, Pushed, Parse, NonceOf, Fresh, Represents;
    packet := None;
    var plain := crypto.Open(incoming.bytes, incoming.decrypt);
    if plain.Ok? {
      var r := assembly.Push(plain.value, incoming.now);
      if r.Ok? {
        packet := r.value;
      }
    }
  }

  /** The first `n` turns of the loop, each after whatever the peer's senders do while it waits. */
  ghost function Script(incoming: seq<Incoming>, peer: seq<seq<Step>>, n: nat): seq<Step>
    requires n <= |incoming| == |peer|
  {
    if n == 0 then []
    else Script(incoming, peer, n - 1) + peer[n - 1] + [Advance(incoming[n - 1].now)] + [Deliver(incoming[n - 1].bytes)]
  }

  /** Each datagram is opened with the cipher as it is when the peer has sent what it sends before it. */
  ghost predicate CurrentCiphers(c: Channel, incoming: seq<Incoming>, peer: seq<seq<Step>>)
    requires Wf(c.rx.pending) && |incoming| == |peer|
  {
    forall k | 0 <= k < |incoming| ::
      incoming[k].decrypt == IdealDecrypt(Run(c, Script(incoming, peer, k) + peer[k]).tx.sealed)
  }

  /** The channel just before datagram `k` is looked at. */
  lemma BeforeTurn(c: Channel, incoming: seq<Incoming>, peer: seq<seq<Step>>, k: nat) returns (mid: Channel)
    requires Wf(c.rx.pending) && k < |incoming| == |peer| && OnlySends(peer[k])
    requires Run(c, Script(incoming, peer, k)).rx.now <= incoming[k].now
    ensures mid.tx == Run(c, Script(incoming, peer, k) + peer[k]).tx
    ensures mid.rx == Run(c, Script(incoming, peer, k)).rx.(now := incoming[k].now)
    ensures Wf(mid.rx.pending)
    ensures Run(c, Script(incoming, peer, k + 1)) == Next(mid, Deliver(incoming[k].bytes))
  {
    hide Wf;
    var script := Script(incoming, peer, k);
    RunConcat(c, script, peer[k]);
    SendingLeavesReceiver(Run(c, script), peer[k]);
    RunOneMore(c, script + peer[k], Advance(incoming[k].now));
    mid := Run(c, script + peer[k] + [Advance(incoming[k].now)]);
    RunOneMore(c, script + peer[k] + [Advance(incoming[k].now)], Deliver(incoming[k].bytes));
  }

  /**
   * The receive loop takes datagrams until one completes a packet, while the peer's senders go on. It is
   * a run of the channel from any reachable state and leaves a reachable state. The packet returned is the
   * one delivery of that run: that of a send that handed over all its fragments, was not stopped, and had
   * never been delivered. Without a packet nothing was delivered.
   */
  method ReadPacket(crypto: DatagramCrypto, assembly: Reassembler, incoming: seq<Incoming>,
                    ghost c: Channel, ghost peer: seq<seq<Step>>)
    returns (packet: Option<Packet>, read: nat, ghost after: Channel)
    requires Reflects(crypto, assembly, c.rx) && Reachable(c)
    requires |peer| == |incoming| && forall k | 0 <= k < |peer| :: OnlySends(peer[k])
    requires CurrentCiphers(c, incoming, peer)
    requires forall k | 0 <= k < |incoming| :: c.rx.now <= incoming[k].now
    requires forall k, l | 0 <= k < l < |incoming| :: incoming[k].now <= incoming[l].now
    modifies crypto.replay, crypto.replay.seen, assembly
    ensures read <= |incoming| && after == Run(c, Script(incoming, peer, read))
    ensures Reflects(crypto, assembly, after.rx) && Reachable(after)
    ensures packet.None? ==> read == |incoming| && after.rx.delivered == c.rx.delivered
    ensures packet.Some? ==>
              && |after.rx.delivered| == |c.rx.delivered| + 1 && c.rx.delivered <= after.rx.delivered
              && var d := after.rx.delivered[|c.rx.delivered|];
                 && packet.value == d.packet
                 && d.id < |after.tx.jobs| && d.packet == PacketOf(after.tx.jobs[d.id].message)
                 && |after.tx.jobs[d.id].nonces| == Parts(after.tx.jobs[d.id].message)
                 && !after.tx.jobs[d.id].stopped
                 && forall k | 0 <= k < |c.rx.delivered| :: c.rx.delivered[k].id != d.id
  {
    hide Wf, Received, Represents, Reachable;
    packet, read, after := None, 0, c;
    while read < |incoming|
      invariant read <= |incoming| && packet.None?
      invariant after == Run(c, Script(incoming, peer, read)) && Reflects(crypto, assembly, after.rx)
      invariant after.rx.delivered == c.rx.delivered
      invariant forall k | read <= k < |incoming| :: after.rx.now <= incoming[k].now
    {
      ghost var mid := BeforeTurn(c, incoming, peer, read);
      packet := ReadOne(crypto, assembly, incoming[read], mid.rx);
      after := Next(mid, Deliver(incoming[read].bytes));
      read := read + 1;
      if packet.Some? {
        break;
      }
    }
    ReachableRun(c, Script(incoming, peer, read));
    if packet.Some? {
      ghost var d :| after.rx.delivered == c.rx.delivered + [d] && d.packet == packet.value;
      NewestDelivery(after, c.rx.delivered, d);
    }
  }
}
