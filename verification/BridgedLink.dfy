/**
 * A bridged connection, step by step: two endpoints, each with a sending and a receiving loop that are
 * joined so that an error in either stops both, and the two byte streams between them.
 */
module BridgedLink {
  import opened Prelude
  import opened Bytes
  import opened Frames
  import opened Bridge

  /** A loop runs, has returned in order, or was stopped by an error in it or in the loop it is joined with. */
  datatype Loop = Running | Done | Stopped

  /** A frame that was being written when its endpoint stopped: the first `bytes` bytes of it are out. */
  datatype Cut = Cut(chunk: Sealed, bytes: nat)

  /**
   * One end. Going out: the chunks framed so far, and the frame cut short by a stop. Coming in: the bytes
   * that have arrived, the bytes and frames read, what was written to the socket, and how much of one
   * further chunk was when the endpoint stopped.
   */
  datatype Endpoint = Endpoint(
    sealed: seq<Sealed>, cut: Option<Cut>, tx: Loop,
    arrived: nat, pos: nat, taken: nat, output: seq<byte>, torn: nat, rx: Loop,
    failed: bool)

  predicate ProperCut(cut: Option<Cut>) {
    cut.Some? ==> Proper(cut.value.chunk) && cut.value.bytes < |Framed(cut.value.chunk.cipher)|
  }

  function CutBytes(s: Endpoint): seq<byte>
    requires ProperCut(s.cut)
  {
    if s.cut.Some? then Framed(s.cut.value.chunk.cipher)[..s.cut.value.bytes] else []
  }

  /** The bytes an endpoint has put on its stream. */
  function Sent(s: Endpoint): seq<byte>
    requires ProperCut(s.cut)
  {
    FramedAll(Ciphers(s.sealed)) + CutBytes(s)
  }

  /** Everything an endpoint has sealed, in order. */
  function AllSealed(s: Endpoint): seq<Sealed> {
    s.sealed + if s.cut.Some? then [s.cut.value.chunk] else []
  }

  /** Everything an endpoint has read from its socket. */
  function Input(s: Endpoint): seq<byte> {
    Concat(Plains(AllSealed(s)))
  }

  // ----- steps

  /** What an endpoint does next; `cut` is what a failure leaves of the frame being written. */
  datatype Action =
    | Chunk(x: Sealed)
    | Eof
    | Error(cut: Option<Cut>)
    | Arrive(more: nat)
    | Turn(torn: Option<nat>, cut: Option<Cut>)

  /** An error anywhere in an endpoint ends those of its loops that have not returned. */
  function Halt(e: Endpoint, cut: Option<Cut>): Endpoint {
    if e.tx.Running? || e.rx.Running? then
      e.(tx := if e.tx.Running? then Stopped else e.tx,
         rx := if e.rx.Running? then Stopped else e.rx,
         cut := if e.tx.Running? && ProperCut(cut) then cut else e.cut,
         failed := true)
    else e
  }

  /** The stream from a peer is over once its sending loop is, and all of it has arrived. */
  predicate AtEnd(e: Endpoint, peer: Endpoint)
    requires ProperCut(peer.cut)
  {
    !peer.tx.Running? && e.arrived == |Sent(peer)|
  }

  /** Writing a chunk to the socket, all of it or, where that fails, `torn` bytes. */
  function Written(e: Endpoint, pos: nat, plain: seq<byte>, torn: Option<nat>, cut: Option<Cut>): Endpoint {
    if torn.Some? && torn.value < |plain|
    then Halt(e, cut).(output := e.output + plain[..torn.value], torn := torn.value)
    else e.(pos := pos, taken := e.taken + 1, output := e.output + plain)
  }

  /** One turn of the receiving loop on what has arrived; without a whole frame it waits for more. */
  function Turned(e: Endpoint, peer: Endpoint, first: nat, torn: Option<nat>, cut: Option<Cut>): Endpoint
    requires ProperCut(peer.cut) && e.pos <= e.arrived <= |Sent(peer)|
  {
    if !e.rx.Running? then e
    else match ReadOne(Sent(peer)[e.pos..e.arrived])
      case Frame(data, rest) =>
        (match IdealDecrypt(first, AllSealed(peer))(first + e.taken, data)
         case None => Halt(e, cut)
         case Some(plain) => Written(e, e.arrived - |rest|, plain, torn, cut))
      case End => if AtEnd(e, peer) then e.(rx := Done) else e
      case Fail(error) => if error == Truncated && !AtEnd(e, peer) then e else Halt(e, cut)
  }

  function Acted(e: Endpoint, peer: Endpoint, first: nat, action: Action): Endpoint
    requires ProperCut(peer.cut) && e.pos <= e.arrived <= |Sent(peer)|
  {
    match action
    case Chunk(x) => if e.tx.Running? && Proper(x) then e.(sealed := e.sealed + [x]) else e
    case Eof => if e.tx.Running? then e.(tx := Done) else e
    case Error(cut) => Halt(e, cut)
    case Arrive(more) => if e.arrived + more <= |Sent(peer)| then e.(arrived := e.arrived + more) else e
    case Turn(torn, cut) => Turned(e, peer, first, torn, cut)
  }

  datatype Link = Link(a: Endpoint, b: Endpoint)

  datatype Step = AtA(action: Action) | AtB(action: Action)

  /** One step of the connection; `first` is the nonce of the first chunk in either direction. */
  function Next(l: Link, first: nat, step: Step): (r: Link)
    requires Inv(l)
    ensures Inv(r)
  {
    StepKeepsInv(l, first, step);
    match step
    case AtA(action) => l.(a := Acted(l.a, l.b, first, action))
    case AtB(action) => l.(b := Acted(l.b, l.a, first, action))
  }

  function Run(l: Link, first: nat, steps: seq<Step>): (r: Link)
    requires Inv(l)
    ensures Inv(r)
    decreases |steps|
  {
    if steps == [] then l else Run(Next(l, first, steps[0]), first, steps[1..])
  }

  // ----- invariant

  /** What holds of an endpoint alone: an error has stopped both loops, and nothing else stops one. */
  predicate LoopInv(s: Endpoint) {
    && AllProper(s.sealed) && ProperCut(s.cut)
    && (s.cut.Some? ==> s.tx.Stopped?)
    && (s.failed ==> !s.tx.Running? && !s.rx.Running?)
    && (s.failed <==> s.tx.Stopped? || s.rx.Stopped?)
  }

  /** What endpoint `r` has read of the stream of `s`, and what it wrote of the chunks in it. */
  predicate DirectionInv(s: Endpoint, r: Endpoint)
    requires LoopInv(s)
  {
    && r.taken <= |s.sealed|
    && r.pos == |FramedAll(Ciphers(s.sealed[..r.taken]))|
    && r.pos <= r.arrived <= |Sent(s)|
    && (r.torn > 0 ==> r.rx.Stopped? && r.taken < |s.sealed| && r.torn < |s.sealed[r.taken].plain|)
    && r.output == Concat(Plains(s.sealed[..r.taken])) + (if r.torn > 0 then s.sealed[r.taken].plain[..r.torn] else [])
    && (r.rx.Done? ==> !s.tx.Running? && r.taken == |s.sealed| && CutBytes(s) == [])
  }

  predicate Inv(l: Link) {
    LoopInv(l.a) && LoopInv(l.b) && DirectionInv(l.a, l.b) && DirectionInv(l.b, l.a)
  }

  lemma FirstFrame(cipher: seq<byte>, rest: seq<byte>, n: nat)
    requires Fits(cipher) && n <= |Framed(cipher) + rest|
    ensures var read := ReadOne((Framed(cipher) + rest)[..n]);
            if n == 0 then read == End
            else if n < |Framed(cipher)| then read == Fail(Truncated)
            else read.Frame? && read.data == cipher && |read.rest| == n - |Framed(cipher)|
  {
    var all := Framed(cipher) + rest;
    if n >= |Framed(cipher)| {
      assert all[..n] == Framed(cipher) + rest[..n - |Framed(cipher)|];
      ReadFramed(cipher, rest[..n - |Framed(cipher)|]);
    } else if n > 0 {
      assert all[..n] == Framed(cipher)[..n];
      CutInside(cipher, n);
    }
  }

  /** The sender's bytes from the first unread frame on. */
  lemma Unread(s: Endpoint, k: nat)
    requires LoopInv(s) && k <= |s.sealed|
    ensures var pos := |FramedAll(Ciphers(s.sealed[..k]))|;
            && pos <= |Sent(s)|
            && Sent(s)[pos..] == FramedAll(Ciphers(s.sealed[k..])) + CutBytes(s)
  {
    var all := Ciphers(s.sealed);
    assert all == Ciphers(s.sealed[..k]) + Ciphers(s.sealed[k..]);
    FramedAllSplit(Ciphers(s.sealed[..k]), Ciphers(s.sealed[k..]));
  }

  /** While a frame is unread, what has arrived starts with it or with a part of it. */
  lemma ReadsFrame(s: Endpoint, r: Endpoint)
    requires LoopInv(s) && DirectionInv(s, r) && r.taken < |s.sealed|
    ensures var read, size := ReadOne(Sent(s)[r.pos..r.arrived]), |Framed(s.sealed[r.taken].cipher)|;
            && r.pos + size <= |Sent(s)|
            && if r.arrived == r.pos then read == End
               else if r.arrived < r.pos + size then read == Fail(Truncated)
               else read.Frame? && read.data == s.sealed[r.taken].cipher && r.arrived - |read.rest| == r.pos + size
  {
    hide ReadOne, Framed, Concat, Plains;
    var cipher, left := s.sealed[r.taken].cipher, Ciphers(s.sealed[r.taken..]);
    var rest := FramedAll(left[1..]) + CutBytes(s);
    Unread(s, r.taken);
    assert left[0] == cipher;
    assert Sent(s)[r.pos..] == Framed(cipher) + rest;
    assert Sent(s)[r.pos..r.arrived] == (Framed(cipher) + rest)[..r.arrived - r.pos];
    FirstFrame(cipher, rest, r.arrived - r.pos);
  }

  lemma CutIsTruncated(s: Endpoint, n: nat)
    requires ProperCut(s.cut) && n <= |CutBytes(s)|
    ensures ReadOne(CutBytes(s)[..n]) == if n == 0 then End else Fail(Truncated)
  {
    if n > 0 {
      assert CutBytes(s)[..n] == Framed(s.cut.value.chunk.cipher)[..n];
      CutInside(s.cut.value.chunk.cipher, n);
    }
  }

  /** With every frame read, nothing is left but what a stop cut short. */
  lemma ReadsCut(s: Endpoint, r: Endpoint)
    requires LoopInv(s) && DirectionInv(s, r) && r.taken == |s.sealed|
    ensures |Sent(s)| == r.pos + |CutBytes(s)|
    ensures ReadOne(Sent(s)[r.pos..r.arrived]) == if r.arrived == r.pos then End else Fail(Truncated)
  {
    hide ReadOne, CutBytes, Framed, FramedAll, Concat, Plains, Ciphers, AllProper;
    assert s.sealed[..r.taken] == s.sealed;
    var n := r.arrived - r.pos;
    assert Sent(s)[r.pos..r.arrived] == CutBytes(s)[..n];
    CutIsTruncated(s, n);
  }

  // ----- every step keeps the invariant

  /** Sending more, or stopping, leaves what the peer has read of the stream as it is. */
  lemma SenderKeeps(s: Endpoint, t: Endpoint, r: Endpoint)
    requires LoopInv(s) && LoopInv(t) && DirectionInv(s, r) && s.sealed <= t.sealed
    requires s.tx.Running? || (t.sealed == s.sealed && t.cut == s.cut && t.tx == s.tx)
    ensures DirectionInv(t, r)
  {
    hide Concat, Plains, FramedAll, Framed, Ciphers, AllProper;
    assert t.sealed[..r.taken] == s.sealed[..r.taken];
    if s.tx.Running? {
      SentGrows(s, t);
    }
  }

  lemma SentGrows(s: Endpoint, t: Endpoint)
    requires LoopInv(s) && LoopInv(t) && s.tx.Running? && s.sealed <= t.sealed
    ensures |Sent(s)| <= |Sent(t)|
  {
    var k := |s.sealed|;
    assert Ciphers(t.sealed) == Ciphers(s.sealed) + Ciphers(t.sealed[k..]);
    FramedAllSplit(Ciphers(s.sealed), Ciphers(t.sealed[k..]));
  }

  /** Taking one frame writes exactly its chunk. */
  lemma TakesOne(s: Endpoint, r: Endpoint, torn: Option<nat>, cut: Option<Cut>)
    requires LoopInv(s) && DirectionInv(s, r) && r.rx.Running? && r.taken < |s.sealed|
    requires r.pos + |Framed(s.sealed[r.taken].cipher)| <= r.arrived
    ensures var x := s.sealed[r.taken];
            DirectionInv(s, Written(r, r.pos + |Framed(x.cipher)|, x.plain, torn, cut))
  {
    hide Framed, FramedAll, Concat;
    var done, x := s.sealed[..r.taken], s.sealed[r.taken];
    assert s.sealed[..r.taken + 1] == done + [x];
    assert Ciphers(done + [x]) == Ciphers(done) + [x.cipher];
    assert Plains(done + [x]) == Plains(done) + [x.plain];
    FramedAllSnoc(Ciphers(done), x.cipher);
    ConcatSnoc(Plains(done), x.plain);
  }

  lemma TurnKeeps(s: Endpoint, r: Endpoint, first: nat, torn: Option<nat>, cut: Option<Cut>)
    requires LoopInv(s) && DirectionInv(s, r)
    ensures DirectionInv(s, Turned(r, s, first, torn, cut))
  {
    hide ReadOne, Framed, FramedAll, Concat, Plains, Ciphers, AllProper;
    if r.rx.Running? {
      if r.taken < |s.sealed| {
        ReadsFrame(s, r);
        if ReadOne(Sent(s)[r.pos..r.arrived]).Frame? {
          assert AllSealed(s)[r.taken] == s.sealed[r.taken];
          TakesOne(s, r, torn, cut);
        }
      } else {
        ReadsCut(s, r);
      }
    }
  }

  lemma ActSends(e: Endpoint, peer: Endpoint, first: nat, action: Action)
    requires LoopInv(e) && ProperCut(peer.cut) && e.pos <= e.arrived <= |Sent(peer)|
    ensures var after := Acted(e, peer, first, action);
            && LoopInv(after) && e.sealed <= after.sealed
            && (e.tx.Running? || (after.sealed == e.sealed && after.cut == e.cut && after.tx == e.tx))
  {
    hide Sent, ReadOne, Framed, FramedAll, Concat, Plains, Ciphers, IdealDecrypt;
  }

  lemma ActReads(e: Endpoint, peer: Endpoint, first: nat, action: Action)
    requires LoopInv(e) && LoopInv(peer) && DirectionInv(peer, e)
    ensures DirectionInv(peer, Acted(e, peer, first, action))
  {
    hide Sent, Turned, ReadOne, Framed, FramedAll, Concat, Plains, Ciphers, AllProper;
    if action.Turn? {
      TurnKeeps(peer, e, first, action.torn, action.cut);
    }
  }

  lemma ActKeepsInv(e: Endpoint, peer: Endpoint, first: nat, action: Action)
    requires LoopInv(e) && LoopInv(peer) && DirectionInv(e, peer) && DirectionInv(peer, e)
    ensures var after := Acted(e, peer, first, action);
            LoopInv(after) && DirectionInv(after, peer) && DirectionInv(peer, after)
  {
    hide Acted, Sent, FramedAll, Concat, Plains, Ciphers, AllProper;
    ActSends(e, peer, first, action);
    ActReads(e, peer, first, action);
    SenderKeeps(e, Acted(e, peer, first, action), peer);
  }

  lemma StepKeepsInv(l: Link, first: nat, step: Step)
    requires Inv(l)
    ensures match step
            case AtA(action) => Inv(l.(a := Acted(l.a, l.b, first, action)))
            case AtB(action) => Inv(l.(b := Acted(l.b, l.a, first, action)))
  {
    hide LoopInv, DirectionInv, Acted;
    match step
    case AtA(action) => ActKeepsInv(l.a, l.b, first, action);
    case AtB(action) => ActKeepsInv(l.b, l.a, first, action);
  }

  // ----- what a run can rely on

  /** A connection as the handshake leaves it: nothing sent, all four loops running. */
  function Start(): (l: Link)
    ensures Inv(l)
  {
    var e := Endpoint([], None, Running, 0, 0, 0, [], 0, Running, false);
    Link(e, e)
  }

  /** Part of the chunks read is less than all of them. */
  lemma {:induction false} LessIsShorter(sealed: seq<Sealed>, k: nat, torn: nat)
    requires AllProper(sealed) && k < |sealed| && torn < |sealed[k].plain|
    ensures var part := Concat(Plains(sealed[..k])) + sealed[k].plain[..torn];
            part <= Concat(Plains(sealed)) && |part| < |Concat(Plains(sealed))|
    decreases k
  {
    var all := Plains(sealed);
    assert Plains(sealed[1..]) == all[1..];
    if k == 0 {
      assert Concat(all) == sealed[0].plain + Concat(all[1..]);
      assert Plains(sealed[..0]) == [];
    } else {
      LessIsShorter(sealed[1..], k - 1, torn);
      assert Plains(sealed[..k])[1..] == Plains(sealed[1..][..k - 1]);
      assert Concat(Plains(sealed[..k])) == sealed[0].plain + Concat(Plains(sealed[1..][..k - 1]));
    }
  }

  /** In one direction: what is written is a prefix of what was read, and all of it once every frame is taken. */
  lemma Direction(s: Endpoint, r: Endpoint)
    requires LoopInv(s) && DirectionInv(s, r)
    ensures r.output <= Input(s)
    ensures s.cut.None? ==> (r.output == Input(s) <==> r.taken == |s.sealed|)
  {
    hide Concat;
    var plains := Plains(AllSealed(s));
    assert plains[..|s.sealed|] == Plains(s.sealed);
    ConcatPrefix(plains, |s.sealed|);
    if r.taken < |s.sealed| {
      LessIsShorter(s.sealed, r.taken, r.torn);
      assert r.torn == 0 ==> s.sealed[r.taken].plain[..r.torn] == [];
    } else {
      assert s.sealed[..r.taken] == s.sealed;
      assert s.cut.None? ==> AllSealed(s) == s.sealed;
    }
  }

  /**
   * In every run, failing ones included, each endpoint has written a prefix of what the other has read;
   * an endpoint that failed has no loop running, and one that did not has none stopped.
   */
  lemma WrittenIsPrefix(first: nat, steps: seq<Step>)
    ensures var l := Run(Start(), first, steps);
            && l.b.output <= Input(l.a) && l.a.output <= Input(l.b)
            && (if l.a.failed then !l.a.tx.Running? && !l.a.rx.Running? else !l.a.tx.Stopped? && !l.a.rx.Stopped?)
            && (if l.b.failed then !l.b.tx.Running? && !l.b.rx.Running? else !l.b.tx.Stopped? && !l.b.rx.Stopped?)
  {
    hide Run, Start, Input, Plains, Concat;
    var l := Run(Start(), first, steps);
    Direction(l.a, l.b);
    Direction(l.b, l.a);
  }

  lemma FrameByFrame(s: Endpoint, r: Endpoint, first: nat)
    requires LoopInv(s) && DirectionInv(s, r) && r.torn == 0
    ensures Received(IdealDecrypt(first, AllSealed(s)), first, Sent(s)[..r.pos]) == Reception(r.output, ShutDown)
  {
    hide ReadOne, Framed, FramedAll, Concat, Play;
    var sealed, k := AllSealed(s), r.taken;
    var frames := Ciphers(sealed)[..k];
    assert frames == Ciphers(s.sealed[..k]) == Ciphers(sealed)[0..k];
    assert Plains(s.sealed[..k]) == Plains(sealed)[0..k];
    FramedAllSplit(frames, Ciphers(s.sealed[k..]));
    assert Ciphers(s.sealed) == frames + Ciphers(s.sealed[k..]);
    assert Sent(s)[..r.pos] == FramedAll(frames);
    WholeStream(frames);
    PlayOwn(first, sealed, 0, k);
  }

  /**
   * Turn by turn or in one call, the receiving loop does the same: in every run, whole chunks written are
   * what `Receive` writes on the bytes read so far.
   */
  lemma TurnsRefineReceive(first: nat, steps: seq<Step>)
    ensures var l := Run(Start(), first, steps);
            && (l.b.torn == 0 ==>
                  Received(IdealDecrypt(first, AllSealed(l.a)), first, Sent(l.a)[..l.b.pos])
                  == Reception(l.b.output, ShutDown))
            && (l.a.torn == 0 ==>
                  Received(IdealDecrypt(first, AllSealed(l.b)), first, Sent(l.b)[..l.a.pos])
                  == Reception(l.a.output, ShutDown))
  {
    hide Run, Start, Received, IdealDecrypt, AllSealed;
    var l := Run(Start(), first, steps);
    if l.b.torn == 0 {
      FrameByFrame(l.a, l.b, first);
    }
    if l.a.torn == 0 {
      FrameByFrame(l.b, l.a, first);
    }
  }

  /** The receiving loop has nothing left to do on what has arrived. */
  predicate Quiet(r: Endpoint, s: Endpoint, first: nat)
    requires LoopInv(s) && DirectionInv(s, r)
  {
    Turned(r, s, first, None, None) == r
  }

  /** A direction whose sender reached the end of its input and whose receiver has come to rest. */
  predicate Drained(s: Endpoint, r: Endpoint, first: nat)
    requires LoopInv(s) && DirectionInv(s, r)
  {
    s.tx.Done? && r.arrived == |Sent(s)| && Quiet(r, s, first)
  }

  lemma DrainedDirection(s: Endpoint, r: Endpoint, first: nat)
    requires LoopInv(s) && LoopInv(r) && DirectionInv(s, r) && Drained(s, r, first)
    ensures r.rx.Done? || r.failed
    ensures r.output == Input(s) <==> !(r.rx.Stopped? && r.pos < r.arrived)
  {
    hide ReadOne, Framed, FramedAll, Concat, Plains, Ciphers, AllProper;
    Direction(s, r);
    if r.taken < |s.sealed| {
      ReadsFrame(s, r);
    } else {
      ReadsCut(s, r);
    }
  }

  /**
   * In every run, once a sender is at the end of its input and its receiver at rest with everything
   * arrived, the receiver has shut its socket down or its endpoint has failed; and everything read at one
   * end is written at the other exactly unless the receiving loop was stopped with bytes still unread.
   */
  lemma DrainedExactly(first: nat, steps: seq<Step>)
    ensures var l := Run(Start(), first, steps);
            Drained(l.a, l.b, first) ==>
              && (l.b.rx.Done? || l.b.failed)
              && (l.b.output == Input(l.a) <==> !(l.b.rx.Stopped? && l.b.pos < l.b.arrived))
    ensures var l := Run(Start(), first, steps);
            Drained(l.b, l.a, first) ==>
              && (l.a.rx.Done? || l.a.failed)
              && (l.a.output == Input(l.b) <==> !(l.a.rx.Stopped? && l.a.pos < l.a.arrived))
  {
    hide Run, Start, Input, Drained, Plains, Concat, LoopInv, DirectionInv;
    var l := Run(Start(), first, steps);
    if Drained(l.a, l.b, first) {
      DrainedDirection(l.a, l.b, first);
    }
    if Drained(l.b, l.a, first) {
      DrainedDirection(l.b, l.a, first);
    }
  }

  // ----- failures come from outside

  /** No socket or stream operation fails. */
  predicate Smooth(action: Action) {
    !action.Error? && (action.Turn? ==> action.torn.None?)
  }

  lemma SmoothTurn(s: Endpoint, r: Endpoint, first: nat, cut: Option<Cut>)
    requires LoopInv(s) && DirectionInv(s, r) && !s.tx.Stopped?
    ensures var after := Turned(r, s, first, None, cut);
            && after.failed == r.failed && after.tx == r.tx && after.sealed == r.sealed
            && (r.rx.Running? && r.arrived == |Sent(s)| ==>
                  if r.taken < |s.sealed|
                  then after.taken == r.taken + 1 && after.rx.Running? && after.arrived == r.arrived
                  else !s.tx.Running? ==> after.rx.Done?)
  {
    hide ReadOne, Framed, FramedAll, Concat, Plains, Ciphers, AllProper;
    if r.rx.Running? {
      if r.taken < |s.sealed| {
        ReadsFrame(s, r);
        assert AllSealed(s)[r.taken] == s.sealed[r.taken];
      } else {
        ReadsCut(s, r);
      }
    }
  }

  lemma SmoothAct(e: Endpoint, peer: Endpoint, first: nat, action: Action)
    requires LoopInv(e) && LoopInv(peer) && DirectionInv(peer, e)
    requires Smooth(action) && !e.failed && !peer.failed
    ensures !Acted(e, peer, first, action).failed
  {
    hide Sent, Turned, DirectionInv;
    if action.Turn? {
      SmoothTurn(peer, e, first, action.cut);
    }
  }

  lemma {:induction false} SmoothRun(l: Link, first: nat, steps: seq<Step>)
    requires Inv(l) && !l.a.failed && !l.b.failed
    requires forall i | 0 <= i < |steps| :: Smooth(steps[i].action)
    ensures var t := Run(l, first, steps); !t.a.failed && !t.b.failed
    decreases |steps|
  {
    hide Acted, LoopInv, DirectionInv, Smooth;
    if steps != [] {
      match steps[0] {
        case AtA(action) => SmoothAct(l.a, l.b, first, action);
        case AtB(action) => SmoothAct(l.b, l.a, first, action);
      }
      SmoothRun(Next(l, first, steps[0]), first, steps[1..]);
    }
  }

  /**
   * Neither framing nor the cipher ever stops an endpoint: a run in which no socket or stream operation
   * fails has no failed endpoint, so each direction that is drained has been written in full.
   */
  lemma NoErrorNoLoss(first: nat, steps: seq<Step>)
    requires forall i | 0 <= i < |steps| :: Smooth(steps[i].action)
    ensures var l := Run(Start(), first, steps);
            && !l.a.failed && !l.b.failed
            && (Drained(l.a, l.b, first) ==> l.b.rx.Done? && l.b.output == Input(l.a))
            && (Drained(l.b, l.a, first) ==> l.a.rx.Done? && l.a.output == Input(l.b))
  {
    assert !Start().a.failed && !Start().b.failed;
    SmoothRun(Start(), first, steps);
    DrainedExactly(first, steps);
  }

  // ----- progress

  function Turns(n: nat): seq<Step> {
    seq(n, _ => AtB(Turn(None, None)))
  }

  lemma OneTurn(l: Link, first: nat)
    requires Inv(l) && l.a.tx.Done? && l.b.arrived == |Sent(l.a)| && l.b.rx.Running?
    ensures var t := Next(l, first, AtB(Turn(None, None)));
            && t.a == l.a && t.b.tx == l.b.tx && t.b.sealed == l.b.sealed
            && if l.b.taken < |l.a.sealed|
               then t.b.taken == l.b.taken + 1 && t.b.arrived == l.b.arrived && t.b.rx.Running?
               else t.b.rx.Done? && t.b.output == Input(l.a)
  {
    hide Turned, Input, Sent, Concat, Plains, Ciphers, FramedAll, AllProper;
    SmoothTurn(l.a, l.b, first, None);
    var t := Next(l, first, AtB(Turn(None, None)));
    Direction(t.a, t.b);
  }

  /**
   * From any point of any run where one sender is at the end of its input and all of it has arrived, the
   * receiving loop left to itself writes everything and shuts its socket down; the other direction stays
   * as it was, open if it was open.
   */
  lemma {:induction false} LeftToItself(l: Link, first: nat)
    requires Inv(l) && l.a.tx.Done? && l.b.arrived == |Sent(l.a)| && l.b.rx.Running?
    ensures var t := Run(l, first, Turns(|l.a.sealed| - l.b.taken + 1));
            && t.a == l.a && t.b.output == Input(l.a) && t.b.rx.Done?
            && t.b.tx == l.b.tx && t.b.sealed == l.b.sealed
    decreases |l.a.sealed| - l.b.taken
  {
    hide Next, Input, LoopInv, Concat, Plains, Ciphers, FramedAll;
    var n := |l.a.sealed| - l.b.taken + 1;
    var t := Next(l, first, AtB(Turn(None, None)));
    OneTurn(l, first);
    assert Turns(n)[0] == AtB(Turn(None, None)) && Turns(n)[1..] == Turns(n - 1);
    assert Run(l, first, Turns(n)) == Run(t, first, Turns(n - 1));
    if l.b.taken < |l.a.sealed| {
      LeftToItself(t, first);
    }
  }

  lemma FourSteps(l: Link, first: nat, steps: seq<Step>)
    requires Inv(l) && |steps| == 4
    ensures Run(l, first, steps)
         == Next(Next(Next(Next(l, first, steps[0]), first, steps[1]), first, steps[2]), first, steps[3])
  {
    hide Next, Inv;
    assert steps[1..][1..] == steps[2..] && steps[2..][1..] == steps[3..] && steps[3..][1..] == [];
    var l2 := Next(Next(l, first, steps[0]), first, steps[1]);
    assert Run(l, first, steps) == Run(l2, first, steps[2..]);
    var l4 := Next(Next(l2, first, steps[2]), first, steps[3]);
    assert Run(l2, first, steps[2..]) == Run(l4, first, []);
  }

  lemma OneFrame(x: Sealed)
    ensures FramedAll(Ciphers([x])) == Framed(x.cipher) && Concat(Plains([x])) == x.plain
  {
    assert Ciphers([x]) == [x.cipher] && Plains([x]) == [x.plain];
    assert [x.cipher][1..] == [] && [x.plain][1..] == [];
  }

  /**
   * An error does lose bytes that have arrived: for every chunk there is a run in which it arrives whole,
   * the other loop of the receiving endpoint fails, and the chunk is never written.
   */
  lemma ErrorLosesArrived(first: nat, x: Sealed)
    requires Proper(x)
    ensures var steps := [AtA(Chunk(x)), AtA(Eof), AtB(Arrive(|Framed(x.cipher)|)), AtB(Error(None))];
            var l := Run(Start(), first, steps);
            Drained(l.a, l.b, first) && l.b.output == [] && Input(l.a) == x.plain
  {
    hide Run, ReadOne, IdealDecrypt, Framed, FramedAll, Concat, Plains, Ciphers, Inv;
    OneFrame(x);
    var steps := [AtA(Chunk(x)), AtA(Eof), AtB(Arrive(|Framed(x.cipher)|)), AtB(Error(None))];
    var e := Start().a;
    var l1 := Next(Start(), first, steps[0]);
    var l2 := Next(l1, first, steps[1]);
    assert l2 == Link(e.(sealed := [x], tx := Done), e);
    var l3 := Next(l2, first, steps[2]);
    var l4 := Next(l3, first, steps[3]);
    assert l4.a == l2.a && l4.b.output == [] && l4.b.rx.Stopped? && l4.b.arrived == |Sent(l4.a)|;
    FourSteps(Start(), first, steps);
    assert AllSealed(l4.a) == [x];
  }
}
