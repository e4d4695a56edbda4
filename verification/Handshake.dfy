/**
 * Turn-taking in the Noise handshake loop: two endpoints, each alternating between writing and reading
 * until `k` messages have passed, then going on to one transport request and its reply.
 */
module Handshake {

  datatype Message = Noise(n: nat) | Request | Reply

  /** How far an endpoint is: handshake messages passed, whose turn it is, and the transport exchange. */
  datatype Endpoint = Endpoint(passed: nat, ourTurn: bool, wrote: bool, read: bool, confused: bool)

  /** Two endpoints joined by two first-in first-out streams. */
  datatype World = World(initiator: Endpoint, responder: Endpoint, toResponder: seq<Message>, toInitiator: seq<Message>)

  datatype Actor = Initiator | Responder

  const BEGIN := World(Endpoint(0, true, false, false, false), Endpoint(0, false, false, false, false), [], [])

  /** What an endpoint does next: it writes a message, waits for one, or has nothing left to do. */
  datatype Action = Write(m: Message) | Await | Rest

  function NextAction(e: Endpoint, k: nat, initiator: bool): Action {
    if e.passed < k then
      if e.ourTurn then Write(Noise(e.passed)) else Await
    else if initiator then
      if !e.wrote then Write(Request) else if !e.read then Await else Rest
    else
      if !e.read then Await else if !e.wrote then Write(Reply) else Rest
  }

  function Wrote(e: Endpoint, k: nat): Endpoint {
    if e.passed < k then e.(passed := e.passed + 1, ourTurn := false) else e.(wrote := true)
  }

  /** During the handshake only the expected handshake message is understood, and after it only transport. */
  function Took(e: Endpoint, k: nat, m: Message): Endpoint {
    if e.passed < k then
      if m == Noise(e.passed) then e.(passed := e.passed + 1, ourTurn := true) else e.(confused := true)
    else
      if m.Noise? then e.(confused := true) else e.(read := true)
  }

  predicate Enabled(w: World, k: nat, a: Actor) {
    match a
    case Initiator =>
      var act := NextAction(w.initiator, k, true);
      act.Write? || (act.Await? && w.toInitiator != [])
    case Responder =>
      var act := NextAction(w.responder, k, false);
      act.Write? || (act.Await? && w.toResponder != [])
  }

  /** An endpoint that can act does so; one that has to wait does nothing. */
  function Next(w: World, k: nat, a: Actor): World {
    if !Enabled(w, k, a) then w
    else match a
      case Initiator =>
        (match NextAction(w.initiator, k, true)
         case Write(m) => w.(initiator := Wrote(w.initiator, k), toResponder := w.toResponder + [m])
         case _ => w.(initiator := Took(w.initiator, k, w.toInitiator[0]), toInitiator := w.toInitiator[1..]))
      case Responder =>
        (match NextAction(w.responder, k, false)
         case Write(m) => w.(responder := Wrote(w.responder, k), toInitiator := w.toInitiator + [m])
         case _ => w.(responder := Took(w.responder, k, w.toResponder[0]), toResponder := w.toResponder[1..]))
  }

  function Run(k: nat, schedule: seq<Actor>): World {
    if schedule == [] then BEGIN
    else Next(Run(k, schedule[..|schedule| - 1]), k, schedule[|schedule| - 1])
  }

  predicate Finished(w: World, k: nat) {
    && w.initiator.passed == k && w.initiator.wrote && w.initiator.read
    && w.responder.passed == k && w.responder.wrote && w.responder.read
  }

  // ----- invariant

  /** The one handshake message under way to an endpoint that is behind, and the transport message after it. */
  function UnderWay(behind: Endpoint, ahead: Endpoint, transport: Message): seq<Message> {
    (if behind.passed < ahead.passed then [Noise(behind.passed)] else [])
    + (if ahead.wrote && !behind.read then [transport] else [])
  }

  /** The initiator writes messages 0, 2, 4, ...; the responder 1, 3, 5, .... */
  predicate Inv(w: World, k: nat) {
    var i, r := w.initiator, w.responder;
    && !i.confused && !r.confused
    && i.passed <= k && r.passed <= k
    && i.ourTurn == (i.passed % 2 == 0) && r.ourTurn == (r.passed % 2 == 1)
    && (i.passed == r.passed
        || (i.passed == r.passed + 1 && r.passed % 2 == 0)
        || (r.passed == i.passed + 1 && i.passed % 2 == 1))
    && (i.wrote ==> i.passed == k) && (r.read ==> i.wrote && r.passed == k)
    && (r.wrote ==> r.read) && (i.read ==> r.wrote && i.passed == k)
    && w.toResponder == UnderWay(r, i, Request)
    && w.toInitiator == UnderWay(i, r, Reply)
  }

  lemma NextKeepsInv(w: World, k: nat, a: Actor)
    requires Inv(w, k)
    ensures Inv(Next(w, k, a), k)
  {
  }

  lemma {:induction false} RunKeepsInv(k: nat, schedule: seq<Actor>)
    ensures Inv(Run(k, schedule), k)
  {
    if schedule != [] {
      RunKeepsInv(k, schedule[..|schedule| - 1]);
      NextKeepsInv(Run(k, schedule[..|schedule| - 1]), k, schedule[|schedule| - 1]);
    }
  }

  /** Writes and reads done so far; a whole exchange takes 2k for the handshake and 4 for the transport. */
  function Done(w: World): nat {
    w.initiator.passed + w.responder.passed
    + (if w.initiator.wrote then 1 else 0) + (if w.initiator.read then 1 else 0)
    + (if w.responder.wrote then 1 else 0) + (if w.responder.read then 1 else 0)
  }

  /**
   * For every number of handshake messages and every schedule: neither endpoint ever takes a transport
   * frame for a handshake message or the reverse, the two are never both waiting before they are
   * finished, and every action of either brings both one step closer to the end.
   */
  lemma HandshakeNeverStalls(k: nat, schedule: seq<Actor>)
    ensures var w := Run(k, schedule);
            && !w.initiator.confused && !w.responder.confused
            && (!Finished(w, k) ==> Enabled(w, k, Initiator) || Enabled(w, k, Responder))
            && (Finished(w, k) <==> Done(w) == 2 * k + 4)
            && forall a :: Done(Next(w, k, a)) == Done(w) + if Enabled(w, k, a) then 1 else 0
  {
    RunKeepsInv(k, schedule);
    var w := Run(k, schedule);
    forall a
      ensures Done(Next(w, k, a)) == Done(w) + if Enabled(w, k, a) then 1 else 0
    {
      StepCounts(w, k, a);
    }
    SomeoneActs(w, k);
  }

  lemma StepCounts(w: World, k: nat, a: Actor)
    requires Inv(w, k)
    ensures Done(Next(w, k, a)) == Done(w) + if Enabled(w, k, a) then 1 else 0
  {
  }

  lemma SomeoneActs(w: World, k: nat)
    requires Inv(w, k)
    ensures !Finished(w, k) ==> Enabled(w, k, Initiator) || Enabled(w, k, Responder)
    ensures Finished(w, k) <==> Done(w) == 2 * k + 4
  {
  }

  /** Any schedule in which the endpoints act 2k + 4 times therefore ends with both finished. */
  lemma {:induction false} ActedCount(k: nat, schedule: seq<Actor>)
    requires forall j | 0 <= j < |schedule| :: Enabled(Run(k, schedule[..j]), k, schedule[j])
    ensures Done(Run(k, schedule)) == |schedule|
    ensures |schedule| == 2 * k + 4 <==> Finished(Run(k, schedule), k)
  {
    if schedule != [] {
      var before := schedule[..|schedule| - 1];
      forall j | 0 <= j < |before|
        ensures Enabled(Run(k, before[..j]), k, before[j])
      {
        assert before[..j] == schedule[..j];
      }
      ActedCount(k, before);
      HandshakeNeverStalls(k, before);
    }
    HandshakeNeverStalls(k, schedule);
  }
}
