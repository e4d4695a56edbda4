/** The bounded, expiring reassembler. */
module Reassembly {
  import opened Prelude
  import opened Bytes
  import opened Fragments

  const MAX_ASSEMBLIES := 128
  /** Two seconds, in nanoseconds. */
  const LIFETIME := 2_000_000_000

  datatype Packet = Packet(service: u16, flow: u64, payload: seq<byte>)

  type Slots = seq<Option<seq<byte>>>

  datatype Assembly = Assembly(service: u16, flow: u64, length: nat, parts: Slots, created: nat)

  type Pending = map<u64, Assembly>

  datatype Outcome = Outcome(pending: Pending, result: Result<Option<Packet>, PushError>)

  // ----- invariant

  predicate Full(parts: Slots) {
    forall i | 0 <= i < |parts| :: parts[i].Some?
  }

  /** One slot per fragment, every filled slot of the size required of it. */
  predicate Sized(a: Assembly) {
    && CHUNK < a.length <= MAX_PAYLOAD
    && |a.parts| == Count(a.length)
    && forall i | 0 <= i < |a.parts| && a.parts[i].Some? :: |a.parts[i].value| == PartSize(a.length, i)
  }

  predicate WfAssembly(a: Assembly) {
    Sized(a) && !Full(a.parts)
  }

  predicate Wf(pending: Pending) {
    |pending| <= MAX_ASSEMBLIES && forall m | m in pending :: WfAssembly(pending[m])
  }

  // ----- the operations

  predicate Live(a: Assembly, now: nat) {
    now - a.created < LIFETIME
  }

  function Expired(pending: Pending, now: nat): (r: Pending)
    ensures forall m | m in pending :: m in r <==> Live(pending[m], now)
    ensures forall m | m in r :: m in pending && r[m] == pending[m]
    ensures r.Keys <= pending.Keys && |r| <= |pending|
    ensures Wf(pending) ==> Wf(r)
  {
    var r := map m | m in pending && Live(pending[m], now) :: pending[m];
    SmallerMap(r, pending);
    r
  }

  function Values(parts: Slots): (r: seq<seq<byte>>)
    requires Full(parts)
    ensures |r| == |parts|
  {
    seq(|parts|, i requires 0 <= i < |parts| => parts[i].value)
  }

  function Blank(f: Fragment, now: nat): Assembly {
    Assembly(f.service, f.flow, f.length, seq(Count(f.length), _ => None), now)
  }

  predicate Matches(a: Assembly, f: Fragment) {
    a.service == f.service && a.flow == f.flow && a.length == f.length
  }

  /** The assembly that a fragment is added to, if it is admitted. */
  function Target(live: Pending, f: Fragment, now: nat): Assembly {
    if f.message in live then live[f.message] else Blank(f, now)
  }

  predicate Admitted(live: Pending, m: u64) {
    m in live || |live| < MAX_ASSEMBLIES
  }

  /** The assembly with the fragment's body in the slot its index names. */
  function WithPart(a: Assembly, f: Fragment): Assembly
    requires WellFormed(f) && Matches(a, f) && |a.parts| == Count(a.length)
  {
    a.(parts := a.parts[f.index := Some(f.body)])
  }

  /** A checked fragment of a multi-fragment message meets the table, expiry done. */
  function Store(live: Pending, f: Fragment, now: nat): Outcome
    requires Wf(live) && WellFormed(f)
  {
    if !Admitted(live, f.message) then Outcome(live, Ok(None))
    else
      var a := Target(live, f, now);
      if !Matches(a, f) then Outcome(live, Err(Inconsistent))
      else
        var b := WithPart(a, f);
        if !Full(b.parts) then Outcome(live[f.message := b], Ok(None))
        else Outcome(live - {f.message}, Ok(Some(Packet(f.service, f.flow, Concat(Values(b.parts))))))
  }

  function Accept(pending: Pending, f: Fragment, now: nat): Outcome
    requires Wf(pending) && WellFormed(f)
  {
    if Count(f.length) == 1 then Outcome(pending, Ok(Some(Packet(f.service, f.flow, f.body))))
    else Store(Expired(pending, now), f, now)
  }

  function Pushed(pending: Pending, p: seq<byte>, now: nat): Outcome
    requires Wf(pending)
  {
    match Parse(p)
    case Err(e) => Outcome(pending, Err(e))
    case Ok(f) => ParseExact(p, f); Accept(pending, f, now)
  }

  // ----- what every push keeps

  lemma TargetSized(live: Pending, f: Fragment, now: nat)
    requires Wf(live) && WellFormed(f) && Count(f.length) > 1
    ensures Sized(Target(live, f, now)) && |Target(live, f, now).parts| == Count(Target(live, f, now).length)
  {
  }

  lemma WithPartSized(a: Assembly, f: Fragment)
    requires WellFormed(f) && Matches(a, f) && Sized(a)
    ensures Sized(WithPart(a, f))
  {
  }

  lemma BlankNotFull(f: Fragment, now: nat)
    requires WellFormed(f) && Count(f.length) > 1
    ensures !Full(WithPart(Blank(f, now), f).parts)
  {
    assert WithPart(Blank(f, now), f).parts[if f.index == 0 then 1 else 0].None?;
  }

  lemma PutKeepsWf(live: Pending, m: u64, a: Assembly)
    requires Wf(live) && Admitted(live, m) && WfAssembly(a)
    ensures Wf(live[m := a])
  {
    hide WfAssembly;
    var after := live[m := a];
    assert after.Keys == live.Keys + {m};
    assert |after| == |after.Keys| && |live| == |live.Keys|;
  }

  lemma DropKeepsWf(live: Pending, m: u64)
    requires Wf(live)
    ensures Wf(live - {m})
  {
    hide WfAssembly;
    SmallerMap(live - {m}, live);
  }

  lemma StoreKeepsWf(live: Pending, f: Fragment, now: nat)
    requires Wf(live) && WellFormed(f) && Count(f.length) > 1
    ensures Wf(Store(live, f, now).pending)
  {
    hide Wf, Sized, WithPart, Full, Target, Matches;
    var a := Target(live, f, now);
    TargetSized(live, f, now);
    if Matches(a, f) {
      WithPartSized(a, f);
      var b := WithPart(a, f);
      DropKeepsWf(live, f.message);
      if Admitted(live, f.message) && !Full(b.parts) {
        PutKeepsWf(live, f.message, b);
      }
    }
  }

  /** The table invariant survives any input at any time, malformed or not. */
  lemma PushKeepsWf(pending: Pending, p: seq<byte>, now: nat)
    requires Wf(pending)
    ensures Wf(Pushed(pending, p, now).pending)
  {
    hide WfAssembly, Parse, Store;
    if Parse(p).Ok? {
      var f := Parse(p).value;
      ParseExact(p, f);
      if Count(f.length) > 1 {
        StoreKeepsWf(Expired(pending, now), f, now);
      }
    }
  }

  /** A rejected fragment alters no assembly; only one that clashes with its message's assembly runs expiry. */
  lemma RejectionKeepsTable(pending: Pending, p: seq<byte>, now: nat)
    requires Wf(pending) && Pushed(pending, p, now).result.Err?
    ensures Pushed(pending, p, now).pending
         == if Pushed(pending, p, now).result.error == Inconsistent then Expired(pending, now) else pending
  {
    hide WfAssembly, WithPart, Full, Target, Matches, Expired;
  }

  /** A fragment is inconsistent exactly with a live assembly of its message for another service, flow or length. */
  lemma ClashExactly(pending: Pending, p: seq<byte>, now: nat)
    requires Wf(pending)
    ensures var r := Pushed(pending, p, now).result;
            && (r.Err? && r.error != Inconsistent <==> Parse(p).Err?)
            && (r == Err(Inconsistent) <==>
                  && Parse(p).Ok? && var f := Parse(p).value;
                  && Count(f.length) > 1 && f.message in pending && Live(pending[f.message], now)
                  && var a := pending[f.message];
                     a.service != f.service || a.flow != f.flow || a.length != f.length)
  {
    hide WfAssembly, WithPart, Full;
    if Parse(p).Ok? {
      ParseExact(p, Parse(p).value);
    } else {
      NeverInconsistent(p);
    }
  }

  /** The slots of the live assembly of the fragment's message; without one, all are empty. */
  function SlotsBefore(pending: Pending, f: Fragment, now: nat): Slots {
    if f.message in pending && Live(pending[f.message], now) then pending[f.message].parts
    else seq(Count(f.length), _ => None)
  }

  /**
   * What a push does with a fragment of several that it does not refuse. If the message has no live assembly
   * and 128 are live, the fragment is dropped. If not, its body replaces whatever its slot held: with that
   * slot the last one to be filled, the message is returned and forgotten; otherwise the assembly stays,
   * with the other slots as they were and as old as it was.
   */
  predicate Stored(pending: Pending, p: seq<byte>, now: nat, after: Pending, r: Result<Option<Packet>, PushError>) {
    Parse(p).Ok? && Count(Parse(p).value.length) > 1 && r.Ok? ==>
      var f := Parse(p).value;
      var live := f.message in pending && Live(pending[f.message], now);
      var before := SlotsBefore(pending, f, now);
      && (!live && |Expired(pending, now)| >= MAX_ASSEMBLIES ==> r == Ok(None) && after == Expired(pending, now))
      && (live || |Expired(pending, now)| < MAX_ASSEMBLIES ==>
            && f.index < |before|
            && var slots := before[f.index := Some(f.body)];
            && (r.value.Some? <==> Full(slots)) && (f.message in after <==> !Full(slots))
            && (!Full(slots) ==>
                  after[f.message] == Assembly(f.service, f.flow, f.length, slots,
                                               if live then pending[f.message].created else now)))
  }

  lemma StoredExactly(pending: Pending, p: seq<byte>, now: nat)
    requires Wf(pending)
    ensures Stored(pending, p, now, Pushed(pending, p, now).pending, Pushed(pending, p, now).result)
  {
    hide Parse, Concat;
    if Parse(p).Ok? {
      ParseExact(p, Parse(p).value);
    }
  }

  lemma NeverInconsistent(p: seq<byte>)
    ensures Parse(p) != Err(Inconsistent)
  {
  }

  lemma StoreLeavesOthers(live: Pending, f: Fragment, now: nat, m: u64)
    requires Wf(live) && WellFormed(f) && f.message != m
    ensures m in Store(live, f, now).pending <==> m in live
    ensures m in live ==> Store(live, f, now).pending[m] == live[m]
  {
    hide WfAssembly, WithPart, Full, Target, Matches;
  }

  /** A push leaves every other message's assembly, or its absence, as it is unless its two seconds are over. */
  lemma OthersUntouched(pending: Pending, p: seq<byte>, now: nat, m: u64)
    requires Wf(pending)
    requires Parse(p).Ok? && Count(Parse(p).value.length) > 1 ==> Parse(p).value.message != m
    ensures var after := Pushed(pending, p, now).pending;
            && (m in after ==> m in pending && after[m] == pending[m])
            && (m in pending && m !in after ==> !Live(pending[m], now))
  {
    hide Wf, Parse, Store;
    if Parse(p).Ok? && Count(Parse(p).value.length) > 1 {
      ParseExact(p, Parse(p).value);
      StoreLeavesOthers(Expired(pending, now), Parse(p).value, now, m);
    }
  }

  /**
   * What is delivered is exactly what was accepted: the payload has the advertised length, and cutting
   * it again gives this fragment's body at its index and the stored, unexpired bodies at all others.
   */
  lemma DeliveredIsAccepted(pending: Pending, f: Fragment, now: nat, packet: Packet, i: nat)
    requires Wf(pending) && WellFormed(f) && i < Count(f.length)
    requires Accept(pending, f, now).result == Ok(Some(packet))
    ensures packet.service == f.service && packet.flow == f.flow && |packet.payload| == f.length
    ensures i == f.index ==> Body(packet.payload, i) == f.body
    ensures i != f.index ==>
              && f.message in pending && Live(pending[f.message], now)
              && Matches(pending[f.message], f)
              && pending[f.message].parts[i] == Some(Body(packet.payload, i))
  {
    hide WfAssembly, Store;
    if Count(f.length) == 1 {
      assert Body(f.body, 0) == f.body;
    } else {
      StoredIsDelivered(Expired(pending, now), f, now, packet, i);
    }
  }

  lemma StoredIsDelivered(live: Pending, f: Fragment, now: nat, packet: Packet, i: nat)
    requires Wf(live) && WellFormed(f) && i < Count(f.length) && Count(f.length) > 1
    requires Store(live, f, now).result == Ok(Some(packet))
    ensures packet.service == f.service && packet.flow == f.flow && |packet.payload| == f.length
    ensures i == f.index ==> Body(packet.payload, i) == f.body
    ensures f.message in live && Matches(live[f.message], f) && f.message !in Store(live, f, now).pending
    ensures i != f.index ==> live[f.message].parts[i] == Some(Body(packet.payload, i))
  {
    var a := Target(live, f, now);
    TargetSized(live, f, now);
    WithPartSized(a, f);
    BlankNotFull(f, now);
    var parts := WithPart(a, f).parts;
    CutInvertsJoin(Values(parts), f.length);
    assert Bodies(packet.payload)[i] == Values(parts)[i];
  }

  // ----- memory bound

  function FilledBytes(parts: Slots): nat {
    if parts == [] then 0
    else
      var last := parts[|parts| - 1];
      FilledBytes(parts[..|parts| - 1]) + if last.Some? then |last.value| else 0
  }

  ghost function StoredBytes(pending: Pending): nat {
    if pending == map[] then 0
    else
      var m :| m in pending;
      FilledBytes(pending[m].parts) + StoredBytes(pending - {m})
  }

  lemma {:induction false} FilledBytesBound(a: Assembly, k: nat)
    requires WfAssembly(a) && k <= |a.parts|
    ensures FilledBytes(a.parts[..k]) <= Min(k * CHUNK, a.length)
  {
    if k > 0 {
      FilledBytesBound(a, k - 1);
      assert a.parts[..k][..k - 1] == a.parts[..k - 1];
      assert a.parts[..k][k - 1] == a.parts[k - 1];
    }
  }

  lemma {:induction false} StoredBytesPerAssembly(pending: Pending)
    requires forall m | m in pending :: WfAssembly(pending[m])
    ensures StoredBytes(pending) <= |pending| * MAX_PAYLOAD
    decreases |pending|
  {
    if pending != map[] {
      var m :| m in pending && StoredBytes(pending) == FilledBytes(pending[m].parts) + StoredBytes(pending - {m});
      var a := pending[m];
      FilledBytesBound(a, |a.parts|);
      assert a.parts[..|a.parts|] == a.parts;
      assert (pending - {m}).Keys == pending.Keys - {m};
      StoredBytesPerAssembly(pending - {m});
    }
  }

  /** A well-formed table never stores more than 128 maximal payloads. */
  lemma StoredBytesBound(pending: Pending)
    requires Wf(pending)
    ensures StoredBytes(pending) <= MAX_ASSEMBLIES * MAX_PAYLOAD
  {
    StoredBytesPerAssembly(pending);
  }

  // ----- the object

  class Reassembler {
    var pending: Pending

    ghost predicate Valid()
      reads this
    {
      Wf(pending)
    }

    constructor ()
      ensures Valid() && pending == map[]
    {
      pending := map[];
    }

    method Expire(now: nat)
      requires Valid()
      modifies this
      ensures Valid() && pending == Expired(old(pending), now)
    {
      hide WfAssembly;
      ghost var after := Expired(pending, now);
      pending := map m | m in pending && now - pending[m].created < LIFETIME :: pending[m];
      assert pending == after;
    }

    method Insert(f: Fragment, now: nat) returns (r: Result<Option<Packet>, PushError>)
      requires Valid() && WellFormed(f) && Count(f.length) > 1
      modifies this
      ensures Outcome(pending, r) == Store(old(pending), f, now)
    {
      hide Wf, Sized, Full, Values, Concat;
      TargetSized(pending, f, now);
      if f.message !in pending && |pending| >= MAX_ASSEMBLIES {
        return Ok(None);
      }
      var a := if f.message in pending then pending[f.message] else Blank(f, now);
      if !Matches(a, f) {
        return Err(Inconsistent);
      }
      a := WithPart(a, f);
      pending := pending[f.message := a];
      var incomplete := AnyMissing(a.parts);
      if incomplete {
        return Ok(None);
      }
      pending := pending - {f.message};
      assert pending == old(pending) - {f.message};
      var payload := Collect(a.parts);
      r := Ok(Some(Packet(f.service, f.flow, payload)));
    }

    method Push(p: seq<byte>, now: nat) returns (r: Result<Option<Packet>, PushError>)
      requires Valid()
      modifies this
      ensures Valid()
      ensures Outcome(pending, r) == Pushed(old(pending), p, now)
      ensures r == Err(Inconsistent) <==>
                && Parse(p).Ok? && var f := Parse(p).value;
                && Count(f.length) > 1 && f.message in old(pending) && Live(old(pending)[f.message], now)
                && var a := old(pending)[f.message];
                   a.service != f.service || a.flow != f.flow || a.length != f.length
      ensures r.Err? && r.error != Inconsistent <==> Parse(p).Err?
      ensures Stored(old(pending), p, now, pending, r)
      ensures r.Err? ==> forall m | m in pending :: m in old(pending) && pending[m] == old(pending)[m]
      ensures r.Err? ==> forall m | m in old(pending) && Live(old(pending)[m], now) :: m in pending
    {
      hide WfAssembly, Parse, Store;
      PushKeepsWf(pending, p, now);
      if Pushed(pending, p, now).result.Err? {
        RejectionKeepsTable(pending, p, now);
      }
      ClashExactly(pending, p, now);
      StoredExactly(pending, p, now);
      var parsed := Parse(p);
      if parsed.Err? {
        return Err(parsed.error);
      }
      var f := parsed.value;
      ParseExact(p, f);
      if Count(f.length) == 1 {
        return Ok(Some(Packet(f.service, f.flow, f.body)));
      }
      Expire(now);
      r := Insert(f, now);
    }
  }

  method AnyMissing(parts: Slots) returns (missing: bool)
    ensures missing <==> !Full(parts)
  {
    for i := 0 to |parts|
      invariant forall j | 0 <= j < i :: parts[j].Some?
    {
      if parts[i].None? {
        return true;
      }
    }
    return false;
  }

  /** The parts of a complete assembly, concatenated in index order. */
  method Collect(parts: Slots) returns (payload: seq<byte>)
    requires Full(parts)
    ensures payload == Concat(Values(parts))
  {
    payload := [];
    for i := 0 to |parts|
      invariant payload == Concat(Values(parts)[..i])
    {
      payload := payload + parts[i].value;
      assert Values(parts)[..i + 1] == Values(parts)[..i] + [parts[i].value];
      ConcatSnoc(Values(parts)[..i], parts[i].value);
    }
    assert Values(parts)[..|parts|] == Values(parts);
  }
}
