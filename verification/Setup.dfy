/** Setting up a session: the client's registration travels as one sealed frame, and so does the server's answer. */
module Setup {
  import opened Prelude
  import opened Bytes
  import opened Cipher
  import opened Crypto
  import opened Replay
  import opened Frames
  import opened Registration
  import opened DatagramChannel
  import opened ChannelSafety
  import opened Session

  /** How a registration, version and offers, is written as bytes and read back. */
  datatype Codec = Codec(encode: (nat, seq<Offer>) -> seq<byte>, decode: seq<byte> -> Option<(nat, seq<Offer>)>)

  /** Octets in names and tokens. */
  function TextSize(offers: seq<Offer>): nat {
    if offers == [] then 0 else |offers[0].name| + |offers[0].token| + TextSize(offers[1..])
  }

  /** What is read is what was written, and names and tokens are written out. */
  ghost predicate Lossless(codec: Codec) {
    forall version: nat, offers: seq<Offer> ::
      && codec.decode(codec.encode(version, offers)) == Some((version, offers))
      && |codec.encode(version, offers)| >= TextSize(offers)
  }

  /** One direction's cipher as its two ends use it. */
  datatype Keys = Keys(encrypt: Encrypt, decrypt: Decrypt)

  /** What fits a frame can be sealed, and what is sealed first opens as it was. */
  ghost predicate Works(keys: Keys) {
    && Seals(keys.encrypt, MAX_FRAME - NONCE - TAG)
    && forall plain: seq<byte> :: OpensFirst(keys.encrypt, keys.decrypt, plain)
  }

  datatype SetupError =
    | RequestFailed(cause: ExchangeError)
    | Malformed
    | Rejected(reason: RegistrationError)
    | ReplyFailed
    | ReplyNotOk

  /** The server's answer, "ok". */
  const OK: seq<byte> := [0x6F, 0x6B]

  function Request(codec: Codec, client: Side): seq<byte> {
    codec.encode(1, Offers(client))
  }

  /** The server agrees on every service of the client, and every attempt to bind succeeds. */
  ghost predicate Welcome(client: Side, server: Side, binds: Binds) {
    && client.services != []
    && forall i | 0 <= i < |client.services| ::
         Agrees(client, server, i) && Bindable(server, binds, Offers(client), i)
  }

  /** Both ends of a direction are at the start of its channel, whose first plaintext is given. */
  ghost predicate Established(sender: DatagramCrypto, receiver: DatagramCrypto, keys: Keys, plain: seq<byte>)
    reads sender, receiver, receiver.replay
  {
    && keys.encrypt(0, plain).Some?
    && var c := Start(plain, keys.encrypt(0, plain).value);
       c.tx.next == sender.next && c.rx.openedAt.Keys == receiver.replay.history && Reachable(c)
  }

  lemma SameIds(client: Side, server: Side, bound: seq<Bound>, destinations: map<u16, string>)
    requires Acceptable(server, 1, Offers(client)) && |bound| == |client.services|
    requires forall i | 0 <= i < |bound| :: bound[i].name == Offers(client)[i].name
    requires forall i | 0 <= i < |bound| :: Get(server.services, Offers(client)[i].name) == Some(bound[i].service)
    requires forall id: u16 :: id in destinations <==> id < |client.services| && client.services[id].1.kind == Udp
    requires forall id | id in destinations :: Some(destinations[id]) == client.services[id].1.localAddr
    ensures forall i: u16 :: MeansTheSame(client, bound, destinations, i)
  {
    hide Acceptable, Get, HeaderService, BigEndian;
    forall i: u16
      ensures MeansTheSame(client, bound, destinations, i)
    {
      HeaderRoundTrip(client, i);
      if i < |client.services| {
        SameKind(client, server, i, bound[i].service);
      }
    }
  }

  /**
   * The server's part once the request is open: it is parsed, checked and bound. It succeeds exactly if the
   * client is welcome.
   */
  method Admit(codec: Codec, client: Side, server: Side, binds: Binds, request: seq<byte>)
    returns (r: Result<seq<Bound>, SetupError>, attempts: nat)
    requires ClientConfigured(client) && ServerConfigured(server) && Lossless(codec)
    requires request == Request(codec, client)
    ensures r.Ok? <==> Welcome(client, server, binds)
    ensures r.Ok? ==>
              && |r.value| == |client.services| && Acceptable(server, 1, Offers(client))
              && (forall i | 0 <= i < |r.value| :: r.value[i].name == Offers(client)[i].name)
              && forall i | 0 <= i < |r.value| ::
                   Get(server.services, Offers(client)[i].name) == Some(r.value[i].service)
  {
    hide Acceptable, Get, Agrees, Bindable, ServerConfigured, TextSize;
    attempts := 0;
    var parsed := codec.decode(request);
    if parsed.None? {
      return Err(Malformed), attempts;
    }
    assert parsed.value == (1, Offers(client));
    assert Ordered(server.services) by { IsOrdered(server); }
    AcceptedExactly(client, server);
    var bound;
    bound, attempts := Register(server, parsed.value.0, parsed.value.1, binds);
    if bound.Err? {
      return Err(Rejected(bound.error)), attempts;
    }
    r := Ok(bound.value);
  }

  lemma IsOrdered(server: Side)
    requires ServerConfigured(server)
    ensures Ordered(server.services)
  {
  }

  /**
   * A client and a server set up a session. It succeeds exactly when the client's registration fits a
   * frame, the server agrees on every service of the client, with the same kind and token, and can bind
   * them all. Then every service ID means the same to both ends, the server's listener, the header of a TCP
   * stream and the client's UDP destination, and both directions of the datagram channel are at their start.
   * A registration that does not fit reaches nobody, and nothing is bound.
   */
  method Connect(client: Side, server: Side, codec: Codec, binds: Binds,
                 here: DatagramCrypto, there: DatagramCrypto, up: Keys, down: Keys)
    returns (r: Result<seq<Bound>, SetupError>, destinations: map<u16, string>, attempts: nat)
    requires ClientConfigured(client) && ServerConfigured(server)
    requires Lossless(codec) && Works(up) && Works(down)
    requires here != there && here.replay != there.replay && here.replay.seen != there.replay.seen
    requires here.Valid() && here.next == 0 && here.replay.history == {}
    requires there.Valid() && there.next == 0 && there.replay.history == {}
    modifies here, here.replay, here.replay.seen, there, there.replay, there.replay.seen
    ensures here.Valid() && there.Valid()
    ensures r.Ok? <==> FitsSealed(Request(codec, client)) && Welcome(client, server, binds)
    ensures !FitsSealed(Request(codec, client)) ==> attempts == 0 && there.replay.history == {}
    ensures r.Ok? ==> |r.value| == |client.services|
    ensures r.Ok? ==> forall i: u16 :: MeansTheSame(client, r.value, destinations, i)
    ensures r.Ok? ==> Established(here, there, up, Request(codec, client)) && Established(there, here, down, OK)
  {
    hide Welcome, Acceptable, Get, Lossless, Reachable, Represents, ClientConfigured, ServerConfigured, MeansTheSame;
    destinations, attempts := map[], 0;
    var request := codec.encode(1, Offers(client));
    Sealable(up, request);
    var heard := Establish(here, there, request, up.encrypt, up.decrypt);
    if heard.Err? {
      return Err(RequestFailed(heard.error)), destinations, attempts;
    }
    var admitted;
    admitted, attempts := Admit(codec, client, server, binds, heard.value);
    if admitted.Err? {
      return admitted, destinations, attempts;
    }
    Sealable(down, OK);
    var reply := Establish(there, here, OK, down.encrypt, down.decrypt);
    if reply.Err? {
      return Err(ReplyFailed), destinations, attempts;
    }
    if reply.value != OK {
      return Err(ReplyNotOk), destinations, attempts;
    }
    destinations := Destinations(client);
    SameIds(client, server, admitted.value, destinations);
    r := admitted;
  }

  lemma Sealable(keys: Keys, plain: seq<byte>)
    requires Works(keys)
    ensures OpensFirst(keys.encrypt, keys.decrypt, plain)
    ensures FitsSealed(plain) ==> keys.encrypt(0, plain).Some?
  {
  }

  // ----- a client that can never register

  /** Names and tokens alone can be too much for a frame. */
  lemma TooMuchText(codec: Codec, client: Side)
    requires Lossless(codec) && NONCE + TextSize(Offers(client)) + TAG > MAX_FRAME
    ensures !FitsSealed(Request(codec, client))
  {
  }

  lemma {:induction false} TextAtLeast(offers: seq<Offer>, n: nat)
    requires forall i | 0 <= i < |offers| :: |offers[i].name| + |offers[i].token| >= n
    ensures TextSize(offers) >= n * |offers|
  {
    if offers != [] {
      TextAtLeast(offers[1..], n);
      assert n * |offers| == n + n * |offers[1..]|;
    }
  }

  /** One side of a pair with 128 services and a token of 512 octets for all of them. */
  function Large(server: bool): Side {
    Side(Some(seq(512, _ => 'x')), seq(128, (i: nat) requires i < 128 => ([(33 + i) as char], LargeService(server))))
  }

  function LargeService(server: bool): Service {
    if server then Service(Tcp, None, Some("localhost:0"), None) else Service(Tcp, None, None, Some("localhost:80"))
  }

  /** Every address can be bound at every attempt. */
  predicate Always(attempt: nat, kind: Kind, address: string) {
    true
  }

  lemma LargeToken(server: bool)
    ensures Token(Large(server), LargeService(server)) == seq(512, _ => 'x')
  {
  }

  lemma LargeConfigured(server: bool)
    ensures Ordered(Large(server).services) && WithinLimits(Large(server))
    ensures if server then ServerConfigured(Large(server)) else ClientConfigured(Large(server))
  {
    hide Token;
    LargeToken(server);
  }

  lemma LargeAgrees(i: nat)
    requires i < 128
    ensures Agrees(Large(false), Large(true), i) && Bindable(Large(true), Always, Offers(Large(false)), i)
  {
    hide Token, Get;
    var client, server := Large(false), Large(true);
    LargeToken(false);
    LargeToken(true);
    LargeConfigured(true);
    GetAt(server.services, i);
    TokenIsConfigured(server, LargeService(true), Token(client, LargeService(false)));
    SameTokenIsOffered(client, LargeService(false), server, LargeService(true));
    assert server.services[i].0 == client.services[i].0 && server.services[i].1 == LargeService(true);
    assert Offers(client)[i].name == server.services[i].0;
  }

  lemma LargeText()
    ensures NONCE + TextSize(Offers(Large(false))) + TAG > MAX_FRAME
  {
    hide Token;
    LargeToken(false);
    TextAtLeast(Offers(Large(false)), 513);
  }

  /**
   * A client and a server that pass every check of their configurations and agree on everything, where any
   * address can be bound, and still, however registrations are written, the client's never fits a frame.
   */
  lemma LargeNeverConnects(codec: Codec)
    requires Lossless(codec)
    ensures ClientConfigured(Large(false)) && WithinLimits(Large(false))
    ensures ServerConfigured(Large(true)) && WithinLimits(Large(true))
    ensures Welcome(Large(false), Large(true), Always) && !FitsSealed(Request(codec, Large(false)))
  {
    hide Agrees, Bindable, Lossless, ClientConfigured, ServerConfigured, WithinLimits, TextSize;
    LargeConfigured(false);
    LargeConfigured(true);
    forall i | 0 <= i < 128
      ensures Agrees(Large(false), Large(true), i) && Bindable(Large(true), Always, Offers(Large(false)), i)
    {
      LargeAgrees(i);
    }
    LargeText();
    TooMuchText(codec, Large(false));
  }
}
