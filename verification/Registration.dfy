/** Registration: the client offers its services in map order; positions in that list become service IDs. */
module Registration {
  import opened Prelude
  import opened Bytes

  const MAX_SERVICES := 256
  const MAX_NAME := 128
  const MAX_TOKEN := 512

  datatype Kind = Tcp | Udp

  datatype Service = Service(kind: Kind, token: Option<string>, bindAddr: Option<string>, localAddr: Option<string>)

  /** An ordered map, as the sequence of its entries. */
  type Entries = seq<(string, Service)>

  datatype Side = Side(defaultToken: Option<string>, services: Entries)

  datatype Offer = Offer(name: string, kind: Kind, token: string)

  datatype Bound = Bound(name: string, service: Service)

  datatype RegistrationError = InvalidRegistration | DuplicateService | AuthenticationFailed | BindFailed

  // ----- ordered maps

  predicate Less(a: string, b: string) {
    if b == [] then false
    else if a == [] then true
    else a[0] < b[0] || (a[0] == b[0] && Less(a[1..], b[1..]))
  }

  /** The keys of an ordered map are strictly increasing. */
  predicate Ordered(m: Entries) {
    forall i | 0 <= i < |m| - 1 :: Less(m[i].0, m[i + 1].0)
  }

  /** The strings agree up to `k`, where the first one ends or has the smaller character. */
  predicate FirstDifference(a: string, b: string, k: nat) {
    k <= |a| && k < |b| && a[..k] == b[..k] && (k < |a| ==> a[k] < b[k])
  }

  /** The order is that of a dictionary. */
  lemma {:induction false} LessIsLexicographic(a: string, b: string)
    ensures Less(a, b) <==> exists k: nat :: FirstDifference(a, b, k)
  {
    if b == [] {
    } else if a == [] {
      assert FirstDifference(a, b, 0);
    } else {
      LessIsLexicographic(a[1..], b[1..]);
      if Less(a, b) {
        if a[0] < b[0] {
          assert FirstDifference(a, b, 0);
        } else {
          var k: nat :| FirstDifference(a[1..], b[1..], k);
          assert a[..k + 1] == [a[0]] + a[1..][..k] && b[..k + 1] == [b[0]] + b[1..][..k];
          assert FirstDifference(a, b, k + 1);
        }
      }
      if k: nat :| FirstDifference(a, b, k) {
        if k > 0 {
          assert a[..k][0] == a[0] && b[..k][0] == b[0];
          assert a[1..][..k - 1] == a[..k][1..] && b[1..][..k - 1] == b[..k][1..];
          assert FirstDifference(a[1..], b[1..], k - 1);
        }
      }
    }
  }

  lemma {:induction false} LessIsStrict(a: string, b: string, c: string)
    ensures !Less(a, a)
    ensures Less(a, b) && Less(b, c) ==> Less(a, c)
    decreases |a|
  {
    if a != [] {
      LessIsStrict(a[1..], if b == [] then [] else b[1..], if c == [] then [] else c[1..]);
    }
  }

  lemma {:induction false} KeysIncrease(m: Entries, i: nat, j: nat)
    requires Ordered(m) && i < j < |m|
    ensures Less(m[i].0, m[j].0) && m[i].0 != m[j].0
    decreases j
  {
    if i < j - 1 {
      KeysIncrease(m, i, j - 1);
      LessIsStrict(m[i].0, m[j - 1].0, m[j].0);
    }
    LessIsStrict(m[i].0, m[j].0, m[j].0);
  }

  function Get(m: Entries, name: string): (r: Option<Service>)
    ensures r.None? <==> forall i | 0 <= i < |m| :: m[i].0 != name
    ensures r.Some? ==> exists i | 0 <= i < |m| :: m[i].0 == name && m[i].1 == r.value
  {
    if m == [] then None
    else if m[0].0 == name then Some(m[0].1)
    else Get(m[1..], name)
  }

  lemma GetAt(m: Entries, i: nat)
    requires Ordered(m) && i < |m|
    ensures Get(m, m[i].0) == Some(m[i].1)
  {
    var r := Get(m, m[i].0);
    assert m[i].0 == m[i].0;
    var j :| 0 <= j < |m| && m[j].0 == m[i].0 && m[j].1 == r.value;
    if j < i { KeysIncrease(m, j, i); }
    if i < j { KeysIncrease(m, i, j); }
  }

  function Token(side: Side, s: Service): string {
    if s.token.Some? then s.token.value
    else if side.defaultToken.Some? then side.defaultToken.value
    else ""
  }

  /**
   * The token configured for a service: its own if it has one; if not, its side's default; and if there is
   * none either, the empty one.
   */
  predicate HasToken(side: Side, s: Service, token: string) {
    || s.token == Some(token)
    || (s.token.None? && side.defaultToken == Some(token))
    || (s.token.None? && side.defaultToken.None? && token == "")
  }

  lemma TokenIsConfigured(side: Side, s: Service, token: string)
    ensures Token(side, s) == token <==> HasToken(side, s, token)
  {
  }

  // ----- the client's offer and the server's answer

  function Offers(client: Side): (r: seq<Offer>)
    ensures |r| == |client.services|
  {
    seq(|client.services|, i requires 0 <= i < |client.services| =>
      Offer(client.services[i].0, client.services[i].1.kind, Token(client, client.services[i].1)))
  }

  predicate Authentic(server: Side, o: Offer) {
    match Get(server.services, o.name)
    case None => false
    case Some(s) => o.kind == s.kind && HasToken(server, s, o.token)
  }

  lemma AuthenticByToken(server: Side, o: Offer)
    ensures Authentic(server, o) <==>
              var s := Get(server.services, o.name);
              s.Some? && o.kind == s.value.kind && Token(server, s.value) == o.token
  {
    var s := Get(server.services, o.name);
    if s.Some? {
      TokenIsConfigured(server, s.value, o.token);
    }
  }

  predicate Distinct(offers: seq<Offer>) {
    forall i, j | 0 <= i < j < |offers| :: offers[i].name != offers[j].name
  }

  predicate Acceptable(server: Side, version: nat, offers: seq<Offer>) {
    && version == 1 && 1 <= |offers| <= MAX_SERVICES
    && Distinct(offers)
    && forall i | 0 <= i < |offers| :: Authentic(server, offers[i])
  }

  /** What configuration checking guarantees of a server: an address to bind for every service. */
  predicate ServerConfigured(server: Side) {
    Ordered(server.services) && forall i | 0 <= i < |server.services| :: server.services[i].1.bindAddr.Some?
  }

  /** The limits that configuration checking sets for either side: 1 to 256 services, names and tokens not too long. */
  predicate WithinLimits(side: Side) {
    && 1 <= |side.services| <= MAX_SERVICES
    && forall i | 0 <= i < |side.services| ::
         1 <= |side.services[i].0| <= MAX_NAME && 1 <= |Token(side, side.services[i].1)| <= MAX_TOKEN
  }

  /** And of a client: at most 256 services, with a local address for every one. */
  predicate ClientConfigured(client: Side) {
    && Ordered(client.services) && |client.services| <= MAX_SERVICES
    && forall i | 0 <= i < |client.services| :: client.services[i].1.localAddr.Some?
  }

  /** The first loop: every offer is checked before anything is bound. */
  method Validate(server: Side, version: nat, offers: seq<Offer>) returns (r: Result<seq<Bound>, RegistrationError>)
    ensures r.Ok? <==> Acceptable(server, version, offers)
    ensures r == Err(InvalidRegistration) <==> version != 1 || !(1 <= |offers| <= MAX_SERVICES)
    ensures r == Err(DuplicateService) ==> !Distinct(offers)
    ensures r == Err(AuthenticationFailed) ==> exists i | 0 <= i < |offers| :: !Authentic(server, offers[i])
    ensures r != Err(BindFailed)
    ensures r.Ok? ==> |r.value| == |offers|
    ensures r.Ok? ==> forall i | 0 <= i < |offers| ::
              r.value[i].name == offers[i].name && Get(server.services, offers[i].name) == Some(r.value[i].service)
  {
    hide Get, Token, HasToken, Authentic;
    if !(version == 1 && 1 <= |offers| <= MAX_SERVICES) {
      return Err(InvalidRegistration);
    }
    var names: set<string> := {};
    var definitions: seq<Bound> := [];
    for k := 0 to |offers|
      invariant names == set i | 0 <= i < k :: offers[i].name
      invariant forall i, j | 0 <= i < j < k :: offers[i].name != offers[j].name
      invariant forall i | 0 <= i < k :: Authentic(server, offers[i])
      invariant |definitions| == k
      invariant forall i | 0 <= i < k ::
                  definitions[i].name == offers[i].name
                  && Get(server.services, offers[i].name) == Some(definitions[i].service)
    {
      var offer := offers[k];
      if offer.name in names {
        return Err(DuplicateService);
      }
      names := names + {offer.name};
      var service := Get(server.services, offer.name);
      AuthenticByToken(server, offer);
      if service.None? || offer.kind != service.value.kind || Token(server, service.value) != offer.token {
        assert !Authentic(server, offers[k]);
        return Err(AuthenticationFailed);
      }
      definitions := definitions + [Bound(offer.name, service.value)];
    }
    r := Ok(definitions);
  }

  /** What the system says to the attempts to bind, by number, kind and address. */
  type Binds = (nat, Kind, string) -> bool

  /** Attempt `i`, for the service offered `i`-th, succeeds. */
  predicate Bindable(server: Side, binds: Binds, offers: seq<Offer>, i: nat)
    requires i < |offers|
  {
    match Get(server.services, offers[i].name)
    case None => false
    case Some(s) => s.bindAddr.Some? && binds(i, s.kind, s.bindAddr.value)
  }

  lemma HasAddress(server: Side, name: string)
    requires ServerConfigured(server) && Get(server.services, name).Some?
    ensures Get(server.services, name).value.bindAddr.Some?
  {
  }

  /**
   * Registration as a whole. It succeeds exactly when every offer checks out and every attempt to bind
   * succeeds. Nothing is bound unless every offer checks out, and nothing after the first failure.
   */
  method Register(server: Side, version: nat, offers: seq<Offer>, binds: Binds)
    returns (r: Result<seq<Bound>, RegistrationError>, attempts: nat)
    requires ServerConfigured(server)
    ensures !Acceptable(server, version, offers) ==> attempts == 0
    ensures r.Ok? <==> && Acceptable(server, version, offers)
                       && forall i | 0 <= i < |offers| :: Bindable(server, binds, offers, i)
    ensures r == Err(BindFailed) ==>
              && 0 < attempts <= |offers| && !Bindable(server, binds, offers, attempts - 1)
              && forall i | 0 <= i < attempts - 1 :: Bindable(server, binds, offers, i)
    ensures r.Ok? ==> |r.value| == |offers| == attempts
    ensures r.Ok? ==> forall i | 0 <= i < |offers| ::
              r.value[i].name == offers[i].name && Get(server.services, offers[i].name) == Some(r.value[i].service)
  {
    hide Acceptable, ServerConfigured, Get;
    attempts := 0;
    var v := Validate(server, version, offers);
    if v.Err? {
      return v, attempts;
    }
    var definitions := v.value;
    var bound: seq<Bound> := [];
    for k := 0 to |definitions|
      invariant bound == definitions[..k] && attempts == k
      invariant forall i | 0 <= i < k :: Bindable(server, binds, offers, i)
    {
      var d := definitions[k];
      HasAddress(server, offers[k].name);
      attempts := attempts + 1;
      if !binds(k, d.service.kind, d.service.bindAddr.value) {
        assert !Bindable(server, binds, offers, k);
        return Err(BindFailed), attempts;
      }
      bound := bound + [d];
    }
    assert bound == definitions;
    r := Ok(bound);
  }

  // ----- the client's use of service IDs

  /** The client's table of UDP destinations, keyed by service ID. */
  method Destinations(client: Side) returns (destinations: map<u16, string>)
    requires ClientConfigured(client)
    ensures forall id: u16 :: id in destinations <==> id < |client.services| && client.services[id].1.kind == Udp
    ensures forall id | id in destinations :: Some(destinations[id]) == client.services[id].1.localAddr
  {
    destinations := map[];
    for i := 0 to |client.services|
      invariant forall id: u16 :: id in destinations <==> id < i && client.services[id].1.kind == Udp
      invariant forall id | id in destinations :: Some(destinations[id]) == client.services[id].1.localAddr
    {
      var s := client.services[i].1;
      if s.kind == Udp {
        destinations := destinations[i := s.localAddr.value];
      }
    }
  }

  datatype HeaderError = InvalidHeader | UnknownService | WrongType

  /** The service a TCP stream's header names. */
  function HeaderService(client: Side, header: seq<byte>): Result<(string, Service), HeaderError> {
    if |header| != 2 then Err(InvalidHeader)
    else
      var id := FromBigEndian(header);
      if id >= |client.services| then Err(UnknownService)
      else if client.services[id].1.kind != Tcp then Err(WrongType)
      else Ok(client.services[id])
  }

  // ----- agreement

  lemma OffersDistinct(client: Side)
    requires Ordered(client.services)
    ensures Distinct(Offers(client))
  {
    var offers := Offers(client);
    forall i, j | 0 <= i < j < |offers|
      ensures offers[i].name != offers[j].name
    {
      KeysIncrease(client.services, i, j);
    }
  }

  /** The server's configuration has the client's service, of the same kind and with the same token. */
  ghost predicate Agrees(client: Side, server: Side, i: nat)
    requires i < |client.services|
  {
    exists j | 0 <= j < |server.services| ::
      && server.services[j].0 == client.services[i].0
      && server.services[j].1.kind == client.services[i].1.kind
      && SameToken(client, client.services[i].1, server, server.services[j].1)
  }

  /** Both sides have the same token configured for their service. */
  ghost predicate SameToken(client: Side, ours: Service, server: Side, theirs: Service) {
    exists token :: HasToken(client, ours, token) && HasToken(server, theirs, token)
  }

  lemma SameTokenIsOffered(client: Side, ours: Service, server: Side, theirs: Service)
    ensures SameToken(client, ours, server, theirs) <==> HasToken(server, theirs, Token(client, ours))
  {
    TokenIsConfigured(client, ours, Token(client, ours));
  }

  /** A client's registration is acceptable exactly when the server agrees on every one of its services. */
  lemma AcceptedExactly(client: Side, server: Side)
    requires Ordered(client.services) && Ordered(server.services)
    ensures Acceptable(server, 1, Offers(client))
       <==> 1 <= |client.services| <= MAX_SERVICES && forall i | 0 <= i < |client.services| :: Agrees(client, server, i)
  {
    OffersDistinct(client);
    forall i | 0 <= i < |client.services|
      ensures Authentic(server, Offers(client)[i]) <==> Agrees(client, server, i)
    {
      AuthenticMeansAgrees(client, server, i);
    }
  }

  lemma AuthenticMeansAgrees(client: Side, server: Side, i: nat)
    requires Ordered(server.services) && i < |client.services|
    ensures Authentic(server, Offers(client)[i]) <==> Agrees(client, server, i)
  {
    hide HasToken, Token, SameToken, Get;
    var ours, o := client.services[i], Offers(client)[i];
    if Agrees(client, server, i) {
      var j :| 0 <= j < |server.services| && server.services[j].0 == ours.0
               && server.services[j].1.kind == ours.1.kind && SameToken(client, ours.1, server, server.services[j].1);
      GetAt(server.services, j);
      SameTokenIsOffered(client, ours.1, server, server.services[j].1);
    }
    if Authentic(server, o) {
      var s := Get(server.services, o.name).value;
      var j :| 0 <= j < |server.services| && server.services[j].0 == o.name && server.services[j].1 == s;
      SameTokenIsOffered(client, ours.1, server, s);
    }
  }

  /** Both ends take service ID `i` for the same service, and use it for nothing else. */
  predicate MeansTheSame(client: Side, bound: seq<Bound>, destinations: map<u16, string>, i: u16)
    requires |bound| == |client.services|
  {
    && (i < |bound| ==> bound[i].name == client.services[i].0 && bound[i].service.kind == client.services[i].1.kind)
    && HeaderService(client, BigEndian(i, 2))
       == (if i >= |bound| then Err(UnknownService)
           else if bound[i].service.kind == Udp then Err(WrongType)
           else Ok(client.services[i]))
    && (i in destinations <==> i < |bound| && bound[i].service.kind == Udp)
    && (i in destinations ==> Some(destinations[i]) == client.services[i].1.localAddr)
  }

  /** The two octets the server writes for a service lead the client to it; other lengths lead nowhere. */
  lemma HeaderRoundTrip(client: Side, i: u16)
    ensures forall header: seq<byte> | |header| != 2 :: HeaderService(client, header) == Err(InvalidHeader)
    ensures HeaderService(client, BigEndian(i, 2))
         == if i >= |client.services| then Err(UnknownService)
            else if client.services[i].1.kind != Tcp then Err(WrongType)
            else Ok(client.services[i])
  {
    Widths();
    DecodeEncode(i, 2);
  }

  lemma SameKind(client: Side, server: Side, i: nat, s: Service)
    requires Acceptable(server, 1, Offers(client)) && i < |client.services|
    requires Get(server.services, Offers(client)[i].name) == Some(s)
    ensures s.kind == client.services[i].1.kind
  {
    assert Authentic(server, Offers(client)[i]);
  }
}
