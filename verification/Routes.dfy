/**
 The route table of path.Conn (internal/path/conn.go): direct routes with a
 reverse index by address, switched under one stable address per peer.
 */
module Routes {
  import opened Bytes

  const SECOND: int := 1_000_000_000
  const KEEPALIVE_INTERVAL: int := 15 * SECOND
  const KEEPALIVE_TIMEOUT: int := 45 * SECOND
  const REPROMOTE_BACKOFF: int := 30 * SECOND

  datatype Route = Route(addr: Endpoint, token: bytes, since: int, lastRx: int)

  /** The fields of Conn under `mu`; a relay connection is known by a number. */
  datatype Table = Table(relay: Option<nat>, routes: map<bytes, Route>, byAddr: map<Endpoint, bytes>,
      viaId: set<bytes>, cooldown: map<bytes, int>)

  const EMPTY: Table := Table(None, map[], map[], {}, map[])

  /** The address a packet is reported under: a peer's stable one, or the socket's own. */
  datatype From = Peer(id: bytes) | Raw(src: Endpoint)

  datatype Sent = Direct(to: Endpoint) | OverRelay(relay: nat) | NoRoute

  datatype PathClass = Validated(addr: Endpoint) | Relayed | NotCarried

  function Promoted(t: Table, peer: bytes, addr: Endpoint, token: bytes, now: int): Table {
    var index := if peer in t.routes then t.byAddr - {t.routes[peer].addr} else t.byAddr;
    t.(routes := t.routes[peer := Route(addr, token, now, now)], byAddr := index[addr := peer],
       viaId := t.viaId + {peer})
  }

  function Demoted(t: Table, peer: bytes, now: int): Table {
    if peer !in t.routes then t
    else t.(routes := t.routes - {peer}, byAddr := t.byAddr - {t.routes[peer].addr},
            cooldown := t.cooldown[peer := now])
  }

  function Heard(t: Table, src: Endpoint, now: int): Table {
    if src in t.byAddr && t.byAddr[src] in t.routes
    then t.(routes := t.routes[t.byAddr[src] := t.routes[t.byAddr[src]].(lastRx := now)])
    else t
  }

  function Reported(t: Table, src: Endpoint): From {
    if src in t.byAddr then Peer(t.byAddr[src]) else Raw(src)
  }

  function SentTo(t: Table, peer: bytes): Sent {
    if peer in t.routes then Direct(t.routes[peer].addr)
    else if t.relay.Some? then OverRelay(t.relay.value)
    else NoRoute
  }

  predicate MayUpgrade(t: Table, peer: bytes, now: int) {
    peer !in t.routes && !(peer in t.cooldown && now - t.cooldown[peer] < REPROMOTE_BACKOFF)
  }

  /** The peers a sweep at `now` gives up on. */
  function Dead(t: Table, now: int): set<bytes> {
    if t.relay.None? then {}
    else set p | p in t.routes && now - t.routes[p].lastRx > KEEPALIVE_TIMEOUT
  }

  function DemotedAll(t: Table, peers: seq<bytes>, now: int): Table
    decreases |peers|
  {
    if peers == [] then t else Demoted(DemotedAll(t, peers[..|peers| - 1], now), peers[|peers| - 1], now)
  }

  /** The routes a sweep at `now` pings: quiet ones it does not give up on. */
  function Pinged(t: Table, now: int): set<bytes> {
    (set p | p in t.routes && now - t.routes[p].lastRx > KEEPALIVE_INTERVAL) - Dead(t, now)
  }

  // --- the code ---------------------------------------------------------------

  datatype Check = Check(peer: bytes, addr: Endpoint, token: bytes, quiet: int)

  /** One keepalive ping sent by a sweep. */
  datatype Ping = Ping(token: bytes, to: Endpoint)

  class Conn {
    var relay: Option<nat>
    var routes: map<bytes, Route>
    var byAddr: map<Endpoint, bytes>
    var viaId: set<bytes>
    var cooldown: map<bytes, int>

    function State(): Table
      reads this
    {
      Table(relay, routes, byAddr, viaId, cooldown)
    }

    constructor ()
      ensures State() == EMPTY
    {
      relay, routes, byAddr, viaId, cooldown := None, map[], map[], {}, map[];
    }

    method SetRelay(pc: Option<nat>)
      modifies this`relay
      ensures relay == pc
    {
      relay := pc;
    }

    /** The end of readRelay: a relay that has since been replaced is left alone. */
    method RelayEnded(pc: nat)
      modifies this`relay
      ensures relay == if old(relay) == Some(pc) then None else old(relay)
    {
      if relay == Some(pc) {
        relay := None;
      }
    }

    method HandleRelayed(peer: bytes) returns (from: From)
      modifies this`viaId
      ensures viaId == old(viaId) + {peer} && from == Peer(peer)
    {
      viaId := viaId + {peer};
      from := Peer(peer);
    }

    /** handleUDP for a QUIC packet. */
    method HandleUdp(src: Endpoint, now: int) returns (from: From)
      modifies this`routes
      ensures State() == Heard(old(State()), src, now) && from == Reported(old(State()), src)
    {
      if src in byAddr {
        var peer := byAddr[src];
        if peer in routes {
          routes := routes[peer := routes[peer].(lastRx := now)];
        }
        return Peer(peer);
      }
      from := Raw(src);
    }

    method WriteTo(peer: bytes) returns (r: Sent)
      modifies this`viaId
      ensures viaId == old(viaId) + {peer} && r == SentTo(old(State()), peer)
    {
      viaId := viaId + {peer};
      if peer in routes {
        return Direct(routes[peer].addr);
      }
      if relay == None {
        return NoRoute;
      }
      r := OverRelay(relay.value);
    }

    method Promote(peer: bytes, addr: Endpoint, token: bytes, now: int)
      modifies this
      ensures State() == Promoted(old(State()), peer, addr, token, now)
    {
      if peer in routes {
        byAddr := byAddr - {routes[peer].addr};
      }
      routes := routes[peer := Route(addr, token, now, now)];
      byAddr := byAddr[addr := peer];
      viaId := viaId + {peer};
    }

    method Demote(peer: bytes, now: int)
      modifies this
      ensures State() == Demoted(old(State()), peer, now)
    {
      if peer in routes {
        var addr := routes[peer].addr;
        routes := routes - {peer};
        byAddr := byAddr - {addr};
        cooldown := cooldown[peer := now];
      }
    }

    method CanUpgrade(peer: bytes, now: int) returns (ok: bool)
      ensures ok == MayUpgrade(State(), peer, now)
    {
      if peer in routes {
        return false;
      }
      if peer in cooldown && now - cooldown[peer] < REPROMOTE_BACKOFF {
        return false;
      }
      ok := true;
    }

    method Class(peer: bytes) returns (c: PathClass)
      ensures c.Validated? <==> peer in routes
      ensures peer in routes ==> c.addr == routes[peer].addr
      ensures c == Relayed <==> peer !in routes && peer in viaId
    {
      if peer in routes {
        return Validated(routes[peer].addr);
      }
      c := if peer in viaId then Relayed else NotCarried;
    }

    /** The first critical section of sweep: a snapshot in the map's own order. */
    method Snapshot(now: int) returns (haveRelay: bool, checks: seq<Check>)
      ensures haveRelay == relay.Some?
      ensures AreChecks(State(), checks, now)
      ensures forall p <- routes :: CheckOf(State(), p, now) in checks
    {
      haveRelay, checks := relay.Some?, [];
      var todo := routes.Keys;
      while todo != {}
        invariant todo <= routes.Keys
        invariant AreChecks(State(), checks, now)
        invariant forall p <- routes.Keys - todo :: CheckOf(State(), p, now) in checks
        invariant forall c <- checks :: c.peer in routes.Keys - todo
        decreases todo
      {
        var p :| p in todo;
        todo := todo - {p};
        assert forall c <- checks :: c.peer != p;
        checks := checks + [CheckOf(State(), p, now)];
      }
    }

    /** sweep, run with nothing in between its critical sections: who is dropped, and who gets one ping. */
    method Sweep(now: int) returns (ghost dropped: seq<bytes>, ghost pinged: seq<Check>, pings: seq<Ping>)
      modifies this
      ensures State() == DemotedAll(old(State()), dropped, now)
      ensures (set p | p in dropped) == Dead(old(State()), now)
      ensures (set c | c in pinged :: c.peer) == Pinged(old(State()), now)
      ensures AreChecks(old(State()), pinged, now)
      ensures PingEach(pings, pinged)
    {
      var haveRelay, checks := Snapshot(now);
      ghost var before := State();
      dropped, pinged, pings := [], [], [];
      assert haveRelay == before.relay.Some? && forall p <- before.routes :: CheckOf(before, p, now) in checks;
      NothingYet(before, checks, haveRelay, now);
      hide *;
      for i := 0 to |checks|
        invariant dropped == GivenUp(checks[..i], haveRelay) && pinged == Poked(checks[..i], haveRelay)
        invariant State() == DemotedAll(before, dropped, now)
        invariant PingEach(pings, pinged)
      {
        var ch := checks[i];
        OneMore(checks, i, haveRelay);
        if ch.quiet > KEEPALIVE_TIMEOUT && haveRelay {
          Demote(ch.peer, now);
          OneMoreDemoted(before, dropped, ch.peer, now);
          dropped := dropped + [ch.peer];
        } else if ch.quiet > KEEPALIVE_INTERVAL {
          PingOne(pings, pinged, ch);
          pings := pings + [Ping(ch.token, ch.addr)];
          pinged := pinged + [ch];
        }
      }
      assert checks[..|checks|] == checks;
      SweepMeaning(before, checks, haveRelay, now);
    }
  }

  /** One ping for each check, with its token and to its address. */
  ghost predicate PingEach(pings: seq<Ping>, checks: seq<Check>) {
    |pings| == |checks| && forall k | 0 <= k < |pings| :: pings[k] == Ping(checks[k].token, checks[k].addr)
  }

  lemma PingOne(pings: seq<Ping>, checks: seq<Check>, c: Check)
    requires PingEach(pings, checks)
    ensures PingEach(pings + [Ping(c.token, c.addr)], checks + [c])
  {}

  /** Each route's own data, no peer twice. */
  ghost predicate AreChecks(t: Table, checks: seq<Check>, now: int) {
    NoPeerTwice(checks) && forall c <- checks :: c.peer in t.routes && c == CheckOf(t, c.peer, now)
  }

  function CheckOf(t: Table, p: bytes, now: int): Check
    requires p in t.routes
  {
    Check(p, t.routes[p].addr, t.routes[p].token, now - t.routes[p].lastRx)
  }

  /** The checks that end in a demotion, and those that end in a ping. */
  ghost function GivenUp(checks: seq<Check>, haveRelay: bool): seq<bytes> {
    if checks == [] then []
    else
      var c := checks[|checks| - 1];
      GivenUp(checks[..|checks| - 1], haveRelay) + (if c.quiet > KEEPALIVE_TIMEOUT && haveRelay then [c.peer] else [])
  }

  ghost function Poked(checks: seq<Check>, haveRelay: bool): seq<Check> {
    if checks == [] then []
    else
      var c := checks[|checks| - 1];
      var ping := !(c.quiet > KEEPALIVE_TIMEOUT && haveRelay) && c.quiet > KEEPALIVE_INTERVAL;
      Poked(checks[..|checks| - 1], haveRelay) + (if ping then [c] else [])
  }

  lemma OneMore(checks: seq<Check>, i: nat, haveRelay: bool)
    requires i < |checks|
    ensures var c := checks[i]; var drop := c.quiet > KEEPALIVE_TIMEOUT && haveRelay;
      && GivenUp(checks[..i + 1], haveRelay) == GivenUp(checks[..i], haveRelay) + (if drop then [c.peer] else [])
      && Poked(checks[..i + 1], haveRelay)
         == Poked(checks[..i], haveRelay) + (if !drop && c.quiet > KEEPALIVE_INTERVAL then [c] else [])
  {
    assert checks[..i + 1][..i] == checks[..i];
  }

  lemma NothingYet(t: Table, checks: seq<Check>, haveRelay: bool, now: int)
    ensures GivenUp(checks[..0], haveRelay) == [] && Poked(checks[..0], haveRelay) == [] && DemotedAll(t, [], now) == t
    ensures PingEach([], [])
  {}

  lemma OneMoreDemoted(t: Table, peers: seq<bytes>, p: bytes, now: int)
    ensures DemotedAll(t, peers + [p], now) == Demoted(DemotedAll(t, peers, now), p, now)
  {
    assert (peers + [p])[..|peers|] == peers;
  }

  lemma {:induction false} GivenUpAre(checks: seq<Check>, haveRelay: bool, p: bytes)
    ensures p in GivenUp(checks, haveRelay)
       <==> haveRelay && exists c <- checks :: c.peer == p && c.quiet > KEEPALIVE_TIMEOUT
  {
    if checks != [] {
      var init, last := checks[..|checks| - 1], checks[|checks| - 1];
      GivenUpAre(init, haveRelay, p);
      assert checks == init + [last];
    }
  }

  lemma {:induction false} PokedAre(checks: seq<Check>, haveRelay: bool, c: Check)
    ensures c in Poked(checks, haveRelay)
       <==> c in checks && !(haveRelay && c.quiet > KEEPALIVE_TIMEOUT) && c.quiet > KEEPALIVE_INTERVAL
  {
    if checks != [] {
      var init, last := checks[..|checks| - 1], checks[|checks| - 1];
      PokedAre(init, haveRelay, c);
      assert checks == init + [last];
    }
  }

  ghost predicate NoPeerTwice(checks: seq<Check>) {
    forall i, j | 0 <= i < j < |checks| :: checks[i].peer != checks[j].peer
  }

  lemma {:induction false} PokedOnce(checks: seq<Check>, haveRelay: bool)
    requires NoPeerTwice(checks)
    ensures NoPeerTwice(Poked(checks, haveRelay))
  {
    if checks != [] {
      var init, last := checks[..|checks| - 1], checks[|checks| - 1];
      PokedOnce(init, haveRelay);
      var ps := Poked(init, haveRelay);
      forall i | 0 <= i < |ps| ensures ps[i].peer != last.peer {
        PokedAre(init, haveRelay, ps[i]);
        var k :| 0 <= k < |init| && init[k] == ps[i];
        assert checks[k] == init[k];
      }
    }
  }

  lemma SweepMeaning(t: Table, checks: seq<Check>, haveRelay: bool, now: int)
    requires haveRelay == t.relay.Some? && AreChecks(t, checks, now)
    requires forall p <- t.routes :: CheckOf(t, p, now) in checks
    ensures (set p | p in GivenUp(checks, haveRelay)) == Dead(t, now)
    ensures (set c | c in Poked(checks, haveRelay) :: c.peer) == Pinged(t, now)
    ensures AreChecks(t, Poked(checks, haveRelay), now)
  {
    hide GivenUp;
    hide Poked;
    forall p ensures p in GivenUp(checks, haveRelay) <==> p in Dead(t, now) {
      GivenUpAre(checks, haveRelay, p);
      if p in t.routes { assert CheckOf(t, p, now) in checks; }
    }
    PokedOnce(checks, haveRelay);
    forall c <- Poked(checks, haveRelay) ensures c in checks && c.peer in Pinged(t, now) {
      PokedAre(checks, haveRelay, c);
    }
    forall p <- Pinged(t, now) ensures exists c :: c in Poked(checks, haveRelay) && c.peer == p {
      PokedAre(checks, haveRelay, CheckOf(t, p, now));
    }
  }

  // --- runs -------------------------------------------------------------------

  datatype Event =
    | PromoteEv(now: int, peer: bytes, addr: Endpoint, token: bytes)
    | DemoteEv(now: int, peer: bytes)
    | RelayEv(now: int, relay: Option<nat>)
    | UdpEv(now: int, src: Endpoint)    // a QUIC packet or a punch probe: both refresh the route of their source
    | CarryEv(now: int, peer: bytes)     // a relayed packet in, or a packet written to a peer
    | SweepEv(now: int, order: seq<bytes>)

  function Step(t: Table, e: Event): Table {
    match e
    case PromoteEv(now, peer, addr, token) => Promoted(t, peer, addr, token, now)
    case DemoteEv(now, peer) => Demoted(t, peer, now)
    case RelayEv(_, relay) => t.(relay := relay)
    case UdpEv(now, src) => Heard(t, src, now)
    case CarryEv(_, peer) => t.(viaId := t.viaId + {peer})
    case SweepEv(now, order) => DemotedAll(t, order, now)
  }

  function After(t: Table, es: seq<Event>): Table {
    if es == [] then t else Step(After(t, es[..|es| - 1]), es[|es| - 1])
  }

  /** A sweep drops exactly the peers it gave up on, in some order. */
  ghost predicate Faithful(t: Table, e: Event) { e.SweepEv? ==> (set p | p in e.order) == Dead(t, e.now) }

  /** The index never names a peer that is routed elsewhere. */
  ghost predicate IndexSound(t: Table) {
    forall a <- t.byAddr :: t.byAddr[a] in t.routes && t.routes[t.byAddr[a]].addr == a
  }

  ghost predicate Inverse(t: Table) {
    IndexSound(t) && forall p <- t.routes :: t.routes[p].addr in t.byAddr && t.byAddr[t.routes[p].addr] == p
  }

  lemma {:induction false} DemotedAllKeepsIndex(t: Table, peers: seq<bytes>, now: int)
    requires IndexSound(t)
    ensures IndexSound(DemotedAll(t, peers, now))
    ensures Inverse(t) ==> Inverse(DemotedAll(t, peers, now))
    decreases |peers|
  {
    if peers != [] { DemotedAllKeepsIndex(t, peers[..|peers| - 1], now); }
  }

  lemma StepKeepsIndex(t: Table, e: Event)
    requires IndexSound(t)
    ensures IndexSound(Step(t, e))
  {
    if e.SweepEv? { DemotedAllKeepsIndex(t, e.order, e.now); }
  }

  /** byAddr[a] == p always implies routes[p].addr == a, whatever is promoted where. */
  lemma {:induction false} IndexAlwaysSound(es: seq<Event>)
    ensures IndexSound(After(EMPTY, es))
  {
    if es != [] {
      var init, e := es[..|es| - 1], es[|es| - 1];
      IndexAlwaysSound(init);
      StepKeepsIndex(After(EMPTY, init), e);
    }
  }

  /** Whether a promotion would put a second peer on an address; Direct tells a caller. */
  ghost predicate Shares(t: Table, e: Event) {
    e.PromoteEv? && exists q <- t.routes :: q != e.peer && t.routes[q].addr == e.addr
  }

  /** The two maps stay exact inverses across a step iff it does not promote an address another peer holds. */
  lemma InverseKeptIffUnshared(t: Table, e: Event)
    requires Inverse(t)
    ensures Inverse(Step(t, e)) <==> !Shares(t, e)
  {
    match e {
      case SweepEv(now, order) => DemotedAllKeepsIndex(t, order, now);
      case PromoteEv(now, peer, addr, token) =>
        var u := Step(t, e);
        if Shares(t, e) {
          var q :| q in t.routes && q != peer && t.routes[q].addr == addr;
          assert q in u.routes && u.byAddr[addr] == peer;
        }
      case _ =>
    }
  }

  ghost predicate NeverShares(t: Table, es: seq<Event>) {
    forall i | 0 <= i < |es| :: !Shares(After(t, es[..i]), es[i])
  }

  lemma {:induction false} InverseAlways(es: seq<Event>)
    requires NeverShares(EMPTY, es)
    ensures Inverse(After(EMPTY, es))
  {
    if es != [] {
      var init := es[..|es| - 1];
      assert forall i | 0 <= i < |init| :: init[..i] == es[..i];
      InverseAlways(init);
      InverseKeptIffUnshared(After(EMPTY, init), es[|es| - 1]);
    }
  }

  /** How a packet of some peer arrives. */
  datatype Arrival = ByRelay(peer: bytes) | ByUdp(src: Endpoint)

  function AttributedTo(t: Table, a: Arrival): From {
    match a case ByRelay(p) => Peer(p) case ByUdp(src) => Reported(t, src)
  }

  ghost predicate Carries(t: Table, a: Arrival, peer: bytes) {
    a == ByRelay(peer) || (peer in t.routes && a == ByUdp(t.routes[peer].addr))
  }

  /**
   At every point of every run of promotions, demotions, relay changes and sweeps
   that puts no two peers on one address, a peer's packets are reported under its
   one stable address, by relay or by its promoted address; nothing else is; and
   a reply written to that address goes back the way it came.
   */
  lemma StableAddress(es: seq<Event>, a: Arrival, peer: bytes)
    requires NeverShares(EMPTY, es)
    ensures var t := After(EMPTY, es);
      && (AttributedTo(t, a) == Peer(peer) <==> Carries(t, a, peer))
      && (peer in t.routes ==> SentTo(t, peer) == Direct(t.routes[peer].addr))
      && (peer in t.routes ==> AttributedTo(t, ByUdp(SentTo(t, peer).to)) == Peer(peer))
      && (SentTo(t, peer).NoRoute? <==> peer !in t.routes && t.relay.None?)
  {
    InverseAlways(es);
  }

  /** Sharing an address breaks attribution: the first peer's own packets are then reported as the second's. */
  lemma SharedAddressMisattributes(p: bytes, q: bytes, a: Endpoint, token: bytes)
    requires p != q
    ensures var t := After(EMPTY, [PromoteEv(0, p, a, token), PromoteEv(0, q, a, token)]);
      p in t.routes && t.routes[p].addr == a && AttributedTo(t, ByUdp(a)) == Peer(q)
  {
    var e, f := PromoteEv(0, p, a, token), PromoteEv(0, q, a, token);
    assert [e, f][..1] == [e] && [e][..0] == [];
    assert After(EMPTY, [e]) == Step(EMPTY, e);
  }

  // --- sweeping ---------------------------------------------------------------

  ghost predicate Ordered(es: seq<Event>) {
    forall i, j | 0 <= i < j < |es| :: es[i].now <= es[j].now
  }

  ghost predicate Aged(t: Table, now: int) {
    forall p <- t.routes :: t.routes[p].since <= t.routes[p].lastRx <= now
  }

  lemma {:induction false} DemotedAllDrops(t: Table, peers: seq<bytes>, now: int)
    ensures DemotedAll(t, peers, now).routes == t.routes - (set p | p in peers)
    ensures DemotedAll(t, peers, now).relay == t.relay
    decreases |peers|
  {
    if peers != [] {
      DemotedAllDrops(t, peers[..|peers| - 1], now);
      assert peers == peers[..|peers| - 1] + [peers[|peers| - 1]];
    }
  }

  lemma {:induction false} RoutesAge(es: seq<Event>, now: int)
    requires Ordered(es) && (es != [] ==> es[|es| - 1].now <= now)
    ensures Aged(After(EMPTY, es), now)
  {
    if es != [] {
      var init, e := es[..|es| - 1], es[|es| - 1];
      assert init != [] ==> init[|init| - 1].now <= e.now;
      RoutesAge(init, e.now);
      if e.SweepEv? { DemotedAllDrops(After(EMPTY, init), e.order, e.now); }
    }
  }

  /**
   A route a sweep drops had been silent, and so had lived, for more than 45 seconds, and a relay was there to
   take over.
   */
  lemma SweepDropsOnlyDeadRoutes(es: seq<Event>, e: Event, peer: bytes)
    requires e.SweepEv? && Ordered(es + [e]) && Faithful(After(EMPTY, es), e)
    requires peer in After(EMPTY, es).routes && peer !in After(EMPTY, es + [e]).routes
    ensures var t := After(EMPTY, es);
      && t.relay.Some? && e.now - t.routes[peer].lastRx > KEEPALIVE_TIMEOUT &&
          e.now - t.routes[peer].since > KEEPALIVE_TIMEOUT
      && SentTo(After(EMPTY, es + [e]), peer) == OverRelay(t.relay.value)
  {
    var all := es + [e];
    assert all[..|es|] == es;
    assert Ordered(es) by {
      forall i, j | 0 <= i < j < |es| ensures es[i].now <= es[j].now { assert all[i].now <= all[j].now; }
    }
    if es != [] { assert all[|es| - 1].now <= all[|es|].now; }
    RoutesAge(es, e.now);
    DemotedAllDrops(After(EMPTY, es), e.order, e.now);
    assert peer in Dead(After(EMPTY, es), e.now);
  }

  /** `peer` is neither promoted afresh nor demoted, except by a sweep that gives up on it. */
  predicate LeftAlone(peer: bytes, e: Event) {
    !(e.PromoteEv? && e.peer == peer) && !(e.DemoteEv? && e.peer == peer)
  }

  ghost predicate AllFaithful(t: Table, es: seq<Event>) {
    forall i | 0 <= i < |es| :: Faithful(After(t, es[..i]), es[i])
  }

  /**
   A packet from a peer's promoted address keeps its route, through any run of sweeps, for the 45 seconds that
   follow.
   */
  lemma {:induction false} HeardRouteSurvives(t: Table, peer: bytes, heard: int, es: seq<Event>)
    requires Inverse(t) && peer in t.routes
    requires var u := Heard(t, t.routes[peer].addr, heard); AllFaithful(u, es)
    requires forall e <- es :: LeftAlone(peer, e) && heard <= e.now <= heard + KEEPALIVE_TIMEOUT
    ensures var u := After(Heard(t, t.routes[peer].addr, heard), es);
      peer in u.routes && u.routes[peer].addr == t.routes[peer].addr && heard <= u.routes[peer].lastRx
  {
    if es != [] {
      var init, e := es[..|es| - 1], es[|es| - 1];
      var u := Heard(t, t.routes[peer].addr, heard);
      FaithfulInit(u, es);
      HeardRouteSurvives(t, peer, heard, init);
      var v := After(u, init);
      if e.SweepEv? {
        DemotedAllDrops(v, e.order, e.now);
        assert peer !in Dead(v, e.now);
        assert peer !in e.order;
      }
    }
  }

  lemma FaithfulInit(t: Table, es: seq<Event>)
    requires es != [] && AllFaithful(t, es)
    ensures AllFaithful(t, es[..|es| - 1]) && Faithful(After(t, es[..|es| - 1]), es[|es| - 1])
  {
    var init := es[..|es| - 1];
    assert forall i | 0 <= i < |init| :: init[..i] == es[..i] && init[i] == es[i];
  }

  // --- a pass in two critical sections ------------------------------------------

  /** `e` renews `peer`'s route: a promotion of it, or a packet from the address the index gives it. */
  predicate Renews(t: Table, e: Event, peer: bytes) {
    (e.PromoteEv? && e.peer == peer) || (e.UdpEv? && e.src in t.byAddr && t.byAddr[e.src] == peer)
  }

  predicate Renewed(t: Table, es: seq<Event>, peer: bytes) {
    es != [] && (Renewed(t, es[..|es| - 1], peer) || Renews(After(t, es[..|es| - 1]), es[|es| - 1], peer))
  }

  predicate Repromoted(es: seq<Event>, peer: bytes) { exists e <- es :: e.PromoteEv? && e.peer == peer }

  /** The relay in force after `es`: what the last change of it set. */
  function RelayAfter(relay: Option<nat>, es: seq<Event>): Option<nat> {
    if es == [] then relay
    else if es[|es| - 1].RelayEv? then es[|es| - 1].relay
    else RelayAfter(relay, es[..|es| - 1])
  }

  /** One step between the snapshot and the demotion, as it bears on the route seen dead. */
  lemma StepUnderSweep(t: Table, e: Event, peer: bytes)
    requires IndexSound(t)
    ensures var u := Step(t, e);
      peer in u.routes ==>
        && (Renews(t, e, peer) ==> u.routes[peer].lastRx == e.now)
        && (!Renews(t, e, peer) ==> peer in t.routes && u.routes[peer] == t.routes[peer])
        && (!(e.PromoteEv? && e.peer == peer) ==> peer in t.routes && u.routes[peer].since == t.routes[peer].since)
        && (e.PromoteEv? && e.peer == peer ==> u.routes[peer].since == e.now)
    ensures Step(t, e).relay == if e.RelayEv? then e.relay else t.relay
  {
    if e.SweepEv? { DemotedAllDrops(t, e.order, e.now); }
  }

  lemma {:induction false} RunUnderSweep(t: Table, between: seq<Event>, peer: bytes, snap: int)
    requires IndexSound(t) && peer in t.routes && forall e <- between :: snap <= e.now
    ensures var u := After(t, between);
      && IndexSound(u) && u.relay == RelayAfter(t.relay, between)
      && (peer in u.routes ==>
            && (if Renewed(t, between, peer) then snap <= u.routes[peer].lastRx else u.routes[peer] == t.routes[peer])
            && (if Repromoted(between, peer) then snap <= u.routes[peer].since
                else u.routes[peer].since == t.routes[peer].since))
  {
    if between != [] {
      var init, e := between[..|between| - 1], between[|between| - 1];
      RunUnderSweep(t, init, peer, snap);
      StepUnderSweep(After(t, init), e, peer);
      StepKeepsIndex(After(t, init), e);
      assert forall x :: x in between <==> x in init || x == e;
      hide Step;
      hide IndexSound;
    }
  }

  /**
   sweep as it is: a snapshot at `snap` finds `peer` dead, then any events (other demotions of the
   same pass among them), then the demotion. The route dropped is the one that was seen dead, and is
   still silent for more than 45 seconds, iff nothing in between promoted the peer or was heard from
   the address the index gave it; and its packets go to a relay iff one is set at that point.
   */
  lemma SplitSweepIsRightIff(t: Table, between: seq<Event>, peer: bytes, snap: int, now: int)
    requires IndexSound(t) && peer in Dead(t, snap) && (forall e <- between :: snap <= e.now)
    requires peer in After(t, between).routes
    ensures var u := After(t, between);
      && (u.routes[peer] == t.routes[peer] <==> !Renewed(t, between, peer))
      && (snap - u.routes[peer].lastRx > KEEPALIVE_TIMEOUT <==> !Renewed(t, between, peer))
      && peer !in Demoted(u, peer, now).routes
      && (SentTo(Demoted(u, peer, now), peer).OverRelay? <==> RelayAfter(t.relay, between).Some?)
  {
    RunUnderSweep(t, between, peer, snap);
    hide Renewed;
    hide RelayAfter;
  }

  /**
   The promise about swept routes, exactly: in a pass of at most 45 seconds, what is dropped had lived
   for more than 45 seconds, and something takes over, iff in between the peer was not promoted and
   the relay was not lost.
   */
  lemma SweptRouteWasOldIff(es: seq<Event>, between: seq<Event>, peer: bytes, snap: int, now: int)
    requires Ordered(es) && (es != [] ==> es[|es| - 1].now <= snap)
    requires var t := After(EMPTY, es); peer in Dead(t, snap) && peer in After(t, between).routes
    requires (forall e <- between :: snap <= e.now) && snap <= now <= snap + KEEPALIVE_TIMEOUT
    ensures var t := After(EMPTY, es); var u := After(t, between);
      (now - u.routes[peer].since > KEEPALIVE_TIMEOUT && SentTo(Demoted(u, peer, now), peer).OverRelay?)
      <==> !Repromoted(between, peer) && RelayAfter(t.relay, between).Some?
  {
    IndexAlwaysSound(es);
    RoutesAge(es, snap);
    RunUnderSweep(After(EMPTY, es), between, peer, snap);
    hide RelayAfter;
    hide Renewed;
  }

  /**
   Taking the pass as one step is needed. sweep reads and demotes in separate
   critical sections, and a promotion in between is undone at once: the route
   dropped is not the route that was seen to be dead.
   */
  lemma SplitSweepDropsFreshRoute(peer: bytes, older: Endpoint, newer: Endpoint, token: bytes)
    ensures var now := 46 * SECOND;
      var seen := After(EMPTY, [RelayEv(0, Some(1)), PromoteEv(0, peer, older, token)]);
      var raced := Promoted(seen, peer, newer, token, now);
      && peer in Dead(seen, now) && raced.routes[peer].since == now && peer !in Dead(raced, now)
      && peer !in DemotedAll(raced, [peer], now).routes
  {
    var e, f := RelayEv(0, Some(1)), PromoteEv(0, peer, older, token);
    assert [e, f][..1] == [e] && [e][..0] == [];
    var seen := After(EMPTY, [e, f]);
    assert After(EMPTY, [e]) == Step(EMPTY, e);
    assert seen == Step(Step(EMPTY, e), f);
    var raced := Promoted(seen, peer, newer, token, 46 * SECOND);
    assert [peer][..0] == [];
    assert DemotedAll(raced, [], 46 * SECOND) == raced;
    assert DemotedAll(raced, [peer], 46 * SECOND) == Demoted(raced, peer, 46 * SECOND);
  }

  // --- hysteresis -------------------------------------------------------------

  lemma {:induction false} DemotedAllCools(t: Table, peers: seq<bytes>, now: int, peer: bytes, since: int)
    requires peer in t.cooldown && since <= t.cooldown[peer] && since <= now
    ensures var u := DemotedAll(t, peers, now); peer in u.cooldown && since <= u.cooldown[peer]
    decreases |peers|
  {
    if peers != [] { DemotedAllCools(t, peers[..|peers| - 1], now, peer, since); }
  }

  lemma {:induction false} CoolingPersists(t: Table, peer: bytes, since: int, es: seq<Event>)
    requires peer in t.cooldown && since <= t.cooldown[peer] && forall e <- es :: since <= e.now
    ensures var u := After(t, es); peer in u.cooldown && since <= u.cooldown[peer]
  {
    if es != [] {
      var e := es[|es| - 1];
      CoolingPersists(t, peer, since, es[..|es| - 1]);
      if e.SweepEv? { DemotedAllCools(After(t, es[..|es| - 1]), e.order, e.now, peer, since); }
    }
  }

  /** For 30 seconds after a route is abandoned its peer may not be punched towards again, whatever else happens. */
  lemma NoEarlyUpgrade(t: Table, peer: bytes, at: int, es: seq<Event>, now: int)
    requires peer in t.routes && (forall e <- es :: at <= e.now) && now < at + REPROMOTE_BACKOFF
    ensures !MayUpgrade(After(Demoted(t, peer, at), es), peer, now)
  {
    CoolingPersists(Demoted(t, peer, at), peer, at, es);
  }

  // --- keepalives -----------------------------------------------------------------

  /** How far a keepalive of one peer has come: the last sweep, and the time of a ping not answered yet. */
  datatype Watch = Watch(lastSweep: int, owed: Option<int>)

  function Watched(w: Watch, t: Table, e: Event, peer: bytes): Watch {
    if Renews(t, e, peer) then w.(owed := None)
    else if e.SweepEv? then Watch(e.now, if w.owed.None? && peer in Pinged(t, e.now) then Some(e.now) else w.owed)
    else w
  }

  /**
   A peer that is there: sweeps come at most `gap` apart, and its answer to a ping, or any other
   packet of it, arrives within `reply` of the ping. Nothing else happens to its route or its address.
   */
  ghost predicate Attentive(w: Watch, t: Table, es: seq<Event>, peer: bytes, gap: int, reply: int)
    decreases |es|
  {
    es == [] ||
    var e := es[0];
    && w.lastSweep <= e.now && (e.SweepEv? ==> e.now - w.lastSweep <= gap) &&
        (w.owed.Some? ==> e.now - w.owed.value <= reply)
    && Faithful(t, e) && LeftAlone(peer, e)
    && Attentive(Watched(w, t, e, peer), Step(t, e), es[1..], peer, gap, reply)
  }

  /** Between sweeps the route is at most 15 seconds and one gap old, or a ping sent by then is outstanding. */
  ghost predicate OnTime(w: Watch, t: Table, peer: bytes, gap: int) {
    && peer in t.routes && IndexSound(t)
    && (w.owed.None? ==> w.lastSweep - t.routes[peer].lastRx <= KEEPALIVE_INTERVAL)
    && (w.owed.Some? ==> w.owed.value - t.routes[peer].lastRx <= KEEPALIVE_INTERVAL + gap)
  }

  lemma StepOnTime(w: Watch, t: Table, e: Event, peer: bytes, gap: int, reply: int)
    requires gap >= 0 && reply >= 0 && KEEPALIVE_INTERVAL + gap + reply <= KEEPALIVE_TIMEOUT && OnTime(w, t, peer, gap)
    requires w.lastSweep <= e.now && (e.SweepEv? ==> e.now - w.lastSweep <= gap)
    requires w.owed.Some? ==> e.now - w.owed.value <= reply
    requires Faithful(t, e) && LeftAlone(peer, e)
    ensures OnTime(Watched(w, t, e, peer), Step(t, e), peer, gap) && Step(t, e).routes[peer].addr == t.routes[peer].addr
  {
    StepKeepsIndex(t, e);
    if e.SweepEv? {
      DemotedAllDrops(t, e.order, e.now);
      assert peer !in Dead(t, e.now);
      assert peer !in e.order;
    }
  }

  /** Pings, answers and refreshes together keep an idle route: a live peer is never swept. */
  lemma {:induction false} LiveIdleRouteIsKept(w: Watch, t: Table, es: seq<Event>, peer: bytes, gap: int, reply: int)
    requires gap >= 0 && reply >= 0 && KEEPALIVE_INTERVAL + gap + reply <= KEEPALIVE_TIMEOUT && OnTime(w, t, peer, gap)
    requires Attentive(w, t, es, peer, gap, reply)
    ensures peer in After(t, es).routes && After(t, es).routes[peer].addr == t.routes[peer].addr
    decreases |es|
  {
    if es != [] {
      StepOnTime(w, t, es[0], peer, gap, reply);
      LiveIdleRouteIsKept(Watched(w, t, es[0], peer), Step(t, es[0]), es[1..], peer, gap, reply);
      AfterHead(t, es);
      hide Step;
      hide After;
    }
  }

  lemma {:induction false} AfterHead(t: Table, es: seq<Event>)
    requires es != []
    ensures After(t, es) == After(Step(t, es[0]), es[1..])
  {
    hide Step;
    var init := es[..|es| - 1];
    if init == [] {
      assert After(t, init) == t;
    } else {
      AfterHead(t, init);
      assert es[1..][..|es| - 2] == init[1..];
    }
  }

  // --- what a run leaves behind -----------------------------------------------------

  /** By the events alone: the last promotion of `p` that nothing has undone, and when it was last heard from. */
  function Heritage(es: seq<Event>, p: bytes): Option<Route> {
    if es == [] then None
    else
      var init, e := es[..|es| - 1], es[|es| - 1];
      var before := Heritage(init, p);
      match e
      case PromoteEv(now, peer, addr, token) => if peer == p then Some(Route(addr, token, now, now)) else before
      case DemoteEv(_, peer) => if peer == p then None else before
      case SweepEv(_, order) => if p in order then None else before
      case UdpEv(now, src) =>
        var t := After(EMPTY, init);
        if before.Some? && src in t.byAddr && t.byAddr[src] == p then Some(before.value.(lastRx := now)) else before
      case _ => before
  }

  /** When `p` last lost a route. */
  function LastDrop(es: seq<Event>, p: bytes): Option<int> {
    if es == [] then None
    else
      var init, e := es[..|es| - 1], es[|es| - 1];
      if Heritage(init, p).Some? && ((e.DemoteEv? && e.peer == p) || (e.SweepEv? && p in e.order)) then Some(e.now)
      else LastDrop(init, p)
  }

  /** `p` was promoted, relayed from or written to. */
  predicate Carried(es: seq<Event>, p: bytes) {
    exists k :: 0 <= k < |es| && (es[k].PromoteEv? || es[k].CarryEv?) && es[k].peer == p
  }

  lemma CarriedSnoc(es: seq<Event>, p: bytes)
    requires es != []
    ensures var e := es[|es| - 1];
      Carried(es, p) <==> Carried(es[..|es| - 1], p) || ((e.PromoteEv? || e.CarryEv?) && e.peer == p)
  {
    var init := es[..|es| - 1];
    if Carried(init, p) {
      var k :| 0 <= k < |init| && (init[k].PromoteEv? || init[k].CarryEv?) && init[k].peer == p;
      assert es[k] == init[k];
    }
    if Carried(es, p) {
      var k :| 0 <= k < |es| && (es[k].PromoteEv? || es[k].CarryEv?) && es[k].peer == p;
      assert k < |init| ==> init[k] == es[k];
    }
  }

  function RouteOf(t: Table, p: bytes): Option<Route> { if p in t.routes then Some(t.routes[p]) else None }

  lemma {:induction false} DemotedAllMarks(t: Table, peers: seq<bytes>, now: int, p: bytes)
    ensures var u := DemotedAll(t, peers, now);
      && (p in u.cooldown <==> p in t.cooldown || (p in t.routes && p in peers))
      && (p in u.cooldown ==> u.cooldown[p] == if p in t.routes && p in peers then now else t.cooldown[p])
      && u.viaId == t.viaId
    decreases |peers|
  {
    if peers != [] {
      var init, last := peers[..|peers| - 1], peers[|peers| - 1];
      DemotedAllMarks(t, init, now, p);
      DemotedAllDrops(t, init, now);
      assert peers == init + [last];
    }
  }

  /**
   Over every run: a peer has the route of its last promotion that was neither demoted nor swept, with
   that address and that token; it may be upgraded iff it has none and lost none in the last 30
   seconds; and it counts as carried iff it was ever promoted, relayed from or written to.
   */
  lemma {:induction false} RoutesFollowHistory(es: seq<Event>, p: bytes, now: int)
    ensures var t := After(EMPTY, es);
      && RouteOf(t, p) == Heritage(es, p)
      && (p in t.cooldown <==> LastDrop(es, p).Some?) && (p in t.cooldown ==> Some(t.cooldown[p]) == LastDrop(es, p))
      && (MayUpgrade(t, p, now) <==>
            Heritage(es, p).None? && (LastDrop(es, p).None? || now - LastDrop(es, p).value >= 30_000_000_000))
      && (p in t.viaId <==> Carried(es, p))
  {
    if es != [] {
      var init, e := es[..|es| - 1], es[|es| - 1];
      RoutesFollowHistory(init, p, now);
      var t := After(EMPTY, init);
      IndexAlwaysSound(init);
      if e.SweepEv? {
        DemotedAllDrops(t, e.order, e.now);
        DemotedAllMarks(t, e.order, e.now, p);
      }
      CarriedSnoc(es, p);
      hide Carried;
      hide IndexSound;
    } else {
      assert !Carried([], p);
    }
  }

  /** The pings of a sweep go to the address, and carry the token, of the peer's last promotion. */
  lemma PingsCarryLastPromotion(es: seq<Event>, checks: seq<Check>, now: int)
    requires AreChecks(After(EMPTY, es), checks, now)
    ensures forall c <- checks ::
      && Heritage(es, c.peer).Some?
      && c.addr == Heritage(es, c.peer).value.addr && c.token == Heritage(es, c.peer).value.token
  {
    forall c <- checks
      ensures Heritage(es, c.peer).Some?
      ensures c.addr == Heritage(es, c.peer).value.addr && c.token == Heritage(es, c.peer).value.token
    {
      RoutesFollowHistory(es, c.peer, now);
    }
  }

  /**
   A sweep gives up on a route silent for over 45 seconds if a relay stands by, and pings every other silent for
   over 15.
   */
  lemma SweepFollowsHistory(es: seq<Event>, p: bytes, now: int)
    ensures var t, h := After(EMPTY, es), Heritage(es, p);
      && (p in Dead(t, now) <==> t.relay.Some? && h.Some? && now - h.value.lastRx > 45_000_000_000)
      && (p in Pinged(t, now) <==>
            h.Some? && now - h.value.lastRx > 15_000_000_000
            && !(t.relay.Some? && now - h.value.lastRx > 45_000_000_000))
  {
    RoutesFollowHistory(es, p, now);
    hide Heritage;
    hide After;
    hide MayUpgrade;
    hide LastDrop;
    hide Carried;
  }
}
