/**
 Hole punching (internal/path/punch.go and probe.go): the probe codec, one
 attempt's state, and the two-endpoint protocol over a network that may lose,
 duplicate, reorder, reflect and re-address packets.
 */
module Punch {
  import opened Bytes
  import Stun

  const TOKEN_LEN: nat := 16
  const PROBE_SIZE: nat := 4 + 1 + TOKEN_LEN + DEVICE_ID_LEN
  const MAGIC: bytes := [0] + Ascii("OAP")
  const MAX_START_SKEW: int := 2_000_000_000

  datatype Kind = Ping | Pong

  datatype Probe = Probe(kind: Kind, token: bytes, sender: bytes)

  function KindByte(k: Kind): byte { if k.Ping? then 1 else 2 }

  function EncodeProbe(p: Probe): Option<bytes> {
    if |p.token| != TOKEN_LEN || |p.sender| != DEVICE_ID_LEN then None
    else Some(MAGIC + [KindByte(p.kind)] + p.token + p.sender)
  }

  function DecodeProbe(b: bytes): Option<Probe> {
    if |b| != PROBE_SIZE || b[..4] != MAGIC || (b[4] != 1 && b[4] != 2) || !ValidDeviceId(b[21..]) then None
    else Some(Probe(if b[4] == 1 then Ping else Pong, b[5..21], b[21..]))
  }

  predicate IsQuic(b: bytes) { |b| > 0 && (b[0] / 0x40) % 2 == 1 }

  /** A probe on the wire, octet by octet. */
  lemma ProbeLayout(p: Probe)
    ensures EncodeProbe(p).Some? <==> |p.token| == 16 && |p.sender| == 16
    ensures EncodeProbe(p).Some? ==>
      var b := EncodeProbe(p).value;
      && |b| == 37 && b[..4] == [0, 79, 65, 80] && b[4] == (if p.kind.Ping? then 1 else 2)
      && b[5..21] == p.token && b[21..] == p.sender
  {
    assert MAGIC == [0, 79, 65, 80];
  }

  /** Which packets are probes. */
  lemma ProbeRecognised(b: bytes)
    ensures DecodeProbe(b).Some? <==>
        |b| == 37 && b[..4] == [0, 79, 65, 80] && 1 <= b[4] <= 2 && ValidDeviceId(b[21..])
  {
    assert MAGIC == [0, 79, 65, 80];
  }

  lemma ProbeRoundTrip(p: Probe)
    requires EncodeProbe(p).Some? && ValidDeviceId(p.sender)
    ensures DecodeProbe(EncodeProbe(p).value) == Some(p)
  {
    var b := EncodeProbe(p).value;
    assert b[..4] == MAGIC && b[5..21] == p.token && b[21..] == p.sender;
  }

  lemma DecodedProbeEncodes(b: bytes)
    requires DecodeProbe(b).Some?
    ensures EncodeProbe(DecodeProbe(b).value) == Some(b)
  {
    assert b == b[..4] + [b[4]] + b[5..21] + b[21..];
  }

  lemma CookieByte(b: bytes)
    requires Stun.IsStun(b)
    ensures b[4] == 0x21
  {
    FromBERoundTrip(b[4..8]);
    assert BE(0x2112A442, 4) == BE(0x2112A4, 3) + [0x42];
    assert BE(0x2112A4, 3) == BE(0x2112, 2) + [0xA4];
    assert BE(0x2112, 2) == BE(0x21, 1) + [0x12];
    assert BE(0x21, 1) == BE(0, 0) + [0x21];
    assert b[4..8][0] == 0x21;
  }

  /** The shared socket's demultiplexing is unambiguous: QUIC, STUN and probe packets exclude one another. */
  lemma DemuxIsUnambiguous(b: bytes)
    ensures DecodeProbe(b).Some? ==> !IsQuic(b) && !Stun.IsStun(b)
    ensures Stun.IsStun(b) ==> !IsQuic(b)
  {
    if Stun.IsStun(b) {
      CookieByte(b);
    }
    if DecodeProbe(b).Some? {
      assert b[0] == b[..4][0];
    }
  }

  /** SprayDelay: a peer's start time is a short "not before" hint and nothing more. */
  function SprayDelay(startAt: Option<int>, now: int): (d: int)
    ensures 0 <= d <= 2_000_000_000
    ensures d > 0 <==> startAt.Some? && now < startAt.value <= now + 2_000_000_000
    ensures d > 0 ==> now + d == startAt.value
  {
    if startAt.None? then 0
    else if startAt.value - now <= 0 || startAt.value - now > MAX_START_SKEW then 0
    else startAt.value - now
  }

  // --- one attempt ------------------------------------------------------------

  /** punchState: `result` is what sits in the one-slot channel, `published` how often it was sent to. */
  datatype Attempt = Attempt(peer: bytes, candidates: set<Endpoint>, done: bool, result: seq<Endpoint>, published: nat)

  function Finished(a: Attempt, ap: Endpoint): Attempt {
    if a.done then a else a.(done := true, result := a.result + [ap], published := a.published + 1)
  }

  function Added(a: Attempt, ap: Endpoint): Attempt { a.(candidates := a.candidates + {ap}) }

  /** The channel has room whenever finish would send, and is sent to at most once. */
  ghost predicate OneResult(a: Attempt) {
    |a.result| <= a.published <= 1 && (a.done <==> a.published == 1)
  }

  /** The parts of Conn that handleProbe reads and writes; `lastRx` is that field of each routed peer. */
  datatype Node = Node(id: bytes, attempts: map<bytes, Attempt>, byAddr: map<Endpoint, bytes>, lastRx: map<bytes, int>)

  predicate InPunch(n: Node, p: Probe) { p.token in n.attempts && n.attempts[p.token].peer == p.sender }

  predicate OnRoute(n: Node, p: Probe, src: Endpoint) { src in n.byAddr && n.byAddr[src] == p.sender }

  /** Any probe from a routed address counts as traffic of that route. */
  function Refreshed(n: Node, src: Endpoint, now: int): Node {
    if src in n.byAddr && n.byAddr[src] in n.lastRx then n.(lastRx := n.lastRx[n.byAddr[src] := now]) else n
  }

  /** What the probe does to the attempts, and the pong to send back to `src`, if any. */
  function Answered(n: Node, p: Probe, src: Endpoint): (map<bytes, Attempt>, Option<Probe>) {
    match p.kind
    case Ping =>
      if !InPunch(n, p) && !OnRoute(n, p, src) then (n.attempts, None)
      else (if InPunch(n, p) then n.attempts[p.token := Added(n.attempts[p.token], src)] else n.attempts,
            Some(Probe(Pong, p.token, n.id)))
    case Pong =>
      (if InPunch(n, p) then n.attempts[p.token := Finished(n.attempts[p.token], src)] else n.attempts, None)
  }

  /** handleProbe: the new state and the reply. */
  function Handle(n: Node, p: Probe, src: Endpoint, now: int): (Node, Option<Probe>) {
    (Refreshed(n, src, now).(attempts := Answered(n, p, src).0), Answered(n, p, src).1)
  }

  /**
   A keepalive ping to a routed peer, attempt or no attempt: if it arrives from an address the peer routes
   to its sender it is answered, and the answer, arriving from the routed address, refreshes the route.
   */
  lemma KeepaliveIsAnswered(me: Node, peer: Node, token: bytes, src: Endpoint, back: Endpoint, now: int, later: int)
    requires src in peer.byAddr && peer.byAddr[src] == me.id
    requires back in me.byAddr && me.byAddr[back] == peer.id && peer.id in me.lastRx
    ensures var (_, reply) := Handle(peer, Probe(Ping, token, me.id), src, now);
      reply.Some? && Handle(me, reply.value, back, later).0.lastRx == me.lastRx[peer.id := later]
  {}

  /** A ping the device may answer: of the attempt under its token, or of the peer routed to where it came from. */
  predicate Answerable(n: Node, p: Probe, src: Endpoint) {
    p.kind == Ping &&
    ((p.token in n.attempts && n.attempts[p.token].peer == p.sender) || (src in n.byAddr && n.byAddr[src] == p.sender))
  }

  /** Who is answered, and with what: the socket is no reflector. */
  lemma AnsweredIff(n: Node, p: Probe, src: Endpoint, now: int)
    ensures Handle(n, p, src, now).1 == if Answerable(n, p, src) then Some(Probe(Pong, p.token, n.id)) else None
  {}

  /**
   All that a probe changes: candidates on a ping of the attempt's peer, its one result on the first pong, the
   silence of the route it came by.
   */
  lemma HandledState(n: Node, p: Probe, src: Endpoint, now: int, t: bytes, q: bytes)
    ensures var u := Handle(n, p, src, now).0;
      && u.id == n.id && u.byAddr == n.byAddr && u.attempts.Keys == n.attempts.Keys && u.lastRx.Keys == n.lastRx.Keys
      && (t in n.attempts ==>
            var a, mine := n.attempts[t], t == p.token && n.attempts[t].peer == p.sender;
            && u.attempts[t].peer == a.peer
            && u.attempts[t].candidates == (if mine && p.kind == Ping then a.candidates + {src} else a.candidates)
            && u.attempts[t].done == (a.done || (mine && p.kind == Pong))
            && u.attempts[t].result == (if mine && p.kind == Pong && !a.done then a.result + [src] else a.result))
      && (q in n.lastRx ==> u.lastRx[q] == if src in n.byAddr && n.byAddr[src] == q then now else n.lastRx[q])
  {}

  // --- the code ---------------------------------------------------------------

  class PunchState {
    const peer: bytes
    var candidates: set<Endpoint>
    var done: bool
    var result: seq<Endpoint>
    ghost var published: nat

    ghost function View(): Attempt
      reads this
    {
      Attempt(peer, candidates, done, result, published)
    }

    constructor (peer: bytes, candidates: set<Endpoint>)
      ensures View() == Attempt(peer, candidates, false, [], 0)
    {
      this.peer, this.candidates := peer, candidates;
      done, result, published := false, [], 0;
    }

    method Add(ap: Endpoint)
      modifies this`candidates
      ensures candidates == old(candidates) + {ap}
    {
      candidates := candidates + {ap};
    }

    method Finish(ap: Endpoint)
      requires OneResult(View())
      modifies this
      ensures View() == Finished(old(View()), ap) && OneResult(View())
    {
      if done {
        return;
      }
      done := true;
      assert |result| < 1;   // the send on a channel of capacity one does not block
      result := result + [ap];
      published := published + 1;
    }

    /** The receive in Punch's select. */
    method Receive() returns (r: Option<Endpoint>)
      requires OneResult(View())
      modifies this`result
      ensures OneResult(View())
      ensures if old(result) == [] then r == None && result == [] else r == Some(old(result)[0]) && result == []
    {
      if |result| == 0 {
        return None;
      }
      r := Some(result[0]);
      result := result[1..];
    }
  }

  class Prober {
    const id: bytes
    var punches: map<bytes, PunchState>
    var byAddr: map<Endpoint, bytes>
    var lastRx: map<bytes, int>

    ghost function Attempts(): set<object> reads this { set t | t in punches :: punches[t] }

    /** Each token has its own attempt, and each attempt its one result. */
    ghost predicate Valid()
      reads this, Attempts()
    {
      && (forall t, u | t in punches && u in punches && t != u :: punches[t] != punches[u])
      && (forall t <- punches :: OneResult(punches[t].View()))
    }

    ghost function Views(): map<bytes, Attempt>
      reads this, Attempts()
    {
      map t | t in punches :: punches[t].View()
    }

    ghost function State(): Node
      reads this, Attempts()
    {
      Node(id, Views(), byAddr, lastRx)
    }

    constructor (id: bytes)
      ensures this.id == id && Valid() && punches == map[]
    {
      this.id := id;
      punches, byAddr, lastRx := map[], map[], map[];
    }

    /** One attempt changes, and no other. */
    method AddTo(token: bytes, src: Endpoint)
      requires Valid() && token in punches
      modifies punches[token]
      ensures Valid() && Views() == old(Views())[token := Added(old(Views())[token], src)]
    {
      hide OneResult;
      punches[token].Add(src);
      assert OneResult(punches[token].View()) by { AddedKeepsOneResult(old(Views())[token], src); }
    }

    method FinishAt(token: bytes, src: Endpoint)
      requires Valid() && token in punches
      modifies punches[token]
      ensures Valid() && Views() == old(Views())[token := Finished(old(Views())[token], src)]
    {
      hide OneResult;
      hide Finished;
      punches[token].Finish(src);
    }

    /** The first critical section of handleProbe. */
    method Refresh(src: Endpoint, now: int)
      requires Valid()
      modifies this`lastRx
      ensures Valid() && State() == Refreshed(old(State()), src, now)
    {
      hide OneResult;
      if src in byAddr && byAddr[src] in lastRx {
        lastRx := lastRx[byAddr[src] := now];
      }
      assert Views() == old(Views());
    }

    method HandleProbe(p: Probe, src: Endpoint, now: int) returns (reply: Option<Probe>)
      requires Valid()
      modifies this`lastRx, Attempts()
      ensures Valid() && (State(), reply) == Handle(old(State()), p, src, now)
    {
      hide OneResult;
      hide Finished;
      hide Added;
      var inPunch := p.token in punches && punches[p.token].peer == p.sender;
      var onRoute := src in byAddr && byAddr[src] == p.sender;
      assert inPunch == InPunch(State(), p) && onRoute == OnRoute(State(), p, src);
      Refresh(src, now);
      reply := None;
      match p.kind {
        case Ping =>
          if !inPunch && !onRoute {
            return;
          }
          if inPunch {
            AddTo(p.token, src);
          }
          reply := Some(Probe(Pong, p.token, id));
        case Pong =>
          if inPunch {
            FinishAt(p.token, src);
          }
      }
    }
  }

  lemma AddedKeepsOneResult(a: Attempt, ap: Endpoint)
    requires OneResult(a)
    ensures OneResult(Added(a, ap))
  {}

  // --- the two-endpoint network -----------------------------------------------

  datatype Side = A | B

  function Other(s: Side): Side { if s.A? then B else A }

  /** A probe some endpoint heard, and which endpoint had emitted it. */
  datatype Heard = Heard(at: Side, probe: Probe, src: Endpoint, emitter: Side)

  datatype Result = Result(at: Side, peer: bytes, addr: Endpoint)

  /** An attempt whose token a later Punch took over: no probe reaches it, but its own Punch still waits on it. */
  datatype Replaced = Replaced(s: Side, token: bytes, attempt: Attempt)

  /** `sent` only grows: a packet in it may be delivered never, once or often, in any order, to either side. */
  datatype World = World(
    a: Node, b: Node, replaced: seq<Replaced>, sent: set<(Side, bytes)>, heard: set<Heard>, returned: set<Result>)

  datatype Step =
    | Begin(s: Side, t: bytes, peer: bytes, candidates: set<Endpoint>)
    | Emit(s: Side, t: bytes)                                  // a spray or a keepalive ping
    | Deliver(s: Side, emitter: Side, packet: bytes, src: Endpoint, now: int)
    | Stray(s: Side, packet: bytes, src: Endpoint, now: int)   // from anyone else
    | Take(s: Side, t: bytes)                                  // Punch receives its result and returns it
    | TakeReplaced(k: nat)                                     // the same for an attempt that lost its token
    | Forget(s: Side, t: bytes)                                // some time after Punch has returned
    | Reroute(s: Side, byAddr: map<Endpoint, bytes>, lastRx: map<bytes, int>)

  function At(w: World, s: Side): Node { if s.A? then w.a else w.b }

  function Put(w: World, s: Side, n: Node): World { if s.A? then w.(a := n) else w.(b := n) }

  function Send(w: World, s: Side, p: Probe): World {
    if EncodeProbe(p).Some? then w.(sent := w.sent + {(s, EncodeProbe(p).value)}) else w
  }

  /** handleUDP for a packet that may be a probe. */
  function Arrive(w: World, s: Side, packet: bytes, src: Endpoint, now: int): World
  {
    match DecodeProbe(packet)
    case None => w
    case Some(p) =>
      var (n, reply) := Handle(At(w, s), p, src, now);
      var u := Put(w, s, n);
      if reply.Some? then Send(u, s, reply.value) else u
  }

  function Next(w: World, token: bytes, e: Step): World
  {
    match e
    case Begin(s, t, peer, candidates) =>
      if |t| != TOKEN_LEN then w
      else
        var n := At(w, s);
        var u := Put(w, s, n.(attempts := n.attempts[t := Attempt(peer, candidates, false, [], 0)]));
        if t in n.attempts then u.(replaced := u.replaced + [Replaced(s, t, n.attempts[t])]) else u
    case Emit(s, t) => Send(w, s, Probe(Ping, t, At(w, s).id))
    case Deliver(s, emitter, packet, src, now) =>
      var u := Arrive(w, s, packet, src, now);
      if DecodeProbe(packet).Some? then u.(heard := u.heard + {Heard(s, DecodeProbe(packet).value, src, emitter)})
          else u
    case Stray(s, packet, src, now) => Arrive(w, s, packet, src, now)
    case Take(s, t) =>
      var n := At(w, s);
      if t !in n.attempts || n.attempts[t].result == [] then w
      else
        var a := n.attempts[t];
        var u := Put(w, s, n.(attempts := n.attempts[t := a.(result := a.result[1..])]));
        if t == token then u.(returned := u.returned + {Result(s, a.peer, a.result[0])}) else u
    case TakeReplaced(k) =>
      if k >= |w.replaced| || w.replaced[k].attempt.result == [] then w
      else
        var x := w.replaced[k];
        var u := w.(replaced := w.replaced[k := x.(attempt := x.attempt.(result := x.attempt.result[1..]))]);
        if x.token == token then u.(returned := u.returned + {Result(x.s, x.attempt.peer, x.attempt.result[0])}) else u
    case Forget(s, t) => Put(w, s, At(w, s).(attempts := At(w, s).attempts - {t}))
    case Reroute(s, byAddr, lastRx) => Put(w, s, At(w, s).(byAddr := byAddr, lastRx := lastRx))
  }

  /** Nobody but the two endpoints emits probes carrying `token`, and no device punches towards or routes to itself. */
  ghost predicate Allowed(w: World, token: bytes, e: Step)
  {
    match e
    case Begin(s, _, peer, _) => peer != At(w, s).id
    case Deliver(_, emitter, packet, _, _) => (emitter, packet) in w.sent
    case Stray(_, packet, _, _) => DecodeProbe(packet).Some? ==> DecodeProbe(packet).value.token != token
    case Reroute(s, byAddr, _) => forall x <- byAddr :: byAddr[x] != At(w, s).id
    case _ => true
  }

  ghost predicate Run(w: World, token: bytes, steps: seq<Step>, end: World)
    decreases |steps|
  {
    if steps == [] then w == end
    else Allowed(w, token, steps[0]) && Run(Next(w, token, steps[0]), token, steps[1..], end)
  }

  ghost predicate Initial(w: World) {
    && w.sent == {} && w.heard == {} && w.returned == {} && w.replaced == []
    && w.a.id != w.b.id && ValidDeviceId(w.a.id) && ValidDeviceId(w.b.id)
    && w.a.attempts == w.b.attempts == map[] && w.a.byAddr == w.b.byAddr == map[]
  }

  // --- the invariant ----------------------------------------------------------

  /** `s` heard a pong for `token` from `src`, which the other endpoint sent after hearing `s`'s own ping. */
  ghost predicate TwoWay(w: World, token: bytes, s: Side, src: Endpoint)
  {
    && Heard(s, Probe(Pong, token, At(w, Other(s)).id), src, Other(s)) in w.heard
    && PingHeard(w, token, Other(s))
  }

  /** `s` has heard a ping for `token` that the other endpoint emitted. */
  ghost predicate PingHeard(w: World, token: bytes, s: Side)
  {
    exists src :: Heard(s, Probe(Ping, token, At(w, Other(s)).id), src, Other(s)) in w.heard
  }

  /** Emitters sign with their own id, and a pong for `token` answers the other endpoint's ping. */
  ghost predicate SentSound(w: World, token: bytes, s: Side, packet: bytes)
  {
    DecodeProbe(packet).Some? ==>
      var p := DecodeProbe(packet).value;
      p.sender == At(w, s).id && (p.kind.Pong? && p.token == token ==> PingHeard(w, token, s))
  }

  ghost predicate NodeSound(w: World, token: bytes, s: Side)
  {
    var n := At(w, s);
    && ValidDeviceId(n.id) && (forall x <- n.byAddr :: n.byAddr[x] != n.id)
    && (forall t <- n.attempts :: AttemptSound(w, token, s, t, n.attempts[t]))
  }

  ghost predicate AttemptSound(w: World, token: bytes, s: Side, t: bytes, a: Attempt)
  {
    && a.peer != At(w, s).id && OneResult(a)
    && (t == token ==> forall r <- a.result :: a.peer == At(w, Other(s)).id && TwoWay(w, token, s, r))
  }

  ghost predicate ReplacedSound(w: World, token: bytes)
  {
    forall k | 0 <= k < |w.replaced| ::
        AttemptSound(w, token, w.replaced[k].s, w.replaced[k].token, w.replaced[k].attempt)
  }

  ghost predicate Inv(w: World, token: bytes) {
    && w.a.id != w.b.id
    && (forall x <- w.sent :: SentSound(w, token, x.0, x.1))
    && (forall s: Side :: NodeSound(w, token, s)) && ReplacedSound(w, token)
    && (forall r <- w.returned :: r.peer == At(w, Other(r.at)).id && TwoWay(w, token, r.at, r.addr))
  }

  /** Ids never change and history only grows, so every two-way exchange stays one. */
  lemma HistoryGrows(w: World, u: World, token: bytes)
    requires w.heard <= u.heard && u.a.id == w.a.id && u.b.id == w.b.id
    ensures forall s, src | TwoWay(w, token, s, src) :: TwoWay(u, token, s, src)
    ensures forall s | PingHeard(w, token, s) :: PingHeard(u, token, s)
    ensures forall s, b | SentSound(w, token, s, b) :: SentSound(u, token, s, b)
    ensures forall s, t, a | AttemptSound(w, token, s, t, a) :: AttemptSound(u, token, s, t, a)
  {
    forall s | PingHeard(w, token, s) ensures PingHeard(u, token, s) {
      var src :| Heard(s, Probe(Ping, token, At(w, Other(s)).id), src, Other(s)) in w.heard;
      assert Heard(s, Probe(Ping, token, At(u, Other(s)).id), src, Other(s)) in u.heard;
    }
  }

  /** A probe reaching `s` genuinely: emitted by `emitter`, or by a stranger with another token. */
  ghost predicate Genuine(w: World, token: bytes, s: Side, p: Probe, src: Endpoint)
  {
    p.token == token ==>
      || (p.sender == At(w, s).id)
      || (&& p.sender == At(w, Other(s)).id
          && (p.kind.Ping? ==> PingHeard(w, token, s))
          && (p.kind.Pong? ==> TwoWay(w, token, s, src)))
  }

  /** `w` is the world with the arriving probe already in its history. */
  lemma ArriveKeepsInv(w: World, token: bytes, s: Side, packet: bytes, src: Endpoint, now: int)
    requires Inv(w, token) && (DecodeProbe(packet).Some? ==> Genuine(w, token, s, DecodeProbe(packet).value, src))
    ensures Inv(Arrive(w, s, packet, src, now), token)
    ensures Arrive(w, s, packet, src, now).heard == w.heard
  {
    if DecodeProbe(packet).Some? {
      var p := DecodeProbe(packet).value;
      var (n, reply) := Handle(At(w, s), p, src, now);
      var u := Arrive(w, s, packet, src, now);
      hide EncodeProbe;
      hide DecodeProbe;
      assert u.a.id == w.a.id && u.b.id == w.b.id && u.replaced == w.replaced && u.returned == w.returned;
      HistoryGrows(w, u, token);
      NodeAfterHandle(w, u, token, s, p, src, now);
      SameNode(w, u, token, Other(s));
      if reply.Some? { ReplySound(w, u, token, s, p, src, now); }
      hide Handle;
      hide NodeSound;
      hide AttemptSound;
      hide SentSound;
      hide TwoWay;
      hide Genuine;
      forall x: Side ensures NodeSound(u, token, x) {
        assert x == s || x == Other(s);
      }
    }
  }

  /** One more probe heard, whatever it is, breaks nothing by itself. */
  lemma HeardKeepsInv(w: World, v: World, token: bytes)
    requires Inv(w, token) && w.heard <= v.heard && v == w.(heard := v.heard)
    ensures Inv(v, token)
  {
    HistoryGrows(w, v, token);
    hide AttemptSound;
    hide TwoWay;
    hide SentSound;
    forall x: Side ensures NodeSound(v, token, x) {
      assert NodeSound(w, token, x);
      SameNode(w, v, token, x);
    }
    hide NodeSound;
  }

  lemma SameNode(w: World, u: World, token: bytes, s: Side)
    requires NodeSound(w, token, s) && At(u, s) == At(w, s)
    requires w.heard <= u.heard && u.a.id == w.a.id && u.b.id == w.b.id
    ensures NodeSound(u, token, s)
  {
    HistoryGrows(w, u, token);
    hide TwoWay;
    hide AttemptSound;
  }

  /** The answer is signed by the device itself, and a pong for `token` answers the other endpoint's ping. */
  lemma ReplySound(w: World, u: World, token: bytes, s: Side, p: Probe, src: Endpoint, now: int)
    requires Inv(w, token) && Genuine(w, token, s, p, src) && Handle(At(w, s), p, src, now).1.Some?
    requires w.heard == u.heard && u.a.id == w.a.id && u.b.id == w.b.id
    ensures var reply := Handle(At(w, s), p, src, now).1.value;
      EncodeProbe(reply).Some? ==> SentSound(u, token, s, EncodeProbe(reply).value)
  {
    var reply := Handle(At(w, s), p, src, now).1.value;
    assert NodeSound(w, token, s);
    hide AttemptSound;
    hide TwoWay;
    if EncodeProbe(reply).Some? { ProbeRoundTrip(reply); }
    hide EncodeProbe;
    hide DecodeProbe;
  }

  lemma NodeAfterHandle(w: World, u: World, token: bytes, s: Side, p: Probe, src: Endpoint, now: int)
    requires Inv(w, token) && Genuine(w, token, s, p, src)
    requires At(u, s) == Handle(At(w, s), p, src, now).0 && At(u, Other(s)) == At(w, Other(s)) && u.heard == w.heard
    ensures NodeSound(u, token, s)
  {
    HistoryGrows(w, u, token);
    assert NodeSound(w, token, s);
  }

  lemma DeliverKeepsInv(w: World, token: bytes, s: Side, emitter: Side, packet: bytes, src: Endpoint, now: int)
    requires Inv(w, token) && (emitter, packet) in w.sent
    ensures Inv(Next(w, token, Deliver(s, emitter, packet, src, now)), token)
  {
    if DecodeProbe(packet).Some? {
      var p := DecodeProbe(packet).value;
      var v := w.(heard := w.heard + {Heard(s, p, src, emitter)});
      assert Next(w, token, Deliver(s, emitter, packet, src, now)) == Arrive(v, s, packet, src, now);
      hide Arrive;
      HistoryGrows(w, v, token);
      assert SentSound(w, token, emitter, packet);
      if p.token == token && emitter == Other(s) {
        assert Heard(s, p, src, emitter) in v.heard;
      }
      assert Genuine(v, token, s, p, src);
      HeardKeepsInv(w, v, token);
      hide Inv;
      hide Genuine;
      ArriveKeepsInv(v, token, s, packet, src, now);
    }
  }

  lemma EmitKeepsInv(w: World, token: bytes, s: Side, t: bytes)
    requires Inv(w, token)
    ensures Inv(Next(w, token, Emit(s, t)), token)
  {
    var u := Next(w, token, Emit(s, t));
    HistoryGrows(w, u, token);
    assert NodeSound(w, token, s);
    if |t| == TOKEN_LEN { ProbeRoundTrip(Probe(Ping, t, At(w, s).id)); }
    hide TwoWay;
    hide PingHeard;
    forall x: Side ensures NodeSound(u, token, x) {
      assert NodeSound(w, token, x);
    }
  }

  /** A change to one node alone keeps the invariant if that node stays sound and so does anything newly returned. */
  lemma LocalKeepsInv(w: World, u: World, token: bytes, s: Side)
    requires Inv(w, token) && At(u, Other(s)) == At(w, Other(s)) && At(u, s).id == At(w, s).id
    requires u.sent == w.sent && u.heard == w.heard && NodeSound(u, token, s) && ReplacedSound(u, token)
    requires forall r <- u.returned | r !in w.returned ::
      r.peer == At(u, Other(r.at)).id && TwoWay(u, token, r.at, r.addr)
    ensures Inv(u, token)
  {
    HistoryGrows(w, u, token);
    assert NodeSound(w, token, Other(s));
    hide TwoWay;
    hide SentSound;
    hide PingHeard;
    assert NodeSound(u, token, Other(s));
    forall x: Side ensures NodeSound(u, token, x) {
      if x != s { assert x == Other(s); }
    }
  }

  lemma TakeKeepsInv(w: World, token: bytes, s: Side, t: bytes)
    requires Inv(w, token)
    ensures Inv(Next(w, token, Take(s, t)), token)
  {
    var u := Next(w, token, Take(s, t));
    assert NodeSound(w, token, s);
    HistoryGrows(w, u, token);
    var n := At(w, s);
    if t in n.attempts && n.attempts[t].result != [] {
      assert n.attempts[t].result[0] in n.attempts[t].result;
      hide TwoWay;
      LocalKeepsInv(w, u, token, s);
    }
  }

  lemma TakeReplacedKeepsInv(w: World, token: bytes, k: nat)
    requires Inv(w, token)
    ensures Inv(Next(w, token, TakeReplaced(k)), token)
  {
    var u := Next(w, token, TakeReplaced(k));
    HistoryGrows(w, u, token);
    if k < |w.replaced| && w.replaced[k].attempt.result != [] {
      var x := w.replaced[k];
      assert AttemptSound(w, token, x.s, x.token, x.attempt);
      assert x.attempt.result[0] in x.attempt.result;
      hide TwoWay;
      assert forall r <- x.attempt.result[1..] :: r in x.attempt.result;
      assert AttemptSound(u, token, x.s, x.token, u.replaced[k].attempt);
      assert NodeSound(w, token, A);
      LocalKeepsInv(w, u, token, A);
    }
  }

  lemma BeginKeepsInv(w: World, token: bytes, s: Side, t: bytes, peer: bytes, candidates: set<Endpoint>)
    requires Inv(w, token) && Allowed(w, token, Begin(s, t, peer, candidates))
    ensures Inv(Next(w, token, Begin(s, t, peer, candidates)), token)
  {
    var u := Next(w, token, Begin(s, t, peer, candidates));
    assert NodeSound(w, token, s);
    HistoryGrows(w, u, token);
    hide TwoWay;
    if |t| == TOKEN_LEN {
      assert AttemptSound(u, token, s, t, Attempt(peer, candidates, false, [], 0));
      assert NodeSound(u, token, s);
      hide AttemptSound;
      assert ReplacedSound(u, token);
      LocalKeepsInv(w, u, token, s);
    }
  }

  lemma StepKeepsInv(w: World, token: bytes, e: Step)
    requires Inv(w, token) && Allowed(w, token, e)
    ensures Inv(Next(w, token, e), token)
  {
    var u := Next(w, token, e);
    match e {
      case Deliver(s, emitter, packet, src, now) => DeliverKeepsInv(w, token, s, emitter, packet, src, now);
      case Stray(s, packet, src, now) => ArriveKeepsInv(w, token, s, packet, src, now);
      case TakeReplaced(k) => TakeReplacedKeepsInv(w, token, k);
      case Begin(s, t, peer, candidates) => BeginKeepsInv(w, token, s, t, peer, candidates);
      case Emit(s, t) => EmitKeepsInv(w, token, s, t);
      case Take(s, t) => TakeKeepsInv(w, token, s, t);
      case _ =>
        assert NodeSound(w, token, e.s);
        HistoryGrows(w, u, token);
        hide TwoWay;
        LocalKeepsInv(w, u, token, e.s);
    }
  }

  lemma {:induction false} RunKeepsInv(w: World, token: bytes, steps: seq<Step>, end: World)
    requires Inv(w, token) && Run(w, token, steps, end)
    ensures Inv(end, token)
    decreases |steps|
  {
    if steps != [] {
      StepKeepsInv(w, token, steps[0]);
      RunKeepsInv(Next(w, token, steps[0]), token, steps[1..], end);
    }
  }

  /**
   Whatever the network does, an attempt returns an address only after the peer
   heard this device's own ping and this device heard the peer's own pong from
   that very address.
   */
  lemma PunchIsTwoWay(w: World, token: bytes, steps: seq<Step>, end: World, r: Result)
    requires Initial(w) && Run(w, token, steps, end) && r in end.returned
    ensures r.peer == At(end, Other(r.at)).id && TwoWay(end, token, r.at, r.addr)
  {
    RunKeepsInv(w, token, steps, end);
  }

  /** And every attempt, its token taken over or not, publishes at most one result, into a channel with room for it. */
  lemma AtMostOneResult(w: World, token: bytes, steps: seq<Step>, end: World, s: Side, t: bytes)
    requires Initial(w) && Run(w, token, steps, end)
    ensures t in At(end, s).attempts ==>
      var a := At(end, s).attempts[t]; OneResult(a) && (!a.done ==> a.result == [])
    ensures forall x <- end.replaced :: OneResult(x.attempt)
  {
    RunKeepsInv(w, token, steps, end);
    assert NodeSound(end, token, s);
  }

  lemma Then(w: World, token: bytes, e: Step, u: World, steps: seq<Step>, end: World)
    requires Allowed(w, token, e) && Next(w, token, e) == u && Run(u, token, steps, end)
    ensures Run(w, token, [e] + steps, end)
  {
    hide Next;
    hide Allowed;
    assert ([e] + steps)[1..] == steps;
  }

  function PacketOf(p: Probe): bytes
    requires EncodeProbe(p).Some?
  {
    EncodeProbe(p).value
  }

  /** Both ends have begun an attempt and `A` has sprayed one ping. */
  function Pinged(w: World, token: bytes, aSrc: Endpoint, bSrc: Endpoint): World
    requires |token| == TOKEN_LEN && |w.a.id| == DEVICE_ID_LEN
  {
    w.(a := w.a.(attempts := map[token := Attempt(w.b.id, {bSrc}, false, [], 0)]),
       b := w.b.(attempts := map[token := Attempt(w.a.id, {aSrc}, false, [], 0)]),
       sent := {(A, PacketOf(Probe(Ping, token, w.a.id)))})
  }

  lemma ReachesPinged(w: World, token: bytes, aSrc: Endpoint, bSrc: Endpoint, steps: seq<Step>, end: World)
    requires Initial(w) && |token| == TOKEN_LEN && Run(Pinged(w, token, aSrc, bSrc), token, steps, end)
    ensures Run(w, token,
        [Begin(A, token, w.b.id, {bSrc})] + ([Begin(B, token, w.a.id, {aSrc})] + ([Emit(A, token)] + steps)), end)
  {
    var e0, e1, e2 := Begin(A, token, w.b.id, {bSrc}), Begin(B, token, w.a.id, {aSrc}), Emit(A, token);
    var w1 := Next(w, token, e0);
    var w2 := Next(w1, token, e1);
    assert Next(w2, token, e2) == Pinged(w, token, aSrc, bSrc);
    Then(w2, token, e2, Pinged(w, token, aSrc, bSrc), steps, end);
    Then(w1, token, e1, w2, [e2] + steps, end);
    Then(w, token, e0, w1, [e1] + ([e2] + steps), end);
  }

  /** `B` has heard the ping and answered it. */
  function Ponged(w: World, token: bytes, aSrc: Endpoint, bSrc: Endpoint): World
    requires |token| == TOKEN_LEN && |w.a.id| == |w.b.id| == DEVICE_ID_LEN
  {
    var u := Pinged(w, token, aSrc, bSrc);
    u.(sent := u.sent + {(B, PacketOf(Probe(Pong, token, w.b.id)))},
       heard := {Heard(B, Probe(Ping, token, w.a.id), aSrc, A)})
  }

  /** `A` has heard the answer. */
  function Published(w: World, token: bytes, aSrc: Endpoint, bSrc: Endpoint): World
    requires |token| == TOKEN_LEN && |w.a.id| == |w.b.id| == DEVICE_ID_LEN
  {
    var u := Ponged(w, token, aSrc, bSrc);
    u.(a := u.a.(attempts := map[token := Attempt(w.b.id, {bSrc}, true, [bSrc], 1)]),
       heard := u.heard + {Heard(A, Probe(Pong, token, w.b.id), bSrc, B)})
  }

  lemma PingIsAnswered(w: World, token: bytes, aSrc: Endpoint, bSrc: Endpoint)
    requires Initial(w) && |token| == TOKEN_LEN
    ensures var e := Deliver(B, A, PacketOf(Probe(Ping, token, w.a.id)), aSrc, 0);
      Allowed(Pinged(w, token, aSrc, bSrc), token, e) &&
          Next(Pinged(w, token, aSrc, bSrc), token, e) == Ponged(w, token, aSrc, bSrc)
  {
    ProbeRoundTrip(Probe(Ping, token, w.a.id));
    hide EncodeProbe;
    hide DecodeProbe;
    var u := Pinged(w, token, aSrc, bSrc);
    assert u.b.attempts[token].candidates + {aSrc} == {aSrc};
    assert u.b.attempts[token := u.b.attempts[token]] == u.b.attempts;
  }

  lemma PongIsPublished(w: World, token: bytes, aSrc: Endpoint, bSrc: Endpoint)
    requires Initial(w) && |token| == TOKEN_LEN
    ensures var e := Deliver(A, B, PacketOf(Probe(Pong, token, w.b.id)), bSrc, 0);
      Allowed(Ponged(w, token, aSrc, bSrc), token, e) &&
          Next(Ponged(w, token, aSrc, bSrc), token, e) == Published(w, token, aSrc, bSrc)
  {
    ProbeRoundTrip(Probe(Pong, token, w.b.id));
    hide EncodeProbe;
    hide DecodeProbe;
    var u := Ponged(w, token, aSrc, bSrc);
    assert [] + [bSrc] == [bSrc];
    assert u.a.attempts[token := Attempt(w.b.id, {bSrc}, true, [bSrc], 1)]
        == map[token := Attempt(w.b.id, {bSrc}, true, [bSrc], 1)];
  }

  lemma ResultIsTaken(w: World, token: bytes, aSrc: Endpoint, bSrc: Endpoint)
    requires Initial(w) && |token| == TOKEN_LEN
    ensures var u := Published(w, token, aSrc, bSrc);
      Allowed(u, token, Take(A, token)) && Result(A, w.b.id, bSrc) in Next(u, token, Take(A, token)).returned
  {
    hide EncodeProbe;
  }

  lemma OneSuccess(w: World, token: bytes, aSrc: Endpoint, bSrc: Endpoint) returns (steps: seq<Step>, end: World)
    requires Initial(w) && |token| == TOKEN_LEN
    ensures Run(w, token, steps, end) && Result(A, w.b.id, bSrc) in end.returned
  {
    hide Next;
    hide Allowed;
    hide Run;
    hide Pinged;
    hide Ponged;
    hide Published;
    var e3, e4 := Deliver(B, A, PacketOf(Probe(Ping, token, w.a.id)), aSrc, 0),
        Deliver(A, B, PacketOf(Probe(Pong, token, w.b.id)), bSrc, 0);
    var e5 := Take(A, token);
    end := Next(Published(w, token, aSrc, bSrc), token, e5);
    PingIsAnswered(w, token, aSrc, bSrc);
    PongIsPublished(w, token, aSrc, bSrc);
    ResultIsTaken(w, token, aSrc, bSrc);
    RunNothing(end, token);
    var t5 := [e5] + [];
    var t4 := [e4] + t5;
    hide *;
    Then(Published(w, token, aSrc, bSrc), token, e5, end, [], end);
    Then(Ponged(w, token, aSrc, bSrc), token, e4, Published(w, token, aSrc, bSrc), t5, end);
    Then(Pinged(w, token, aSrc, bSrc), token, e3, Ponged(w, token, aSrc, bSrc), t4, end);
    ReachesPinged(w, token, aSrc, bSrc, [e3] + t4, end);
    steps := [Begin(A, token, w.b.id, {bSrc})]
      + ([Begin(B, token, w.a.id, {aSrc})] + ([Emit(A, token)] + ([e3] + t4)));
  }

  /**
   The guarantee is not met by never returning: when the network carries the packets, the attempt returns the
   peer's address.
   */
  lemma PunchCanSucceed(w: World, token: bytes, aSrc: Endpoint, bSrc: Endpoint)
    requires Initial(w) && |token| == TOKEN_LEN
    ensures exists steps, end :: Run(w, token, steps, end) && Result(A, w.b.id, bSrc) in end.returned
  {
    var steps, end := OneSuccess(w, token, aSrc, bSrc);
  }

  lemma RunNothing(w: World, token: bytes)
    ensures Run(w, token, [], w)
  {}

  // --- pongs only answer --------------------------------------------------------------

  /**
   At this step a ping that `s` may answer reaches it, from the other endpoint or from a stranger, and `packet`
   is the answer.
   */
  predicate AnswersNow(w: World, e: Step, s: Side, packet: bytes) {
    (e.Deliver? || e.Stray?) && e.s == s
    && match DecodeProbe(e.packet)
       case None => false
       case Some(p) =>
         Answerable(At(w, s), p, e.src) && EncodeProbe(Probe(Pong, p.token, At(w, s).id)) == Some(packet)
  }

  ghost predicate EverAnswers(w: World, token: bytes, steps: seq<Step>, s: Side, packet: bytes)
    decreases |steps|
  {
    steps != []
    && (AnswersNow(w, steps[0], s, packet) || EverAnswers(Next(w, token, steps[0]), token, steps[1..], s, packet))
  }

  lemma KindOnWire(p: Probe)
    requires EncodeProbe(p).Some?
    ensures DecodeProbe(EncodeProbe(p).value).Some? ==> DecodeProbe(EncodeProbe(p).value).value.kind == p.kind
  {
    var b := EncodeProbe(p).value;
    assert b[4] == KindByte(p.kind);
  }

  lemma NewPongsAnswer(w: World, token: bytes, e: Step, s: Side, packet: bytes)
    requires (s, packet) in Next(w, token, e).sent && (s, packet) !in w.sent
    requires DecodeProbe(packet).Some? && DecodeProbe(packet).value.kind == Pong
    ensures AnswersNow(w, e, s, packet)
  {
    hide EncodeProbe;
    hide DecodeProbe;
    hide Handle;
    match e {
      case Emit(x, t) =>
        var ping := Probe(Ping, t, At(w, x).id);
        assert EncodeProbe(ping) == Some(packet);
        KindOnWire(ping);
      case Deliver(x, emitter, b, src, now) => ArrivalAnswers(w, x, b, src, now, s, packet);
      case Stray(x, b, src, now) => ArrivalAnswers(w, x, b, src, now, s, packet);
      case _ =>
    }
  }

  lemma ArrivalAnswers(w: World, x: Side, b: bytes, src: Endpoint, now: int, s: Side, packet: bytes)
    requires (s, packet) in Arrive(w, x, b, src, now).sent && (s, packet) !in w.sent
    ensures s == x && DecodeProbe(b).Some?
    ensures var p := DecodeProbe(b).value;
      Answerable(At(w, s), p, src) && EncodeProbe(Probe(Pong, p.token, At(w, s).id)) == Some(packet)
  {
    hide DecodeProbe;
    hide EncodeProbe;
    if DecodeProbe(b).Some? {
      var p := DecodeProbe(b).value;
      AnsweredIff(At(w, x), p, src, now);
      hide Handle;
      var (n, reply) := Handle(At(w, x), p, src, now);
      assert Put(w, x, n).sent == w.sent;
      assert reply.Some?;
      hide Answerable;
    }
  }

  /**
   In every run, for every token, a device has emitted a pong only if it had heard a ping it may answer, and
   that pong is the answer.
   */
  lemma {:induction false} PongsAnswerPings(w: World, token: bytes, steps: seq<Step>, end: World, s: Side,
                                            packet: bytes)
    requires Run(w, token, steps, end) && (s, packet) in end.sent && (s, packet) !in w.sent
    requires DecodeProbe(packet).Some? && DecodeProbe(packet).value.kind == Pong
    ensures EverAnswers(w, token, steps, s, packet)
    decreases |steps|
  {
    if steps != [] {
      var u := Next(w, token, steps[0]);
      if (s, packet) in u.sent {
        NewPongsAnswer(w, token, steps[0], s, packet);
      } else {
        hide Next;
        hide Allowed;
        hide AnswersNow;
        PongsAnswerPings(u, token, steps[1..], end, s, packet);
      }
    }
  }
}
