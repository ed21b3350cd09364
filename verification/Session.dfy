/**
 What one inbound message meets before a capability sees it
 (internal/session/session.go and the gate in internal/session/auth.go), and the
 capability negotiation of Hello.
 */
module Session {
  import opened Bytes
  import opened Auth

  const LEVEL_TRUSTED: int := 1
  const LEVEL_OWNED: int := 2
  const MSG_AUTH_PROOF: u16 := 6
  const LAST_CONTROL_TYPE: u16 := 19
  const LOCAL_CAP_VERSION: u32 := 1

  /** The answer of Config.PeerLookup, or its absence. */
  datatype Lookup = NoLookup | Unknown | Found(level: int, key: bytes)

  /** The peer record the session holds. */
  datatype Record = Record(deviceId: bytes, level: int, key: bytes, haveRecord: bool)

  /** The record in force for one message: the trust store is read again every time. */
  function InForce(r: Record, l: Lookup): Record {
    if l.Found? && r.deviceId != [] then r.(level := l.level, key := l.key, haveRecord := true) else r
  }

  datatype Verdict = Served(owned: bool) | Turned(code: Code)

  /** authorizeInbound: the verifier's new state and the decision. */
  function Authorize(c: Cache, v: Verify, local: bytes, now: int, r: Record, l: Lookup, required: int, capId: byte,
                     msgType: u16): (Cache, Verdict) {
    var peer := InForce(r, l);
    var (d, o) := ConsumeProof(c, v, local, now, peer.key, capId, msgType);
    if o.Denied? then (d, Turned(o.code))
    else if required <= LEVEL_TRUSTED then (d, Served(o.Admit?))
    else if peer.haveRecord && peer.level < required then (d, Turned(Unauthorised))
    else if !o.Admit? then (d, Turned(Unauthorised))
    else (d, Served(true))
  }

  function DatagramAllowed(r: Record, l: Lookup, required: int): bool {
    var peer := InForce(r, l);
    required <= LEVEL_TRUSTED || (peer.haveRecord && peer.level >= required)
  }

  /** A capability's handler: the level it declares and whether it takes datagrams. */
  datatype Handler = Handler(required: int, datagrams: bool)

  datatype Config = Config(local: bytes, verify: Verify, parse: bytes -> Option<Proof>, handlers: map<byte, Handler>,
      caps: map<byte, u32>, record: Record)

  datatype Envelope = Envelope(capId: byte, msgType: u16, payload: bytes)

  datatype Action = Ignored | Held(code: Code) | Queued(owned: bool) | Rejected(code: Code)

  predicate HasQueue(cfg: Config, capId: byte) {
    capId in cfg.handlers && (capId == 0 || capId in cfg.caps)
  }

  /** dispatch, for one frame of the control stream. */
  function Dispatched(cfg: Config, c: Cache, now: int, l: Lookup, e: Envelope): (Cache, Action) {
    if e.capId == 0 && e.msgType == MSG_AUTH_PROOF then
      var (d, code) := ReceiveProof(c, cfg.parse(e.payload)); (d, Held(code))
    else if e.capId == 0 && (e.msgType == 0 || e.msgType > LAST_CONTROL_TYPE) then (c, Ignored)
    else if !HasQueue(cfg, e.capId) then (c, Ignored)
    else
      var (d, v) := Authorize(c, cfg.verify, cfg.local, now, cfg.record, l, cfg.handlers[e.capId].required, e.capId,
          e.msgType);
      (d, if v.Served? then Queued(v.owned) else Rejected(v.code))
  }

  /** The next frame of a capability stream, or the code its decoding fails with. */
  datatype Frame = Good(e: Envelope) | Bad(code: Code)

  datatype StreamEnd = Reset(code: Code) | Opened(capId: byte, msgType: u16, owned: bool)

  function OpenStream(cfg: Config, c: Cache, now: int, l: Lookup, e: Envelope): (Cache, StreamEnd) {
    if e.capId == 0 || e.capId !in cfg.caps || e.capId !in cfg.handlers then (c, Reset(CapabilityUnavailable))
    else
      var (d, v) := Authorize(c, cfg.verify, cfg.local, now, cfg.record, l, cfg.handlers[e.capId].required, e.capId,
          e.msgType);
      (d, if v.Served? then Opened(e.capId, e.msgType, v.owned) else Reset(Unauthorised))
  }

  /** serveStream: an optional proof frame, then the operation. */
  function StreamServed(cfg: Config, c: Cache, now: int, l: Lookup, first: Frame, second: Frame): (Cache, StreamEnd) {
    if first.Bad? then (c, Reset(first.code))
    else if first.e.capId != 0 || first.e.msgType != MSG_AUTH_PROOF then OpenStream(cfg, c, now, l, first.e)
    else
      var (d, code) := ReceiveProof(c, cfg.parse(first.e.payload));
      if code != NoCode then (d, Reset(code))
      else if second.Bad? then (d, Reset(second.code))
      else if second.e.capId == 0 then (d, Reset(ProtocolViolation))
      else OpenStream(cfg, d, now, l, second.e)
  }

  /** dispatchDatagram: whether a datagram reaches its capability. */
  function DatagramServed(cfg: Config, l: Lookup, b: bytes): bool {
    && b != [] && b[0] in cfg.handlers && cfg.handlers[b[0]].datagrams && b[0] in cfg.caps
    && DatagramAllowed(cfg.record, l, cfg.handlers[b[0]].required)
  }

  /** The parts of `sess` these entry points touch. */
  class Sess {
    const cfg: Config
    const auth: AuthVerifier

    ghost predicate Valid()
      reads this, auth
    {
      auth.local == cfg.local && auth.verify == cfg.verify
    }

    constructor (cfg: Config)
      ensures this.cfg == cfg && fresh(auth) && Valid() && auth.State() == EMPTY
    {
      this.cfg := cfg;
      auth := new AuthVerifier(cfg.local, cfg.verify);
    }

    method AuthorizeInbound(now: int, l: Lookup, required: int, capId: byte, msgType: u16) returns (r: Verdict)
      requires Valid()
      modifies auth
      ensures (auth.State(), r)
          == Authorize(old(auth.State()), cfg.verify, cfg.local, now, cfg.record, l, required, capId, msgType)
    {
      var peer := cfg.record;
      if l.Found? && peer.deviceId != [] {
        peer := peer.(level := l.level, key := l.key, haveRecord := true);
      }
      var o := auth.Consume(now, peer.key, capId, msgType);
      if o.Denied? {
        return Turned(o.code);
      }
      if required <= LEVEL_TRUSTED {
        return Served(o.Admit?);
      }
      if peer.haveRecord && peer.level < required {
        return Turned(Unauthorised);
      }
      if !o.Admit? {
        return Turned(Unauthorised);
      }
      r := Served(true);
    }

    method Dispatch(now: int, l: Lookup, e: Envelope) returns (a: Action)
      requires Valid()
      modifies auth
      ensures (auth.State(), a) == Dispatched(cfg, old(auth.State()), now, l, e)
    {
      if e.capId == 0 && e.msgType == MSG_AUTH_PROOF {
        var code := auth.Receive(cfg.parse(e.payload));
        return Held(code);
      }
      if e.capId == 0 && (e.msgType == 0 || e.msgType > LAST_CONTROL_TYPE) {
        return Ignored;
      }
      if e.capId != 0 && e.capId !in cfg.caps {
        return Ignored;
      }
      if !HasQueue(cfg, e.capId) {
        return Ignored;
      }
      var v := AuthorizeInbound(now, l, cfg.handlers[e.capId].required, e.capId, e.msgType);
      a := if v.Served? then Queued(v.owned) else Rejected(v.code);
    }

    method ServeStream(now: int, l: Lookup, first: Frame, second: Frame) returns (r: StreamEnd)
      requires Valid()
      modifies auth
      ensures (auth.State(), r) == StreamServed(cfg, old(auth.State()), now, l, first, second)
    {
      if first.Bad? {
        return Reset(first.code);
      }
      var e := first.e;
      if e.capId == 0 && e.msgType == MSG_AUTH_PROOF {
        var code := auth.Receive(cfg.parse(e.payload));
        if code != NoCode {
          return Reset(code);
        }
        if second.Bad? {
          return Reset(second.code);
        }
        e := second.e;
        if e.capId == 0 {
          return Reset(ProtocolViolation);
        }
      }
      if e.capId == 0 || e.capId !in cfg.caps || e.capId !in cfg.handlers {
        return Reset(CapabilityUnavailable);
      }
      var v := AuthorizeInbound(now, l, cfg.handlers[e.capId].required, e.capId, e.msgType);
      r := if v.Served? then Opened(e.capId, e.msgType, v.owned) else Reset(Unauthorised);
    }

    /** dispatchDatagram and datagramAllowed, up to the call of the handler. */
    method DispatchDatagram(l: Lookup, b: bytes) returns (served: bool)
      ensures served == DatagramServed(cfg, l, b)
      ensures served ==>
        && |b| > 0 && b[0] in cfg.caps && b[0] in cfg.handlers
        && (cfg.handlers[b[0]].required > LEVEL_TRUSTED ==>
              InForce(cfg.record, l).haveRecord && InForce(cfg.record, l).level >= cfg.handlers[b[0]].required)
    {
      if |b| < 1 {
        return false;
      }
      var capId := b[0];
      if capId !in cfg.handlers {
        return false;
      }
      var h := cfg.handlers[capId];
      if !h.datagrams {
        return false;
      }
      if capId !in cfg.caps {
        return false;
      }
      var level, haveRecord := cfg.record.level, cfg.record.haveRecord;
      if l.Found? && cfg.record.deviceId != [] {
        level, haveRecord := l.level, true;
      }
      if h.required <= LEVEL_TRUSTED {
        return true;
      }
      if haveRecord && level < h.required {
        return false;
      }
      served := haveRecord;
    }
  }

  // --- what the gate promises -------------------------------------------------

  /** `p` is a proof held for this very operation by the key in force, fresh and not used before. */
  ghost predicate Spendable(c: Cache, v: Verify, local: bytes, now: int, key: bytes, capId: byte, msgType: u16,
                            p: Proof) {
    && p in c.pending && |key| == Signing.KEY_LEN && Matches(v, local, key, capId, msgType, p) && !Stale(p, now)
    && (p.nonce in c.seen ==> now - c.seen[p.nonce] > PROOF_WINDOW)
  }

  lemma AdmittedMeans(c: Cache, v: Verify, local: bytes, now: int, key: bytes, capId: byte, msgType: u16)
    requires ConsumeProof(c, v, local, now, key, capId, msgType).1.Admit?
    ensures var (d, o) := ConsumeProof(c, v, local, now, key, capId, msgType);
      && Spendable(c, v, local, now, key, capId, msgType, o.proof) && Barred(d, o.proof, now)
      && multiset(d.pending) == multiset(c.pending) - multiset{o.proof}
  {
    var i := FirstMatch(v, local, key, capId, msgType, c.pending);
    assert c.pending[i] in c.pending;
    assert c.pending == c.pending[..i] + [c.pending[i]] + c.pending[i + 1..];
    hide FirstMatch;
    hide Matches;
  }

  /**
   An Owned-level message is served only on a spendable proof, leaves that proof
   unusable, and meets the level of any record the lookup finds at that moment.
   */
  lemma OwnedNeedsProofAndLevel(c: Cache, v: Verify, local: bytes, now: int, r: Record, l: Lookup, required: int,
                                capId: byte, msgType: u16)
    ensures var (d, verdict) := Authorize(c, v, local, now, r, l, required, capId, msgType);
      && (verdict == Served(true) ==> exists p ::
            && Spendable(c, v, local, now, InForce(r, l).key, capId, msgType, p)
            && Barred(d, p, now) && multiset(d.pending) == multiset(c.pending) - multiset{p})
      && (verdict.Served? && required > LEVEL_TRUSTED ==>
          verdict.owned && (l.Found? && r.deviceId != [] ==> l.level >= required))
  {
    var key := InForce(r, l).key;
    if ConsumeProof(c, v, local, now, key, capId, msgType).1.Admit? {
      AdmittedMeans(c, v, local, now, key, capId, msgType);
    }
    hide ConsumeProof;
    hide Spendable;
    hide Barred;
  }

  /**
   And conversely: a matching proof is enough, unless one that also matches has gone stale or been used, or the
   record in force is too low.
   */
  lemma SpendableProofIsServed(c: Cache, v: Verify, local: bytes, now: int, r: Record, l: Lookup, required: int,
                               capId: byte, msgType: u16)
    requires var key := InForce(r, l).key;
      && (exists p <- c.pending :: Matches(v, local, key, capId, msgType, p))
      && (forall p <- c.pending | Matches(v, local, key, capId, msgType, p) ::
          Spendable(c, v, local, now, key, capId, msgType, p))
    ensures Authorize(c, v, local, now, r, l, required, capId, msgType).1
         == if required > LEVEL_TRUSTED && InForce(r, l).haveRecord && InForce(r, l).level < required
            then Turned(Unauthorised) else Served(true)
  {
    var key := InForce(r, l).key;
    var i := FirstMatch(v, local, key, capId, msgType, c.pending);
    var p :| p in c.pending && Matches(v, local, key, capId, msgType, p);
    var j :| 0 <= j < |c.pending| && c.pending[j] == p;
    assert i <= j && c.pending[i] in c.pending;
    assert Spendable(c, v, local, now, key, capId, msgType, c.pending[i]);
    hide FirstMatch;
    hide Matches;
  }

  /** A revocation lands on the next message or datagram, whatever proof rides with it. */
  lemma RevocationIsImmediate(cfg: Config, c: Cache, now: int, l: Lookup, e: Envelope)
    requires l.Found? && cfg.record.deviceId != [] && e.capId in cfg.handlers &&
        !(e.capId == 0 && e.msgType == MSG_AUTH_PROOF)
    requires l.level < cfg.handlers[e.capId].required && cfg.handlers[e.capId].required > LEVEL_TRUSTED
    ensures var (_, a) := Dispatched(cfg, c, now, l, e); !a.Queued?
    ensures var (_, s) := OpenStream(cfg, c, now, l, e); s.Reset?
    ensures forall b: bytes | b != [] && b[0] == e.capId :: !DatagramServed(cfg, l, b)
  {}

  // --- negotiation ------------------------------------------------------------

  datatype Capability = Capability(id: byte, version: u32)

  function Min(a: u32, b: u32): u32 { if a < b then a else b }

  /** What each entry of a remote list adds; a later entry for the same id wins. */
  function Negotiated(handlers: set<byte>, remote: seq<Capability>): map<byte, u32> {
    if remote == [] then map[]
    else
      var out := Negotiated(handlers, remote[..|remote| - 1]);
      var c := remote[|remote| - 1];
      if c.id == 0 || c.id !in handlers then out else out[c.id := Min(LOCAL_CAP_VERSION, c.version)]
  }

  method Negotiate(handlers: set<byte>, remote: seq<Capability>) returns (out: map<byte, u32>)
    ensures out == Negotiated(handlers, remote)
  {
    out := map[];
    for i := 0 to |remote|
      invariant out == Negotiated(handlers, remote[..i])
    {
      assert remote[..i + 1][..i] == remote[..i];
      var c := remote[i];
      if c.id == 0 {
        continue;
      }
      if c.id !in handlers {
        continue;
      }
      out := out[c.id := Min(LOCAL_CAP_VERSION, c.version)];
    }
    assert remote[..|remote|] == remote;
  }

  /** A list advertises `handlers`: each representable id but 0, at the local version, in any order. */
  ghost predicate Advertises(list: seq<Capability>, handlers: set<byte>, known: set<byte>) {
    forall id: byte, v: u32 :: Capability(id, v) in list <==>
        id in handlers && id in known && id != 0 && v == LOCAL_CAP_VERSION
  }

  lemma {:induction false} NegotiatedKeys(handlers: set<byte>, remote: seq<Capability>)
    ensures forall id :: id in Negotiated(handlers, remote) <==>
        id != 0 && id in handlers && exists v :: Capability(id, v) in remote
    ensures forall id <- Negotiated(handlers, remote) ::
      exists v :: Capability(id, v) in remote && Negotiated(handlers, remote)[id] == Min(LOCAL_CAP_VERSION, v)
  {
    if remote != [] {
      var init, c := remote[..|remote| - 1], remote[|remote| - 1];
      NegotiatedKeys(handlers, init);
      assert c == Capability(c.id, c.version);
      assert forall x :: x in remote <==> x in init || x == c;
    }
  }

  /** Both ends of a session come to the same set: what both listed, at the common version. */
  lemma NegotiationAgrees(a: set<byte>, b: set<byte>, known: set<byte>, fromA: seq<Capability>, fromB: seq<Capability>)
    requires Advertises(fromA, a, known) && Advertises(fromB, b, known)
    ensures Negotiated(a, fromB) == Negotiated(b, fromA)
    ensures Negotiated(a, fromB).Keys == (a * b * known) - {0}
  {
    NegotiatedKeys(a, fromB);
    NegotiatedKeys(b, fromA);
    forall id: byte
      ensures id in Negotiated(a, fromB) <==> id in (a * b * known) - {0}
      ensures id in Negotiated(b, fromA) <==> id in (a * b * known) - {0}
    {
      if id in a * b * known && id != 0 {
        assert Capability(id, LOCAL_CAP_VERSION) in fromA && Capability(id, LOCAL_CAP_VERSION) in fromB;
      }
    }
  }

  /** The last entry for an id decides: the version in use is 1, or 0 if the entry says 0. */
  lemma {:induction false} LastEntryDecides(handlers: set<byte>, remote: seq<Capability>, i: nat)
    requires i < |remote| && forall j | i < j < |remote| :: remote[j].id != remote[i].id
    ensures var id, out := remote[i].id, Negotiated(handlers, remote);
      (id in out <==> id != 0 && id in handlers) && (id in out ==> out[id] == if remote[i].version == 0 then 0 else 1)
  {
    NegotiatedKeys(handlers, remote);
    assert Capability(remote[i].id, remote[i].version) in remote;
    var init := remote[..|remote| - 1];
    if i < |init| { LastEntryDecides(handlers, init, i); }
  }
}
