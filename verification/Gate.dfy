/**
 The acceptor's gate read from outside: the verdict on every message, from the
 proofs held, the key and level in force, the clock and the nonces remembered,
 and what follows for control frames and capability streams.
 */
module Gate {
  import opened Bytes
  import opened Signing
  import opened Auth
  import opened Session

  const SIXTY_SECONDS: int := 60_000_000_000

  /** A message at the gate: the verifier's memory, the session's record, what the lookup found, and the operation. */
  datatype Arrival = Arrival(c: Cache, v: Verify, local: bytes, now: int, r: Record, l: Lookup, required: int,
      capId: byte, msgType: u16)
  {
    predicate Known() { l.Found? && r.deviceId != [] }

    function Key(): bytes { if Known() then l.key else r.key }

    predicate TooLow() { if Known() then l.level < required else r.haveRecord && r.level < required }

    /** `p` is signed for exactly this operation under the key in force. */
    predicate Proves(p: Proof) {
      match OwnedSigningInput(local, capId, msgType, p.nonce, p.issuedAt)
      case None => false
      case Some(input) => v(Key(), input, p.sig)
    }

    predicate First(i: int) {
      0 <= i < |c.pending| && Proves(c.pending[i]) && forall j | 0 <= j < i :: !Proves(c.pending[j])
    }

    predicate Fresh(p: Proof) { -SIXTY_SECONDS <= now - p.issuedAt * 1_000_000 <= SIXTY_SECONDS }

    predicate Replayed(p: Proof) { p.nonce in c.seen && now - c.seen[p.nonce] <= SIXTY_SECONDS }

    /** No proof is held, or none that is held speaks for this operation. */
    predicate Bare() { c.pending == [] || (|Key()| == 32 && forall p <- c.pending :: !Proves(p)) }

    /** The verdict due. */
    ghost predicate Due(verdict: Session.Verdict) {
      if Bare() then verdict == if required <= 1 then Served(false) else Turned(Unauthorised)
      else if |Key()| != 32 then verdict == Turned(Unauthorised)
      else exists i ::
        && First(i)
        && verdict == if !Fresh(c.pending[i]) then Turned(AuthExpired)
                      else if Replayed(c.pending[i]) || (required > 1 && TooLow()) then Turned(Unauthorised)
                      else Served(true)
    }

    /**
     What the verifier remembers afterwards: the proof looked at is gone, and a nonce just accepted is kept with
     its issue time.
     */
    ghost predicate Leaves(d: Cache) {
      if Bare() || |Key()| != 32 then d.pending == c.pending && Remembers(d, None)
      else exists i ::
        && First(i) && d.pending == c.pending[..i] + c.pending[i + 1..]
        && Remembers(d, if Fresh(c.pending[i]) && !Replayed(c.pending[i]) then Some(c.pending[i]) else None)
    }

    ghost predicate Remembers(d: Cache, added: Option<Proof>) {
      forall n: bytes ::
        (n in d.seen <==> (added.Some? && n == added.value.nonce) || (n in c.seen && now - c.seen[n] <= SIXTY_SECONDS))
        && (n in d.seen ==>
              d.seen[n] == if added.Some? && n == added.value.nonce then added.value.issuedAt * 1_000_000
                           else if n in c.seen then c.seen[n] else 0)
    }
  }

  lemma FirstIsFound(a: Arrival)
    ensures var i := FirstMatch(a.v, a.local, a.Key(), a.capId, a.msgType, a.c.pending);
      if i < |a.c.pending| then a.First(i) && forall k :: a.First(k) ==> k == i
      else forall p <- a.c.pending :: !a.Proves(p)
  {
    forall p ensures Matches(a.v, a.local, a.Key(), a.capId, a.msgType, p) == a.Proves(p) {}
    hide Matches;
  }

  /** What the verifier makes of the held proofs: its answer, and what it holds afterwards. */
  lemma Consumed(a: Arrival, i: int)
    ensures var (d, o) := ConsumeProof(a.c, a.v, a.local, a.now, a.Key(), a.capId, a.msgType);
      && (a.Bare() ==> o == NoProof && d.pending == a.c.pending)
      && (!a.Bare() && |a.Key()| != 32 ==> o == Denied(Unauthorised) && d.pending == a.c.pending)
      && (!a.Bare() && |a.Key()| == 32 && a.First(i) ==>
            && d.pending == a.c.pending[..i] + a.c.pending[i + 1..]
            && o == if !a.Fresh(a.c.pending[i]) then Denied(AuthExpired)
                    else if a.Replayed(a.c.pending[i]) then Denied(Unauthorised)
                    else Admit(a.c.pending[i]))
  {
    FirstIsFound(a);
    hide FirstMatch;
    hide Matches;
    if a.First(i) { assert a.c.pending[i] in a.c.pending && a.Proves(a.c.pending[i]); }
  }

  lemma Forgotten(a: Arrival, i: int)
    ensures var d := ConsumeProof(a.c, a.v, a.local, a.now, a.Key(), a.capId, a.msgType).0;
      if a.Bare() || |a.Key()| != 32 then a.Remembers(d, None)
      else a.First(i) ==>
        a.Remembers(d, if a.Fresh(a.c.pending[i]) && !a.Replayed(a.c.pending[i]) then Some(a.c.pending[i]) else None)
  {
    FirstIsFound(a);
    hide FirstMatch;
    hide Matches;
    if a.First(i) { assert a.c.pending[i] in a.c.pending && a.Proves(a.c.pending[i]); }
  }

  lemma SomeFirst(a: Arrival)
    requires !a.Bare() && |a.Key()| == 32
    ensures exists i :: a.First(i)
  {
    FirstIsFound(a);
    hide FirstMatch;
  }

  lemma OneFirst(a: Arrival, i: int, j: int)
    requires a.First(i) && a.First(j)
    ensures i == j
  {}

  /** Every message gets exactly the verdict due. */
  lemma VerdictIsDue(a: Arrival, verdict: Session.Verdict)
    ensures Authorize(a.c, a.v, a.local, a.now, a.r, a.l, a.required, a.capId, a.msgType).1 == verdict
       <==> a.Due(verdict)
  {
    assert InForce(a.r, a.l).key == a.Key();
    Consumed(a, 0);
    if !a.Bare() && |a.Key()| == 32 {
      SomeFirst(a);
      var i :| a.First(i);
      Consumed(a, i);
      forall j | a.First(j) ensures j == i { OneFirst(a, i, j); }
    }
    hide ConsumeProof;
    hide Arrival.First;
    hide Arrival.Bare;
    hide Arrival.Fresh;
    hide Arrival.Replayed;
  }

  /** And leaves exactly the memory described. */
  lemma MemoryIsDue(a: Arrival)
    ensures a.Leaves(Authorize(a.c, a.v, a.local, a.now, a.r, a.l, a.required, a.capId, a.msgType).0)
  {
    assert InForce(a.r, a.l).key == a.Key();
    Consumed(a, 0);
    Forgotten(a, 0);
    if !a.Bare() && |a.Key()| == 32 {
      SomeFirst(a);
      var i :| a.First(i);
      Consumed(a, i);
      Forgotten(a, i);
    }
    hide ConsumeProof;
    hide Arrival.First;
    hide Arrival.Bare;
    hide Arrival.Fresh;
    hide Arrival.Replayed;
    hide Arrival.Remembers;
  }

  // --- frames and streams -----------------------------------------------------------

  function Coming(cfg: Config, c: Cache, now: int, l: Lookup, e: Envelope): Arrival
    requires e.capId in cfg.handlers
  {
    Arrival(c, cfg.verify, cfg.local, now, cfg.record, l, cfg.handlers[e.capId].required, e.capId, e.msgType)
  }

  /** A frame this session takes in: a known control message, or one of a negotiated capability, with a handler. */
  predicate TakenIn(cfg: Config, e: Envelope) {
    e.capId in cfg.handlers && (if e.capId == 0 then 1 <= e.msgType <= 19 && e.msgType != 6 else e.capId in cfg.caps)
  }

  /** The verifier with one more proof held, the oldest of eight given up for it. */
  function Holding(c: Cache, p: Proof): Cache {
    Cache((if |c.pending| >= 8 then c.pending[1..] else c.pending) + [p], c.seen)
  }

  predicate IsProofFrame(e: Envelope) { e.capId == 0 && e.msgType == 6 }

  /** The proof a frame brings, if it is one: parsed, a 32-byte nonce, a 64-byte signature. */
  function Brought(cfg: Config, e: Envelope): Option<Proof> {
    match cfg.parse(e.payload)
    case None => None
    case Some(p) => if |p.nonce| == 32 && |p.sig| == 64 then Some(p) else None
  }

  /** What becomes of every control frame. */
  lemma ControlFrameVerdict(cfg: Config, c: Cache, now: int, l: Lookup, e: Envelope, owned: bool, code: Code)
    ensures var (d, act) := Dispatched(cfg, c, now, l, e);
      && (act == Queued(owned) <==> TakenIn(cfg, e) && Coming(cfg, c, now, l, e).Due(Served(owned)))
      && (act == Rejected(code) <==> TakenIn(cfg, e) && Coming(cfg, c, now, l, e).Due(Turned(code)))
      && (act.Held? <==> IsProofFrame(e))
      && (act.Held? ==>
            && act.code == (if cfg.parse(e.payload).None? then ProtocolViolation
                            else if Brought(cfg, e).None? then Unauthorised else NoCode)
            && d == if Brought(cfg, e).None? then c else Holding(c, Brought(cfg, e).value))
      && (act.Ignored? ==> d == c)
  {
    if TakenIn(cfg, e) {
      VerdictIsDue(Coming(cfg, c, now, l, e), Served(owned));
      VerdictIsDue(Coming(cfg, c, now, l, e), Turned(code));
    }
    hide Authorize;
  }

  /** A capability stream this session opens. */
  predicate Opens(cfg: Config, e: Envelope) { e.capId != 0 && e.capId in cfg.caps && e.capId in cfg.handlers }

  /** Which streams are opened, for which operation and with which mark: proof frame first or not. */
  lemma StreamVerdict(cfg: Config, c: Cache, now: int, l: Lookup, first: Frame, second: Frame, owned: bool)
    ensures var end := StreamServed(cfg, c, now, l, first, second).1;
      (first.Good? && !IsProofFrame(first.e) ==>
        (end == StreamEnd.Opened(first.e.capId, first.e.msgType, owned) <==>
          Opens(cfg, first.e) && Coming(cfg, c, now, l, first.e).Due(Served(owned))))
    ensures var end := StreamServed(cfg, c, now, l, first, second).1;
      (first.Good? && IsProofFrame(first.e) && second.Good? ==>
        (end == StreamEnd.Opened(second.e.capId, second.e.msgType, owned) <==>
          Brought(cfg, first.e).Some? && Opens(cfg, second.e)
          && Coming(cfg, Holding(c, Brought(cfg, first.e).value), now, l, second.e).Due(Served(owned))))
  {
    if first.Good? {
      if !IsProofFrame(first.e) {
        if Opens(cfg, first.e) { VerdictIsDue(Coming(cfg, c, now, l, first.e), Served(owned)); }
      } else if second.Good? && Brought(cfg, first.e).Some? && Opens(cfg, second.e) {
        VerdictIsDue(Coming(cfg, Holding(c, Brought(cfg, first.e).value), now, l, second.e), Served(owned));
      }
    }
    hide Authorize;
  }

  /** Why any other stream is reset. */
  lemma StreamRefusal(cfg: Config, c: Cache, now: int, l: Lookup, first: Frame, second: Frame)
    ensures var end := StreamServed(cfg, c, now, l, first, second).1;
      && (first.Bad? ==> end == Reset(first.code))
      && (first.Good? && !IsProofFrame(first.e) && end.Reset? ==>
            end.code == if Opens(cfg, first.e) then Unauthorised else CapabilityUnavailable)
      && (first.Good? && IsProofFrame(first.e) && end.Reset? ==>
            end.code == if cfg.parse(first.e.payload).None? then ProtocolViolation
                        else if Brought(cfg, first.e).None? then Unauthorised
                        else if second.Bad? then second.code
                        else if second.e.capId == 0 then ProtocolViolation
                        else if Opens(cfg, second.e) then Unauthorised else CapabilityUnavailable)
      && (end.Opened? ==> first.Good? && (IsProofFrame(first.e) ==> second.Good? && Brought(cfg, first.e).Some?))
  {
    hide Authorize;
  }

  /** Which datagrams reach their capability. */
  lemma DatagramVerdict(cfg: Config, l: Lookup, b: bytes)
    ensures DatagramServed(cfg, l, b) <==>
        b != [] && b[0] in cfg.caps && b[0] in cfg.handlers && cfg.handlers[b[0]].datagrams &&
        (cfg.handlers[b[0]].required <= 1 ||
         (if l.Found? && cfg.record.deviceId != [] then l.level >= cfg.handlers[b[0]].required
          else cfg.record.haveRecord && cfg.record.level >= cfg.handlers[b[0]].required))
  {}
}
