/**
 The acceptor's half of Owned-level authorisation (internal/session/auth.go and
 the dispatchers of internal/session/session.go): proofs held until an operation
 matches them, the pruned nonce cache, and the gate every message passes.
 */
module Auth {
  import opened Bytes
  import opened Signing

  const PROOF_WINDOW: int := 60 * 1_000_000_000
  const MAX_PENDING_PROOFS: nat := 8
  const SIGNATURE_LEN: nat := 64

  /** Ed25519 verification of (key, input, signature), left abstract. */
  type Verify = (bytes, bytes, bytes) -> bool

  datatype Proof = Proof(nonce: bytes, issuedAt: i64, sig: bytes)
  {
    function Issued(): int { issuedAt * 1_000_000 }
  }

  /** Error codes of section 10 of PROTOCOL.md; `NoCode` is a zero code. */
  datatype Code = NoCode | ProtocolViolation | Unauthorised | AuthExpired | CapabilityUnavailable

  datatype Outcome = NoProof | Denied(code: Code) | Admit(proof: Proof)

  /** authVerifier's mutable half. `seen` maps a nonce to the issue time it was accepted with. */
  datatype Cache = Cache(pending: seq<Proof>, seen: map<bytes, int>)

  const EMPTY: Cache := Cache([], map[])

  /** A payload that does not parse is `None`. */
  function ReceiveProof(c: Cache, p: Option<Proof>): (Cache, Code) {
    if p.None? then (c, ProtocolViolation)
    else if |p.value.nonce| != NONCE_LEN || |p.value.sig| != SIGNATURE_LEN then (c, Unauthorised)
    else (c.(pending := (if |c.pending| >= MAX_PENDING_PROOFS then c.pending[1..] else c.pending) + [p.value]), NoCode)
  }

  function Prune(c: Cache, now: int): Cache {
    c.(seen := map n | n in c.seen && now - c.seen[n] <= PROOF_WINDOW :: c.seen[n])
  }

  /** Whether `p` is this very operation's proof. */
  predicate Matches(v: Verify, local: bytes, key: bytes, capId: byte, msgType: u16, p: Proof) {
    var input := OwnedSigningInput(local, capId, msgType, p.nonce, p.issuedAt);
    input.Some? && v(key, input.value, p.sig)
  }

  function FirstMatch(v: Verify, local: bytes, key: bytes, capId: byte, msgType: u16, ps: seq<Proof>): (i: nat)
    ensures i <= |ps| && (i < |ps| ==> Matches(v, local, key, capId, msgType, ps[i]))
    ensures forall j | 0 <= j < i :: !Matches(v, local, key, capId, msgType, ps[j])
  {
    if ps == [] || Matches(v, local, key, capId, msgType, ps[0]) then 0
    else 1 + FirstMatch(v, local, key, capId, msgType, ps[1..])
  }

  predicate Stale(p: Proof, now: int) {
    now - p.Issued() > PROOF_WINDOW || now - p.Issued() < -PROOF_WINDOW
  }

  /** consume after its pruning. */
  function Spend(c: Cache, v: Verify, local: bytes, now: int, key: bytes, capId: byte, msgType: u16): (Cache, Outcome) {
    if c.pending == [] then (c, NoProof)
    else if |key| != KEY_LEN then (c, Denied(Unauthorised))
    else
      var i := FirstMatch(v, local, key, capId, msgType, c.pending);
      if i == |c.pending| then (c, NoProof)
      else
        var p := c.pending[i];
        var d := c.(pending := c.pending[..i] + c.pending[i + 1..]);
        if Stale(p, now) then (d, Denied(AuthExpired))
        else if p.nonce in d.seen then (d, Denied(Unauthorised))
        else (d.(seen := d.seen[p.nonce := p.Issued()]), Admit(p))
  }

  function ConsumeProof(c: Cache, v: Verify, local: bytes, now: int, key: bytes, capId: byte,
                        msgType: u16): (Cache, Outcome) {
    Spend(Prune(c, now), v, local, now, key, capId, msgType)
  }

  // --- the code ---------------------------------------------------------------

  class AuthVerifier {
    const local: bytes
    const verify: Verify
    var pending: seq<Proof>
    var seen: map<bytes, int>

    function State(): Cache
      reads this
    {
      Cache(pending, seen)
    }

    constructor (local: bytes, verify: Verify)
      ensures this.local == local && this.verify == verify && State() == EMPTY
    {
      this.local, this.verify := local, verify;
      pending, seen := [], map[];
    }

    method Receive(p: Option<Proof>) returns (code: Code)
      modifies this
      ensures (State(), code) == ReceiveProof(old(State()), p)
    {
      if p == None {
        return ProtocolViolation;
      }
      if |p.value.nonce| != NONCE_LEN || |p.value.sig| != SIGNATURE_LEN {
        return Unauthorised;
      }
      if |pending| >= MAX_PENDING_PROOFS {
        pending := pending[1..];
      }
      pending := pending + [p.value];
      code := NoCode;
    }

    method PruneLocked(now: int)
      modifies this`seen
      ensures State() == Prune(old(State()), now)
    {
      var todo := seen.Keys;
      while todo != {}
        invariant todo <= old(seen).Keys
        invariant seen == map n | n in old(seen) && (n in todo || now - old(seen)[n] <= PROOF_WINDOW) :: old(seen)[n]
        decreases todo
      {
        var n :| n in todo;
        if now - seen[n] > PROOF_WINDOW {
          seen := seen - {n};
        }
        todo := todo - {n};
      }
    }

    method Consume(now: int, key: bytes, capId: byte, msgType: u16) returns (r: Outcome)
      modifies this
      ensures (State(), r) == ConsumeProof(old(State()), verify, local, now, key, capId, msgType)
    {
      PruneLocked(now);
      if |pending| == 0 {
        return NoProof;
      }
      if |key| != KEY_LEN {
        return Denied(Unauthorised);
      }
      ghost var held := pending;
      for i := 0 to |pending|
        invariant pending == held && State() == Prune(old(State()), now)
        invariant forall j | 0 <= j < i :: !Matches(verify, local, key, capId, msgType, pending[j])
      {
        var p := pending[i];
        var input := OwnedSigningInput(local, capId, msgType, p.nonce, p.issuedAt);
        if input == None || !verify(key, input.value, p.sig) {
          continue;
        }
        assert i == FirstMatch(verify, local, key, capId, msgType, held);
        pending := pending[..i] + pending[i + 1..];
        var d := now - p.Issued();
        if d > PROOF_WINDOW || d < -PROOF_WINDOW {
          return Denied(AuthExpired);
        }
        if p.nonce in seen {
          return Denied(Unauthorised);
        }
        seen := seen[p.nonce := p.Issued()];
        return Admit(p);
      }
      r := NoProof;
    }
  }

  // --- runs of one verifier ---------------------------------------------------

  datatype Event =
    | Receive(now: int, proof: Option<Proof>)
    | Consume(now: int, key: bytes, capId: byte, msgType: u16)

  ghost predicate Ordered(es: seq<Event>) {
    forall i, j | 0 <= i < j < |es| :: es[i].now <= es[j].now
  }

  /** One step, of the code (`pruning`) or of a verifier that never forgets a nonce. */
  function Step(c: Cache, v: Verify, local: bytes, pruning: bool, e: Event): (Cache, Outcome) {
    match e
    case Receive(_, p) => var (d, code) := ReceiveProof(c, p); (d, Denied(code))
    case Consume(now, key, capId, msgType) =>
        Spend(if pruning then Prune(c, now) else c, v, local, now, key, capId, msgType)
  }

  function After(v: Verify, local: bytes, pruning: bool, es: seq<Event>): Cache {
    if es == [] then EMPTY else Step(After(v, local, pruning, es[..|es| - 1]), v, local, pruning, es[|es| - 1]).0
  }

  function Outcomes(v: Verify, local: bytes, pruning: bool, es: seq<Event>): (r: seq<Outcome>)
    ensures |r| == |es|
  {
    if es == [] then []
    else
      var init := es[..|es| - 1];
      Outcomes(v, local, pruning, init) + [Step(After(v, local, pruning, init), v, local, pruning, es[|es| - 1]).1]
  }

  // --- what is held -------------------------------------------------------------

  predicate WellSized(p: Proof) { |p.nonce| == NONCE_LEN && |p.sig| == SIGNATURE_LEN }

  function ReceiveAll(c: Cache, ps: seq<Option<Proof>>): Cache {
    if ps == [] then c else ReceiveProof(ReceiveAll(c, ps[..|ps| - 1]), ps[|ps| - 1]).0
  }

  /** The well-sized proofs among those presented. */
  function WellSizedOf(ps: seq<Option<Proof>>): seq<Proof> {
    if ps == [] then []
    else
      var p := ps[|ps| - 1];
      WellSizedOf(ps[..|ps| - 1]) + (if p.Some? && WellSized(p.value) then [p.value] else [])
  }

  function Newest(ps: seq<Proof>): seq<Proof> {
    if |ps| <= MAX_PENDING_PROOFS then ps else ps[|ps| - MAX_PENDING_PROOFS..]
  }

  lemma NewestSnoc(ps: seq<Proof>, p: Proof)
    ensures Newest(ps + [p]) == (if |Newest(ps)| >= MAX_PENDING_PROOFS then Newest(ps)[1..] else Newest(ps)) + [p]
  {}

  /** Whatever is presented, the proofs held are the newest eight that are well sized, oldest first. */
  lemma {:induction false} HeldAreNewest(ps: seq<Option<Proof>>)
    ensures ReceiveAll(EMPTY, ps) == Cache(Newest(WellSizedOf(ps)), map[])
  {
    if ps != [] {
      var init, p := ps[..|ps| - 1], ps[|ps| - 1];
      HeldAreNewest(init);
      assert ReceiveAll(EMPTY, ps) == ReceiveProof(ReceiveAll(EMPTY, init), p).0;
      if p.Some? && WellSized(p.value) {
        NewestSnoc(WellSizedOf(init), p.value);
      } else {
        assert WellSizedOf(init) + [] == WellSizedOf(init);
      }
      hide Newest;
      hide ReceiveAll;
    }
  }

  // --- pruning is unobservable ------------------------------------------------

  ghost predicate Presents(es: seq<Event>, i: int, p: Proof) {
    0 <= i < |es| && es[i].Receive? && es[i].proof == Some(p)
  }

  /** No nonce is presented with two issue times. */
  ghost predicate OneIssuePerNonce(es: seq<Event>) {
    forall i, j, p, q | Presents(es, i, p) && Presents(es, j, q) && p.nonce == q.nonce :: p.issuedAt == q.issuedAt
  }

  /** Every nonce and issue time the cache holds was presented. */
  ghost predicate Remembers(c: Cache, es: seq<Event>) {
    && (forall p <- c.pending :: exists i :: Presents(es, i, p))
    && (forall n <- c.seen :: exists i, p :: Presents(es, i, p) && p.nonce == n && p.Issued() == c.seen[n])
  }

  /** The pruned cache is the full one less nonces the clock check refuses anyway. */
  ghost predicate Agree(pruned: Cache, full: Cache, now: int) {
    && pruned.pending == full.pending
    && (forall n <- pruned.seen :: n in full.seen && pruned.seen[n] == full.seen[n])
    && (forall n <- full.seen | n !in pruned.seen :: now - full.seen[n] > PROOF_WINDOW)
  }

  lemma StepRemembers(c: Cache, v: Verify, local: bytes, pruning: bool, es: seq<Event>, e: Event)
    requires Remembers(c, es)
    ensures Remembers(Step(c, v, local, pruning, e).0, es + [e])
  {
    var es', d := es + [e], Step(c, v, local, pruning, e).0;
    forall p <- d.pending ensures exists i :: Presents(es', i, p) {
      if p in c.pending {
        var i :| Presents(es, i, p);
        assert Presents(es', i, p);
      } else {
        assert Presents(es', |es|, p);
      }
    }
    forall n <- d.seen ensures exists i, p :: Presents(es', i, p) && p.nonce == n && p.Issued() == d.seen[n] {
      if n in c.seen && d.seen[n] == c.seen[n] {
        var i, p :| Presents(es, i, p) && p.nonce == n && p.Issued() == c.seen[n];
        assert Presents(es', i, p);
      } else {
        var p := Step(c, v, local, pruning, e).1.proof;
        assert p in c.pending;
        var i :| Presents(es, i, p);
        assert Presents(es', i, p);
      }
    }
  }

  lemma PruneAgrees(pruned: Cache, full: Cache, then0: int, now: int)
    requires Agree(pruned, full, then0) && then0 <= now
    ensures Agree(Prune(pruned, now), full, now)
  {}

  /** A nonce the full cache remembers and the pruned one has forgotten belongs to a stale proof. */
  lemma ForgottenIsStale(pruned: Cache, full: Cache, p: Proof, now: int, es: seq<Event>)
    requires Agree(pruned, full, now) && Remembers(full, es) && OneIssuePerNonce(es)
    requires p in full.pending && p.nonce in full.seen && p.nonce !in pruned.seen
    ensures Stale(p, now)
  {
    var a :| Presents(es, a, p);
    var b, q :| Presents(es, b, q) && q.nonce == p.nonce && q.Issued() == full.seen[p.nonce];
    assert p.issuedAt == q.issuedAt;
  }

  lemma SpendsAgree(pruned: Cache, full: Cache, v: Verify, local: bytes, now: int, key: bytes, capId: byte,
                    msgType: u16, es: seq<Event>)
    requires Agree(pruned, full, now) && Remembers(full, es) && OneIssuePerNonce(es)
    ensures Spend(pruned, v, local, now, key, capId, msgType).1 == Spend(full, v, local, now, key, capId, msgType).1
    ensures Agree(Spend(pruned, v, local, now, key, capId, msgType).0,
        Spend(full, v, local, now, key, capId, msgType).0, now)
  {
    var i := FirstMatch(v, local, key, capId, msgType, full.pending);
    if i < |full.pending| {
      var p := full.pending[i];
      assert p in full.pending;
      if p.nonce in full.seen && p.nonce !in pruned.seen {
        ForgottenIsStale(pruned, full, p, now, es);
      }
    }
    hide FirstMatch;
    hide Matches;
    hide Remembers;
    hide OneIssuePerNonce;
  }

  lemma StepsAgree(pruned: Cache, full: Cache, v: Verify, local: bytes, e: Event, then0: int, es: seq<Event>)
    requires Agree(pruned, full, then0) && then0 <= e.now
    requires Remembers(full, es) && OneIssuePerNonce(es)
    ensures Step(pruned, v, local, true, e).1 == Step(full, v, local, false, e).1
    ensures Agree(Step(pruned, v, local, true, e).0, Step(full, v, local, false, e).0, e.now)
  {
    hide Remembers;
    hide OneIssuePerNonce;
    hide Spend;
    if e.Consume? {
      PruneAgrees(pruned, full, then0, e.now);
      SpendsAgree(Prune(pruned, e.now), full, v, local, e.now, e.key, e.capId, e.msgType, es);
    }
  }

  lemma OneIssueInPrefix(es: seq<Event>, e: Event)
    requires OneIssuePerNonce(es + [e])
    ensures OneIssuePerNonce(es)
  {
    forall i, j, p, q | Presents(es, i, p) && Presents(es, j, q) && p.nonce == q.nonce
      ensures p.issuedAt == q.issuedAt
    {
      assert Presents(es + [e], i, p) && Presents(es + [e], j, q);
    }
  }

  lemma OrderedPrefix(es: seq<Event>, e: Event)
    requires Ordered(es + [e])
    ensures Ordered(es) && (es != [] ==> es[|es| - 1].now <= e.now)
  {
    var all := es + [e];
    forall i, j | 0 <= i < j < |es| ensures es[i].now <= es[j].now {
      assert all[i].now <= all[j].now;
    }
    if es != [] { assert all[|es| - 1].now <= all[|es|].now; }
  }

  lemma Unroll(v: Verify, local: bytes, pruning: bool, es: seq<Event>, e: Event)
    ensures After(v, local, pruning, es + [e]) == Step(After(v, local, pruning, es), v, local, pruning, e).0
    ensures Outcomes(v, local, pruning, es + [e])
        == Outcomes(v, local, pruning, es) + [Step(After(v, local, pruning, es), v, local, pruning, e).1]
  {
    assert (es + [e])[..|es|] == es;
  }

  lemma {:induction false} PruningAgrees(v: Verify, local: bytes, es: seq<Event>, now: int)
    requires Ordered(es) && OneIssuePerNonce(es) && (es != [] ==> es[|es| - 1].now <= now)
    ensures Outcomes(v, local, true, es) == Outcomes(v, local, false, es)
    ensures Agree(After(v, local, true, es), After(v, local, false, es), now)
    ensures Remembers(After(v, local, false, es), es)
  {
    if es != [] {
      hide *;
      var init, e := es[..|es| - 1], es[|es| - 1];
      assert es == init + [e];
      OrderedPrefix(init, e);
      OneIssueInPrefix(init, e);
      PruningAgrees(v, local, init, e.now);
      var pruned, full := After(v, local, true, init), After(v, local, false, init);
      Unroll(v, local, true, init, e);
      Unroll(v, local, false, init, e);
      StepsAgree(pruned, full, v, local, e, e.now, init);
      StepRemembers(full, v, local, false, init, e);
      AgreeLater(After(v, local, true, es), After(v, local, false, es), e.now, now);
    }
  }

  lemma AgreeLater(pruned: Cache, full: Cache, then0: int, now: int)
    requires Agree(pruned, full, then0) && then0 <= now
    ensures Agree(pruned, full, now)
  {}

  /** Forgetting aged nonces changes no answer. */
  lemma PruningIsUnobservable(v: Verify, local: bytes, es: seq<Event>)
    requires Ordered(es) && OneIssuePerNonce(es)
    ensures Outcomes(v, local, true, es) == Outcomes(v, local, false, es)
  {
    if es != [] { PruningAgrees(v, local, es, es[|es| - 1].now); }
  }

  /** One operation. */
  datatype Op = Op(capId: byte, msgType: u16)

  predicate Proves(v: Verify, local: bytes, key: bytes, o: Op, p: Proof) {
    Matches(v, local, key, o.capId, o.msgType, p)
  }

  /**
   Present a proof and spend it when issued, on one operation; present a later one of the same nonce, and
   spend it on another when the first has been forgotten.
   */
  function TwiceIssued(p: Proof, o: Op, key: bytes, q: Proof, o': Op, key': bytes): seq<Event> {
    var now := q.Issued() + PROOF_WINDOW;
    [Receive(p.Issued(), Some(p)), Consume(p.Issued(), key, o.capId, o.msgType),
     Receive(now, Some(q)), Consume(now, key', o'.capId, o'.msgType)]
  }

  /**
   The condition on nonces is needed: any nonce issued twice, for whatever operations, can be told by a pruned
   cache from a full one.
   */
  lemma PruningShowsOnReusedNonce(v: Verify, local: bytes, p: Proof, o: Op, key: bytes, q: Proof, o': Op, key': bytes)
    requires |key| == |key'| == KEY_LEN && WellSized(p) && WellSized(q)
    requires p.nonce == q.nonce && p.issuedAt < q.issuedAt
    requires Proves(v, local, key, o, p) && Proves(v, local, key', o', q)
    ensures var es := TwiceIssued(p, o, key, q, o', key');
      && Ordered(es) && Outcomes(v, local, true, es)[3] == Admit(q)
      && Outcomes(v, local, false, es)[3] == Denied(Unauthorised)
  {
    var now := q.Issued() + PROOF_WINDOW;
    var es := TwiceIssued(p, o, key, q, o', key');
    var used := map[p.nonce := p.Issued()];
    forall pruning: bool
      ensures Outcomes(v, local, pruning, es)[3] == Step(Cache([q], used), v, local, pruning, es[3]).1
    {
      SpentAtOnce(v, local, pruning, p, p.Issued(), map[], o, key);
      ReceivedAlone(v, local, pruning, p, p.Issued(), map[]);
      ReceivedAlone(v, local, pruning, q, now, used);
      hide Step;
      FourSteps(v, local, pruning, es[0], es[1], es[2], es[3], Cache([p], map[]), Cache([], used), Cache([q], used));
    }
    hide Outcomes;
    assert Prune(Cache([q], used), now) == Cache([q], map[]);
    SpentAtOnce(v, local, true, q, now, used, o', key');
    FoundFirst(v, local, key', o', q);
  }

  lemma FoundFirst(v: Verify, local: bytes, key: bytes, o: Op, p: Proof)
    requires Proves(v, local, key, o, p)
    ensures FirstMatch(v, local, key, o.capId, o.msgType, [p]) == 0
  {}

  lemma ReceivedAlone(v: Verify, local: bytes, pruning: bool, p: Proof, now: int, seen: map<bytes, int>)
    requires WellSized(p)
    ensures Step(Cache([], seen), v, local, pruning, Receive(now, Some(p))).0 == Cache([p], seen)
  {}

  lemma SpentAtOnce(v: Verify, local: bytes, pruning: bool, p: Proof, now: int, seen: map<bytes, int>, o: Op,
                    key: bytes)
    requires Proves(v, local, key, o, p) && |key| == KEY_LEN && !Stale(p, now)
    requires forall n <- seen :: now - seen[n] > PROOF_WINDOW
    requires pruning || seen == map[]
    ensures Step(Cache([p], seen), v, local, pruning, Consume(now, key, o.capId, o.msgType))
        == (Cache([], map[p.nonce := p.Issued()]), Admit(p))
  {
    assert Prune(Cache([p], seen), now) == Cache([p], map[]);
    assert [p][..0] + [p][1..] == [];
    FoundFirst(v, local, key, o, p);
    hide FirstMatch;
    hide Matches;
  }

  lemma Chain(v: Verify, local: bytes, pruning: bool, es: seq<Event>, e: Event, c: Cache, d: Cache)
    requires After(v, local, pruning, es) == c && Step(c, v, local, pruning, e).0 == d
    ensures After(v, local, pruning, es + [e]) == d
  {
    hide *;
    Unroll(v, local, pruning, es, e);
  }

  lemma LastOutcome(v: Verify, local: bytes, pruning: bool, es: seq<Event>, e: Event, c: Cache)
    requires After(v, local, pruning, es) == c
    ensures Outcomes(v, local, pruning, es + [e])[|es|] == Step(c, v, local, pruning, e).1
  {
    hide *;
    Unroll(v, local, pruning, es, e);
  }

  lemma FourSteps(v: Verify, local: bytes, pruning: bool, e0: Event, e1: Event, e2: Event, e3: Event,
                  c1: Cache, c2: Cache, c3: Cache)
    requires Step(EMPTY, v, local, pruning, e0).0 == c1 && Step(c1, v, local, pruning, e1).0 == c2
    requires Step(c2, v, local, pruning, e2).0 == c3
    ensures Outcomes(v, local, pruning, [e0, e1, e2, e3])[3] == Step(c3, v, local, pruning, e3).1
  {
    assert After(v, local, pruning, []) == EMPTY;
    hide *;
    Chain(v, local, pruning, [], e0, EMPTY, c1);
    Chain(v, local, pruning, [] + [e0], e1, c1, c2);
    Chain(v, local, pruning, [] + [e0] + [e1], e2, c2, c3);
    LastOutcome(v, local, pruning, [] + [e0] + [e1] + [e2], e3, c3);
    assert [] + [e0] + [e1] + [e2] + [e3] == [e0, e1, e2, e3];
  }

  /** The proofs a run presents are drawn from `s`. */
  ghost predicate PresentsOnly(es: seq<Event>, s: iset<Proof>) {
    forall i, p | Presents(es, i, p) :: p in s
  }

  ghost predicate OneIssueEach(s: iset<Proof>) {
    forall p, q | p in s && q in s && p.nonce == q.nonce :: p.issuedAt == q.issuedAt
  }

  /** Both verifiers answer `es` alike. */
  ghost predicate SameAnswers(v: Verify, local: bytes, es: seq<Event>) {
    Outcomes(v, local, true, es) == Outcomes(v, local, false, es)
  }

  /**
   Exactly when pruning cannot be seen: whatever verifies, under every key and in every ordered run over
   the proofs of `s`, the two verifiers answer alike iff `s` holds one issue time for each nonce.
   */
  lemma PruningIsUnobservableIff(s: iset<Proof>, local: bytes)
    requires ValidDeviceId(local) && forall p <- s :: WellSized(p)
    ensures (forall v: Verify, es | Ordered(es) && PresentsOnly(es, s) :: SameAnswers(v, local, es)) <==>
        OneIssueEach(s)
  {
    if OneIssueEach(s) {
      forall v: Verify, es | Ordered(es) && PresentsOnly(es, s) ensures SameAnswers(v, local, es) {
        PruningIsUnobservable(v, local, es);
      }
    } else {
      var p, q :| p in s && q in s && p.nonce == q.nonce && p.issuedAt < q.issuedAt;
      var v: Verify := (_, _, _) => true;
      var key, o := Zeros(KEY_LEN), Op(1, 1);
      var es := TwiceIssued(p, o, key, q, o, key);
      PruningShowsOnReusedNonce(v, local, p, o, key, q, o, key);
      assert PresentsOnly(es, s);
      assert !SameAnswers(v, local, es);
    }
  }

  // --- each proof is accepted at most once ------------------------------------

  /** A proof accepted earlier is still remembered, or has aged past the clock check for good. */
  ghost predicate Barred(c: Cache, p: Proof, now: int) {
    now - p.Issued() > PROOF_WINDOW || (p.nonce in c.seen && c.seen[p.nonce] == p.Issued())
  }

  lemma BarredStaysBarred(c: Cache, v: Verify, local: bytes, e: Event, p: Proof, then0: int)
    requires Barred(c, p, then0) && then0 <= e.now
    ensures Barred(Step(c, v, local, true, e).0, p, e.now)
    ensures var r := Step(c, v, local, true, e).1; r.Admit? ==>
        r.proof.nonce != p.nonce || r.proof.issuedAt != p.issuedAt
  {}

  lemma AcceptedIsBarred(c: Cache, v: Verify, local: bytes, e: Event)
    requires Step(c, v, local, true, e).1.Admit?
    ensures Barred(Step(c, v, local, true, e).0, Step(c, v, local, true, e).1.proof, e.now)
  {}

  lemma {:induction false} AcceptedStayBarred(v: Verify, local: bytes, es: seq<Event>, i: nat, now: int)
    requires Ordered(es) && i < |es| && es[|es| - 1].now <= now
    requires Outcomes(v, local, true, es)[i].Admit?
    ensures Barred(After(v, local, true, es), Outcomes(v, local, true, es)[i].proof, now)
  {
    var init, e := es[..|es| - 1], es[|es| - 1];
    var c := After(v, local, true, init);
    if i == |init| {
      AcceptedIsBarred(c, v, local, e);
    } else {
      assert init[|init| - 1].now <= e.now;
      AcceptedStayBarred(v, local, init, i, e.now);
      BarredStaysBarred(c, v, local, e, Outcomes(v, local, true, init)[i].proof, e.now);
    }
    hide Step;
  }

  /** One (nonce, issued_at) pair is accepted at most once per session, whatever is presented. */
  lemma {:induction false} AcceptedOnce(v: Verify, local: bytes, es: seq<Event>, i: nat, j: nat)
    requires Ordered(es) && i < j < |es|
    requires Outcomes(v, local, true, es)[i].Admit? && Outcomes(v, local, true, es)[j].Admit?
    ensures var p, q := Outcomes(v, local, true, es)[i].proof, Outcomes(v, local, true, es)[j].proof;
      p.nonce != q.nonce || p.issuedAt != q.issuedAt
  {
    var init, e := es[..|es| - 1], es[|es| - 1];
    if j == |init| {
      assert init[|init| - 1].now <= e.now;
      AcceptedStayBarred(v, local, init, i, e.now);
      BarredStaysBarred(After(v, local, true, init), v, local, e, Outcomes(v, local, true, init)[i].proof, e.now);
    } else {
      AcceptedOnce(v, local, init, i, j);
    }
    hide Step;
  }
}
