/**
 Owned-level authorisation end to end: the initiator's unlock machine, the
 acceptor's gate, and a network that may hand the acceptor any proof whose
 signature it did not forge. The two ends keep their own clocks.
 */
module OwnedLevel {
  import opened Bytes
  import opened Signing
  import Unlock
  import opened Auth
  import opened Session

  /** A signature the initiator made: the call, the key it was made with, and the grant it was made under. */
  datatype Signed = Signed(call: Unlock.Event, issuedAt: i64, input: bytes, key: bytes, grant: Unlock.Expiry)

  /** A message that passed the acceptor's gate with owned=true. */
  datatype Admission = Admission(now: int, capId: byte, msgType: u16, proof: Proof, required: int, lookup: Lookup)

  datatype World = World(vault: Unlock.World, signed: seq<Signed>, cache: Cache, clock: int, admitted: seq<Admission>)

  /** What does not change during a session: both ends' keys and ids. */
  datatype Setup = Setup(local: bytes, verify: Verify, key: bytes, record: Record)

  datatype Action =
    | Initiator(e: Unlock.Event)
    | Present(proof: Option<Proof>)
    | Message(now: int, capId: byte, msgType: u16, required: int, lookup: Lookup)

  const BOOT: World := World(Unlock.BOOT, [], EMPTY, 0, [])

  function Step(s: Setup, w: World, a: Action): World {
    match a
    case Initiator(e) =>
      var (_, r) := Unlock.Respond(w.vault.vault, true, e);
      var signed :=
        if r.Proof? && e.target in w.vault.vault.grants
        then w.signed + [Signed(e, r.issuedAt, r.input, r.signedWith, w.vault.vault.grants[e.target])]
        else w.signed;
      w.(vault := Unlock.Step(w.vault, true, e), signed := signed)
    case Present(p) => w.(cache := ReceiveProof(w.cache, p).0)
    case Message(now, capId, msgType, required, l) =>
      var key := InForce(s.record, l).key;
      var o := ConsumeProof(w.cache, s.verify, s.local, now, key, capId, msgType).1;
      var (c, v) := Authorize(w.cache, s.verify, s.local, now, s.record, l, required, capId, msgType);
      var admitted :=
        if v == Served(true) && o.Admit?
        then w.admitted + [Admission(now, capId, msgType, o.proof, required, l)]
        else w.admitted;
      w.(cache := c, clock := now, admitted := admitted)
  }

  function After(s: Setup, acts: seq<Action>): World {
    if acts == [] then BOOT else Step(s, After(s, acts[..|acts| - 1]), acts[|acts| - 1])
  }

  /** Whatever of `p` verifies under the pinned privilege key was signed with that key by its holder. */
  ghost predicate NotForged(s: Setup, signed: seq<Signed>, p: Proof) {
    forall capId, msgType | Matches(s.verify, s.local, s.key, capId, msgType, p) ::
      WasSigned(signed, s.key, OwnedSigningInput(s.local, capId, msgType, p.nonce, p.issuedAt).value)
  }

  ghost predicate WasSigned(signed: seq<Signed>, key: bytes, input: bytes) {
    exists k :: 0 <= k < |signed| && signed[k].key == key && signed[k].input == input
  }

  /**
   The assumptions, one step at a time: presented signatures are not forged, the
   acceptor's clock does not run backwards, and the only privilege key it ever
   holds for this peer is the initiator's.
   */
  ghost predicate Allowed(s: Setup, w: World, a: Action) {
    match a
    case Initiator(_) => true
    case Present(p) => p.Some? ==> NotForged(s, w.signed, p.value)
    case Message(now, _, _, _, l) =>
        w.clock <= now && (|InForce(s.record, l).key| == KEY_LEN ==> InForce(s.record, l).key == s.key)
  }

  ghost predicate AllAllowed(s: Setup, acts: seq<Action>) {
    forall i | 0 <= i < |acts| :: Allowed(s, After(s, acts[..i]), acts[i])
  }

  // --- the invariant ----------------------------------------------------------

  /** A recorded signature covers exactly its call, made under a grant live at that instant. */
  ghost predicate SoundSignature(x: Signed) {
    && x.call.SignEv? && Unlock.Live(x.grant, x.call.now) && x.issuedAt == x.call.now / 1_000_000
    && OwnedSigningInput(x.call.target, x.call.capId, x.call.msgType, x.call.nonce, x.issuedAt) == Some(x.input)
  }

  ghost predicate PendingGenuine(s: Setup, w: World) {
    forall p <- w.cache.pending :: NotForged(s, w.signed, p)
  }

  function InputOf(s: Setup, a: Admission): Option<bytes> {
    OwnedSigningInput(s.local, a.capId, a.msgType, a.proof.nonce, a.proof.issuedAt)
  }

  ghost predicate SoundAdmission(s: Setup, w: World, a: Admission) {
    && InputOf(s, a).Some? && WasSigned(w.signed, s.key, InputOf(s, a).value) && !Stale(a.proof, a.now)
    && Barred(w.cache, a.proof, w.clock)
    && (a.required > LEVEL_TRUSTED && a.lookup.Found? && s.record.deviceId != [] ==> a.lookup.level >= a.required)
  }

  ghost predicate Distinct(s: Setup, admitted: seq<Admission>) {
    forall i, j | 0 <= i < j < |admitted| ::
      admitted[i].proof.nonce != admitted[j].proof.nonce || admitted[i].proof.issuedAt != admitted[j].proof.issuedAt
  }

  ghost predicate Inv(s: Setup, w: World) {
    && (forall x <- w.signed :: SoundSignature(x)) && PendingGenuine(s, w)
    && (forall a <- w.admitted :: SoundAdmission(s, w, a)) && Distinct(s, w.admitted)
  }

  lemma SigningKeepsInv(s: Setup, w: World, e: Unlock.Event)
    requires Inv(s, w)
    ensures Inv(s, Step(s, w, Initiator(e)))
  {
    var w' := Step(s, w, Initiator(e));
    assert forall input :: WasSigned(w.signed, s.key, input) ==> WasSigned(w'.signed, s.key, input) by {
      forall input | WasSigned(w.signed, s.key, input) ensures WasSigned(w'.signed, s.key, input) {
        var k :| 0 <= k < |w.signed| && w.signed[k].key == s.key && w.signed[k].input == input;
        assert w'.signed[k] == w.signed[k];
      }
    }
    if e.SignEv? {
      Unlock.SigningNeedsLiveGrant(w.vault.vault, true, e);
      hide Unlock.Respond;
      hide Unlock.Step;
      forall x <- w'.signed ensures SoundSignature(x) {}
    }
  }

  lemma ReceivingKeepsInv(s: Setup, w: World, p: Option<Proof>)
    requires Inv(s, w) && (p.Some? ==> NotForged(s, w.signed, p.value))
    ensures Inv(s, Step(s, w, Present(p)))
  {
    var w' := Step(s, w, Present(p));
    assert forall q <- w'.cache.pending :: q in w.cache.pending || Some(q) == p;
    hide NotForged;
    forall a <- w'.admitted ensures SoundAdmission(s, w', a) {
      assert SoundAdmission(s, w, a);
    }
  }

  lemma ConsumingKeepsPending(c: Cache, v: Verify, local: bytes, now: int, key: bytes, capId: byte, msgType: u16)
    ensures forall q <- ConsumeProof(c, v, local, now, key, capId, msgType).0.pending :: q in c.pending
    ensures var o := ConsumeProof(c, v, local, now, key, capId, msgType).1;
      o.Admit? ==>
        && |key| == KEY_LEN && o.proof in c.pending
        && Matches(v, local, key, capId, msgType, o.proof) && !Stale(o.proof, now)
  {}

  lemma MessageKeepsInv(s: Setup, w: World, a: Action)
    requires a.Message? && Inv(s, w) && Allowed(s, w, a)
    ensures Inv(s, Step(s, w, a))
  {
    var w' := Step(s, w, a);
    var key := InForce(s.record, a.lookup).key;
    var (c, o) := ConsumeProof(w.cache, s.verify, s.local, a.now, key, a.capId, a.msgType);
    assert w'.cache == c && w'.signed == w.signed && w'.clock == a.now;
    ConsumingKeepsPending(w.cache, s.verify, s.local, a.now, key, a.capId, a.msgType);
    var e := Consume(a.now, key, a.capId, a.msgType);
    assert Auth.Step(w.cache, s.verify, s.local, true, e) == (c, o);
    forall x <- w.admitted ensures SoundAdmission(s, w', x) {
      BarredStaysBarred(w.cache, s.verify, s.local, e, x.proof, w.clock);
    }
    if |w'.admitted| > |w.admitted| {
      var x := w'.admitted[|w.admitted|];
      AcceptedIsBarred(w.cache, s.verify, s.local, e);
      assert NotForged(s, w.signed, o.proof);
      assert SoundAdmission(s, w', x);
      forall y <- w.admitted ensures y.proof.nonce != x.proof.nonce || y.proof.issuedAt != x.proof.issuedAt {
        BarredStaysBarred(w.cache, s.verify, s.local, e, y.proof, w.clock);
      }
    }
    hide ConsumeProof;
    hide Auth.Step;
    hide Authorize;
  }

  lemma {:induction false} InvHolds(s: Setup, acts: seq<Action>)
    requires AllAllowed(s, acts)
    ensures Inv(s, After(s, acts))
  {
    if acts != [] {
      var init, a := acts[..|acts| - 1], acts[|acts| - 1];
      assert forall i | 0 <= i < |init| :: init[..i] == acts[..i];
      InvHolds(s, init);
      assert Allowed(s, After(s, init), a);
      match a {
        case Initiator(e) => SigningKeepsInv(s, After(s, init), e);
        case Present(p) => ReceivingKeepsInv(s, After(s, init), p);
        case Message(_, _, _, _, _) => MessageKeepsInv(s, After(s, init), a);
      }
      hide Step;
    }
  }

  // --- the theorem ------------------------------------------------------------

  /**
   `x` is the initiator's signature behind `a`: with the pinned key, for this acceptor and operation, under a
   live grant.
   */
  ghost predicate Authorises(s: Setup, x: Signed, a: Admission) {
    && x.call.SignEv? && x.call.target == s.local && x.call.capId == a.capId && x.call.msgType == a.msgType
    && x.call.nonce == a.proof.nonce && x.issuedAt == a.proof.issuedAt == x.call.now / 1_000_000
    && Unlock.Live(x.grant, x.call.now) && x.key == s.key
    && -PROOF_WINDOW <= a.now - a.proof.Issued() <= PROOF_WINDOW
  }

  /**
   In every allowed run of one session, each message admitted with owned=true
   traces to a signature the initiator made for exactly this acceptor, capability
   and message type while it held a live grant for that acceptor, issued within
   60 seconds of the acceptor's clock; and an Owned-requiring handler saw a record
   of at least its level wherever the lookup found one.
   */
  lemma AdmissionIsAuthorised(s: Setup, acts: seq<Action>, i: nat)
    requires AllAllowed(s, acts) && i < |After(s, acts).admitted|
    ensures exists x <- After(s, acts).signed :: Authorises(s, x, After(s, acts).admitted[i])
    ensures var a := After(s, acts).admitted[i];
      a.required > LEVEL_TRUSTED && a.lookup.Found? && s.record.deviceId != [] ==> a.lookup.level >= a.required
  {
    InvHolds(s, acts);
    var w := After(s, acts);
    var a := w.admitted[i];
    assert SoundAdmission(s, w, a);
    var k :| 0 <= k < |w.signed| && w.signed[k].key == s.key && w.signed[k].input == InputOf(s, a).value;
    var x := w.signed[k];
    assert x in w.signed && SoundSignature(x);
    OwnedInputInjective(x.call.target, x.call.capId, x.call.msgType, x.call.nonce, x.issuedAt,
                        s.local, a.capId, a.msgType, a.proof.nonce, a.proof.issuedAt);
  }

  /** No signed input is spent twice. */
  lemma AdmissionsAreInjective(s: Setup, acts: seq<Action>, i: nat, j: nat)
    requires AllAllowed(s, acts) && i < j < |After(s, acts).admitted|
    ensures InputOf(s, After(s, acts).admitted[i]).Some?
    ensures InputOf(s, After(s, acts).admitted[i]) != InputOf(s, After(s, acts).admitted[j])
  {
    InvHolds(s, acts);
    var w := After(s, acts);
    var a, b := w.admitted[i], w.admitted[j];
    assert SoundAdmission(s, w, a) && SoundAdmission(s, w, b);
    if InputOf(s, a) == InputOf(s, b) {
      OwnedInputInjective(s.local, a.capId, a.msgType, a.proof.nonce, a.proof.issuedAt,
                          s.local, b.capId, b.msgType, b.proof.nonce, b.proof.issuedAt);
    }
  }

  // --- the theorem is not empty -------------------------------------------------

  lemma AfterSnoc(s: Setup, acts: seq<Action>, a: Action)
    ensures After(s, acts + [a]) == Step(s, After(s, acts), a)
    ensures AllAllowed(s, acts) && Allowed(s, After(s, acts), a) ==> AllAllowed(s, acts + [a])
  {
    var all := acts + [a];
    assert all[..|acts|] == acts;
    assert forall i | 0 <= i < |acts| :: all[..i] == acts[..i] && all[i] == acts[i];
    hide Step;
    hide Allowed;
  }

  function UnlockAction(s: Setup): Action { Initiator(Unlock.UnlockEv(0, s.local, true, 0, Unlock.Opened(s.key))) }

  function SignAction(s: Setup, capId: byte, msgType: u16, nonce: bytes): Action {
    Initiator(Unlock.SignEv(0, s.local, capId, msgType, nonce))
  }

  lemma UnlockStep(s: Setup)
    requires ValidDeviceId(s.local)
    ensures Step(s, BOOT, UnlockAction(s))
         == BOOT.(vault := Unlock.World(Unlock.Vault(Some(s.key), map[s.local := Unlock.Never], 0, None), []))
  {
    assert Unlock.LiveGrants(map[], 0) == map[];
  }

  lemma SignStep(s: Setup, w: World, capId: byte, msgType: u16, nonce: bytes)
    requires ValidDeviceId(s.local) && |nonce| == NONCE_LEN && w.signed == []
    requires w.vault.vault == Unlock.Vault(Some(s.key), map[s.local := Unlock.Never], 0, None)
    ensures var u := Step(s, w, SignAction(s, capId, msgType, nonce));
      u == w.(vault := u.vault, signed := u.signed) &&
          WasSigned(u.signed, s.key, OwnedSigningInput(s.local, capId, msgType, nonce, 0).value)
  {
    assert Unlock.LiveGrants(w.vault.vault.grants, 0) == w.vault.vault.grants;
    var u := Step(s, w, SignAction(s, capId, msgType, nonce));
    assert |u.signed| == 1 && u.signed[0].key == s.key &&
        u.signed[0].input == OwnedSigningInput(s.local, capId, msgType, nonce, 0).value;
  }

  /** The initiator after unlocking for this acceptor and signing once. */
  lemma SigningRun(s: Setup, capId: byte, msgType: u16, nonce: bytes)
    requires ValidDeviceId(s.local) && |nonce| == NONCE_LEN
    ensures var w := After(s, [UnlockAction(s), SignAction(s, capId, msgType, nonce)]);
      && AllAllowed(s, [UnlockAction(s), SignAction(s, capId, msgType, nonce)])
      && w.cache == EMPTY && w.clock == 0 && w.admitted == []
      && WasSigned(w.signed, s.key, OwnedSigningInput(s.local, capId, msgType, nonce, 0).value)
  {
    var e, f := UnlockAction(s), SignAction(s, capId, msgType, nonce);
    assert AllAllowed(s, []) && After(s, []) == BOOT;
    assert forall w :: Allowed(s, w, e) && Allowed(s, w, f);
    hide *;
    AfterSnoc(s, [], e);
    AfterSnoc(s, [e], f);
    assert [] + [e] == [e] && [e] + [f] == [e, f];
    UnlockStep(s);
    SignStep(s, After(s, [e]), capId, msgType, nonce);
  }

  /** A proof honestly made is admitted: unlock, sign, present, operate. */
  lemma HonestProofIsAdmitted(s: Setup, capId: byte, msgType: u16, nonce: bytes, sig: bytes, required: int, l: Lookup)
    requires ValidDeviceId(s.local) && |nonce| == NONCE_LEN && |sig| == SIGNATURE_LEN && |s.key| == KEY_LEN
    requires forall b: bytes :: s.verify(s.key, b, sig) <==>
        Some(b) == OwnedSigningInput(s.local, capId, msgType, nonce, 0)
    requires InForce(s.record, l).key == s.key && InForce(s.record, l).level >= required
    ensures var p := Proof(nonce, 0, sig);
      var acts := [UnlockAction(s), SignAction(s, capId, msgType, nonce), Present(Some(p)),
          Message(0, capId, msgType, required, l)];
      AllAllowed(s, acts) && After(s, acts).admitted == [Admission(0, capId, msgType, p, required, l)]
  {
    var p := Proof(nonce, 0, sig);
    var first := [UnlockAction(s), SignAction(s, capId, msgType, nonce)];
    SigningRun(s, capId, msgType, nonce);
    var w := After(s, first);
    AfterSnoc(s, first, Present(Some(p)));
    AfterSnoc(s, first + [Present(Some(p))], Message(0, capId, msgType, required, l));
    assert first + [Present(Some(p))] + [Message(0, capId, msgType, required, l)]
        == [UnlockAction(s), SignAction(s, capId, msgType, nonce), Present(Some(p)),
            Message(0, capId, msgType, required, l)];
    hide After;
    hide UnlockAction;
    hide SignAction;
    hide AllAllowed;
    assert NotForged(s, w.signed, p) && Matches(s.verify, s.local, s.key, capId, msgType, p);
    assert Allowed(s, w, Present(Some(p)));
    hide NotForged;
    hide OwnedSigningInput;
    OneProof(s, Step(s, w, Present(Some(p))), capId, msgType, p, required, l);
  }

  lemma OneProof(s: Setup, w: World, capId: byte, msgType: u16, p: Proof, required: int, l: Lookup)
    requires w.cache == Cache([p], map[]) && w.admitted == [] && !Stale(p, 0) && |s.key| == KEY_LEN
    requires Matches(s.verify, s.local, s.key, capId, msgType, p)
    requires InForce(s.record, l).key == s.key && InForce(s.record, l).level >= required
    ensures Step(s, w, Message(0, capId, msgType, required, l)).admitted
        == [Admission(0, capId, msgType, p, required, l)]
  {
    assert Prune(w.cache, 0) == w.cache;
    assert FirstMatch(s.verify, s.local, s.key, capId, msgType, [p]) == 0;
  }

  // --- the dispatchers are made of these steps --------------------------------

  ghost predicate Fits(s: Setup, cfg: Config) {
    cfg.local == s.local && cfg.verify == s.verify && cfg.record == s.record
  }

  function Run(s: Setup, w: World, acts: seq<Action>): World
    decreases |acts|
  {
    if acts == [] then w else Run(s, Step(s, w, acts[0]), acts[1..])
  }

  function OperationSteps(cfg: Config, now: int, l: Lookup, e: Envelope): seq<Action>
    requires e.capId in cfg.handlers
  {
    [Message(now, e.capId, e.msgType, cfg.handlers[e.capId].required, l)]
  }

  function DispatchSteps(cfg: Config, now: int, l: Lookup, e: Envelope): seq<Action> {
    if e.capId == 0 && e.msgType == MSG_AUTH_PROOF then [Present(cfg.parse(e.payload))]
    else if (e.capId == 0 && (e.msgType == 0 || e.msgType > LAST_CONTROL_TYPE)) || !HasQueue(cfg, e.capId) then []
    else OperationSteps(cfg, now, l, e)
  }

  function OpenSteps(cfg: Config, now: int, l: Lookup, e: Envelope): seq<Action> {
    if e.capId == 0 || e.capId !in cfg.caps || e.capId !in cfg.handlers then [] else OperationSteps(cfg, now, l, e)
  }

  function StreamSteps(cfg: Config, now: int, l: Lookup, first: Frame, second: Frame): seq<Action> {
    if first.Bad? then []
    else if first.e.capId != 0 || first.e.msgType != MSG_AUTH_PROOF then OpenSteps(cfg, now, l, first.e)
    else [Present(cfg.parse(first.e.payload))]
         + (if ReceiveProof(EMPTY, cfg.parse(first.e.payload)).1 != NoCode || second.Bad? || second.e.capId == 0 then []
            else OpenSteps(cfg, now, l, second.e))
  }

  /** `w'` is `w` with the cache `c`, and one more admission exactly if `owned`. */
  ghost predicate Effect(w: World, w': World, c: Cache, owned: bool, now: int, capId: byte, msgType: u16) {
    && w'.cache == c && w'.signed == w.signed && w'.vault == w.vault
    && (if owned then
          && |w'.admitted| == |w.admitted| + 1 && w'.admitted[..|w.admitted|] == w.admitted
          && var a := w'.admitted[|w.admitted|]; a.now == now && a.capId == capId && a.msgType == msgType
        else w'.admitted == w.admitted)
  }

  lemma MessageEffect(s: Setup, w: World, now: int, capId: byte, msgType: u16, required: int, l: Lookup)
    ensures var (c, v) := Authorize(w.cache, s.verify, s.local, now, s.record, l, required, capId, msgType);
      Effect(w, Step(s, w, Message(now, capId, msgType, required, l)), c, v == Served(true), now, capId, msgType)
  {
    hide ConsumeProof;
  }

  /** A control frame queued with owned=true is one admission of the model; no other frame admits anything. */
  lemma DispatchIsSteps(s: Setup, cfg: Config, w: World, now: int, l: Lookup, e: Envelope)
    requires Fits(s, cfg)
    ensures var (c, a) := Dispatched(cfg, w.cache, now, l, e);
      Effect(w, Run(s, w, DispatchSteps(cfg, now, l, e)), c, a == Queued(true), now, e.capId, e.msgType)
  {
    var acts := DispatchSteps(cfg, now, l, e);
    if acts != [] {
      assert acts[1..] == [];
      assert Run(s, w, acts) == Step(s, w, acts[0]);
      if acts[0].Message? { MessageEffect(s, w, now, e.capId, e.msgType, cfg.handlers[e.capId].required, l); }
    }
    hide Authorize;
  }

  lemma OpenIsSteps(s: Setup, cfg: Config, w: World, now: int, l: Lookup, e: Envelope)
    requires Fits(s, cfg)
    ensures var (c, r) := OpenStream(cfg, w.cache, now, l, e);
      Effect(w, Run(s, w, OpenSteps(cfg, now, l, e)), c, r == Opened(e.capId, e.msgType, true), now, e.capId, e.msgType)
  {
    var acts := OpenSteps(cfg, now, l, e);
    if acts != [] {
      assert acts[1..] == [];
      assert Run(s, w, acts) == Step(s, w, acts[0]);
      MessageEffect(s, w, now, e.capId, e.msgType, cfg.handlers[e.capId].required, l);
    }
    hide Authorize;
  }

  /** The same for a capability stream, whose proof may ride in its first frame. */
  lemma StreamIsSteps(s: Setup, cfg: Config, w: World, now: int, l: Lookup, first: Frame, second: Frame)
    requires Fits(s, cfg)
    ensures var (c, r) := StreamServed(cfg, w.cache, now, l, first, second);
      var owned := r.Opened? && r.owned;
      Effect(w, Run(s, w, StreamSteps(cfg, now, l, first, second)), c, owned, now,
             if owned then r.capId else 0, if owned then r.msgType else 0)
  {
    if first.Good? {
      if first.e.capId != 0 || first.e.msgType != MSG_AUTH_PROOF {
        OpenIsSteps(s, cfg, w, now, l, first.e);
      } else {
        var proof := cfg.parse(first.e.payload);
        var w1 := Step(s, w, Present(proof));
        var acts := StreamSteps(cfg, now, l, first, second);
        assert acts[0] == Present(proof);
        assert Run(s, w, acts) == Run(s, w1, acts[1..]);
        if ReceiveProof(w.cache, proof).1 == NoCode && second.Good? && second.e.capId != 0 {
          assert acts[1..] == OpenSteps(cfg, now, l, second.e);
          OpenIsSteps(s, cfg, w1, now, l, second.e);
        } else {
          assert acts[1..] == [];
        }
      }
    }
    hide OpenStream;
    hide OpenSteps;
  }
}
