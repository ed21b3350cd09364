/**
 Unlock sessions (internal/identity/unlock.go): the decrypted privilege key, the
 per-peer grants that justify holding it, and the passphrase throttle.

 Times are integers in nanoseconds. A zero Go time ("no expiry", "no retry bar")
 is its own constructor here.
 */
module Unlock {
  import opened Bytes
  import opened Signing

  const SECOND: int := 1_000_000_000
  const HOUR: int := 3600 * SECOND
  const DEFAULT_TOKEN_LIFETIME: int := 6 * HOUR
  const MAX_IN_FLIGHT_GRACE: int := HOUR
  const THROTTLE_AFTER: nat := 3
  const THROTTLE_STEP: int := 2 * SECOND
  const THROTTLE_CEILING: int := 30 * SECOND

  /** Instants whose millisecond count fits an i64. */
  type instant = t: int | -0x8000_0000_0000_0000 * 1_000_000 <= t < 0x8000_0000_0000_0000 * 1_000_000

  datatype Expiry = Never | At(t: int)

  /** unlockState. */
  datatype Vault = Vault(key: Option<bytes>, grants: map<bytes, Expiry>, failures: nat, nextRetry: Option<int>)

  const LOCKED: Vault := Vault(None, map[], 0, None)

  predicate Live(e: Expiry, now: int) { e.Never? || now < e.t }

  function LiveGrants(grants: map<bytes, Expiry>, now: int): map<bytes, Expiry> {
    map id | id in grants && Live(grants[id], now) :: grants[id]
  }

  /** The key is wiped once no grant is left to justify it. */
  function Justified(v: Vault): Vault { if v.grants == map[] then v.(key := None) else v }

  function Expire(v: Vault, now: int): Vault { Justified(v.(grants := LiveGrants(v.grants, now))) }

  function ThrottleDelay(failures: nat): int {
    if failures < THROTTLE_AFTER then 0
    else
      var d := (failures - THROTTLE_AFTER + 1) * THROTTLE_STEP;
      if d > THROTTLE_CEILING then THROTTLE_CEILING else d
  }

  predicate Throttled(v: Vault, now: int) {
    v.failures >= THROTTLE_AFTER && v.nextRetry.Some? && now < v.nextRetry.value
  }

  /** What opening the sealed key came to. */
  datatype Opening = Opened(key: bytes) | WrongPassphrase | OpenFailed

  datatype Reply =
    | Granted(until: Expiry) | BadTarget | NoPrivilegeKey | TryLater | Refused(why: Opening)
    | Proof(nonce: bytes, issuedAt: i64, input: bytes, signedWith: bytes) | NoSession | NoInput
    | Started(deadline: Expiry) | Done

  function UnlockVault(v0: Vault, now: instant, hasKey: bool, target: bytes, never: bool, lifetime: int,
                       opening: Opening): (Vault, Reply) {
    if !ValidDeviceId(target) then (v0, BadTarget)
    else if !hasKey then (v0, NoPrivilegeKey)
    else
      var v := Expire(v0, now);
      if Throttled(v, now) then (v, TryLater)
      else if v.key.None? && !opening.Opened? then
        (if opening.WrongPassphrase?
            then v.(failures := v.failures + 1, nextRetry := Some(now + ThrottleDelay(v.failures + 1))) else v,
         Refused(opening))
      else
        var key := if v.key.None? then opening.key else v.key.value;
        var until := if never then Never else At(now + if lifetime <= 0 then DEFAULT_TOKEN_LIFETIME else lifetime);
        (Vault(Some(key), v.grants[target := until], 0, None), Granted(until))
  }

  function LockPeerVault(v: Vault, target: bytes): Vault { Justified(v.(grants := v.grants - {target})) }

  function SignVault(v0: Vault, now: instant, hasKey: bool, target: bytes, capId: byte, msgType: u16,
                     nonce: bytes): (Vault, Reply) {
    if !hasKey then (v0, NoPrivilegeKey)
    else
      var v := Expire(v0, now);
      if target !in v.grants || v.key.None? then (v, NoSession)
      else
        var issuedAt := now / 1_000_000;
        match OwnedSigningInput(target, capId, msgType, nonce, issuedAt)
        case None => (v, NoInput)
        case Some(input) => (v, Proof(nonce, issuedAt, input, v.key.value))
  }

  function Grace(e: Expiry): Expiry { if e.Never? then Never else At(e.t + MAX_IN_FLIGHT_GRACE) }

  function BeginVault(v0: Vault, now: instant, hasKey: bool, target: bytes): (Vault, Reply) {
    if !hasKey then (v0, NoPrivilegeKey)
    else
      var v := Expire(v0, now);
      if target !in v.grants then (v, NoSession) else (v, Started(Grace(v.grants[target])))
  }

  // --- the code ---------------------------------------------------------------

  /** The unlock half of FileIdentity. */
  class FileIdentity {
    const hasKey: bool
    var key: Option<bytes>
    var grants: map<bytes, Expiry>
    var failures: nat
    var nextRetry: Option<int>

    function State(): Vault
      reads this
    {
      Vault(key, grants, failures, nextRetry)
    }

    constructor (hasKey: bool)
      ensures this.hasKey == hasKey && State() == LOCKED
    {
      this.hasKey := hasKey;
      key, grants, failures, nextRetry := None, map[], 0, None;
    }

    method WipeLocked()
      modifies this`key
      ensures key == None
    {
      key := None;
    }

    method ExpireLocked(now: int)
      modifies this
      ensures State() == Expire(old(State()), now)
    {
      var todo := grants.Keys;
      while todo != {}
        invariant todo <= old(grants).Keys
        invariant grants == map id | id in old(grants) && (id in todo || Live(old(grants)[id], now)) :: old(grants)[id]
        invariant key == old(key) && failures == old(failures) && nextRetry == old(nextRetry)
        decreases todo
      {
        var id :| id in todo;
        if !Live(grants[id], now) {
          grants := grants - {id};
        }
        todo := todo - {id};
      }
      assert grants == LiveGrants(old(grants), now);
      if |grants| == 0 {
        WipeLocked();
      }
    }

    method Unlock(now: instant, target: bytes, never: bool, lifetime: int, opening: Opening) returns (r: Reply)
      modifies this
      ensures (State(), r) == UnlockVault(old(State()), now, hasKey, target, never, lifetime, opening)
    {
      if !ValidDeviceId(target) {
        return BadTarget;
      }
      if !hasKey {
        return NoPrivilegeKey;
      }
      ExpireLocked(now);
      if failures >= THROTTLE_AFTER && nextRetry.Some? && now < nextRetry.value {
        return TryLater;
      }
      if key == None {
        if !opening.Opened? {
          if opening == WrongPassphrase {
            failures := failures + 1;
            nextRetry := Some(now + ThrottleDelay(failures));
          }
          return Refused(opening);
        }
        key := Some(opening.key);
      }
      failures := 0;
      nextRetry := None;
      var until := Never;
      if !never {
        until := At(now + if lifetime <= 0 then DEFAULT_TOKEN_LIFETIME else lifetime);
      }
      grants := grants[target := until];
      r := Granted(until);
    }

    method Lock()
      modifies this
      ensures State() == old(State()).(key := None, grants := map[])
    {
      grants := map[];
      WipeLocked();
    }

    method LockPeer(target: bytes)
      modifies this
      ensures State() == LockPeerVault(old(State()), target)
    {
      grants := grants - {target};
      if |grants| == 0 {
        WipeLocked();
      }
    }

    method UnlockedUntil(now: int, target: bytes) returns (r: Option<Expiry>)
      modifies this
      ensures State() == Expire(old(State()), now)
      ensures r == if target in old(grants) && Live(old(grants)[target], now) then Some(old(grants)[target]) else None
    {
      ExpireLocked(now);
      r := if target in grants then Some(grants[target]) else None;
    }

    method SignOwned(now: instant, target: bytes, capId: byte, msgType: u16, nonce: bytes) returns (r: Reply)
      modifies this
      ensures (State(), r) == SignVault(old(State()), now, hasKey, target, capId, msgType, nonce)
    {
      if !hasKey {
        return NoPrivilegeKey;
      }
      ExpireLocked(now);
      if target !in grants || key == None {
        return NoSession;
      }
      var input := OwnedSigningInput(target, capId, msgType, nonce, now / 1_000_000);
      if input == None {
        return NoInput;
      }
      r := Proof(nonce, now / 1_000_000, input.value, key.value);
    }

    method BeginOwned(now: instant, target: bytes) returns (r: Reply)
      modifies this
      ensures (State(), r) == BeginVault(old(State()), now, hasKey, target)
    {
      if !hasKey {
        return NoPrivilegeKey;
      }
      ExpireLocked(now);
      if target !in grants {
        return NoSession;
      }
      r := Started(Grace(grants[target]));
    }
  }

  datatype Operation = Operation(deadline: Expiry, ended: bool)

  /** Operation.Check. */
  predicate Check(op: Operation, now: int) {
    !op.ended && (op.deadline.Never? || now <= op.deadline.t)
  }

  // --- runs -------------------------------------------------------------------

  datatype Event =
    | UnlockEv(now: instant, target: bytes, never: bool, lifetime: int, opening: Opening)
    | LockEv(now: instant)
    | LockPeerEv(now: instant, target: bytes)
    | SignEv(now: instant, target: bytes, capId: byte, msgType: u16, nonce: bytes)
    | BeginEv(now: instant, target: bytes)
    | EndEv(now: instant, op: nat)
    | QueryEv(now: instant)   // UnlockedUntil, UnlockedPeers and the reaper all just expire

  /** The vault and every operation begun so far. */
  datatype World = World(vault: Vault, ops: seq<Operation>)

  function Respond(v: Vault, hasKey: bool, e: Event): (Vault, Reply) {
    match e
    case UnlockEv(now, target, never, lifetime, opening) =>
        UnlockVault(v, now, hasKey, target, never, lifetime, opening)
    case LockEv(_) => (v.(key := None, grants := map[]), Done)
    case LockPeerEv(_, target) => (LockPeerVault(v, target), Done)
    case SignEv(now, target, capId, msgType, nonce) => SignVault(v, now, hasKey, target, capId, msgType, nonce)
    case BeginEv(now, target) => BeginVault(v, now, hasKey, target)
    case EndEv(_, _) => (v, Done)
    case QueryEv(now) => (Expire(v, now), Done)
  }

  function Step(w: World, hasKey: bool, e: Event): World {
    var (v, r) := Respond(w.vault, hasKey, e);
    var ops := if r.Started? then w.ops + [Operation(r.deadline, false)]
               else if e.EndEv? && e.op < |w.ops| then w.ops[e.op := w.ops[e.op].(ended := true)]
               else w.ops;
    World(v, ops)
  }

  function After(w: World, hasKey: bool, es: seq<Event>): World {
    if es == [] then w else Step(After(w, hasKey, es[..|es| - 1]), hasKey, es[|es| - 1])
  }

  const BOOT: World := World(LOCKED, [])

  /** The decrypted key is held exactly while some grant is recorded. */
  ghost predicate KeyJustified(v: Vault) { v.key.Some? <==> v.grants != map[] }

  lemma RespondKeepsKeyJustified(v: Vault, hasKey: bool, e: Event)
    requires KeyJustified(v)
    ensures KeyJustified(Respond(v, hasKey, e).0)
  {
    if e.UnlockEv? && Respond(v, hasKey, e).1.Granted? {
      assert e.target in Respond(v, hasKey, e).0.grants;
    }
  }

  lemma {:induction false} KeyHeldIffGranted(hasKey: bool, es: seq<Event>)
    ensures KeyJustified(After(BOOT, hasKey, es).vault)
  {
    if es != [] {
      KeyHeldIffGranted(hasKey, es[..|es| - 1]);
      RespondKeepsKeyJustified(After(BOOT, hasKey, es[..|es| - 1]).vault, hasKey, es[|es| - 1]);
    }
  }

  /** An entry point that consults the clock leaves no lapsed grant behind. */
  ghost predicate Expiring(hasKey: bool, e: Event) {
    e.QueryEv? || (hasKey && (e.SignEv? || e.BeginEv? || (e.UnlockEv? && ValidDeviceId(e.target))))
  }

  lemma NoLapsedGrants(v: Vault, hasKey: bool, e: Event)
    requires Expiring(hasKey, e)
    ensures forall id <- Respond(v, hasKey, e).0.grants :: Live(Respond(v, hasKey, e).0.grants[id], e.now)
  {}

  /** Signing takes a grant for exactly this target, live at this instant, and uses the key that grant justifies. */
  lemma SigningNeedsLiveGrant(v: Vault, hasKey: bool, e: Event)
    requires e.SignEv?
    ensures var r := Respond(v, hasKey, e).1;
      r.Proof? ==>
        && hasKey && e.target in v.grants && Live(v.grants[e.target], e.now) && v.key == Some(r.signedWith)
        && r.nonce == e.nonce && r.issuedAt == e.now / 1_000_000
        && OwnedSigningInput(e.target, e.capId, e.msgType, e.nonce, r.issuedAt) == Some(r.input)
  {}

  /**
   The two rules of section 6.5 of PROTOCOL.md together. Take an operation started while its target's
   grant expired at `until`. After any later events - locking, extending, other
   operations - it passes Check iff nobody ended it and the clock is no further
   than an hour past `until`; under the never policy the clock does not matter.
   */
  lemma {:induction false} OperationOutlivesItsGrant(w: World, hasKey: bool, begin: Event, later: seq<Event>, now: int)
    requires begin.BeginEv? && Respond(w.vault, hasKey, begin).1.Started?
    ensures begin.target in w.vault.grants && Live(w.vault.grants[begin.target], begin.now)
    ensures var until := w.vault.grants[begin.target];
      var ops := After(Step(w, hasKey, begin), hasKey, later).ops;
      && |w.ops| < |ops| && ops[|w.ops|].deadline == Grace(until)
      && (Check(ops[|w.ops|], now) <==>
          (forall e <- later :: !(e.EndEv? && e.op == |w.ops|)) && (until.Never? || now <= until.t + HOUR))
  {
    if later != [] {
      var init, last := later[..|later| - 1], later[|later| - 1];
      OperationOutlivesItsGrant(w, hasKey, begin, init, now);
      assert forall e :: e in later <==> e in init || e == last;
    }
  }

  // --- what a run of calls grants ---------------------------------------------------

  /** The expiry asked for. */
  function Asked(e: Event): Expiry
    requires e.UnlockEv?
  {
    if e.never then Never else At(e.now + if e.lifetime > 0 then e.lifetime else 6 * 3600 * 1_000_000_000)
  }

  /** By the calls and their replies alone: what the last call that concerned `target` left it with. */
  function LastGrant(hasKey: bool, es: seq<Event>, target: bytes): Option<Expiry> {
    if es == [] then None
    else
      var init, e := es[..|es| - 1], es[|es| - 1];
      match e
      case LockEv(_) => None
      case LockPeerEv(_, t) => if t == target then None else LastGrant(hasKey, init, target)
      case UnlockEv(_, t, _, _, _) =>
        if t == target && Respond(After(BOOT, hasKey, init).vault, hasKey, e).1.Granted? then Some(Asked(e))
        else LastGrant(hasKey, init, target)
      case _ => LastGrant(hasKey, init, target)
  }

  predicate Alive(g: Option<Expiry>, now: int) { g.Some? && (g.value.Never? || now < g.value.t) }

  /** The vault holds what the history says, and has dropped nothing but what has lapsed. */
  ghost predicate Agrees(v: Vault, g: Option<Expiry>, target: bytes, now: int) {
    && (target in v.grants ==> g == Some(v.grants[target]))
    && (target !in v.grants ==> !Alive(g, now))
  }

  lemma StepAgrees(v: Vault, hasKey: bool, e: Event, g: Option<Expiry>, target: bytes)
    requires Agrees(v, g, target, e.now)
    ensures var (u, r) := Respond(v, hasKey, e);
      Agrees(u, if e.LockEv? || (e.LockPeerEv? && e.target == target) then None
                else if e.UnlockEv? && e.target == target && r.Granted? then Some(Asked(e)) else g, target, e.now)
  {
    hide OwnedSigningInput;
  }

  lemma {:induction false} GrantsFollowHistory(hasKey: bool, es: seq<Event>, target: bytes, now: int)
    requires Ordered(es) && (es != [] ==> es[|es| - 1].now <= now)
    ensures Agrees(After(BOOT, hasKey, es).vault, LastGrant(hasKey, es, target), target, now)
  {
    if es != [] {
      var init, e := es[..|es| - 1], es[|es| - 1];
      assert init != [] ==> init[|init| - 1].now <= e.now;
      GrantsFollowHistory(hasKey, init, target, e.now);
      StepAgrees(After(BOOT, hasKey, init).vault, hasKey, e, LastGrant(hasKey, init, target), target);
    }
    hide Respond;
  }

  /**
   Signing and beginning, over every run with an ordered clock: they succeed for a target iff its last
   unlock was granted, nothing has locked it since, and that unlock's own expiry has not come.
   */
  lemma SigningFollowsHistory(hasKey: bool, es: seq<Event>, now: instant, target: bytes, capId: byte, msgType: u16,
                              nonce: bytes)
    requires Ordered(es) && (es != [] ==> es[|es| - 1].now <= now)
    ensures var v, g := After(BOOT, hasKey, es).vault, LastGrant(hasKey, es, target);
      && (Respond(v, hasKey, SignEv(now, target, capId, msgType, nonce)).1.Proof?
          <==> hasKey && Alive(g, now) && ValidDeviceId(target) && |nonce| == 32)
      && (Respond(v, hasKey, BeginEv(now, target)).1.Started? <==> hasKey && Alive(g, now))
      && (hasKey && Alive(g, now) ==>
            Respond(v, hasKey, BeginEv(now, target)).1.deadline
            == if g.value.Never? then Never else At(g.value.t + 3600 * 1_000_000_000))
  {
    var v := After(BOOT, hasKey, es).vault;
    GrantsFollowHistory(hasKey, es, target, now);
    KeyHeldIffGranted(hasKey, es);
    var u := Expire(v, now);
    assert target in u.grants ==> u.grants != map[];
    assert target in u.grants <==> Alive(LastGrant(hasKey, es, target), now);
    hide After;
    hide LastGrant;
    hide Respond;
    SignVerdict(v, hasKey, now, target, capId, msgType, nonce);
  }

  lemma SignVerdict(v: Vault, hasKey: bool, now: instant, target: bytes, capId: byte, msgType: u16, nonce: bytes)
    requires KeyJustified(v)
    ensures var live := target in v.grants && Live(v.grants[target], now);
      && (Respond(v, hasKey, SignEv(now, target, capId, msgType, nonce)).1.Proof?
          <==> hasKey && live && ValidDeviceId(target) && |nonce| == 32)
      && (Respond(v, hasKey, BeginEv(now, target)).1.Started? <==> hasKey && live)
      && (hasKey && live ==>
            Respond(v, hasKey, BeginEv(now, target)).1.deadline
            == if v.grants[target].Never? then Never else At(v.grants[target].t + 3600 * 1_000_000_000))
  {
    assert target in LiveGrants(v.grants, now) <==> target in v.grants && Live(v.grants[target], now);
  }

  /** In so many words: a granted unlock, then calls that neither unlock nor lock its target. */
  lemma {:induction false} UnlockLasts(hasKey: bool, es: seq<Event>, e: Event, later: seq<Event>)
    requires e.UnlockEv? && Respond(After(BOOT, hasKey, es).vault, hasKey, e).1.Granted?
    requires forall x <- later ::
        !x.LockEv? && !(x.UnlockEv? && x.target == e.target) && !(x.LockPeerEv? && x.target == e.target)
    ensures LastGrant(hasKey, es + [e] + later, e.target) == Some(Asked(e))
    ensures Respond(After(BOOT, hasKey, es).vault, hasKey, e).1 == Granted(Asked(e))
  {
    var all := es + [e] + later;
    if later == [] {
      assert all == es + [e] && (es + [e])[..|es|] == es;
    } else {
      assert all[..|all| - 1] == es + [e] + later[..|later| - 1];
      UnlockLasts(hasKey, es, e, later[..|later| - 1]);
      hide Respond;
    }
  }

  /** A locked target has nothing until an unlock of it is granted again. */
  lemma {:induction false} LockLasts(hasKey: bool, es: seq<Event>, e: Event, target: bytes, later: seq<Event>)
    requires e.LockEv? || (e.LockPeerEv? && e.target == target)
    requires forall x <- later :: !(x.UnlockEv? && x.target == target)
    ensures LastGrant(hasKey, es + [e] + later, target) == None
  {
    var all := es + [e] + later;
    if later == [] {
      assert all == es + [e] && (es + [e])[..|es|] == es;
    } else {
      assert all[..|all| - 1] == es + [e] + later[..|later| - 1];
      LockLasts(hasKey, es, e, target, later[..|later| - 1]);
      hide Respond;
    }
  }

  /** Calls about other targets leave a target what it had. */
  lemma OthersUnaffected(hasKey: bool, es: seq<Event>, e: Event, target: bytes)
    requires !e.LockEv? && !(e.UnlockEv? && e.target == target) && !(e.LockPeerEv? && e.target == target)
    ensures LastGrant(hasKey, es + [e], target) == LastGrant(hasKey, es, target)
  {
    assert (es + [e])[..|es|] == es;
    hide Respond;
  }

  /**
   When an unlock is refused, with what, and which key and counters it leaves. A live session is extended
   without a passphrase.
   */
  lemma UnlockVerdict(v: Vault, hasKey: bool, e: Event)
    requires KeyJustified(v) && e.UnlockEv?
    ensures var (u, r) := Respond(v, hasKey, e);
      var open := exists id <- v.grants :: v.grants[id].Never? || e.now < v.grants[id].t;
      var barred := v.failures >= 3 && v.nextRetry.Some? && e.now < v.nextRetry.value;
      var tried := ValidDeviceId(e.target) && hasKey && !barred;
      && (r == BadTarget <==> !ValidDeviceId(e.target))
      && (r == NoPrivilegeKey <==> ValidDeviceId(e.target) && !hasKey)
      && (r == TryLater <==> ValidDeviceId(e.target) && hasKey && barred)
      && (r == Refused(e.opening) <==> tried && !open && !e.opening.Opened?)
      && (r == Granted(Asked(e)) <==> tried && (open || e.opening.Opened?))
      && (r.Granted? ==>
            && u.key == (if open then v.key else Some(e.opening.key))
            && u.failures == 0 && u.nextRetry == None)
      && (r == Refused(WrongPassphrase) ==> u.failures == v.failures + 1 && u.nextRetry.Some?)
      && (!r.Granted? && r != Refused(WrongPassphrase) ==> u.failures == v.failures && u.nextRetry == v.nextRetry)
  {
    var live := LiveGrants(v.grants, e.now);
    var open := exists id <- v.grants :: v.grants[id].Never? || e.now < v.grants[id].t;
    assert open <==> live != map[] by {
      if open {
        var id :| id in v.grants && (v.grants[id].Never? || e.now < v.grants[id].t);
        assert id in live;
      }
      if live != map[] {
        var id :| id in live;
        assert id in v.grants;
      }
    }
    hide ThrottleDelay;
  }

  // --- the throttle -----------------------------------------------------------

  ghost predicate Ordered(es: seq<Event>) {
    forall i, j | 0 <= i < j < |es| :: es[i].now <= es[j].now
  }

  /** The replies of a run. */
  function Replies(w: World, hasKey: bool, es: seq<Event>): seq<Reply> {
    if es == [] then []
    else Replies(w, hasKey, es[..|es| - 1]) + [Respond(After(w, hasKey, es[..|es| - 1]).vault, hasKey, es[|es| - 1]).1]
  }

  /** When the counted failures of a run happened. */
  function FailureTimes(w: World, hasKey: bool, es: seq<Event>): seq<int> {
    if es == [] then []
    else
      var init, last := es[..|es| - 1], es[|es| - 1];
      FailureTimes(w, hasKey, init)
      + Counted(Respond(After(w, hasKey, init).vault, hasKey, last).1, last.now)
  }

  /** The least time, in seconds, from the first failure to the n-th. */
  function LeastSpan(n: nat): int {
    if n < 3 then 0 else if n <= 18 then (n - 3) * (n - 2) else 240 + 30 * (n - 18)
  }

  lemma LeastSpanStep(n: nat)
    ensures LeastSpan(n + 1) * SECOND == LeastSpan(n) * SECOND + ThrottleDelay(n)
  {
    if 3 <= n <= 17 {
      assert (n - 2) * (n - 1) == (n - 3) * (n - 2) + 2 * (n - 2);
    }
  }

  ghost predicate Spaced(f: seq<int>) {
    forall n | 1 <= n <= |f| :: f[n - 1] - f[0] >= LeastSpan(n) * SECOND
  }

  /** What ties the vault to the failures `f` counted so far, the last of them no later than `now`. */
  ghost predicate Counting(v: Vault, f: seq<int>, now: int) {
    && Spaced(f) && v.failures == |f|
    && (f != [] ==> f[|f| - 1] <= now && v.nextRetry == Some(f[|f| - 1] + ThrottleDelay(|f|)))
  }

  function Counted(r: Reply, now: int): seq<int> { if r == Refused(WrongPassphrase) then [now] else [] }

  lemma CountingStep(v: Vault, hasKey: bool, e: Event, f: seq<int>)
    requires Counting(v, f, e.now) && !Respond(v, hasKey, e).1.Granted?
    ensures var (v', r) := Respond(v, hasKey, e); Counting(v', f + Counted(r, e.now), e.now)
  {
    var (v', r) := Respond(v, hasKey, e);
    if r == Refused(WrongPassphrase) {
      if f != [] { SpacedSnoc(f, e.now); }
    } else {
      assert f + [] == f;
    }
  }

  lemma CountingLater(v: Vault, f: seq<int>, then0: int, now: int)
    requires Counting(v, f, then0) && then0 <= now
    ensures Counting(v, f, now)
  {}

  lemma RepliesLast(w: World, hasKey: bool, es: seq<Event>)
    requires es != []
    ensures Respond(After(w, hasKey, es[..|es| - 1]).vault, hasKey, es[|es| - 1]).1 in Replies(w, hasKey, es)
    ensures forall r <- Replies(w, hasKey, es[..|es| - 1]) :: r in Replies(w, hasKey, es)
  {
    hide Respond;
  }

  /**
   With no unlock succeeding in between, the N-th counted failure is at least LeastSpan(N) seconds after the
   first.
   */
  lemma {:induction false} ThrottleBound(w: World, hasKey: bool, es: seq<Event>, now: int)
    requires Ordered(es) && (es != [] ==> es[|es| - 1].now <= now)
    requires w.vault.failures == 0 && forall r <- Replies(w, hasKey, es) :: !r.Granted?
    ensures Counting(After(w, hasKey, es).vault, FailureTimes(w, hasKey, es), now)
  {
    hide Respond;
    if es != [] {
      var init, last := es[..|es| - 1], es[|es| - 1];
      var v := After(w, hasKey, init).vault;
      assert init != [] ==> init[|init| - 1].now <= last.now;
      RepliesLast(w, hasKey, es);
      ThrottleBound(w, hasKey, init, last.now);
      CountingStep(v, hasKey, last, FailureTimes(w, hasKey, init));
      hide Counting;
      hide Replies;
      CountingLater(After(w, hasKey, es).vault, FailureTimes(w, hasKey, es), last.now, now);
    }
  }

  lemma SpacedSnoc(f: seq<int>, t: int)
    requires f != [] && Spaced(f) && t >= f[|f| - 1] + ThrottleDelay(|f|)
    ensures Spaced(f + [t])
  {
    LeastSpanStep(|f|);
    var g := f + [t];
    assert f[|f| - 1] - f[0] >= LeastSpan(|f|) * SECOND;
    forall n | 1 <= n <= |g| ensures g[n - 1] - g[0] >= LeastSpan(n) * SECOND {
      if n <= |f| { assert g[n - 1] == f[n - 1]; }
    }
  }

  /** The clock can still show the time of the n-th guess. */
  predicate InTime(n: nat) { LeastSpan(n) * SECOND < 0x8000_0000_0000_0000 * 1_000_000 }

  lemma LeastSpanGrows(n: nat)
    ensures 0 <= LeastSpan(n) <= LeastSpan(n + 1)
  {
    if 3 <= n <= 18 {
      assert 0 <= (n - 3) * (n - 2);
      LeastSpanStep(n);
    }
  }

  /** Wrong passphrases typed as early as the throttle admits them. */
  function FastestFailures(n: nat, target: bytes): (es: seq<Event>)
    requires InTime(n)
    ensures |es| == n
  {
    if n == 0 then []
    else
      LeastSpanGrows(n);
      LeastSpanGrows(n - 1);
      FastestFailures(n - 1, target) + [UnlockEv(LeastSpan(n) * SECOND, target, false, 0, WrongPassphrase)]
  }

  function FastestTimes(n: nat): (f: seq<int>)
    ensures |f| == n && forall i | 0 <= i < n :: f[i] == LeastSpan(i + 1) * SECOND
  {
    if n == 0 then [] else FastestTimes(n - 1) + [LeastSpan(n) * SECOND]
  }

  lemma FastestNext(n: nat, target: bytes)
    requires ValidDeviceId(target) && 0 < n && InTime(n)
    ensures var v := Vault(None, map[], n - 1, if n == 1 then None else Some(LeastSpan(n) * SECOND));
      Respond(v, true, FastestFailures(n, target)[n - 1])
      == (Vault(None, map[], n, Some(LeastSpan(n + 1) * SECOND)), Refused(WrongPassphrase))
  {
    LeastSpanGrows(n);
    LeastSpanStep(n);
    LeastSpanStep(n - 1);
    assert LiveGrants(map[], LeastSpan(n) * SECOND) == map[];
  }

  /** The bound is attained, so it is the exact price of N guesses. */
  lemma {:induction false} ThrottleBoundIsTight(n: nat, target: bytes)
    requires ValidDeviceId(target) && InTime(n)
    ensures FailureTimes(BOOT, true, FastestFailures(n, target)) == FastestTimes(n)
    ensures After(BOOT, true, FastestFailures(n, target))
         == World(Vault(None, map[], n, if n == 0 then None else Some(LeastSpan(n + 1) * SECOND)), [])
  {
    if n > 0 {
      LeastSpanGrows(n - 1);
      ThrottleBoundIsTight(n - 1, target);
      FastestNext(n, target);
      assert FastestFailures(n, target)[..n - 1] == FastestFailures(n - 1, target);
      hide Respond;
      hide LeastSpan;
    }
  }
}
