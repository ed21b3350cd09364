/**
 The pairing exchange (internal/pairing/pairing.go) between one Initiate, the
 scanner, and one Await, the offerer, on one session. Messages travel in order
 but arrive late or never; every wait may time out, every send and every store
 may fail, and each user answers as they please.
 */
module Pairing {
  import opened Bytes
  import opened Sas

  const TIER_NONE: int := 0
  const LEVEL_TRUSTED: int := 1

  datatype Role = Scanner | Offerer

  function Other(r: Role): Role { if r.Scanner? then Offerer else Scanner }

  /** What a device brings: its keys, tier and name. */
  datatype Device = Device(id: bytes, priv: bytes, tier: int, name: bytes)

  datatype Message =
    | Request(id: bytes, priv: bytes, nonce: bytes, tier: int, name: bytes)
    | Response(id: bytes, priv: bytes, nonce: bytes, tier: int, name: bytes)
    | Confirm(accepted: bool)

  /** exchange: three one-slot inboxes. */
  datatype Inbox = Inbox(req: Option<Message>, resp: Option<Message>, conf: Option<Message>)

  const NO_MAIL: Inbox := Inbox(None, None, None)

  /** deliver: a second message of a kind is dropped. */
  function Delivered(b: Inbox, m: Message): Inbox {
    match m
    case Request(_, _, _, _, _) => if b.req.None? then b.(req := Some(m)) else b
    case Response(_, _, _, _, _) => if b.resp.None? then b.(resp := Some(m)) else b
    case Confirm(_) => if b.conf.None? then b.(conf := Some(m)) else b
  }

  /** The validated far side; `party.priv` is what will be pinned. */
  datatype Remote = Remote(deviceId: bytes, party: Party, tier: int, name: bytes)

  /** checkRemote: `presented` is the key that terminated TLS. */
  function CheckRemote(derive: bytes -> bytes, presented: bytes, m: Message, localNonce: bytes): Option<Remote>
    requires !m.Confirm?
  {
    if |presented| != KEY_LEN || m.id != presented then None
    else if |m.priv| != 0 && |m.priv| != KEY_LEN then None
    else if |m.nonce| != NONCE_LEN || m.nonce == localNonce then None
    else Some(Remote(derive(m.id), Party(m.id, if m.tier == TIER_NONE then [] else m.priv, m.nonce), m.tier, m.name))
  }

  /** The record a completed exchange writes. */
  datatype Peer = Peer(deviceId: bytes, identityKey: bytes, privilegeKey: bytes, name: bytes, level: int, tier: int)

  function RecordOf(r: Remote): Peer {
    Peer(r.deviceId, r.party.id, r.party.priv, r.name, LEVEL_TRUSTED, r.tier)
  }

  // --- the handler's tables ---------------------------------------------------

  /** The slot a message is for. */
  function Slot(b: Inbox, m: Message): Option<Message> {
    match m
    case Request(_, _, _, _, _) => b.req
    case Response(_, _, _, _, _) => b.resp
    case Confirm(_) => b.conf
  }

  /** One session's inboxes, filled by Serve and drained by Initiate or Await. */
  class Exchange {
    var req: Option<Message>
    var resp: Option<Message>
    var conf: Option<Message>

    function Box(): Inbox
      reads this
    {
      Inbox(req, resp, conf)
    }

    constructor ()
      ensures Box() == NO_MAIL
    {
      req, resp, conf := None, None, None;
    }

    /** deliver, on the channel Serve picks; `ok` is that the message was not dropped. */
    method Deliver(m: Message) returns (ok: bool)
      modifies this
      ensures ok <==> Slot(old(Box()), m).None?
      ensures ok ==> Slot(Box(), m) == Some(m)
      ensures !ok ==> Box() == old(Box())
      ensures !m.Request? ==> req == old(req)
      ensures !m.Response? ==> resp == old(resp)
      ensures !m.Confirm? ==> conf == old(conf)
      ensures Box() == Delivered(old(Box()), m)
    {
      ok := false;
      match m {
        case Request(_, _, _, _, _) =>
          if req == None {
            req, ok := Some(m), true;
          }
        case Response(_, _, _, _, _) =>
          if resp == None {
            resp, ok := Some(m), true;
          }
        case Confirm(_) =>
          if conf == None {
            conf, ok := Some(m), true;
          }
      }
    }
  }

  function DeliveredAll(b: Inbox, ms: seq<Message>): Inbox {
    if ms == [] then b else Delivered(DeliveredAll(b, ms[..|ms| - 1]), ms[|ms| - 1])
  }

  predicate SameKind(m: Message, n: Message) {
    (m.Request? && n.Request?) || (m.Response? && n.Response?) || (m.Confirm? && n.Confirm?)
  }

  /** Until something is taken out, the first message of a kind is the one that counts, however many follow. */
  lemma {:induction false} InboxKeepsFirst(ms: seq<Message>, i: nat)
    requires i < |ms| && forall j | 0 <= j < i :: !SameKind(ms[j], ms[i])
    ensures Slot(DeliveredAll(NO_MAIL, ms), ms[i]) == Some(ms[i])
  {
    var init := ms[..|ms| - 1];
    if i == |init| {
      NoneOfKind(init, ms[i]);
    } else {
      InboxKeepsFirst(init, i);
    }
  }

  lemma {:induction false} NoneOfKind(ms: seq<Message>, m: Message)
    requires forall j | 0 <= j < |ms| :: !SameKind(ms[j], m)
    ensures Slot(DeliveredAll(NO_MAIL, ms), m) == None
  {
    if ms != [] { NoneOfKind(ms[..|ms| - 1], m); }
  }

  /** The per-session tables; a guard is known by a number. */
  class Handler {
    var exchanges: map<nat, Exchange>
    var guards: map<nat, nat>

    constructor ()
      ensures exchanges == map[] && guards == map[]
    {
      exchanges, guards := map[], map[];
    }

    /** inbox: a message that beats Initiate or Await to it finds the same exchange they will. */
    method InboxFor(session: nat) returns (ex: Exchange)
      modifies this`exchanges
      ensures session in exchanges && ex == exchanges[session]
      ensures session in old(exchanges) ==> exchanges == old(exchanges)
      ensures session !in old(exchanges) ==>
          exchanges == old(exchanges)[session := ex] && fresh(ex) && ex.Box() == NO_MAIL
    {
      if session !in exchanges {
        ex := new Exchange();
        exchanges := exchanges[session := ex];
      } else {
        ex := exchanges[session];
      }
    }

    method Detach(session: nat)
      modifies this
      ensures exchanges == old(exchanges) - {session} && guards == old(guards) - {session}
    {
      exchanges := exchanges - {session};
      guards := guards - {session};
    }
  }

  // --- the two-role protocol --------------------------------------------------

  datatype Pc =
    | Idle
    | AwaitingResponse
    | Asking(remote: Remote)      // the SAS is on the screen
    | AwaitingConfirm(remote: Remote)
    | Paired | GaveUp

  /** One device in the exchange, with the history its user would remember. */
  datatype Side = Side(pc: Pc, nonce: bytes, box: Inbox, shown: Option<bytes>, accepted: bool, stored: Option<Peer>)

  /** `wire` holds what each side has sent and its peer has not received. */
  datatype World = World(scanner: Side, offerer: Side, fromScanner: seq<Message>, fromOfferer: seq<Message>)

  /** Fixed for the run: the devices, the keys TLS showed each of them, and the hashes. */
  datatype Setup = Setup(scanner: Device, offerer: Device, shownToScanner: bytes, shownToOfferer: bytes,
      derive: bytes -> bytes, hash: bytes -> bytes)
  {
    function Own(r: Role): Device { if r.Scanner? then scanner else offerer }
    function Presented(r: Role): bytes { if r.Scanner? then shownToScanner else shownToOfferer }
  }

  const BOOT: World := var s := Side(Idle, [], NO_MAIL, None, false, None); World(s, s, [], [])

  function At(w: World, r: Role): Side { if r.Scanner? then w.scanner else w.offerer }
  function From(w: World, r: Role): seq<Message> { if r.Scanner? then w.fromScanner else w.fromOfferer }

  /** Replace side `r` and append what it sent. */
  function Put(w: World, r: Role, s: Side, sent: seq<Message>): World {
    if r.Scanner? then w.(scanner := s, fromScanner := w.fromScanner + sent)
        else w.(offerer := s, fromOfferer := w.fromOfferer + sent)
  }

  function OwnParty(c: Setup, r: Role, nonce: bytes): Party { Party(c.Own(r).id, c.Own(r).priv, nonce) }

  /** The SAS as side `r` computes it: the offerer's party always comes first. */
  function SasAt(c: Setup, r: Role, nonce: bytes, remote: Party): Option<bytes> {
    if r.Scanner? then Sas.Sas(c.hash, remote, OwnParty(c, r, nonce))
        else Sas.Sas(c.hash, OwnParty(c, r, nonce), remote)
  }

  function RequestOf(d: Device, nonce: bytes): Message { Request(d.id, d.priv, nonce, d.tier, d.name) }
  function ResponseOf(d: Device, nonce: bytes): Message { Response(d.id, d.priv, nonce, d.tier, d.name) }

  /** Check the far side and put the digits on the screen, or give up. */
  function Ask(c: Setup, r: Role, s: Side, m: Message): Side
    requires !m.Confirm?
  {
    var remote := CheckRemote(c.derive, c.Presented(r), m, s.nonce);
    if remote.None? then s.(pc := GaveUp)
    else
      var sas := SasAt(c, r, s.nonce, remote.value.party);
      if sas.None? then s.(pc := GaveUp) else s.(pc := Asking(remote.value), shown := sas)
  }

  datatype Answer = Accept | Decline | Fail

  /** How a send went: an error may strike before or after the message is on its way. */
  datatype SendResult = SentOk | SentThenFailed | NotSent

  datatype Step =
    | Receive(r: Role)                                        // the next message reaches `r`'s inbox
    | Initiate(offerOk: bool, nonce: bytes, send: SendResult)
    | TakeResponse
    | TakeRequest(nonce: bytes, send: SendResult)             // Await
    | Answer(r: Role, answer: Answer, send: SendResult)
    | TakeConfirm(r: Role, putOk: bool)
    | TimeOut(r: Role)

  predicate Enabled(w: World, e: Step) {
    match e
    case Receive(r) => From(w, Other(r)) != []
    case Initiate(_, nonce, _) => w.scanner.pc.Idle? && |nonce| == NONCE_LEN
    case TakeResponse => w.scanner.pc.AwaitingResponse? && w.scanner.box.resp.Some? &&
        w.scanner.box.resp.value.Response?
    case TakeRequest(nonce, _) => w.offerer.pc.Idle? && |nonce| == NONCE_LEN && w.offerer.box.req.Some? &&
        w.offerer.box.req.value.Request?
    case Answer(r, _, _) => At(w, r).pc.Asking?
    case TakeConfirm(r, _) => At(w, r).pc.AwaitingConfirm? && At(w, r).box.conf.Some? &&
        At(w, r).box.conf.value.Confirm?
    case TimeOut(r) => At(w, r).pc.Idle? || At(w, r).pc.AwaitingResponse? || At(w, r).pc.AwaitingConfirm?
  }

  function Next(c: Setup, w: World, e: Step): World
    requires Enabled(w, e)
  {
    match e
    case Receive(r) =>
      var m := From(w, Other(r))[0];
      var u := Put(w, r, At(w, r).(box := Delivered(At(w, r).box, m)), []);
      if r.Scanner? then u.(fromOfferer := w.fromOfferer[1..]) else u.(fromScanner := w.fromScanner[1..])
    case Initiate(offerOk, nonce, send) =>
      if !offerOk then Put(w, Scanner, w.scanner.(pc := GaveUp), [])
      else
        var s := w.scanner.(nonce := nonce, pc := if send.SentOk? then AwaitingResponse else GaveUp);
        Put(w, Scanner, s, if send.NotSent? then [] else [RequestOf(c.scanner, nonce)])
    case TakeResponse => Put(w, Scanner,
        Ask(c, Scanner, w.scanner.(box := w.scanner.box.(resp := None)), w.scanner.box.resp.value), [])
    case TakeRequest(nonce, send) =>
      var m := w.offerer.box.req.value;
      var s := w.offerer.(nonce := nonce, box := w.offerer.box.(req := None));
      if CheckRemote(c.derive, c.shownToOfferer, m, nonce).None? then Put(w, Offerer, s.(pc := GaveUp), [])
      else
        Put(w, Offerer, if send.SentOk? then Ask(c, Offerer, s, m) else s.(pc := GaveUp),
            if send.NotSent? then [] else [ResponseOf(c.offerer, nonce)])
    case Answer(r, answer, send) =>
      var s := At(w, r);
      var pc := if answer.Accept? && send.SentOk? then AwaitingConfirm(s.pc.remote) else GaveUp;
      Put(w, r, s.(pc := pc, accepted := answer.Accept?), if send.NotSent? then [] else [Confirm(answer.Accept?)])
    case TakeConfirm(r, putOk) =>
      var s := At(w, r);
      var t := s.(box := s.box.(conf := None));
      var paired := t.(pc := Paired, stored := Some(RecordOf(s.pc.remote)));
      Put(w, r, if s.box.conf.value.accepted && putOk then paired else t.(pc := GaveUp), [])
    case TimeOut(r) => Put(w, r, At(w, r).(pc := GaveUp), [])
  }

  ghost predicate Reaches(c: Setup, w: World, steps: seq<Step>, end: World)
    decreases |steps|
  {
    if steps == [] then w == end
    else Enabled(w, steps[0]) && Reaches(c, Next(c, w, steps[0]), steps[1..], end)
  }

  // --- the invariant ----------------------------------------------------------

  /** `m` is one the device in role `r` sends, given the nonce and answer it settled on. */
  ghost predicate Genuine(c: Setup, w: World, r: Role, m: Message) {
    match m
    case Request(_, _, _, _, _) => r.Scanner? && !w.scanner.pc.Idle? && m == RequestOf(c.scanner, w.scanner.nonce)
    case Response(_, _, _, _, _) => r.Offerer? && !w.offerer.pc.Idle? && m == ResponseOf(c.offerer, w.offerer.nonce)
    case Confirm(accepted) => Answered(At(w, r)) && accepted == At(w, r).accepted
  }

  ghost predicate Answered(s: Side) { s.pc.AwaitingConfirm? || s.pc.Paired? || s.pc.GaveUp? }

  ghost predicate MailGenuine(c: Setup, w: World, r: Role) {
    (forall m <- From(w, Other(r)) :: Genuine(c, w, Other(r), m)) && BoxGenuine(c, w, r, At(w, r).box)
  }

  ghost predicate BoxGenuine(c: Setup, w: World, r: Role, b: Inbox) {
    && (b.req.Some? ==> b.req.value.Request? && Genuine(c, w, Other(r), b.req.value))
    && (b.resp.Some? ==> b.resp.value.Response? && Genuine(c, w, Other(r), b.resp.value))
    && (b.conf.Some? ==> b.conf.value.Confirm? && Genuine(c, w, Other(r), b.conf.value))
  }

  function OpeningOf(c: Setup, r: Role, nonce: bytes): Message {
    if r.Scanner? then RequestOf(c.scanner, nonce) else ResponseOf(c.offerer, nonce)
  }

  /** What `r` knows of its peer came from that peer's one opening message. */
  ghost predicate Checked(c: Setup, w: World, r: Role, remote: Remote) {
    && !At(w, Other(r)).pc.Idle?
    && CheckRemote(c.derive, c.Presented(r), OpeningOf(c, Other(r), At(w, Other(r)).nonce), At(w, r).nonce)
        == Some(remote)
  }

  ghost predicate ShownSound(c: Setup, w: World, r: Role) {
    exists remote :: Checked(c, w, r, remote) && At(w, r).shown == SasAt(c, r, At(w, r).nonce, remote.party)
  }

  ghost predicate StoredSound(c: Setup, w: World, r: Role) {
    exists remote :: Checked(c, w, r, remote) && At(w, r).stored == Some(RecordOf(remote))
  }

  ghost predicate SideSound(c: Setup, w: World, r: Role) {
    var s := At(w, r);
    && (s.pc.Asking? || s.pc.AwaitingConfirm? ==> Checked(c, w, r, s.pc.remote))
    && (s.pc.AwaitingConfirm? ==> s.accepted)
    && (s.shown.Some? ==> !s.pc.Idle? && !s.pc.AwaitingResponse? && ShownSound(c, w, r))
    && (s.stored.Some? ==>
        s.accepted && Answered(s) && At(w, Other(r)).accepted && Answered(At(w, Other(r))) && StoredSound(c, w, r))
  }

  ghost predicate Inv(c: Setup, w: World) {
    MailGenuine(c, w, Scanner) && MailGenuine(c, w, Offerer) && SideSound(c, w, Scanner) && SideSound(c, w, Offerer)
  }

  /** A nonce, once past Idle, and an answer, once given, do not change. */
  ghost predicate Settled(s: Side, t: Side) {
    && (!s.pc.Idle? ==> t.nonce == s.nonce && !t.pc.Idle?)
    && (Answered(s) ==> Answered(t) && t.accepted == s.accepted)
  }

  lemma SettledKeeps(c: Setup, w: World, u: World)
    requires Settled(w.scanner, u.scanner) && Settled(w.offerer, u.offerer)
    ensures forall r, m | Genuine(c, w, r, m) :: Genuine(c, u, r, m)
    ensures forall r, x | Checked(c, w, r, x) && !At(w, r).pc.Idle? :: Checked(c, u, r, x)
  {}

  lemma SideStaysSound(c: Setup, w: World, u: World, r: Role)
    requires SideSound(c, w, r) && Settled(w.scanner, u.scanner) && Settled(w.offerer, u.offerer)
    requires At(u, r).pc == At(w, r).pc && At(u, r).shown == At(w, r).shown && At(u, r).stored == At(w, r).stored
    requires At(u, r).accepted == At(w, r).accepted && (At(u, r).nonce == At(w, r).nonce)
    ensures SideSound(c, u, r)
  {
    SettledKeeps(c, w, u);
  }

  lemma DeliverGenuine(c: Setup, w: World, r: Role, b: Inbox, m: Message)
    requires BoxGenuine(c, w, r, b) && Genuine(c, w, Other(r), m)
    ensures BoxGenuine(c, w, r, Delivered(b, m))
  {
    hide Genuine;
  }

  /** Moving a message, or taking one out, changes nobody's nonce or answer, so mail stays genuine. */
  lemma MailStaysGenuine(c: Setup, w: World, u: World, r: Role)
    requires Settled(w.scanner, u.scanner) && Settled(w.offerer, u.offerer)
    requires forall m <- From(u, Other(r)) :: Genuine(c, w, Other(r), m)
    requires BoxGenuine(c, w, r, At(u, r).box)
    ensures MailGenuine(c, u, r)
  {
    SettledKeeps(c, w, u);
    hide Genuine;
    hide Settled;
  }

  lemma ReceiveMail(c: Setup, w: World, r: Role)
    requires Inv(c, w) && Enabled(w, Receive(r))
    ensures MailGenuine(c, Next(c, w, Receive(r)), Scanner) && MailGenuine(c, Next(c, w, Receive(r)), Offerer)
  {
    hide SideSound;
    hide Genuine;
    var u := Next(c, w, Receive(r));
    var m := From(w, Other(r))[0];
    assert m in From(w, Other(r));
    assert r == Scanner || r == Offerer;
    assert MailGenuine(c, w, r) && MailGenuine(c, w, Other(r));
    DeliverGenuine(c, w, r, At(w, r).box, m);
    forall n <- From(u, Other(r)) ensures Genuine(c, w, Other(r), n) {
      assert n in From(w, Other(r));
    }
    hide BoxGenuine;
    MailStaysGenuine(c, w, u, r);
    MailStaysGenuine(c, w, u, Other(r));
  }

  lemma ReceiveKeepsInv(c: Setup, w: World, r: Role)
    requires Inv(c, w) && Enabled(w, Receive(r))
    ensures Inv(c, Next(c, w, Receive(r)))
  {
    hide SideSound;
    hide MailGenuine;
    var u := Next(c, w, Receive(r));
    ReceiveMail(c, w, r);
    SideStaysSound(c, w, u, Scanner);
    SideStaysSound(c, w, u, Offerer);
  }

  ghost predicate BoxShrinks(b: Inbox, d: Inbox) {
    (d.req == b.req || d.req.None?) && (d.resp == b.resp || d.resp.None?) && (d.conf == b.conf || d.conf.None?)
  }

  /** A step of `r` that keeps its mail and history sound keeps the whole invariant. */
  lemma OwnStepKeepsInv(c: Setup, w: World, u: World, r: Role, sent: seq<Message>)
    requires Inv(c, w) && u == Put(w, r, At(u, r), sent)
    requires Settled(At(w, r), At(u, r)) && SideSound(c, u, r)
    requires forall m <- sent :: Genuine(c, u, r, m)
    requires BoxShrinks(At(w, r).box, At(u, r).box)
    ensures Inv(c, u)
  {
    SettledKeeps(c, w, u);
    SideStaysSound(c, w, u, Other(r));
    assert r == Scanner || r == Offerer;
    hide Genuine;
    hide SideSound;
    hide Checked;
    hide SasAt;
  }

  lemma AskIsSound(c: Setup, w: World, u: World, r: Role, m: Message)
    requires !m.Confirm? && !At(w, Other(r)).pc.Idle? && m == OpeningOf(c, Other(r), At(w, Other(r)).nonce)
    requires At(u, Other(r)) == At(w, Other(r))
    requires exists s: Side ::
      && (s.pc.Idle? || s.pc.AwaitingResponse?) && s.shown.None? && s.stored.None?
      && At(u, r) == Ask(c, r, s, m)
    ensures SideSound(c, u, r)
  {}

  lemma TakeResponseKeepsInv(c: Setup, w: World, e: Step)
    requires Inv(c, w) && Enabled(w, e) && e.TakeResponse?
    ensures Inv(c, Next(c, w, e))
  {
    var u := Next(c, w, e);
    var s := w.scanner.(box := w.scanner.box.(resp := None));
    assert At(u, Scanner) == Ask(c, Scanner, s, w.scanner.box.resp.value);
    hide Checked;
    AskIsSound(c, w, u, Scanner, w.scanner.box.resp.value);
    hide CheckRemote;
    hide SasAt;
    OwnStepKeepsInv(c, w, u, Scanner, []);
  }

  lemma TakeRequestKeepsInv(c: Setup, w: World, e: Step)
    requires Inv(c, w) && Enabled(w, e) && e.TakeRequest?
    ensures Inv(c, Next(c, w, e))
  {
    hide Checked;
    hide CheckRemote;
    hide SasAt;
    var u := Next(c, w, e);
    var m := w.offerer.box.req.value;
    var s := w.offerer.(nonce := e.nonce, box := w.offerer.box.(req := None));
    var sent := u.fromOfferer[|w.fromOfferer|..];
    assert sent == [] || sent == [ResponseOf(c.offerer, e.nonce)];
    if u.offerer.pc.Asking? {
      assert At(u, Offerer) == Ask(c, Offerer, s, m);
      AskIsSound(c, w, u, Offerer, m);
    }
    OwnStepKeepsInv(c, w, u, Offerer, sent);
  }

  lemma TakeConfirmKeepsInv(c: Setup, w: World, r: Role, putOk: bool)
    requires Inv(c, w) && Enabled(w, TakeConfirm(r, putOk))
    ensures Inv(c, Next(c, w, TakeConfirm(r, putOk)))
  {
    var u := Next(c, w, TakeConfirm(r, putOk));
    SettledKeeps(c, w, u);
    assert SideSound(c, w, r) && Checked(c, w, r, At(w, r).pc.remote);
    OwnStepKeepsInv(c, w, u, r, []);
  }

  lemma InitiateKeepsInv(c: Setup, w: World, e: Step)
    requires Inv(c, w) && Enabled(w, e) && e.Initiate?
    ensures Inv(c, Next(c, w, e))
  {
    var u := Next(c, w, e);
    var sent := u.fromScanner[|w.fromScanner|..];
    assert sent == [] || sent == [RequestOf(c.scanner, e.nonce)];
    hide Checked;
    OwnStepKeepsInv(c, w, u, Scanner, sent);
  }

  lemma AnsweredIsSound(c: Setup, w: World, e: Step)
    requires Inv(c, w) && Enabled(w, e) && e.Answer?
    ensures SideSound(c, Next(c, w, e), e.r)
    ensures Settled(At(w, e.r), At(Next(c, w, e), e.r))
  {
    SettledKeeps(c, w, Next(c, w, e));
    hide MailGenuine;
    assert SideSound(c, w, e.r);
    hide Checked;
    hide SasAt;
  }

  lemma AnswerKeepsInv(c: Setup, w: World, e: Step)
    requires Inv(c, w) && Enabled(w, e) && e.Answer?
    ensures Inv(c, Next(c, w, e))
  {
    var u := Next(c, w, e);
    var sent := From(u, e.r)[|From(w, e.r)|..];
    assert sent == [] || sent == [Confirm(e.answer.Accept?)];
    AnsweredIsSound(c, w, e);
    hide SideSound;
    hide Inv;
    OwnStepKeepsInv(c, w, u, e.r, sent);
  }

  lemma TimeOutKeepsInv(c: Setup, w: World, r: Role)
    requires Inv(c, w) && Enabled(w, TimeOut(r))
    ensures Inv(c, Next(c, w, TimeOut(r)))
  {
    var u := Next(c, w, TimeOut(r));
    SettledKeeps(c, w, u);
    assert SideSound(c, w, r);
    hide Checked;
    hide SasAt;
    OwnStepKeepsInv(c, w, u, r, []);
  }

  lemma StepKeepsInv(c: Setup, w: World, e: Step)
    requires Inv(c, w) && Enabled(w, e)
    ensures Inv(c, Next(c, w, e))
  {
    match e {
      case Receive(r) => ReceiveKeepsInv(c, w, r);
      case TakeResponse => TakeResponseKeepsInv(c, w, e);
      case TakeRequest(_, _) => TakeRequestKeepsInv(c, w, e);
      case TakeConfirm(r, putOk) => TakeConfirmKeepsInv(c, w, r, putOk);
      case Initiate(_, _, _) => InitiateKeepsInv(c, w, e);
      case Answer(_, _, _) => AnswerKeepsInv(c, w, e);
      case TimeOut(r) => TimeOutKeepsInv(c, w, r);
    }
  }

  lemma {:induction false} RunKeepsInv(c: Setup, w: World, steps: seq<Step>, end: World)
    requires Inv(c, w) && Reaches(c, w, steps, end)
    ensures Inv(c, end)
    decreases |steps|
  {
    if steps != [] {
      StepKeepsInv(c, w, steps[0]);
      RunKeepsInv(c, Next(c, w, steps[0]), steps[1..], end);
    }
  }

  // --- the theorems -----------------------------------------------------------

  /** A device at tier none holds no privilege key (decision D-21 of docs/decision-tree.md). */
  predicate Consistent(d: Device) { d.tier == TIER_NONE ==> d.priv == [] }

  /** The privilege key a peer's checkRemote keeps for `d`. */
  function Kept(d: Device): bytes { if d.tier == TIER_NONE then [] else d.priv }

  /** What it takes for a device's own privilege key to survive its peer's check. */
  predicate Intact(d: Device) { Contributed(Kept(d)) == Contributed(d.priv) }

  /** Both keys survive the check, or both are dropped and were equal. */
  predicate KeysAgree(s: Device, o: Device) {
    (Intact(s) && Intact(o)) || (!Intact(s) && !Intact(o) && s.priv == o.priv)
  }

  lemma ConsistentKeysAgree(s: Device, o: Device)
    requires Consistent(s) && Consistent(o)
    ensures KeysAgree(s, o)
  {}

  /** Exactly when the two transcripts are the same. */
  lemma TranscriptsAgreeIff(s: Device, o: Device, ns: bytes, no: bytes)
    requires WellFormed(Party(s.id, s.priv, ns)) && WellFormed(Party(o.id, o.priv, no)) && s.id != o.id
    ensures Transcript(Party(o.id, Kept(o), no), Party(s.id, s.priv, ns))
         == Transcript(Party(o.id, o.priv, no), Party(s.id, Kept(s), ns))
       <==> KeysAgree(s, o)
  {
    TranscriptDetermines(Party(o.id, Kept(o), no), Party(s.id, s.priv, ns), Party(o.id, o.priv, no),
        Party(s.id, Kept(s), ns));
    var a, b, x, y := Contributed(Kept(o)), Contributed(s.priv), Contributed(o.priv), Contributed(Kept(s));
    PairsEqual(a, b, x, y);
  }

  /** What a side shows is computed from its peer's one opening message. */
  lemma ShownDigits(c: Setup, steps: seq<Step>, w: World, r: Role)
    requires Reaches(c, BOOT, steps, w) && At(w, r).shown.Some?
    ensures var d := c.Own(Other(r));
      At(w, r).shown == SasAt(c, r, At(w, r).nonce, Party(d.id, Kept(d), At(w, Other(r)).nonce))
  {
    RunKeepsInv(c, BOOT, steps, w);
    assert r == Scanner || r == Offerer;
    hide SasAt;
    hide MailGenuine;
    assert ShownSound(c, w, r);
    var x :| Checked(c, w, r, x) && At(w, r).shown == SasAt(c, r, At(w, r).nonce, x.party);
  }

  /** Both Confirm callbacks see the same digits, under just the condition that makes the transcripts the same. */
  lemma SameSasOnBothScreens(c: Setup, steps: seq<Step>, w: World)
    requires Reaches(c, BOOT, steps, w) && KeysAgree(c.scanner, c.offerer)
    requires w.scanner.shown.Some? && w.offerer.shown.Some?
    ensures w.scanner.shown == w.offerer.shown
  {
    ShownDigits(c, steps, w, Scanner);
    ShownDigits(c, steps, w, Offerer);
    SameDigits(c, w.scanner.nonce, w.offerer.nonce);
    hide SasAt;
  }

  lemma SameDigits(c: Setup, ns: bytes, no: bytes)
    requires KeysAgree(c.scanner, c.offerer)
    ensures var x := SasAt(c, Scanner, ns, Party(c.offerer.id, Kept(c.offerer), no));
      var y := SasAt(c, Offerer, no, Party(c.scanner.id, Kept(c.scanner), ns));
      x.Some? && y.Some? ==> x == y
  {
    var x := SasAt(c, Scanner, ns, Party(c.offerer.id, Kept(c.offerer), no));
    var y := SasAt(c, Offerer, no, Party(c.scanner.id, Kept(c.scanner), ns));
    if x.Some? && y.Some? {
      hide KeysAgree;
      hide Digits;
      TranscriptsAgreeIff(c.scanner, c.offerer, ns, no);
      hide Transcript;
    }
  }

  // --- what the screens say -------------------------------------------------------

  /** The transcript as the device in role `r` has it. */
  function SeenBy(c: Setup, r: Role, ns: bytes, no: bytes): Option<bytes> {
    if r.Scanner? then Transcript(Party(c.offerer.id, Kept(c.offerer), no), Party(c.scanner.id, c.scanner.priv, ns))
    else Transcript(Party(c.offerer.id, c.offerer.priv, no), Party(c.scanner.id, Kept(c.scanner), ns))
  }

  /** In every run, what a side shows is six digits that read as the residue of the hash of its own transcript. */
  lemma ShownIsResidue(c: Setup, steps: seq<Step>, w: World, r: Role)
    requires Reaches(c, BOOT, steps, w) && At(w, r).shown.Some? && forall t: bytes :: |c.hash(t)| >= 4
    ensures var t := SeenBy(c, r, w.scanner.nonce, w.offerer.nonce);
      && t.Some? && |At(w, r).shown.value| == 6 && (forall b <- At(w, r).shown.value :: 48 <= b <= 57)
      && Sas.Read(At(w, r).shown.value) == Residue(c.hash(t.value))
  {
    ShownDigits(c, steps, w, r);
    var ns, no := w.scanner.nonce, w.offerer.nonce;
    if r.Scanner? {
      DigitsAreResidue(c.hash, Party(c.offerer.id, Kept(c.offerer), no), Party(c.scanner.id, c.scanner.priv, ns));
    } else {
      DigitsAreResidue(c.hash, Party(c.offerer.id, c.offerer.priv, no), Party(c.scanner.id, Kept(c.scanner), ns));
    }
  }

  /** So the two users see the same digits exactly if the two residues are the same. */
  lemma ShownAgreeIff(c: Setup, steps: seq<Step>, w: World)
    requires Reaches(c, BOOT, steps, w) && w.scanner.shown.Some? && w.offerer.shown.Some?
    requires forall t: bytes :: |c.hash(t)| >= 4
    ensures var ts, to :=
        SeenBy(c, Scanner, w.scanner.nonce, w.offerer.nonce), SeenBy(c, Offerer, w.scanner.nonce, w.offerer.nonce);
      && ts.Some? && to.Some?
      && (w.scanner.shown == w.offerer.shown <==> Residue(c.hash(ts.value)) == Residue(c.hash(to.value)))
  {
    ShownIsResidue(c, steps, w, Scanner);
    ShownIsResidue(c, steps, w, Offerer);
    ShownDigits(c, steps, w, Scanner);
    ShownDigits(c, steps, w, Offerer);
    var ns, no := w.scanner.nonce, w.offerer.nonce;
    ScreensAgreeIff(c.hash,
                    Party(c.offerer.id, Kept(c.offerer), no), Party(c.scanner.id, c.scanner.priv, ns),
                    Party(c.offerer.id, c.offerer.priv, no), Party(c.scanner.id, Kept(c.scanner), ns));
    hide Transcript;
    hide Sas.Sas;
  }

  /** Which far sides are let through to the screen, and what is kept of them. */
  lemma RemoteAcceptedIff(derive: bytes -> bytes, presented: bytes, m: Message, localNonce: bytes)
    requires !m.Confirm?
    ensures var remote := CheckRemote(derive, presented, m, localNonce);
      && (remote.Some? <==>
            |m.id| == 32 && m.id == presented && (|m.priv| == 0 || |m.priv| == 32) &&
            |m.nonce| == 32 && m.nonce != localNonce)
      && (remote.Some? ==>
            remote.value == Remote(derive(presented), Party(presented, if m.tier == 0 then [] else m.priv, m.nonce),
                m.tier, m.name))
  {}

  lemma PairsEqual(a: bytes, b: bytes, x: bytes, y: bytes)
    ensures multiset{a, b} == multiset{x, y} <==> (a == x && b == y) || (a == y && b == x)
  {
    if multiset{a, b} == multiset{x, y} {
      assert a in multiset{x, y};
      if a == x {
        assert multiset{a, b} - multiset{a} == multiset{b} && multiset{x, y} - multiset{x} == multiset{y};
        assert b in multiset{y};
      } else {
        assert multiset{a, b} - multiset{a} == multiset{b} && multiset{x, y} - multiset{y} == multiset{x};
        assert b in multiset{x};
      }
    }
  }

  /**
   A side stores the other only if both users accepted, and then stores the key
   TLS presented, under the id it derives, at level Trusted, with the privilege
   key the peer sent unless it claimed no protection.
   */
  lemma StoredOnlyOnMutualAcceptance(c: Setup, steps: seq<Step>, w: World, r: Role)
    requires Reaches(c, BOOT, steps, w) && At(w, r).stored.Some?
    ensures w.scanner.accepted && w.offerer.accepted
    ensures var p := At(w, r).stored.value;
      && p.identityKey == c.Presented(r) == c.Own(Other(r)).id && |p.identityKey| == KEY_LEN
      && p.deviceId == c.derive(p.identityKey) && p.level == 1
      && p.privilegeKey == Kept(c.Own(Other(r))) && (|p.privilegeKey| == 0 || |p.privilegeKey| == KEY_LEN)
      && p.tier == c.Own(Other(r)).tier && p.name == c.Own(Other(r)).name
  {
    RunKeepsInv(c, BOOT, steps, w);
    assert SideSound(c, w, r);
    assert r == Scanner || r == Offerer;
  }

  /** And only when writing the record succeeded; that is also the only way a side ends up paired. */
  lemma {:induction false} StoredOnlyWhenWritten(c: Setup, w: World, steps: seq<Step>, end: World, r: Role)
    requires Reaches(c, w, steps, end) && (At(w, r).pc.Paired? ==> At(w, r).stored.Some?)
    ensures At(end, r).stored.Some? ==> At(w, r).stored.Some? || TakeConfirm(r, true) in steps
    ensures At(end, r).pc.Paired? ==> At(end, r).stored.Some?
    decreases |steps|
  {
    if steps != [] {
      WrittenStep(c, w, steps[0], r);
      hide Next;
      hide Enabled;
      StoredOnlyWhenWritten(c, Next(c, w, steps[0]), steps[1..], end, r);
      hide *;
      assert steps == [steps[0]] + steps[1..];
    }
  }

  lemma WrittenStep(c: Setup, w: World, e: Step, r: Role)
    requires Enabled(w, e) && (At(w, r).pc.Paired? ==> At(w, r).stored.Some?)
    ensures var s, t := At(w, r), At(Next(c, w, e), r);
      (t.pc.Paired? ==> t.stored.Some?) && (t.stored.Some? ==> s.stored.Some? || e == TakeConfirm(r, true))
  {
    hide SasAt;
    hide CheckRemote;
    hide Delivered;
  }

  // --- the protocol can complete ------------------------------------------------

  /** Two honest devices on an authenticated session, with distinct fresh nonces. */
  ghost predicate Honest(c: Setup, ns: bytes, no: bytes) {
    && WellFormed(Party(c.scanner.id, c.scanner.priv, ns)) && WellFormed(Party(c.offerer.id, c.offerer.priv, no))
    && c.scanner.id != c.offerer.id && ns != no
    && c.shownToScanner == c.offerer.id && c.shownToOfferer == c.scanner.id
  }

  function RemoteFor(c: Setup, r: Role, nonce: bytes): Remote {
    var d := c.Own(Other(r));
    Remote(c.derive(d.id), Party(d.id, Kept(d), nonce), d.tier, d.name)
  }

  /** An honest peer's opening message passes the check and puts digits on the screen. */
  lemma AskSucceeds(c: Setup, ns: bytes, no: bytes, r: Role, s: Side)
    requires Honest(c, ns, no) && s.nonce == if r.Scanner? then ns else no
    ensures var theirs, x := if r.Scanner? then no else ns, RemoteFor(c, r, if r.Scanner? then no else ns);
      && CheckRemote(c.derive, c.Presented(r), OpeningOf(c, Other(r), theirs), s.nonce) == Some(x)
      && SasAt(c, r, s.nonce, x.party).Some?
      && Ask(c, r, s, OpeningOf(c, Other(r), theirs)) == s.(pc := Asking(x), shown := SasAt(c, r, s.nonce, x.party))
  {
    hide Digits;
  }

  lemma Then(c: Setup, w: World, e: Step, u: World, steps: seq<Step>, end: World)
    requires Enabled(w, e) && Next(c, w, e) == u && Reaches(c, u, steps, end)
    ensures Reaches(c, w, [e] + steps, end)
  {
    hide Next;
    hide Enabled;
    assert ([e] + steps)[1..] == steps;
  }

  function Showing(c: Setup, r: Role, mine: bytes, theirs: bytes): Side {
    var x := RemoteFor(c, r, theirs);
    Side(Asking(x), mine, NO_MAIL, SasAt(c, r, mine, x.party), false, None)
  }

  const QUIET: Side := Side(Idle, [], NO_MAIL, None, false, None)

  function Openings(ns: bytes, no: bytes): seq<Step> {
    [Initiate(true, ns, SentOk)]
        + ([Receive(Offerer)] + ([TakeRequest(no, SentOk)] + ([Receive(Scanner)] + ([TakeResponse] + []))))
  }

  /** The scanner waiting, and the offerer with its digits up. */
  lemma ReachesScannerPrompt(c: Setup, ns: bytes, no: bytes)
    requires Honest(c, ns, no)
    ensures var waiting := QUIET.(pc := AwaitingResponse, nonce := ns);
      Reaches(c, World(waiting, Showing(c, Offerer, no, ns), [], [ResponseOf(c.offerer, no)]),
              [Receive(Scanner)] + ([TakeResponse] + []),
              World(Showing(c, Scanner, ns, no), Showing(c, Offerer, no, ns), [], []))
  {
    var waiting := QUIET.(pc := AwaitingResponse, nonce := ns);
    var x, y, resp := Showing(c, Scanner, ns, no), Showing(c, Offerer, no, ns), ResponseOf(c.offerer, no);
    AskSucceeds(c, ns, no, Scanner, waiting);
    hide SasAt;
    hide CheckRemote;
    hide Ask;
    hide Honest;
    var w := World(waiting.(box := NO_MAIL.(resp := Some(resp))), y, [], []);
    var end := World(x, y, [], []);
    Then(c, w, TakeResponse, end, [], end);
    Then(c, World(waiting, y, [], [resp]), Receive(Scanner), w, [TakeResponse] + [], end);
  }

  lemma OffererAsks(c: Setup, ns: bytes, no: bytes)
    requires Honest(c, ns, no)
    ensures var waiting := QUIET.(pc := AwaitingResponse, nonce := ns);
      var w := World(waiting, QUIET.(box := NO_MAIL.(req := Some(RequestOf(c.scanner, ns)))), [], []);
      && Enabled(w, TakeRequest(no, SentOk))
      && Next(c, w, TakeRequest(no, SentOk))
          == World(waiting, Showing(c, Offerer, no, ns), [], [ResponseOf(c.offerer, no)])
  {
    AskSucceeds(c, ns, no, Offerer, QUIET.(nonce := no));
    hide SasAt;
    hide CheckRemote;
    hide Ask;
  }

  /** From nothing to both prompts. */
  lemma ReachesPrompts(c: Setup, ns: bytes, no: bytes)
    requires Honest(c, ns, no)
    ensures Reaches(c, BOOT, Openings(ns, no), World(Showing(c, Scanner, ns, no), Showing(c, Offerer, no, ns), [], []))
  {
    var waiting := QUIET.(pc := AwaitingResponse, nonce := ns);
    var req := RequestOf(c.scanner, ns);
    var w1 := World(waiting, QUIET, [req], []);
    var w2 := World(waiting, QUIET.(box := NO_MAIL.(req := Some(req))), [], []);
    var w3 := World(waiting, Showing(c, Offerer, no, ns), [], [ResponseOf(c.offerer, no)]);
    var end := World(Showing(c, Scanner, ns, no), Showing(c, Offerer, no, ns), [], []);
    var t3 := [Receive(Scanner)] + ([TakeResponse] + []);
    var t2 := [TakeRequest(no, SentOk)] + t3;
    assert |ns| == NONCE_LEN;
    ReachesScannerPrompt(c, ns, no);
    OffererAsks(c, ns, no);
    hide Honest;
    hide Showing;
    Then(c, w2, TakeRequest(no, SentOk), w3, t3, end);
    Then(c, w1, Receive(Offerer), w2, t2, end);
    Then(c, BOOT, Initiate(true, ns, SentOk), w1, [Receive(Offerer)] + t2, end);
  }

  function Closings(): seq<Step> {
    [Step.Answer(Scanner, Accept, SentOk)]
      + ([Step.Answer(Offerer, Accept, SentOk)] + ([Receive(Offerer)] + ([Receive(Scanner)]
      + ([TakeConfirm(Scanner, true)] + ([TakeConfirm(Offerer, true)] + [])))))
  }

  function Done(c: Setup, r: Role, mine: bytes, theirs: bytes): Side {
    Showing(c, r, mine, theirs).(pc := Paired, accepted := true, stored := Some(RecordOf(RemoteFor(c, r, theirs))))
  }

  /** From both prompts to both records, when both users accept. */
  lemma ReachesPaired(c: Setup, ns: bytes, no: bytes)
    ensures Reaches(c, World(Showing(c, Scanner, ns, no), Showing(c, Offerer, no, ns), [], []), Closings(),
                    World(Done(c, Scanner, ns, no), Done(c, Offerer, no, ns), [], []))
  {
    hide SasAt;
    var x, y := Showing(c, Scanner, ns, no), Showing(c, Offerer, no, ns);
    var ax := x.(pc := AwaitingConfirm(x.pc.remote), accepted := true);
    var ay := y.(pc := AwaitingConfirm(y.pc.remote), accepted := true);
    var mail := NO_MAIL.(conf := Some(Confirm(true)));
    var dx, dy := Done(c, Scanner, ns, no), Done(c, Offerer, no, ns);
    var w1 := World(ax, y, [Confirm(true)], []);
    var w2 := World(ax, ay, [Confirm(true)], [Confirm(true)]);
    var w3 := World(ax, ay.(box := mail), [], [Confirm(true)]);
    var w4 := World(ax.(box := mail), ay.(box := mail), [], []);
    var w5 := World(dx, ay.(box := mail), [], []);
    var end := World(dx, dy, [], []);
    var t5 := [TakeConfirm(Offerer, true)] + [];
    var t4 := [TakeConfirm(Scanner, true)] + t5;
    var t3 := [Receive(Scanner)] + t4;
    var t2 := [Receive(Offerer)] + t3;
    var t1 := [Step.Answer(Offerer, Accept, SentOk)] + t2;
    Then(c, w5, TakeConfirm(Offerer, true), end, [], end);
    Then(c, w4, TakeConfirm(Scanner, true), w5, t5, end);
    Then(c, w3, Receive(Scanner), w4, t4, end);
    Then(c, w2, Receive(Offerer), w3, t3, end);
    Then(c, w1, Step.Answer(Offerer, Accept, SentOk), w2, t2, end);
    Then(c, World(x, y, [], []), Step.Answer(Scanner, Accept, SentOk), w1, t1, end);
  }

  function Declining(): seq<Step> {
    [Step.Answer(Scanner, Accept, SentOk)]
        + ([Step.Answer(Offerer, Decline, SentOk)] + ([Receive(Scanner)] + ([TakeConfirm(Scanner, true)] + [])))
  }

  /** From both prompts, when one user declines: that side gives up at once, the other as soon as it is told. */
  lemma ReachesDeclined(c: Setup, ns: bytes, no: bytes)
    ensures exists w ::
      && Reaches(c, World(Showing(c, Scanner, ns, no), Showing(c, Offerer, no, ns), [], []), Declining(), w)
      && w.scanner.pc == w.offerer.pc == GaveUp && w.scanner.stored == w.offerer.stored == None
  {
    hide SasAt;
    var x, y := Showing(c, Scanner, ns, no), Showing(c, Offerer, no, ns);
    var ax := x.(pc := AwaitingConfirm(x.pc.remote), accepted := true);
    var gy := y.(pc := GaveUp);
    var w1 := World(ax, y, [Confirm(true)], []);
    var w2 := World(ax, gy, [Confirm(true)], [Confirm(false)]);
    var w3 := World(ax.(box := NO_MAIL.(conf := Some(Confirm(false)))), gy, [Confirm(true)], []);
    var end := World(x.(pc := GaveUp, accepted := true), gy, [Confirm(true)], []);
    var t3 := [TakeConfirm(Scanner, true)] + [];
    var t2 := [Receive(Scanner)] + t3;
    var t1 := [Step.Answer(Offerer, Decline, SentOk)] + t2;
    assert Reaches(c, end, [], end);
    Then(c, w3, TakeConfirm(Scanner, true), end, [], end);
    Then(c, w2, Receive(Scanner), w3, t3, end);
    Then(c, w1, Step.Answer(Offerer, Decline, SentOk), w2, t2, end);
    Then(c, World(x, y, [], []), Step.Answer(Scanner, Accept, SentOk), w1, t1, end);
  }

  lemma {:induction false} Joined(c: Setup, w: World, steps: seq<Step>, mid: World, more: seq<Step>, end: World)
    requires Reaches(c, w, steps, mid) && Reaches(c, mid, more, end)
    ensures Reaches(c, w, steps + more, end)
    decreases |steps|
  {
    hide Next;
    hide Enabled;
    if steps == [] {
      assert steps + more == more;
    } else {
      assert (steps + more)[1..] == steps[1..] + more;
      Joined(c, Next(c, w, steps[0]), steps[1..], mid, more, end);
    }
  }

  /**
   The protocol is not safe by doing nothing: two honest devices whose users both accept end up storing each
   other.
   */
  lemma HonestDevicesPair(c: Setup, ns: bytes, no: bytes)
    requires Honest(c, ns, no)
    ensures exists steps, w ::
      && Reaches(c, BOOT, steps, w) && w.scanner.pc == w.offerer.pc == Paired
      && w.scanner.stored == Some(RecordOf(RemoteFor(c, Scanner, no)))
      && w.offerer.stored == Some(RecordOf(RemoteFor(c, Offerer, ns)))
  {
    var mid := World(Showing(c, Scanner, ns, no), Showing(c, Offerer, no, ns), [], []);
    var end := World(Done(c, Scanner, ns, no), Done(c, Offerer, no, ns), [], []);
    ReachesPrompts(c, ns, no);
    ReachesPaired(c, ns, no);
    hide Reaches;
    Joined(c, BOOT, Openings(ns, no), mid, Closings(), end);
    assert Reaches(c, BOOT, Openings(ns, no) + Closings(), end);
  }
}
