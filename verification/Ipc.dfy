/**
 Request and prompt correlation on the local daemon link (internal/ipc/ipc.go):
 any number of calls, one read loop, time-outs and shutdown, interleaved at the
 granularity of the code's own critical sections.
 */
module Ipc {
  import opened Bytes

  const MSG_PROMPT_RESPONSE: u16 := 13
  const MSG_ERROR: u16 := 16
  const MAX_VARINT_LEN: nat := 10

  /** Message types that answer one of our requests. */
  predicate IsReply(t: u16) {
    t in {2, 4, 6, 8, 10, 15, 18, 20, 22, 24, 26, 28, 30, 32, 34, 36, MSG_ERROR}
  }

  // --- the request id on the wire ---------------------------------------------

  /**
   The varint in front of `b`, whose first `i` bytes have been read; `None` is a value that does not fit 64 bits
   or does not end.
   */
  function Uvarint(b: bytes, i: nat): Option<nat> {
    if b == [] || i >= MAX_VARINT_LEN then None
    else if b[0] < 0x80 then (if i == MAX_VARINT_LEN - 1 && b[0] > 1 then None else Some(b[0]))
    else
      match Uvarint(b[1..], i + 1)
      case None => None
      case Some(v) => Some(b[0] - 0x80 + 0x80 * v)
  }

  function PutUvarint(v: nat): bytes {
    if v < 0x80 then [v] else [0x80 + v % 0x80] + PutUvarint(v / 0x80)
  }

  function RequestId(payload: bytes): nat {
    if |payload| < 2 || payload[0] != 0x08 then 0
    else match Uvarint(payload[1..], 0) case None => 0 case Some(v) => v
  }

  /** `x + scale * v` for the value `v` still to be read, if there is one. */
  function Scaled(x: nat, scale: nat, o: Option<nat>): Option<nat> {
    match o case None => None case Some(v) => Some(x + scale * v)
  }

  /** Go's x | low << s for a `low` above every bit of `x`, with `scale` for 1 << s. */
  function OrShifted(x: nat, low: nat, scale: nat): nat { x + low * scale }

  lemma ScaleNext(x: nat, scale: nat, low: nat, o: Option<nat>)
    ensures Scaled(x, scale, Scaled(low, 0x80, o)) == Scaled(OrShifted(x, low, scale), scale * 0x80, o)
  {
    match o
    case None =>
    case Some(v) =>
      assert scale * (low + 0x80 * v) == scale * low + scale * 0x80 * v;
  }

  lemma ScaleLast(x: nat, scale: nat, v: nat)
    ensures Scaled(x, scale, Some(v)) == Some(OrShifted(x, v, scale))
  {}

  /** peekRequestID, with binary.Uvarint's loop. */
  method PeekRequestId(payload: bytes) returns (id: nat)
    ensures id == RequestId(payload)
  {
    hide OrShifted;
    if |payload| < 2 || payload[0] != 0x08 {
      return 0;
    }
    var x: nat, scale: nat, i: nat := 0, 1, 0;
    ghost var target := Uvarint(payload[1..], 0);
    assert target == Scaled(0, 1, target);
    while 1 + i < |payload|
      invariant 1 + i <= |payload| && i <= MAX_VARINT_LEN
      invariant target == Scaled(x, scale, Uvarint(payload[1 + i..], i))
    {
      hide Scaled;
      var b := payload[1 + i];
      if i == MAX_VARINT_LEN {
        assert target == None by { NoneScales(x, scale); }
        return 0;
      }
      assert payload[1 + i..][1..] == payload[1 + (i + 1)..];
      if b < 0x80 {
        if i == MAX_VARINT_LEN - 1 && b > 1 {
          assert target == None by { NoneScales(x, scale); }
          return 0;
        }
        ScaleLast(x, scale, b);
        return OrShifted(x, b, scale);
      }
      assert Uvarint(payload[1 + i..], i) == Scaled(b - 0x80, 0x80, Uvarint(payload[1 + (i + 1)..], i + 1)) by {
        UvarintUnfolds(payload[1 + i..], i);
      }
      ScaleNext(x, scale, b - 0x80, Uvarint(payload[1 + (i + 1)..], i + 1));
      x := OrShifted(x, b - 0x80, scale);
      scale := scale * 0x80;
      i := i + 1;
    }
    id := 0;
  }

  lemma NoneScales(x: nat, scale: nat)
    ensures Scaled(x, scale, None) == None
  {}

  lemma UvarintUnfolds(b: bytes, i: nat)
    requires b != [] && i < MAX_VARINT_LEN && b[0] >= 0x80
    ensures Uvarint(b, i) == Scaled(b[0] - 0x80, 0x80, Uvarint(b[1..], i + 1))
  {}

  /** What is left of 64 bits after `i` varint bytes. */
  function Limit(i: nat): nat
    requires i < MAX_VARINT_LEN
    decreases MAX_VARINT_LEN - i
  {
    if i == MAX_VARINT_LEN - 1 then 2 else 0x80 * Limit(i + 1)
  }

  lemma {:induction false} UvarintRoundTrip(v: nat, rest: bytes, i: nat)
    requires i < MAX_VARINT_LEN && v < Limit(i)
    ensures Uvarint(PutUvarint(v) + rest, i) == Some(v)
    decreases v
  {
    var b := PutUvarint(v) + rest;
    if v >= 0x80 {
      assert b[1..] == PutUvarint(v / 0x80) + rest;
      UvarintRoundTrip(v / 0x80, rest, i + 1);
    }
  }

  /** A set 64-bit request id, field 1 of any daemon message, is always read back. */
  lemma RequestIdRoundTrip(id: nat, rest: bytes)
    requires 0 < id < 0x1_0000_0000_0000_0000
    ensures RequestId([0x08] + (PutUvarint(id) + rest)) == id
  {
    var payload := [0x08] + (PutUvarint(id) + rest);
    assert payload[1..] == PutUvarint(id) + rest;
    assert Limit(9) == 2 && Limit(8) == 0x100 && Limit(7) == 0x8000 && Limit(6) == 0x40_0000;
    assert Limit(5) == 0x2000_0000 && Limit(4) == 0x10_0000_0000 && Limit(3) == 0x800_0000_0000;
    assert Limit(2) == 0x4_0000_0000_0000 && Limit(1) == 0x200_0000_0000_0000;
    assert Limit(0) == 0x1_0000_0000_0000_0000;
    UvarintRoundTrip(id, rest, 0);
  }

  function Pow128(k: nat): (p: nat)
    ensures p > 0
  {
    if k == 0 then 1 else 0x80 * Pow128(k - 1)
  }

  /** The encoding, octet by octet: seven bits at a time, lowest first, the high bit set on all but the last. */
  lemma {:induction false} EncodedOctets(v: nat, j: nat)
    requires j < |PutUvarint(v)|
    ensures var p := PutUvarint(v);
      && p[j] == (if j == |p| - 1 then v / Pow128(j) else 0x80 + v / Pow128(j) % 0x80)
      && (j == |p| - 1 ==> v / Pow128(j) < 0x80)
  {
    assert Pow128(0) == 1;
    if v >= 0x80 && j > 0 {
      EncodedOctets(v / 0x80, j - 1);
      DivideTwice(v, 0x80, Pow128(j - 1));
    }
  }

  /** Seven bits of each octet, the first the lowest. */
  function Groups(b: bytes): nat {
    if b == [] then 0 else Groups(b[..|b| - 1]) + (b[|b| - 1] % 0x80) * Pow128(|b| - 1)
  }

  lemma {:induction false} GroupsCons(x: byte, b: bytes)
    ensures Groups([x] + b) == x % 0x80 + 0x80 * Groups(b)
  {
    if b == [] {
      assert [x] + b == [x] && [x][..0] == [] && Groups([]) == 0 && Pow128(0) == 1;
    } else {
      var init, y := b[..|b| - 1], b[|b| - 1];
      GroupsCons(x, init);
      assert ([x] + b)[..|b|] == [x] + init;
      assert (y % 0x80) * Pow128(|b|)
          == 0x80 * ((y % 0x80) * Pow128(|b| - 1)) by { Shifted(y % 0x80, Pow128(|b| - 1)); }
    }
  }

  lemma Shifted(x: nat, p: nat)
    ensures x * (0x80 * p) == 0x80 * (x * p)
  {}

  /** Any varint of at most ten octets that fits 64 bits is read, shortest form or not. */
  lemma RequestIdMeaning(payload: bytes, n: nat)
    requires 1 <= n < |payload| && n <= 10 && payload[0] == 0x08 && payload[n] < 0x80
    requires (forall i | 1 <= i < n :: payload[i] >= 0x80) && (n == 10 ==> payload[10] <= 1)
    ensures RequestId(payload) == Groups(payload[1..n + 1])
  {
    UvarintMeaning(payload[1..], 0, n - 1);
    assert payload[1..][..n] == payload[1..n + 1];
  }

  lemma {:induction false} UvarintMeaning(b: bytes, i: nat, k: nat)
    requires k < |b| && i + k < MAX_VARINT_LEN && b[k] < 0x80 && (forall j | 0 <= j < k :: b[j] >= 0x80)
    requires i + k == MAX_VARINT_LEN - 1 ==> b[k] <= 1
    ensures Uvarint(b, i) == Some(Groups(b[..k + 1]))
    decreases k
  {
    GroupsCons(b[0], b[1..][..k]);
    assert b[..k + 1] == [b[0]] + b[1..][..k];
    if k == 0 {
      assert b[1..][..0] == [];
    } else {
      UvarintMeaning(b[1..], i + 1, k - 1);
    }
    hide Groups;
  }

  /** An id that is absent, cut off or too large for 64 bits reads as 0, which no call has. */
  lemma NoRequestId(payload: bytes)
    requires || |payload| < 2 || payload[0] != 0x08
             || (forall i | 1 <= i < |payload| && i <= 10 :: payload[i] >= 0x80)
             || (|payload| > 10 && payload[10] > 1 && forall i | 1 <= i < 10 :: payload[i] >= 0x80)
    ensures RequestId(payload) == 0
  {
    if |payload| >= 2 && payload[0] == 0x08 { Unending(payload[1..], 0); }
  }

  lemma {:induction false} Unending(b: bytes, i: nat)
    requires i <= MAX_VARINT_LEN
    requires || (forall k | 0 <= k < |b| && i + k < MAX_VARINT_LEN :: b[k] >= 0x80)
             || (i + |b| >= MAX_VARINT_LEN && i < MAX_VARINT_LEN && b[MAX_VARINT_LEN - 1 - i] > 1
                 && forall k | 0 <= k < MAX_VARINT_LEN - 1 - i :: b[k] >= 0x80)
    ensures Uvarint(b, i) == None
    decreases |b|
  {
    if b != [] && i < MAX_VARINT_LEN && b[0] >= 0x80 { Unending(b[1..], i + 1); }
  }

  // --- the tables -------------------------------------------------------------

  /** The fields under `mu`. A reply channel is known by the id of the call that made it. */
  datatype Tables = Tables(pending: map<nat, nat>, prompts: map<nat, nat>, closed: bool)

  function Registered(t: Tables, id: nat, prompt: bool): Tables {
    if prompt then t.(prompts := t.prompts[id := id]) else t.(pending := t.pending[id := id])
  }

  function Removed(t: Tables, id: nat, prompt: bool): Tables {
    if prompt then t.(prompts := t.prompts - {id}) else t.(pending := t.pending - {id})
  }

  /** The channel an inbound message goes to, if any: dispatch's choice of table and lookup. */
  function Claim(t: Tables, r: Reply): Option<nat> {
    var id := RequestId(r.payload);
    if IsReply(r.typ) then (if id in t.pending then Some(t.pending[id]) else None)
    else if r.typ == MSG_PROMPT_RESPONSE then (if id in t.prompts then Some(t.prompts[id]) else None)
    else None
  }

  function Claimed(t: Tables, r: Reply): Tables {
    if Claim(t, r).None? then t else Removed(t, RequestId(r.payload), !IsReply(r.typ))
  }

  datatype Reply = Reply(typ: u16, payload: bytes)

  /** Peer's critical sections. */
  class Peer {
    var pending: map<nat, nat>
    var prompts: map<nat, nat>
    var closed: bool

    function State(): Tables
      reads this
    {
      Tables(pending, prompts, closed)
    }

    constructor ()
      ensures State() == Tables(map[], map[], false)
    {
      pending, prompts, closed := map[], map[], false;
    }

    /** The entry of call. */
    method Register(id: nat, prompt: bool) returns (ok: bool)
      modifies this
      ensures ok == !old(closed)
      ensures State() == if ok then Registered(old(State()), id, prompt) else old(State())
    {
      if closed {
        return false;
      }
      if prompt {
        prompts := prompts[id := id];
      } else {
        pending := pending[id := id];
      }
      ok := true;
    }

    /** The deferred exit of call. */
    method Remove(id: nat, prompt: bool)
      modifies this
      ensures State() == Removed(old(State()), id, prompt)
    {
      if prompt {
        prompts := prompts - {id};
      } else {
        pending := pending - {id};
      }
    }

    /** dispatch up to the send: the channel to send to, taken out of its table. */
    method Route(r: Reply) returns (ch: Option<nat>)
      modifies this
      ensures ch == Claim(old(State()), r) && State() == Claimed(old(State()), r)
    {
      var id := PeekRequestId(r.payload);
      ch := None;
      if IsReply(r.typ) {
        if id in pending {
          ch := Some(pending[id]);
          pending := pending - {id};
        }
      } else if r.typ == MSG_PROMPT_RESPONSE {
        if id in prompts {
          ch := Some(prompts[id]);
          prompts := prompts - {id};
        }
      }
    }

    method Fail() returns (first: bool)
      modifies this`closed
      ensures closed && first == !old(closed)
    {
      first := !closed;
      closed := true;
    }
  }

  // --- every interleaving -----------------------------------------------------

  datatype Outcome = Replied(r: Reply) | TimedOut | ConnectionGone | SendFailed | Refused

  datatype Pc = Allocated | Listed | Waiting | Leaving(out: Outcome) | Finished(out: Outcome)

  /** One call; `delivered` counts what the reader ever sent it. */
  datatype Call = Call(prompt: bool, pc: Pc, channel: seq<Reply>, delivered: nat)

  /** The read loop between looking a reply up and sending it on. */
  datatype Reader = Reading | Sending(ch: nat, r: Reply)

  datatype World = World(lastId: nat, calls: map<nat, Call>, tables: Tables, reader: Reader)

  const BOOT: World := World(0, map[], Tables(map[], map[], false), Reading)

  datatype Step =
    | Begin(prompt: bool)
    | Enter(id: nat)
    | Send(id: nat, ok: bool)
    | Expire(id: nat)        // the context ends
    | NoticeClosed(id: nat)  // done is closed
    | TakeReply(id: nat)
    | Exit(id: nat)
    | Inbound(r: Reply)
    | HandOver
    | Fail

  predicate At(w: World, id: nat, pc: Pc) { id in w.calls && w.calls[id].pc == pc }

  predicate Enabled(w: World, e: Step) {
    match e
    case Begin(_) => true
    case Enter(id) => At(w, id, Allocated)
    case Send(id, _) => At(w, id, Listed)
    case Expire(id) => At(w, id, Waiting)
    case NoticeClosed(id) => At(w, id, Waiting) && w.tables.closed
    case TakeReply(id) => At(w, id, Waiting) && w.calls[id].channel != []
    case Exit(id) => id in w.calls && w.calls[id].pc.Leaving?
    case Inbound(_) => w.reader.Reading?
    case HandOver => w.reader.Sending? && HasRoom(w, w.reader.ch)
    case Fail => true
  }

  /** A send on a channel of capacity one does not block. */
  predicate HasRoom(w: World, ch: nat) { ch in w.calls && w.calls[ch].channel == [] }

  function Moved(w: World, id: nat, pc: Pc): World
    requires id in w.calls
  {
    w.(calls := w.calls[id := w.calls[id].(pc := pc)])
  }

  function Next(w: World, e: Step): World
    requires Enabled(w, e)
  {
    match e
    case Begin(prompt) => w.(lastId := w.lastId + 1, calls := w.calls[w.lastId + 1 := Call(prompt, Allocated, [], 0)])
    case Enter(id) =>
      if w.tables.closed then Moved(w, id, Finished(Refused))
      else Moved(w, id, Listed).(tables := Registered(w.tables, id, w.calls[id].prompt))
    case Send(id, ok) => Moved(w, id, if ok then Waiting else Leaving(SendFailed))
    case Expire(id) => Moved(w, id, Leaving(TimedOut))
    case NoticeClosed(id) => Moved(w, id, Leaving(ConnectionGone))
    case TakeReply(id) =>
      var c := w.calls[id];
      w.(calls := w.calls[id := c.(pc := Leaving(Replied(c.channel[0])), channel := c.channel[1..])])
    case Exit(id) => Moved(w, id, Finished(w.calls[id].pc.out)).(tables := Removed(w.tables, id, w.calls[id].prompt))
    case Inbound(r) =>
      var ch := Claim(w.tables, r);
      if ch.None? then w else w.(tables := Claimed(w.tables, r), reader := Sending(ch.value, r))
    case HandOver =>
      var c := w.calls[w.reader.ch];
      w.(calls := w.calls[w.reader.ch := c.(channel := [w.reader.r], delivered := c.delivered + 1)], reader := Reading)
    case Fail => w.(tables := w.tables.(closed := true))
  }

  ghost predicate Reaches(w: World, steps: seq<Step>, end: World)
    decreases |steps|
  {
    if steps == [] then w == end
    else Enabled(w, steps[0]) && Reaches(Next(w, steps[0]), steps[1..], end)
  }

  // --- the invariant ----------------------------------------------------------

  predicate InTables(w: World, id: nat) { id in w.tables.pending || id in w.tables.prompts }

  /** `r` answers the call `id`: it carries its id and comes from its table. */
  predicate Answers(r: Reply, id: nat, prompt: bool) {
    RequestId(r.payload) == id && (if prompt then r.typ == MSG_PROMPT_RESPONSE else IsReply(r.typ))
  }

  ghost predicate CallSound(w: World, id: nat)
    requires id in w.calls
  {
    var c := w.calls[id];
    && 0 < id <= w.lastId && c.delivered <= 1 && |c.channel| <= c.delivered
    && (forall r <- c.channel :: Answers(r, id, c.prompt))
    && (c.pc.Allocated? || c.pc.Finished? ==> !InTables(w, id))
    && (c.pc.Allocated? ==> c.delivered == 0)
    && ((c.pc.Leaving? || c.pc.Finished?) && c.pc.out.Replied? ==>
        c.channel == [] && c.delivered == 1 && Answers(c.pc.out.r, id, c.prompt))
  }

  predicate Unanswered(w: World, id: nat, prompt: bool) {
    id in w.calls && w.calls[id].prompt == prompt && w.calls[id].delivered == 0
  }

  ghost predicate TablesSound(w: World) {
    && (forall id <- w.tables.pending :: w.tables.pending[id] == id && Unanswered(w, id, false))
    && (forall id <- w.tables.prompts :: w.tables.prompts[id] == id && Unanswered(w, id, true))
  }

  ghost predicate ReaderSound(w: World) {
    w.reader.Sending? ==>
      && w.reader.ch in w.calls && !InTables(w, w.reader.ch) && w.calls[w.reader.ch].delivered == 0
      && !w.calls[w.reader.ch].pc.Allocated? && Answers(w.reader.r, w.reader.ch, w.calls[w.reader.ch].prompt)
  }

  ghost predicate Inv(w: World) {
    (forall id <- w.calls :: CallSound(w, id)) && TablesSound(w) && ReaderSound(w)
  }

  lemma BeginKeepsInv(w: World, prompt: bool)
    requires Inv(w)
    ensures Inv(Next(w, Begin(prompt)))
  {
    hide RequestId;
    hide IsReply;
    var n := w.lastId + 1;
    assert forall id <- w.calls :: CallSound(w, id) && id < n;
    forall id <- Next(w, Begin(prompt)).calls ensures CallSound(Next(w, Begin(prompt)), id) {
      if id != n { assert CallSound(w, id); }
    }
  }

  /** One call changing, and no table, keeps the rest sound. */
  lemma ReplacedKeepsInv(w: World, id: nat, c: Call, u: World)
    requires Inv(w) && id in w.calls && u == w.(calls := w.calls[id := c])
    requires !c.pc.Allocated? && c.prompt == w.calls[id].prompt && c.delivered == w.calls[id].delivered
    requires CallSound(u, id)
    ensures Inv(u)
  {
    hide RequestId;
    hide IsReply;
    hide Answers;
    forall k <- u.calls ensures CallSound(u, k) {
      if k != id { OthersSound(w, id, c, u, k); }
    }
    hide CallSound;
    assert TablesSound(u);
    assert ReaderSound(u);
  }

  lemma OthersSound(w: World, id: nat, c: Call, u: World, k: nat)
    requires id in w.calls && u == w.(calls := w.calls[id := c]) && k in w.calls && k != id && CallSound(w, k)
    ensures CallSound(u, k)
  {
    hide Answers;
  }

  lemma EnterKeepsInv(w: World, id: nat)
    requires Inv(w) && Enabled(w, Enter(id))
    ensures Inv(Next(w, Enter(id)))
  {
    hide RequestId;
    hide IsReply;
    hide Answers;
    assert CallSound(w, id);
    if w.tables.closed {
      ReplacedKeepsInv(w, id, w.calls[id].(pc := Finished(Refused)), Next(w, Enter(id)));
    } else {
      var v := Moved(w, id, Listed);
      var c := w.calls[id];
      ReplacedKeepsInv(w, id, c.(pc := Listed), v);
      ListedKeepsInv(v, id);
    }
  }

  lemma ListedKeepsInv(w: World, id: nat)
    requires Inv(w) && At(w, id, Listed) && w.calls[id].delivered == 0
    requires w.reader.Sending? ==> w.reader.ch != id
    ensures Inv(w.(tables := Registered(w.tables, id, w.calls[id].prompt)))
  {
    hide RequestId;
    hide IsReply;
    hide Answers;
    var u := w.(tables := Registered(w.tables, id, w.calls[id].prompt));
    forall k <- u.calls ensures CallSound(u, k) {
      assert CallSound(w, k);
    }
    assert TablesSound(u);
  }

  /** The steps of a call that touch no table. */
  lemma WaitingStepKeepsInv(w: World, e: Step, id: nat)
    requires Inv(w) && Enabled(w, e)
    requires e in {Send(id, true), Send(id, false), Expire(id), NoticeClosed(id), TakeReply(id)}
    ensures Inv(Next(w, e))
  {
    hide RequestId;
    hide IsReply;
    hide Answers;
    hide Inv;
    var u := Next(w, e);
    CallIsSound(w, id);
    ReplacedKeepsInv(w, id, u.calls[id], u);
  }

  lemma CallIsSound(w: World, id: nat)
    requires Inv(w) && id in w.calls
    ensures CallSound(w, id)
  {}

  lemma ExitKeepsInv(w: World, id: nat)
    requires Inv(w) && Enabled(w, Exit(id))
    ensures Inv(Next(w, Exit(id)))
  {
    hide RequestId;
    hide IsReply;
    hide Answers;
    var c := w.calls[id].(pc := Finished(w.calls[id].pc.out));
    CallIsSound(w, id);
    var v := w.(tables := Removed(w.tables, id, w.calls[id].prompt));
    UnlistedKeepsInv(w, id);
    CallIsSound(v, id);
    NotListed(v, id);
    hide Inv;
    ReplacedKeepsInv(v, id, c, v.(calls := v.calls[id := c]));
  }

  /** A call is in no table but its own. */
  lemma NotListed(v: World, id: nat)
    requires Inv(v) && id in v.calls
    requires if v.calls[id].prompt then id !in v.tables.prompts else id !in v.tables.pending
    ensures !InTables(v, id)
  {
    hide CallSound;
    hide ReaderSound;
  }

  lemma UnlistedKeepsInv(w: World, id: nat)
    requires Inv(w) && id in w.calls
    ensures Inv(w.(tables := Removed(w.tables, id, w.calls[id].prompt)))
  {
    hide RequestId;
    hide IsReply;
    hide Answers;
    var u := w.(tables := Removed(w.tables, id, w.calls[id].prompt));
    forall k <- u.calls ensures CallSound(u, k) {
      assert CallSound(w, k);
    }
    hide CallSound;
    assert TablesSound(u);
  }

  lemma InboundKeepsInv(w: World, r: Reply)
    requires Inv(w) && Enabled(w, Inbound(r))
    ensures Inv(Next(w, Inbound(r)))
  {
    hide RequestId;
    hide IsReply;
    var u := Next(w, Inbound(r));
    forall k <- u.calls ensures CallSound(u, k) {
      assert CallSound(w, k);
    }
  }

  lemma HandOverKeepsInv(w: World)
    requires Inv(w) && Enabled(w, HandOver)
    ensures Inv(Next(w, HandOver))
  {
    hide Answers;
    var u := Next(w, HandOver);
    forall k <- u.calls ensures CallSound(u, k) {
      assert CallSound(w, k);
    }
  }

  lemma StepKeepsInv(w: World, e: Step)
    requires Inv(w) && Enabled(w, e)
    ensures Inv(Next(w, e))
  {
    hide CallSound;
    match e {
      case Begin(prompt) => BeginKeepsInv(w, prompt);
      case Inbound(r) => InboundKeepsInv(w, r);
      case HandOver => HandOverKeepsInv(w);
      case Fail => FailKeepsInv(w);
      case Enter(id) => EnterKeepsInv(w, id);
      case Send(id, _) => WaitingStepKeepsInv(w, e, id);
      case Expire(id) => WaitingStepKeepsInv(w, e, id);
      case NoticeClosed(id) => WaitingStepKeepsInv(w, e, id);
      case TakeReply(id) => WaitingStepKeepsInv(w, e, id);
      case Exit(id) => ExitKeepsInv(w, id);
    }
  }

  lemma FailKeepsInv(w: World)
    requires Inv(w)
    ensures Inv(Next(w, Fail))
  {
    hide Answers;
    var u := Next(w, Fail);
    forall k <- u.calls ensures CallSound(u, k) {
      assert CallSound(w, k);
    }
  }

  lemma {:induction false} RunKeepsInv(w: World, steps: seq<Step>, end: World)
    requires Inv(w) && Reaches(w, steps, end)
    ensures Inv(end)
    decreases |steps|
  {
    if steps != [] {
      StepKeepsInv(w, steps[0]);
      RunKeepsInv(Next(w, steps[0]), steps[1..], end);
    }
  }

  // --- the theorems -----------------------------------------------------------

  /** A call is sent at most one reply ever, and one it returns carries its own id and came from its own table. */
  lemma RepliesReachTheirCall(steps: seq<Step>, w: World, id: nat)
    requires Reaches(BOOT, steps, w) && id in w.calls
    ensures w.calls[id].delivered <= 1
    ensures w.calls[id].pc.Finished? && w.calls[id].pc.out.Replied? ==>
        Answers(w.calls[id].pc.out.r, id, w.calls[id].prompt)
  {
    RunKeepsInv(BOOT, steps, w);
    assert CallSound(w, id);
  }

  /** The read loop never blocks on a reply channel. */
  lemma ReaderNeverBlocks(steps: seq<Step>, w: World)
    requires Reaches(BOOT, steps, w) && w.reader.Sending?
    ensures Enabled(w, HandOver)
  {
    RunKeepsInv(BOOT, steps, w);
    assert CallSound(w, w.reader.ch);
  }

  /** A finished call leaves no table entry, so any later answer to it changes nothing. */
  lemma LateRepliesChangeNothing(steps: seq<Step>, w: World, id: nat, r: Reply)
    requires Reaches(BOOT, steps, w) && id in w.calls && w.calls[id].pc.Finished? && w.reader.Reading?
    ensures !InTables(w, id)
    ensures RequestId(r.payload) == id ==> Next(w, Inbound(r)) == w
  {
    RunKeepsInv(BOOT, steps, w);
    assert CallSound(w, id);
  }

  /** Nor does an answer to a call that was never made. */
  lemma UnknownRepliesChangeNothing(steps: seq<Step>, w: World, r: Reply)
    requires Reaches(BOOT, steps, w) && w.reader.Reading? && RequestId(r.payload) !in w.calls
    ensures Next(w, Inbound(r)) == w
  {
    RunKeepsInv(BOOT, steps, w);
  }

  /** Once the peer has failed, the tables only shrink. */
  lemma StepAfterFailure(w: World, e: Step)
    requires w.tables.closed && Enabled(w, e)
    ensures var t := Next(w, e).tables;
      t.closed && t.pending.Keys <= w.tables.pending.Keys && t.prompts.Keys <= w.tables.prompts.Keys
  {
    hide RequestId;
    hide IsReply;
  }

  lemma {:induction false} TablesOnlyShrink(w: World, steps: seq<Step>, end: World)
    requires w.tables.closed && Reaches(w, steps, end)
    ensures end.tables.closed && end.tables.pending.Keys <= w.tables.pending.Keys &&
        end.tables.prompts.Keys <= w.tables.prompts.Keys
    decreases |steps|
  {
    hide Next;
    if steps != [] {
      StepAfterFailure(w, steps[0]);
      TablesOnlyShrink(Next(w, steps[0]), steps[1..], end);
    }
  }

  /** No call registers any more: one that had not yet registered can only be refused. */
  lemma {:induction false} NothingRegistersAfterFailure(w: World, steps: seq<Step>, end: World, id: nat)
    requires Inv(w) && w.tables.closed && Reaches(w, steps, end)
    requires At(w, id, Allocated) || At(w, id, Finished(Refused))
    ensures At(end, id, Allocated) || At(end, id, Finished(Refused))
    decreases |steps|
  {
    if steps != [] {
      RefusedStep(w, steps[0], id);
      StepAfterFailure(w, steps[0]);
      StepKeepsInv(w, steps[0]);
      hide Next;
      hide Enabled;
      NothingRegistersAfterFailure(Next(w, steps[0]), steps[1..], end, id);
    }
  }

  lemma RefusedStep(w: World, e: Step, id: nat)
    requires Inv(w) && w.tables.closed && Enabled(w, e)
    requires At(w, id, Allocated) || At(w, id, Finished(Refused))
    ensures At(Next(w, e), id, Allocated) || At(Next(w, e), id, Finished(Refused))
  {
    hide RequestId;
    hide IsReply;
    hide Answers;
    assert CallSound(w, id);
  }

  // --- failure unblocks every call ------------------------------------------------

  /** The call a step is taken by, if any. */
  function Taker(e: Step): Option<nat> {
    match e
    case Enter(id) => Some(id)
    case Send(id, _) => Some(id)
    case Expire(id) => Some(id)
    case NoticeClosed(id) => Some(id)
    case TakeReply(id) => Some(id)
    case Exit(id) => Some(id)
    case _ => None
  }

  /** The call has entered its table and not yet returned. */
  predicate InProgress(w: World, id: nat) {
    id in w.calls && (w.calls[id].pc.Listed? || w.calls[id].pc.Waiting? || w.calls[id].pc.Leaving?)
  }

  /** What is left of a call once the peer has failed, whichever way its send turns out. */
  function WayOut(pc: Pc, id: nat, sendOk: bool): seq<Step> {
    match pc
    case Listed => if sendOk then [Send(id, true), NoticeClosed(id), Exit(id)] else [Send(id, false), Exit(id)]
    case Waiting => [NoticeClosed(id), Exit(id)]
    case Leaving(_) => [Exit(id)]
    case _ => []
  }

  /** A step of anyone else leaves a call where it is. */
  lemma OthersDoNotMove(w: World, e: Step, id: nat)
    requires Inv(w) && Enabled(w, e) && id in w.calls && Taker(e) != Some(id)
    ensures id in Next(w, e).calls && Next(w, e).calls[id].pc == w.calls[id].pc
  {
    hide RequestId;
    hide IsReply;
    CallIsSound(w, id);
    hide Inv;
  }

  lemma {:induction false} StaysPut(w: World, more: seq<Step>, u: World, id: nat)
    requires Inv(w) && w.tables.closed && id in w.calls && Reaches(w, more, u)
    requires forall e <- more :: Taker(e) != Some(id)
    ensures Inv(u) && u.tables.closed && id in u.calls && u.calls[id].pc == w.calls[id].pc
    decreases |more|
  {
    if more != [] {
      OthersDoNotMove(w, more[0], id);
      StepKeepsInv(w, more[0]);
      StepAfterFailure(w, more[0]);
      hide Next;
      hide Enabled;
      hide Inv;
      StaysPut(Next(w, more[0]), more[1..], u, id);
    }
  }

  lemma Then(w: World, e: Step, steps: seq<Step>, end: World)
    requires Enabled(w, e) && Reaches(Next(w, e), steps, end)
    ensures Reaches(w, [e] + steps, end)
  {
    hide Next;
    hide Enabled;
    assert ([e] + steps)[1..] == steps;
  }

  lemma ExitWorks(w: World, id: nat)
    requires id in w.calls && w.calls[id].pc.Leaving?
    ensures Reaches(w, [Exit(id)], Next(w, Exit(id))) && At(Next(w, Exit(id)), id, Finished(w.calls[id].pc.out))
  {
    var end := Next(w, Exit(id));
    assert Reaches(end, [], end);
    Then(w, Exit(id), [], end);
    assert [Exit(id)] + [] == [Exit(id)];
  }

  lemma NoticeWorks(w: World, id: nat)
    requires w.tables.closed && At(w, id, Waiting)
    ensures exists end :: Reaches(w, [NoticeClosed(id), Exit(id)], end) && At(end, id, Finished(ConnectionGone))
  {
    var u := Next(w, NoticeClosed(id));
    ExitWorks(u, id);
    Then(w, NoticeClosed(id), [Exit(id)], Next(u, Exit(id)));
    assert [NoticeClosed(id)] + [Exit(id)] == [NoticeClosed(id), Exit(id)];
  }

  lemma WayOutWorks(w: World, id: nat, sendOk: bool)
    requires w.tables.closed && InProgress(w, id)
    ensures exists end ::
      && Reaches(w, WayOut(w.calls[id].pc, id, sendOk), end)
      && id in end.calls && end.calls[id].pc.Finished?
  {
    match w.calls[id].pc
    case Leaving(_) => ExitWorks(w, id);
    case Waiting => NoticeWorks(w, id);
    case Listed =>
      var u := Next(w, Send(id, sendOk));
      if sendOk {
        NoticeWorks(u, id);
        var end :| Reaches(u, [NoticeClosed(id), Exit(id)], end) && At(end, id, Finished(ConnectionGone));
        Then(w, Send(id, true), [NoticeClosed(id), Exit(id)], end);
        assert [Send(id, true)] + [NoticeClosed(id), Exit(id)] == WayOut(Listed, id, true);
      } else {
        ExitWorks(u, id);
        Then(w, Send(id, false), [Exit(id)], Next(u, Exit(id)));
        assert [Send(id, false)] + [Exit(id)] == WayOut(Listed, id, false);
      }
  }

  /**
   After `fail` no pending call stays blocked. In any reachable state in which the peer has failed, a
   call that entered its table and has not returned has a way out of at most three steps, all its own;
   and whatever everyone else does meanwhile, that way stays open.
   */
  lemma FailureUnblocks(steps: seq<Step>, w: World, id: nat, more: seq<Step>, u: World, sendOk: bool)
    requires Reaches(BOOT, steps, w) && w.tables.closed && InProgress(w, id)
    requires Reaches(w, more, u) && forall e <- more :: Taker(e) != Some(id)
    ensures var out := WayOut(w.calls[id].pc, id, sendOk);
      && 0 < |out| <= 3 && (forall e <- out :: Taker(e) == Some(id))
      && Enabled(u, out[0])
      && exists end :: Reaches(u, out, end) && id in end.calls && end.calls[id].pc.Finished?
  {
    RunKeepsInv(BOOT, steps, w);
    StaysPut(w, more, u, id);
    hide Inv;
    hide Next;
    WayOutWorks(u, id, sendOk);
  }

  // --- replies arrive ---------------------------------------------------------------

  /** A call that has entered its table stays in it until the reader takes its reply up, and keeps what it is sent. */
  ghost predicate Listening(w: World, id: nat)
    requires id in w.calls
  {
    var c := w.calls[id];
    c.pc.Listed? || c.pc.Waiting? ==>
      && |c.channel| == c.delivered
      && (c.delivered == 0 && !(w.reader.Sending? && w.reader.ch == id) ==>
            if c.prompt then id in w.tables.prompts else id in w.tables.pending)
  }

  ghost predicate AllListen(w: World) { forall id <- w.calls :: Listening(w, id) }

  lemma StepKeepsListening(w: World, e: Step)
    requires Inv(w) && AllListen(w) && Enabled(w, e)
    ensures AllListen(Next(w, e))
  {
    var u := Next(w, e);
    forall k <- u.calls ensures Listening(u, k) {
      if k in w.calls {
        assert Listening(w, k);
        CallIsSound(w, k);
      }
      ListensAfter(w, e, k);
    }
  }

  lemma ListensAfter(w: World, e: Step, k: nat)
    requires Inv(w) && Enabled(w, e) && k in Next(w, e).calls
    requires k in w.calls ==> Listening(w, k) && CallSound(w, k)
    ensures Listening(Next(w, e), k)
  {
    hide RequestId;
    hide IsReply;
    hide Answers;
  }

  lemma {:induction false} RunKeepsListening(w: World, steps: seq<Step>, end: World)
    requires Inv(w) && AllListen(w) && Reaches(w, steps, end)
    ensures Inv(end) && AllListen(end)
    decreases |steps|
  {
    if steps != [] {
      StepKeepsInv(w, steps[0]);
      StepKeepsListening(w, steps[0]);
      hide Next;
      hide Enabled;
      hide Inv;
      hide AllListen;
      RunKeepsListening(Next(w, steps[0]), steps[1..], end);
    }
  }

  /**
   Delivery. In any reachable state in which a call waits without a reply and the read loop is at its
   top, a message of the call's kind that carries its id as field 1 is taken in, handed over and
   taken out, each step being enabled, and the call returns it.
   */
  lemma ReplyIsDelivered(steps: seq<Step>, w: World, id: nat, r: Reply, rest: bytes)
    requires Reaches(BOOT, steps, w) && At(w, id, Waiting) && w.calls[id].channel == [] && w.reader.Reading?
    requires id < 0x1_0000_0000_0000_0000 && r.payload == [0x08] + (PutUvarint(id) + rest)
    requires if w.calls[id].prompt then r.typ == 13
             else r.typ in {2, 4, 6, 8, 10, 15, 16, 18, 20, 22, 24, 26, 28, 30, 32, 34, 36}
    ensures exists end ::
        Reaches(w, [Inbound(r), HandOver, TakeReply(id), Exit(id)], end) && At(end, id, Finished(Replied(r)))
  {
    RunKeepsListening(BOOT, steps, w);
    CallIsSound(w, id);
    assert Listening(w, id);
    RequestIdRoundTrip(id, rest);
    assert IsReply(r.typ) <==> !w.calls[id].prompt;
    hide RequestId;
    hide IsReply;
    hide Next;
    hide CallSound;
    DeliveryRuns(w, id, r);
  }

  lemma DeliveryRuns(w: World, id: nat, r: Reply)
    requires At(w, id, Waiting) && w.calls[id].channel == [] && w.reader.Reading? && RequestId(r.payload) == id
    requires var prompt := w.calls[id].prompt;
      if prompt then
        !IsReply(r.typ) && r.typ == MSG_PROMPT_RESPONSE && id in w.tables.prompts && w.tables.prompts[id] == id
      else IsReply(r.typ) && id in w.tables.pending && w.tables.pending[id] == id
    ensures exists end ::
        Reaches(w, [Inbound(r), HandOver, TakeReply(id), Exit(id)], end) && At(end, id, Finished(Replied(r)))
  {
    hide RequestId;
    hide IsReply;
    var w1 := Next(w, Inbound(r));
    assert w1.reader == Sending(id, r) && w1.calls == w.calls;
    var w2 := Next(w1, HandOver);
    assert w2.calls[id].channel == [r] && w2.calls[id].pc == Waiting;
    var w3 := Next(w2, TakeReply(id));
    assert w3.calls[id].pc == Leaving(Replied(r));
    hide Next;
    ExitWorks(w3, id);
    var end := Next(w3, Exit(id));
    var t2, t1 := [TakeReply(id)] + [Exit(id)], [HandOver] + ([TakeReply(id)] + [Exit(id)]);
    Then(w2, TakeReply(id), [Exit(id)], end);
    Then(w1, HandOver, t2, end);
    Then(w, Inbound(r), t1, end);
    assert [Inbound(r)] + t1 == [Inbound(r), HandOver, TakeReply(id), Exit(id)];
  }
}
