/**
 The three stream framings: session envelopes (internal/session/envelope.go),
 relay data frames (internal/relay/relay.go) and infrastructure messages
 (internal/infra/frame.go). Each is a fixed prefix, a u32 payload length and the
 payload, little-endian.
 */
module Framing {
  import opened Bytes

  const ENVELOPE_VERSION: byte := 1

  /** The prefix length and the payload cap of one framing. */
  datatype Layout = Layout(prefixLen: nat, cap: nat)
  {
    function HeaderLen(): nat { prefixLen + 4 }
  }

  const ENVELOPE: Layout := Layout(4, 16 * 0x10_0000)
  const RELAY: Layout := Layout(DEVICE_ID_LEN, 16 * 0x400)
  const INFRA: Layout := Layout(2, 64 * 0x400)

  function Framed(prefix: bytes, payload: bytes): bytes { prefix + LE(|payload|, 4) + payload }

  predicate Fits(l: Layout, prefix: bytes, payload: bytes) {
    |prefix| == l.prefixLen && |payload| <= l.cap < 0x1_0000_0000
  }

  /** What the bytes available at a frame boundary amount to. */
  datatype Scan =
    | Nothing | PartHeader | OverCap(prefix: bytes) | NoPayload(prefix: bytes) | PartPayload(prefix: bytes)
    | Whole(prefix: bytes, payload: bytes, rest: bytes)

  function ScanFrame(l: Layout, b: bytes): Scan {
    if b == [] then Nothing
    else if |b| < l.HeaderLen() then PartHeader
    else
      var prefix, n, rest := b[..l.prefixLen], FromLE(b[l.prefixLen..l.HeaderLen()]), b[l.HeaderLen()..];
      if n > l.cap then OverCap(prefix)
      else if n > 0 && rest == [] then NoPayload(prefix)
      else if n > |rest| then PartPayload(prefix)
      else Whole(prefix, rest[..n], rest[n..])
  }

  lemma HeaderOf(l: Layout, prefix: bytes, payload: bytes, tail: bytes)
    requires Fits(l, prefix, payload)
    ensures var b := prefix + LE(|payload|, 4) + tail;
      && b[..l.prefixLen] == prefix && FromLE(b[l.prefixLen..l.HeaderLen()]) == |payload| && b[l.HeaderLen()..] == tail
  {
    var b := prefix + LE(|payload|, 4) + tail;
    assert b[l.prefixLen..l.HeaderLen()] == LE(|payload|, 4);
    Widths();
    LERoundTrip(|payload|, 4);
  }

  lemma ScanFramed(l: Layout, prefix: bytes, payload: bytes, rest: bytes)
    requires Fits(l, prefix, payload)
    ensures ScanFrame(l, Framed(prefix, payload) + rest) == Whole(prefix, payload, rest)
  {
    var b := Framed(prefix, payload) + rest;
    assert b == prefix + LE(|payload|, 4) + (payload + rest);
    HeaderOf(l, prefix, payload, payload + rest);
  }

  /** A frame cut after `k` bytes: only a cut right after the header of a non-empty frame reads as "no payload". */
  lemma ScanCut(l: Layout, prefix: bytes, payload: bytes, k: nat)
    requires Fits(l, prefix, payload) && 0 < k < |Framed(prefix, payload)|
    ensures ScanFrame(l, Framed(prefix, payload)[..k])
         == if k < l.HeaderLen() then PartHeader else if k == l.HeaderLen() then NoPayload(prefix)
             else PartPayload(prefix)
  {
    if k >= l.HeaderLen() {
      var tail := payload[..k - l.HeaderLen()];
      assert Framed(prefix, payload)[..k] == prefix + LE(|payload|, 4) + tail;
      HeaderOf(l, prefix, payload, tail);
    }
  }

  /** Whatever is accepted is the encoding of what is returned. */
  lemma ScanExact(l: Layout, b: bytes)
    requires ScanFrame(l, b).Whole? && l.cap < 0x1_0000_0000
    ensures var s := ScanFrame(l, b); Fits(l, s.prefix, s.payload) && b == Framed(s.prefix, s.payload) + s.rest
  {
    var s := ScanFrame(l, b);
    var len := b[l.prefixLen..l.HeaderLen()];
    FromLERoundTrip(len);
    assert b == s.prefix + len + (s.payload + s.rest);
  }

  // --- readers ----------------------------------------------------------------

  datatype ReadError = NoError | Eof | UnexpectedEof | Broken

  /** An io.Reader holding `data`, after which it ends cleanly or breaks. */
  class ByteReader {
    var data: bytes
    const broken: bool

    constructor (data: bytes, broken: bool)
      ensures this.data == data && this.broken == broken
    {
      this.data, this.broken := data, broken;
    }

    /** io.ReadFull. */
    method ReadFull(n: nat) returns (got: bytes, err: ReadError)
      modifies this`data
      ensures n <= |old(data)| ==> err == NoError && got == old(data)[..n] && data == old(data)[n..]
      ensures n > |old(data)| ==> data == [] && got == old(data)
      ensures n > |old(data)| ==> err == (if broken then Broken else if old(data) == [] then Eof else UnexpectedEof)
    {
      if n <= |data| {
        got, data, err := data[..n], data[n..], NoError;
      } else {
        got, err := data, if broken then Broken else if |data| == 0 then Eof else UnexpectedEof;
        data := [];
      }
    }
  }

  // --- envelopes --------------------------------------------------------------

  datatype Envelope = Envelope(version: byte, capId: byte, msgType: u16, payload: bytes)
  {
    function Prefix(): bytes { [version, capId] + LE(msgType, 2) }
  }

  datatype EncodeResult = Encoded(b: bytes) | Refused(code: Code)
  datatype Code = ProtocolViolation | MessageTooLarge

  datatype DecodeResult = Decoded(e: Envelope) | CleanEof | Failed(code: Code) | TransportError

  predicate Legal(e: Envelope) { e.version == ENVELOPE_VERSION && |e.payload| <= ENVELOPE.cap }

  /** EncodeEnvelope: the single buffer it writes, or its refusal. */
  method EncodeEnvelope(e: Envelope) returns (r: EncodeResult)
    ensures r.Encoded? <==> Legal(e)
    ensures r.Encoded? ==> r.b == Framed(e.Prefix(), e.payload)
    ensures r.Refused? ==> r.code == if e.version != ENVELOPE_VERSION then ProtocolViolation else MessageTooLarge
  {
    if e.version != ENVELOPE_VERSION {
      return Refused(ProtocolViolation);
    }
    if |e.payload| > ENVELOPE.cap {
      return Refused(MessageTooLarge);
    }
    var buf := [e.version, e.capId];
    buf := buf + LE(e.msgType, 2);
    buf := buf + LE(|e.payload|, 4);
    r := Encoded(buf + e.payload);
  }

  function EnvelopeOf(prefix: bytes, payload: bytes): Envelope
    requires |prefix| == 4
  {
    Widths();
    Envelope(prefix[0], prefix[1], FromLE(prefix[2..4]), payload)
  }

  /** What DecodeEnvelope makes of the bytes in front of it. */
  function DecodedFrom(b: bytes, broken: bool): DecodeResult {
    match ScanFrame(ENVELOPE, b)
    case Nothing => if broken then TransportError else CleanEof
    case PartHeader => if broken then TransportError else Failed(ProtocolViolation)
    case OverCap(prefix) => Failed(if b[0] != ENVELOPE_VERSION then ProtocolViolation else MessageTooLarge)
    case Whole(prefix, payload, _) => if b[0] != ENVELOPE_VERSION then Failed(ProtocolViolation)
        else Decoded(EnvelopeOf(prefix, payload))
    case _ => if b[0] != ENVELOPE_VERSION || !broken then Failed(ProtocolViolation) else TransportError
  }

  method DecodeEnvelope(r: ByteReader) returns (result: DecodeResult)
    modifies r`data
    ensures result == DecodedFrom(old(r.data), r.broken)
    ensures result.Decoded? ==> ScanFrame(ENVELOPE, old(r.data)) == Whole(old(r.data)[..4], result.e.payload, r.data)
  {
    var hdr, err := r.ReadFull(ENVELOPE.HeaderLen());
    if err == Eof {
      return CleanEof;
    }
    if err == UnexpectedEof {
      return Failed(ProtocolViolation);
    }
    if err == Broken {
      return TransportError;
    }
    Widths();
    assert hdr[2..4] == old(r.data)[..4][2..4] && hdr[4..8] == old(r.data)[4..8];
    var length := FromLE(hdr[4..8]);
    if hdr[0] != ENVELOPE_VERSION {
      return Failed(ProtocolViolation);
    }
    if length > ENVELOPE.cap {
      return Failed(MessageTooLarge);
    }
    if length == 0 {
      return Decoded(Envelope(hdr[0], hdr[1], FromLE(hdr[2..4]), []));
    }
    var payload, perr := r.ReadFull(length);
    if perr == Eof || perr == UnexpectedEof {
      return Failed(ProtocolViolation);
    }
    if perr == Broken {
      return TransportError;
    }
    result := Decoded(Envelope(hdr[0], hdr[1], FromLE(hdr[2..4]), payload));
  }

  function EncodeAll(es: seq<Envelope>): bytes {
    if es == [] then [] else Framed(es[0].Prefix(), es[0].payload) + EncodeAll(es[1..])
  }

  /** Decoding until something other than an envelope comes back. */
  function DecodeAll(b: bytes): (seq<Envelope>, DecodeResult)
    decreases |b|
  {
    var r := DecodedFrom(b, false);
    if !r.Decoded? then ([], r)
    else
      ScanExact(ENVELOPE, b);
      var (es, end) := DecodeAll(ScanFrame(ENVELOPE, b).rest);
      ([r.e] + es, end)
  }

  lemma PrefixRoundTrip(e: Envelope)
    ensures |e.Prefix()| == 4 && EnvelopeOf(e.Prefix(), e.payload) == e
  {
    Widths();
    LERoundTrip(e.msgType, 2);
    assert e.Prefix()[2..4] == LE(e.msgType, 2);
  }

  lemma DecodeEncoded(e: Envelope, rest: bytes)
    requires Legal(e)
    ensures var b := Framed(e.Prefix(), e.payload) + rest;
      DecodedFrom(b, false) == Decoded(e) && ScanFrame(ENVELOPE, b) == Whole(e.Prefix(), e.payload, rest)
  {
    PrefixRoundTrip(e);
    ScanFramed(ENVELOPE, e.Prefix(), e.payload, rest);
  }

  lemma DecodeAllCons(e: Envelope, rest: bytes)
    requires Legal(e)
    ensures DecodeAll(Framed(e.Prefix(), e.payload) + rest) == ([e] + DecodeAll(rest).0, DecodeAll(rest).1)
  {
    DecodeEncoded(e, rest);
    hide DecodedFrom;
    hide ScanFrame;
    hide Framed;
  }

  lemma {:induction false} DecodeAllThen(es: seq<Envelope>, tail: bytes)
    requires forall e <- es :: Legal(e)
    ensures DecodeAll(EncodeAll(es) + tail) == (es + DecodeAll(tail).0, DecodeAll(tail).1)
  {
    hide DecodeAll;
    if es == [] {
      assert [] + tail == tail;
      assert es + DecodeAll(tail).0 == DecodeAll(tail).0;
    } else {
      var rest := EncodeAll(es[1..]) + tail;
      assert EncodeAll(es) + tail == Framed(es[0].Prefix(), es[0].payload) + rest;
      DecodeAllCons(es[0], rest);
      DecodeAllThen(es[1..], tail);
      hide *;
      assert [es[0]] + (es[1..] + DecodeAll(tail).0) == es + DecodeAll(tail).0;
    }
  }

  /** The bytes of any sequence of legal envelopes decode to that sequence, then a clean end. */
  lemma EnvelopesRoundTrip(es: seq<Envelope>)
    requires forall e <- es :: Legal(e)
    ensures DecodeAll(EncodeAll(es)) == (es, CleanEof)
  {
    assert EncodeAll(es) + [] == EncodeAll(es);
    DecodeAllThen(es, []);
    assert DecodeAll([]) == ([], CleanEof);
    assert es + [] == es;
  }

  /** A stream cut inside a frame yields the frames before it and then a protocol violation, never a clean end. */
  lemma CutEnvelopesFail(es: seq<Envelope>, last: Envelope, k: nat)
    requires (forall e <- es :: Legal(e)) && Legal(last) && 0 < k < |Framed(last.Prefix(), last.payload)|
    ensures DecodeAll(EncodeAll(es) + Framed(last.Prefix(), last.payload)[..k]) == (es, Failed(ProtocolViolation))
  {
    var part := Framed(last.Prefix(), last.payload)[..k];
    PrefixRoundTrip(last);
    ScanCut(ENVELOPE, last.Prefix(), last.payload, k);
    assert DecodeAll(part) == ([], Failed(ProtocolViolation));
    DecodeAllThen(es, part);
    assert es + [] == es;
  }

  /** Every accepted envelope is legal and re-encodes to the very bytes consumed. */
  lemma AcceptedEnvelopesReencode(b: bytes, broken: bool)
    requires DecodedFrom(b, broken).Decoded?
    ensures var e := DecodedFrom(b, broken).e;
      Legal(e) && b == Framed(e.Prefix(), e.payload) + ScanFrame(ENVELOPE, b).rest
  {
    ScanExact(ENVELOPE, b);
    var prefix := ScanFrame(ENVELOPE, b).prefix;
    FromLERoundTrip(prefix[2..4]);
    assert prefix == [prefix[0], prefix[1]] + prefix[2..4];
  }

  // --- relay and infrastructure frames ----------------------------------------

  datatype Frame = Frame(head: bytes, payload: bytes)

  datatype FrameResult = Got(f: Frame) | Ended(err: ReadError) | TooLarge | BadId

  /** readFrame (`ids`) and ReadMessage on the bytes in front of them; both return ReadFull's error as it is. */
  function ReadFrom(l: Layout, ids: bool, b: bytes, broken: bool): FrameResult {
    match ScanFrame(l, b)
    case Nothing => Ended(if broken then Broken else Eof)
    case PartHeader => Ended(if broken then Broken else UnexpectedEof)
    case OverCap(_) => TooLarge
    case NoPayload(_) => Ended(if broken then Broken else Eof)
    case PartPayload(_) => Ended(if broken then Broken else UnexpectedEof)
    case Whole(prefix, payload, _) => if ids && !ValidDeviceId(prefix) then BadId else Got(Frame(prefix, payload))
  }

  predicate Writable(l: Layout, ids: bool, f: Frame) {
    Fits(l, f.head, f.payload) && (ids ==> ValidDeviceId(f.head))
  }

  /** writeFrame checks the id's length, not its alphabet. */
  method WriteFrame(peer: bytes, payload: bytes) returns (r: Option<bytes>)
    ensures r == if Fits(RELAY, peer, payload) then Some(Framed(peer, payload)) else None
  {
    if |peer| != DEVICE_ID_LEN {
      return None;
    }
    if |payload| > RELAY.cap {
      return None;
    }
    var buf := peer;
    buf := buf + LE(|payload|, 4);
    r := Some(buf + payload);
  }

  method WriteMessage(msgType: u16, payload: bytes) returns (r: Option<bytes>)
    ensures r == if |payload| <= INFRA.cap then Some(Framed(LE(msgType, 2), payload)) else None
  {
    if |payload| > INFRA.cap {
      return None;
    }
    var buf := LE(msgType, 2);
    buf := buf + LE(|payload|, 4);
    r := Some(buf + payload);
  }

  /** readFrame when `ids`, ReadMessage otherwise. */
  method ReadFrame(r: ByteReader, l: Layout, ids: bool) returns (result: FrameResult)
    modifies r`data
    ensures result == ReadFrom(l, ids, old(r.data), r.broken)
    ensures result.Got? ==> ScanFrame(l, old(r.data)) == Whole(result.f.head, result.f.payload, r.data)
  {
    var hdr, err := r.ReadFull(l.HeaderLen());
    if err != NoError {
      return Ended(err);
    }
    assert hdr[..l.prefixLen] == old(r.data)[..l.prefixLen];
    assert hdr[l.prefixLen..] == old(r.data)[l.prefixLen..l.HeaderLen()];
    var head, length := hdr[..l.prefixLen], FromLE(hdr[l.prefixLen..]);
    if length > l.cap {
      return TooLarge;
    }
    var payload, perr := r.ReadFull(length);
    if perr != NoError {
      return Ended(perr);
    }
    if ids && !ValidDeviceId(head) {
      return BadId;
    }
    result := Got(Frame(head, payload));
  }

  function WriteAll(fs: seq<Frame>): bytes {
    if fs == [] then [] else Framed(fs[0].head, fs[0].payload) + WriteAll(fs[1..])
  }

  function ReadAll(l: Layout, ids: bool, b: bytes): (seq<Frame>, FrameResult)
    requires l.cap < 0x1_0000_0000
    decreases |b|
  {
    var r := ReadFrom(l, ids, b, false);
    if !r.Got? then ([], r)
    else
      ScanExact(l, b);
      var (fs, end) := ReadAll(l, ids, ScanFrame(l, b).rest);
      ([r.f] + fs, end)
  }

  lemma ReadAllCons(l: Layout, ids: bool, f: Frame, rest: bytes)
    requires l.cap < 0x1_0000_0000 && Writable(l, ids, f)
    ensures ReadAll(l, ids, Framed(f.head, f.payload) + rest)
        == ([f] + ReadAll(l, ids, rest).0, ReadAll(l, ids, rest).1)
  {
    ScanFramed(l, f.head, f.payload, rest);
    hide ScanFrame;
    hide Framed;
  }

  lemma {:induction false} ReadAllThen(l: Layout, ids: bool, fs: seq<Frame>, tail: bytes)
    requires l.cap < 0x1_0000_0000 && forall f <- fs :: Writable(l, ids, f)
    ensures ReadAll(l, ids, WriteAll(fs) + tail) == (fs + ReadAll(l, ids, tail).0, ReadAll(l, ids, tail).1)
  {
    hide ReadAll;
    if fs == [] {
      assert [] + tail == tail;
      assert fs + ReadAll(l, ids, tail).0 == ReadAll(l, ids, tail).0;
    } else {
      var rest := WriteAll(fs[1..]) + tail;
      assert WriteAll(fs) + tail == Framed(fs[0].head, fs[0].payload) + rest;
      assert fs[0] in fs;
      ReadAllCons(l, ids, fs[0], rest);
      ReadAllThen(l, ids, fs[1..], tail);
      hide *;
      assert [fs[0]] + (fs[1..] + ReadAll(l, ids, tail).0) == fs + ReadAll(l, ids, tail).0;
    }
  }

  /** Relay frames with valid ids, and infrastructure messages, round-trip as sequences. */
  lemma FramesRoundTrip(l: Layout, ids: bool, fs: seq<Frame>)
    requires (l == RELAY && ids) || (l == INFRA && !ids)
    requires forall f <- fs :: Writable(l, ids, f)
    ensures ReadAll(l, ids, WriteAll(fs)) == (fs, Ended(Eof))
  {
    assert WriteAll(fs) + [] == WriteAll(fs);
    ReadAllThen(l, ids, fs, []);
    assert ReadAll(l, ids, []) == ([], Ended(Eof));
    assert fs + [] == fs;
  }

  /**
   Unlike an envelope stream, one of these cut inside a frame can look like a
   clean end: exactly when the cut falls right behind a header that announces a
   payload.
   */
  lemma CutFramesMayLookClean(l: Layout, ids: bool, fs: seq<Frame>, last: Frame, k: nat)
    requires l.cap < 0x1_0000_0000 && (forall f <- fs :: Writable(l, ids, f)) && Writable(l, ids, last)
    requires 0 < k < |Framed(last.head, last.payload)|
    ensures var (got, end) := ReadAll(l, ids, WriteAll(fs) + Framed(last.head, last.payload)[..k]);
      && got == fs && (end == Ended(Eof) || end == Ended(UnexpectedEof))
      && (end == Ended(Eof) <==> k == l.HeaderLen())
  {
    var part := Framed(last.head, last.payload)[..k];
    ScanCut(l, last.head, last.payload, k);
    ReadAllThen(l, ids, fs, part);
    assert ReadAll(l, ids, part).0 == [];
    assert fs + [] == fs;
  }

  lemma AcceptedFramesRewrite(l: Layout, ids: bool, b: bytes, broken: bool)
    requires l.cap < 0x1_0000_0000 && ReadFrom(l, ids, b, broken).Got?
    ensures var f := ReadFrom(l, ids, b, broken).f;
      Writable(l, ids, f) && b == Framed(f.head, f.payload) + ScanFrame(l, b).rest
  {
    ScanExact(l, b);
  }

  // --- the three layouts, octet by octet ----------------------------------------

  /** The length field that follows `n` octets. */
  function LengthAt(b: bytes, n: nat): nat
    requires n + 4 <= |b|
  {
    b[n] as int + 0x100 * (b[n + 1] as int) + 0x1_0000 * (b[n + 2] as int) + 0x100_0000 * (b[n + 3] as int)
  }

  lemma LengthIs(b: bytes, n: nat)
    requires n + 4 <= |b|
    ensures FromLE(b[n..n + 4]) == LengthAt(b, n)
  {
    LittleEndian(b[n..n + 4]);
  }

  /** What a frame looks like on the wire: prefix, length, payload. */
  lemma FrameLayout(prefix: bytes, payload: bytes)
    requires |payload| < 0x1_0000_0000
    ensures Fits(RELAY, prefix, payload) <==> |prefix| == 16 && |payload| <= 16_384
    ensures Fits(INFRA, prefix, payload) <==> |prefix| == 2 && |payload| <= 65_536
    ensures var b, n := Framed(prefix, payload), |prefix|;
      |b| == n + 4 + |payload| && b[..n] == prefix && LengthAt(b, n) == |payload| && b[n + 4..] == payload
  {
    var b, n := Framed(prefix, payload), |prefix|;
    assert b[n..n + 4] == LE(|payload|, 4);
    LengthIs(b, n);
    Widths();
    LERoundTrip(|payload|, 4);
  }

  /** And an envelope: version 1, capability, type, length, payload of at most 16 MiB. */
  lemma EnvelopeLayout(e: Envelope)
    ensures Legal(e) <==> e.version == 1 && |e.payload| <= 16_777_216
    ensures Legal(e) ==>
      var b := Framed(e.Prefix(), e.payload);
      && |b| == 8 + |e.payload| && b[0] == 1 && b[1] == e.capId && b[2] as int + 0x100 * (b[3] as int) == e.msgType
      && LengthAt(b, 4) == |e.payload| && b[8..] == e.payload
  {
    if Legal(e) {
      FrameLayout(e.Prefix(), e.payload);
      PrefixRoundTrip(e);
      LittleEndian(e.Prefix()[2..4]);
      var b := Framed(e.Prefix(), e.payload);
      assert b[..4][0] == b[0] && b[..4][1] == b[1] && b[..4][2] == b[2] && b[..4][3] == b[3];
    }
  }

  /** What any octets decode to: the refusals in the order they are made, and the envelope behind them. */
  lemma DecodeVerdict(b: bytes, broken: bool)
    ensures DecodedFrom(b, broken)
         == if |b| < 8 then (if broken then TransportError else if b == [] then CleanEof else Failed(ProtocolViolation))
            else if b[0] != 1 then Failed(ProtocolViolation)
            else if LengthAt(b, 4) > 16_777_216 then Failed(MessageTooLarge)
            else if LengthAt(b, 4) > |b| - 8 then (if broken then TransportError else Failed(ProtocolViolation))
            else Decoded(Envelope(1, b[1], b[2] as int + 0x100 * (b[3] as int), b[8..8 + LengthAt(b, 4)]))
  {
    if |b| >= 8 {
      LengthIs(b, 4);
      LittleEndian(b[..4][2..4]);
      assert b[..4][2] == b[2] && b[..4][3] == b[3];
      if LengthAt(b, 4) <= |b| - 8 { assert b[8..][..LengthAt(b, 4)] == b[8..8 + LengthAt(b, 4)]; }
      hide FromLE;
    }
  }

  /** The other two: relay frames have a 16-character id and at most 16 KiB, messages a type and at most 64 KiB. */
  lemma ReadVerdict(ids: bool, b: bytes, broken: bool)
    ensures var n, cap := if ids then 16 else 2, if ids then 16_384 else 65_536;
      var r := ReadFrom(if ids then RELAY else INFRA, ids, b, broken);
      r == if |b| < n + 4 then Ended(if broken then Broken else if b == [] then Eof else UnexpectedEof)
           else if LengthAt(b, n) > cap then TooLarge
           else if |b| - n - 4 < LengthAt(b, n)
             then Ended(if broken then Broken else if |b| == n + 4 then Eof else UnexpectedEof)
           else if ids && !forall c <- b[..16] :: Letter(c) then BadId
           else Got(Frame(b[..n], b[n + 4..n + 4 + LengthAt(b, n)]))
  {
    var n := if ids then 16 else 2;
    if |b| >= n + 4 {
      LengthIs(b, n);
      DeviceIdAlphabet(b[..n]);
      if LengthAt(b, n) <= |b| - n - 4 { assert b[n + 4..][..LengthAt(b, n)] == b[n + 4..n + 4 + LengthAt(b, n)]; }
      hide FromLE;
      hide Letter;
      hide ValidDeviceId;
    }
  }
}
