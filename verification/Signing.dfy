/**
 The three byte strings this system signs (internal/identity): the Owned-level
 proof, the relay challenge and the rendezvous registration.
 */
module Signing {
  import opened Bytes

  const OWNED_CONTEXT: bytes := Ascii("openair-owned-v1")
  const RELAY_CONTEXT: bytes := Ascii("openair-relay-v1")
  const RENDEZVOUS_CONTEXT: bytes := Ascii("openair-rendezvous-v1")
  const NONCE_LEN: nat := 32
  const KEY_LEN: nat := 32

  /** `None` stands for the error return. Every field is fixed-width, so there are no delimiters. */
  function OwnedSigningInput(target: bytes, capId: byte, msgType: u16, nonce: bytes, issuedAt: i64): Option<bytes> {
    if !ValidDeviceId(target) || |nonce| != NONCE_LEN then None
    else Some(OWNED_CONTEXT + (target + ([capId] + (LE(msgType, 2) + (nonce + LE(ToU64(issuedAt), 8))))))
  }

  /** A variable-length field behind its u32 length; uint32(len) wraps, and so does LE(_, 4). */
  function Prefixed(s: bytes): bytes { LE(|s|, 4) + s }

  function RelaySigningInput(id: bytes, clientNonce: bytes, serverNonce: bytes): Option<bytes> {
    if !ValidDeviceId(id) || |clientNonce| != NONCE_LEN || |serverNonce| != NONCE_LEN then None
    else Some(RELAY_CONTEXT + (id + (Prefixed(clientNonce) + Prefixed(serverNonce))))
  }

  function PrefixedAll(list: seq<bytes>): bytes {
    if list == [] then [] else Prefixed(list[0]) + PrefixedAll(list[1..])
  }

  function RendezvousTail(relayHome: bytes, issuedAt: i64, expiresAt: i64): bytes {
    Prefixed(relayHome) + (LE(ToU64(issuedAt), 8) + LE(ToU64(expiresAt), 8))
  }

  function RendezvousInput(id: bytes, endpoints: seq<bytes>, relayHome: bytes, issuedAt: i64,
                           expiresAt: i64): Option<bytes> {
    if !ValidDeviceId(id) then None
    else Some(RENDEZVOUS_CONTEXT
        + (id + (LE(|endpoints|, 4) + (PrefixedAll(endpoints) + RendezvousTail(relayHome, issuedAt, expiresAt)))))
  }

  lemma {:induction false} PrefixedAllSnoc(list: seq<bytes>, e: bytes)
    ensures PrefixedAll(list + [e]) == PrefixedAll(list) + Prefixed(e)
  {
    if list == [] {
      assert [e][1..] == [] && PrefixedAll([e]) == Prefixed(e) + [];
    } else {
      PrefixedAllSnoc(list[1..], e);
      assert (list + [e])[1..] == list[1..] + [e];
    }
  }

  /** The appending loop of RendezvousSigningInput. */
  method RendezvousSigningInput(id: bytes, endpoints: seq<bytes>, relayHome: bytes, issuedAt: i64, expiresAt: i64)
    returns (r: Option<bytes>)
    ensures r == RendezvousInput(id, endpoints, relayHome, issuedAt, expiresAt)
  {
    if !ValidDeviceId(id) {
      return None;
    }
    var b := RENDEZVOUS_CONTEXT + id;
    b := b + LE(|endpoints|, 4);
    ghost var head := b;
    assert head + [] == head;
    for i := 0 to |endpoints|
      invariant b == head + PrefixedAll(endpoints[..i])
    {
      PrefixedAllSnoc(endpoints[..i], endpoints[i]);
      assert endpoints[..i + 1] == endpoints[..i] + [endpoints[i]];
      var field := LE(|endpoints[i]|, 4) + endpoints[i];
      AppendTwice(head, PrefixedAll(endpoints[..i]), field);
      b := b + field;
    }
    assert endpoints[..|endpoints|] == endpoints;
    b := b + LE(|relayHome|, 4);
    b := b + relayHome;
    b := b + LE(ToU64(issuedAt), 8);
    b := b + LE(ToU64(expiresAt), 8);
    FromTheLeft(RENDEZVOUS_CONTEXT, id, LE(|endpoints|, 4), PrefixedAll(endpoints), LE(|relayHome|, 4), relayHome,
                LE(ToU64(issuedAt), 8), LE(ToU64(expiresAt), 8));
    r := Some(b);
  }

  lemma AppendTwice(a: bytes, b: bytes, c: bytes)
    ensures a + (b + c) == (a + b) + c
  {}

  lemma FromTheLeft(a: bytes, b: bytes, c: bytes, d: bytes, e: bytes, f: bytes, g: bytes, h: bytes)
    ensures a + b + c + d + e + f + g + h == a + (b + (c + (d + ((e + f) + (g + h)))))
  {
    AppendTwice(a + b + c + d + e + f, g, h);
    AppendTwice(a + b + c + d, e, f);
    AppendTwice(a + b + c + d, e + f, g + h);
    AppendTwice(a + b + c, d, (e + f) + (g + h));
    AppendTwice(a + b, c, d + ((e + f) + (g + h)));
    AppendTwice(a, b, c + (d + ((e + f) + (g + h))));
  }

  // --- each layout determines its arguments -----------------------------------

  lemma ToU64Injective(x: i64, y: i64)
    requires LE(ToU64(x), 8) == LE(ToU64(y), 8)
    ensures x == y
  {
    Widths();
    LEInjective(ToU64(x), ToU64(y), 8);
  }

  lemma OwnedInputInjective(t: bytes, c: byte, m: u16, n: bytes, i: i64, t': bytes, c': byte, m': u16, n': bytes,
                            i': i64)
    requires OwnedSigningInput(t, c, m, n, i).Some?
    requires OwnedSigningInput(t, c, m, n, i) == OwnedSigningInput(t', c', m', n', i')
    ensures t == t' && c == c' && m == m' && n == n' && i == i'
  {
    var x0, y0 := n + LE(ToU64(i), 8), n' + LE(ToU64(i'), 8);
    var x1, y1 := LE(m, 2) + x0, LE(m', 2) + y0;
    var x2, y2 := [c] + x1, [c'] + y1;
    Cancel(OWNED_CONTEXT, t + x2, OWNED_CONTEXT, t' + y2);
    Cancel(t, x2, t', y2);
    Cancel([c], x1, [c'], y1);
    assert [c][0] == [c'][0];
    Cancel(LE(m, 2), x0, LE(m', 2), y0);
    Cancel(n, LE(ToU64(i), 8), n', LE(ToU64(i'), 8));
    Widths();
    LEInjective(m, m', 2);
    ToU64Injective(i, i');
  }

  lemma PrefixedCancel(a: bytes, x: bytes, b: bytes, y: bytes)
    requires |a| < 0x1_0000_0000 && |b| < 0x1_0000_0000
    requires Prefixed(a) + x == Prefixed(b) + y
    ensures a == b && x == y
  {
    assert Prefixed(a) + x == LE(|a|, 4) + (a + x) && Prefixed(b) + y == LE(|b|, 4) + (b + y);
    Cancel(LE(|a|, 4), a + x, LE(|b|, 4), b + y);
    Widths();
    LEInjective(|a|, |b|, 4);
    Cancel(a, x, b, y);
  }

  lemma RelayInputInjective(id: bytes, c: bytes, s: bytes, id': bytes, c': bytes, s': bytes)
    requires RelaySigningInput(id, c, s).Some?
    requires RelaySigningInput(id, c, s) == RelaySigningInput(id', c', s')
    ensures id == id' && c == c' && s == s'
  {
    var x, y := Prefixed(c) + Prefixed(s), Prefixed(c') + Prefixed(s');
    Cancel(RELAY_CONTEXT, id + x, RELAY_CONTEXT, id' + y);
    Cancel(id, x, id', y);
    PrefixedCancel(c, Prefixed(s), c', Prefixed(s'));
    assert Prefixed(s) == Prefixed(s) + [] && Prefixed(s') == Prefixed(s') + [];
    PrefixedCancel(s, [], s', []);
  }

  /** Every string is shorter than `n`. */
  ghost predicate StringsBelow(n: nat, endpoints: seq<bytes>, relayHome: bytes) {
    |relayHome| < n && forall k | 0 <= k < |endpoints| :: |endpoints[k]| < n
  }

  const SIZE_LIMIT: nat := 0x1_0000_0000

  lemma TailSplits(r: bytes, i: i64, x: i64)
    ensures |RendezvousTail(r, i, x)| == |r| + 20
    ensures RendezvousTail(r, i, x) == Prefixed(r) + (LE(ToU64(i), 8) + LE(ToU64(x), 8))
  {}

  lemma SixteenLeft(r: bytes, i: i64, x: i64, f: bytes, rest: bytes)
    requires |r| < SIZE_LIMIT && |f| < SIZE_LIMIT && RendezvousTail(r, i, x) == Prefixed(f) + rest
    ensures |rest| == 16
  {
    TailSplits(r, i, x);
    PrefixedCancel(r, LE(ToU64(i), 8) + LE(ToU64(x), 8), f, rest);
  }

  /** The relay and the times cannot be read as one more endpoint: too little would be left for them. */
  lemma TailIsNoEndpoint(r: bytes, i: i64, x: i64, fs: seq<bytes>, r': bytes, i': i64, x': i64)
    requires |r| < SIZE_LIMIT && fs != [] && |fs[0]| < SIZE_LIMIT
    ensures RendezvousTail(r, i, x) != PrefixedAll(fs) + RendezvousTail(r', i', x')
  {
    var rest := PrefixedAll(fs[1..]) + RendezvousTail(r', i', x');
    TailSplits(r', i', x');
    assert |rest| >= 20;
    assert PrefixedAll(fs) + RendezvousTail(r', i', x') == Prefixed(fs[0]) + rest;
    hide RendezvousTail;
    hide PrefixedAll;
    if RendezvousTail(r, i, x) == Prefixed(fs[0]) + rest { SixteenLeft(r, i, x, fs[0], rest); }
  }

  lemma TailCancel(r: bytes, i: i64, x: i64, r': bytes, i': i64, x': i64)
    requires |r| < SIZE_LIMIT && |r'| < SIZE_LIMIT && RendezvousTail(r, i, x) == RendezvousTail(r', i', x')
    ensures r == r' && i == i' && x == x'
  {
    PrefixedCancel(r, LE(ToU64(i), 8) + LE(ToU64(x), 8), r', LE(ToU64(i'), 8) + LE(ToU64(x'), 8));
    Cancel(LE(ToU64(i), 8), LE(ToU64(x), 8), LE(ToU64(i'), 8), LE(ToU64(x'), 8));
    ToU64Injective(i, i');
    ToU64Injective(x, x');
  }

  /** A list of length-prefixed strings and its tail cannot be split in two ways, whatever count stands before them. */
  lemma {:induction false} ListCancel(es: seq<bytes>, r: bytes, i: i64, x: i64, fs: seq<bytes>, r': bytes, i': i64,
                                      x': i64)
    requires StringsBelow(SIZE_LIMIT, es, r) && StringsBelow(SIZE_LIMIT, fs, r')
    requires PrefixedAll(es) + RendezvousTail(r, i, x) == PrefixedAll(fs) + RendezvousTail(r', i', x')
    ensures es == fs && r == r' && i == i' && x == x'
    decreases |es|
  {
    hide RendezvousTail;
    var t, t' := RendezvousTail(r, i, x), RendezvousTail(r', i', x');
    if es == [] && fs == [] {
      assert PrefixedAll(es) + t == t && PrefixedAll(fs) + t' == t';
      TailCancel(r, i, x, r', i', x');
    } else if es == [] {
      assert PrefixedAll(es) + t == t;
      TailIsNoEndpoint(r, i, x, fs, r', i', x');
    } else if fs == [] {
      assert PrefixedAll(fs) + t' == t';
      TailIsNoEndpoint(r', i', x', es, r, i, x);
    } else {
      assert PrefixedAll(es) + t == Prefixed(es[0]) + (PrefixedAll(es[1..]) + t);
      assert PrefixedAll(fs) + t' == Prefixed(fs[0]) + (PrefixedAll(fs[1..]) + t');
      PrefixedCancel(es[0], PrefixedAll(es[1..]) + t, fs[0], PrefixedAll(fs[1..]) + t');
      ListCancel(es[1..], r, i, x, fs[1..], r', i', x');
      assert es == [es[0]] + es[1..] && fs == [fs[0]] + fs[1..];
    }
  }

  lemma RendezvousInputInjective(id: bytes, es: seq<bytes>, r: bytes, i: i64, x: i64, id': bytes, es': seq<bytes>,
                                 r': bytes, i': i64, x': i64)
    requires StringsBelow(SIZE_LIMIT, es, r) && StringsBelow(SIZE_LIMIT, es', r')
    requires RendezvousInput(id, es, r, i, x).Some?
    requires RendezvousInput(id, es, r, i, x) == RendezvousInput(id', es', r', i', x')
    ensures id == id' && es == es' && r == r' && i == i' && x == x'
  {
    var u, u' := PrefixedAll(es) + RendezvousTail(r, i, x), PrefixedAll(es') + RendezvousTail(r', i', x');
    Cancel(RENDEZVOUS_CONTEXT, id + (LE(|es|, 4) + u), RENDEZVOUS_CONTEXT, id' + (LE(|es'|, 4) + u'));
    Cancel(id, LE(|es|, 4) + u, id', LE(|es'|, 4) + u');
    Cancel(LE(|es|, 4), u, LE(|es'|, 4), u');
    ListCancel(es, r, i, x, es', r', i', x');
  }

  /** The length bound is needed: uint32(len) wraps, and a 4 GiB field then trades places with its neighbour. */
  lemma LongFieldsCollide(id: bytes, i: i64, x: i64)
    requires ValidDeviceId(id)
    ensures var big := Zeros(0x1_0000_0000);
            RendezvousInput(id, [big], [], i, x) == RendezvousInput(id, [[]], big, i, x)
    ensures [Zeros(0x1_0000_0000)] != [[]]
  {
    var n := 0x1_0000_0000;
    var big := Zeros(n);
    var times := LE(ToU64(i), 8) + LE(ToU64(x), 8);
    WrappedLength();
    var z := LE(0, 4);
    assert PrefixedAll([big]) == Prefixed(big) + PrefixedAll([big][1..]) == z + big;
    assert PrefixedAll([[]]) == Prefixed([]) + PrefixedAll([[]][1..]) == z;
    assert z == Zeros(4);
    assert big + z == Zeros(n + 4) == z + big;
    assert (z + big) + (z + times) == z + ((big + z) + times);
    assert z + ((z + big) + times) == z + ((big + z) + times);
    assert RendezvousTail([], i, x) == z + times;
    assert RendezvousTail(big, i, x) == (z + big) + times;
    assert [big][0] != [];
  }

  lemma WrappedLength()
    ensures LE(0x1_0000_0000, 4) == LE(0, 4) == Zeros(4)
  {
    assert LE(0x1_0000_0000, 4) == [0] + LE(0x100_0000, 3);
    assert LE(0x100_0000, 3) == [0] + LE(0x1_0000, 2);
    assert LE(0x1_0000, 2) == [0] + LE(0x100, 1);
    assert LE(0x100, 1) == [0] + LE(1, 0);
    assert LE(0, 4) == [0] + LE(0, 3);
    assert LE(0, 3) == [0] + LE(0, 2);
    assert LE(0, 2) == [0] + LE(0, 1);
    assert LE(0, 1) == [0] + LE(0, 0);
  }

  // --- no output of one layout is an output of another ------------------------

  /** What a key was asked to sign. */
  datatype Request =
    | Owned(target: bytes, capId: byte, msgType: u16, nonce: bytes, issuedAt: i64)
    | Relay(id: bytes, clientNonce: bytes, serverNonce: bytes)
    | Registration(id: bytes, endpoints: seq<bytes>, relayHome: bytes, from: i64, until: i64)

  function Input(r: Request): Option<bytes> {
    match r
    case Owned(t, c, m, n, i) => OwnedSigningInput(t, c, m, n, i)
    case Relay(id, c, s) => RelaySigningInput(id, c, s)
    case Registration(id, es, home, i, x) => RendezvousInput(id, es, home, i, x)
  }

  ghost predicate InRange(r: Request) {
    r.Registration? ==> StringsBelow(SIZE_LIMIT, r.endpoints, r.relayHome)
  }

  lemma ContextOf(r: Request)
    requires Input(r).Some?
    ensures |Input(r).value| > 10 && Input(r).value[8] == (if r.Owned? then 111 else 114)
    ensures !r.Owned? ==> Input(r).value[10] == (if r.Relay? then 108 else 110)
  {
    var context := match r case Owned(_, _, _, _, _) => OWNED_CONTEXT
                   case Relay(_, _, _) => RELAY_CONTEXT case Registration(_, _, _, _, _) => RENDEZVOUS_CONTEXT;
    assert Input(r).value[..11] == context[..11];
    assert 'o' as int == 111 && 'r' as int == 114 && 'l' as int == 108 && 'n' as int == 110;
  }

  /** The three layouts together are injective: one byte string, one request. */
  lemma InputsInjective(a: Request, b: Request)
    requires InRange(a) && InRange(b) && Input(a).Some? && Input(a) == Input(b)
    ensures a == b
  {
    ContextOf(a);
    ContextOf(b);
    match (a, b) {
      case (Owned(t, c, m, n, i), Owned(t', c', m', n', i')) => OwnedInputInjective(t, c, m, n, i, t', c', m', n', i');
      case (Relay(id, c, s), Relay(id', c', s')) => RelayInputInjective(id, c, s, id', c', s');
      case (Registration(id, es, h, i, x), Registration(id', es', h', i', x')) =>
        RendezvousInputInjective(id, es, h, i, x, id', es', h', i', x');
      case _ => assert false;
    }
  }

  /** A registration of `id` with strings shorter than `n`. */
  ghost predicate RegistersBelow(n: nat, id: bytes, r: Request) {
    r.Registration? && r.id == id && StringsBelow(n, r.endpoints, r.relayHome)
  }

  /**
   Exactly how long a string may be: below a bound `n` every registration has its own input iff `n` is at most
   2^32.
   */
  lemma RegistrationsDistinctIff(id: bytes, n: nat)
    requires ValidDeviceId(id)
    ensures (forall a, b | RegistersBelow(n, id, a) && RegistersBelow(n, id, b) && Input(a) == Input(b) :: a == b)
       <==> n <= SIZE_LIMIT
  {
    if n <= SIZE_LIMIT {
      forall a, b | RegistersBelow(n, id, a) && RegistersBelow(n, id, b) && Input(a) == Input(b) ensures a == b {
        InputsInjective(a, b);
      }
    } else {
      var big := Zeros(SIZE_LIMIT);
      var a, b := Registration(id, [big], [], 0, 0), Registration(id, [[]], big, 0, 0);
      LongFieldsCollide(id, 0, 0);
      assert RegistersBelow(n, id, a) && RegistersBelow(n, id, b) && Input(a) == Input(b) && a != b;
    }
  }

  // --- verifying against the key a DeviceID derives from ----------------------

  datatype Verdict = Accepted | BadKeyLength | WrongDevice | BadDeviceId | BadSignature

  /** `derive` is the hash behind a DeviceID, `verify` is Ed25519; both are left abstract. */
  function VerifyRegistration(derive: bytes -> bytes, verify: (bytes, bytes, bytes) -> bool, pub: bytes, r: Request,
                              sig: bytes): Verdict
    requires r.Registration?
  {
    if |pub| != KEY_LEN then BadKeyLength
    else if derive(pub) != r.id then WrongDevice
    else match Input(r)
      case None => BadDeviceId
      case Some(input) => if verify(pub, input, sig) then Accepted else BadSignature
  }

  /**
   With an unforgeable signature, an accepted registration is one its holder was
   asked to sign, field for field: not a re-split endpoint list, not a relay
   challenge and not an Owned proof.
   */
  lemma RegistrationIsGenuine(derive: bytes -> bytes, verify: (bytes, bytes, bytes) -> bool, pub: bytes, r: Request,
                              sig: bytes, signed: set<Request>)
    requires r.Registration? && InRange(r) && forall q <- signed :: InRange(q)
    requires forall b: bytes, s: bytes :: verify(pub, b, s) ==> exists q <- signed :: Input(q) == Some(b)
    requires VerifyRegistration(derive, verify, pub, r, sig) == Accepted
    ensures r in signed && derive(pub) == r.id
  {
    var q :| q in signed && Input(q) == Input(r);
    InputsInjective(q, r);
  }

  // --- the layouts, octet by octet ----------------------------------------------

  /** `f` is `n` in `|f|` octets, least significant first; what does not fit is dropped. */
  ghost predicate Little(f: bytes, n: nat) {
    forall i | 0 <= i < |f| :: f[i] == n / Pow256(i) % 0x100
  }

  lemma LittleIsLE(n: nat, k: nat)
    ensures Little(LE(n, k), n)
  {
    forall i | 0 <= i < k ensures LE(n, k)[i] == n / Pow256(i) % 0x100 { PlaceValue(n, k, i); }
  }

  /** A time, in two's complement. */
  ghost predicate Time(f: bytes, t: i64) { |f| == 8 && Little(f, t % 0x1_0000_0000_0000_0000) }

  lemma TimeIsLE(t: i64)
    ensures Time(LE(ToU64(t), 8), t)
  {
    LittleIsLE(ToU64(t), 8);
    hide Little;
    hide LE;
  }

  /** A proof for `t` is 75 octets: context, target, capability, message type, nonce, time. */
  lemma OwnedLayout(target: bytes, capId: byte, msgType: u16, nonce: bytes, issuedAt: i64)
    ensures var r := OwnedSigningInput(target, capId, msgType, nonce, issuedAt);
      && (r.Some? <==> |target| == 16 && (forall c <- target :: Letter(c)) && |nonce| == 32)
      && (r.Some? ==>
            var b := r.value;
            && |b| == 75 && b[..16] == Ascii("openair-owned-v1") && b[16..32] == target && b[32] == capId
            && Little(b[33..35], msgType) && b[35..67] == nonce && Time(b[67..75], issuedAt))
  {
    DeviceIdAlphabet(target);
    hide Ascii;
    hide Letter;
    hide ValidDeviceId;
    var r := OwnedSigningInput(target, capId, msgType, nonce, issuedAt);
    if r.Some? {
      assert |OWNED_CONTEXT| == 16 by { ContextLengths(); }
      SixParts(OWNED_CONTEXT, target, capId, LE(msgType, 2), nonce, LE(ToU64(issuedAt), 8));
      LittleIsLE(msgType, 2);
      TimeIsLE(issuedAt);
    }
  }

  lemma ContextLengths()
    ensures |Ascii("openair-owned-v1")| == |Ascii("openair-relay-v1")| == 16
    ensures |Ascii("openair-rendezvous-v1")| == 21
  {}

  lemma SixParts(a: bytes, b: bytes, c: byte, d: bytes, e: bytes, f: bytes)
    requires |a| == |b| == 16 && |d| == 2 && |e| == 32 && |f| == 8
    ensures var s := a + (b + ([c] + (d + (e + f))));
      && |s| == 75 && s[..16] == a && s[16..32] == b && s[32] == c && s[33..35] == d && s[35..67] == e && s[67..75] == f
  {}

  /** A relay challenge is 104 octets: context, id, and the two nonces, each behind its length. */
  lemma RelayLayout(id: bytes, clientNonce: bytes, serverNonce: bytes)
    ensures var r := RelaySigningInput(id, clientNonce, serverNonce);
      && (r.Some? <==> |id| == 16 && (forall c <- id :: Letter(c)) && |clientNonce| == 32 && |serverNonce| == 32)
      && (r.Some? ==>
            var b := r.value;
            && |b| == 104 && b[..16] == Ascii("openair-relay-v1") && b[16..32] == id
            && Little(b[32..36], 32) && b[36..68] == clientNonce && Little(b[68..72], 32) && b[72..104] == serverNonce)
  {
    DeviceIdAlphabet(id);
    hide Ascii;
    hide Letter;
    hide ValidDeviceId;
    if RelaySigningInput(id, clientNonce, serverNonce).Some? {
      assert |RELAY_CONTEXT| == 16 by { ContextLengths(); }
      LittleIsLE(32, 4);
      FourParts(RELAY_CONTEXT, id, LE(32, 4), clientNonce, LE(32, 4), serverNonce);
    }
  }

  lemma FourParts(a: bytes, b: bytes, n: bytes, c: bytes, m: bytes, d: bytes)
    requires |a| == |b| == 16 && |n| == |m| == 4 && |c| == |d| == 32
    ensures var s := a + (b + ((n + c) + (m + d)));
      && |s| == 104 && s[..16] == a && s[16..32] == b && s[32..36] == n && s[36..68] == c && s[68..72] == m
      && s[72..104] == d
  {}

  /** Where the `k`-th string starts, its length in front of it, the first at 41. */
  function StartOf(strings: seq<bytes>, k: nat): nat
    requires k <= |strings|
  {
    if k == 0 then 41 else StartOf(strings, k - 1) + 4 + |strings[k - 1]|
  }

  /** At `o` lie the length of `s` and then `s`. */
  ghost predicate StringAt(b: bytes, o: nat, s: bytes) {
    o + 4 + |s| <= |b| && Little(b[o..o + 4], |s|) && b[o + 4..o + 4 + |s|] == s
  }

  /** A registration: context, id, the number of endpoints, the endpoints, the relay, and the two times. */
  lemma RendezvousLayout(id: bytes, es: seq<bytes>, home: bytes, from: i64, until: i64)
    ensures var r, all := RendezvousInput(id, es, home, from, until), es + [home];
      && (r.Some? <==> |id| == 16 && forall c <- id :: Letter(c))
      && (r.Some? ==>
            var b, end := r.value, StartOf(all, |all|);
            && |b| == end + 16 && b[..21] == Ascii("openair-rendezvous-v1") && b[21..37] == id
            && Little(b[37..41], |es|) && (forall k | 0 <= k < |all| :: StringAt(b, StartOf(all, k), all[k]))
            && Time(b[end..end + 8], from) && Time(b[end + 8..end + 16], until))
  {
    DeviceIdAlphabet(id);
    var r, all := RendezvousInput(id, es, home, from, until), es + [home];
    if r.Some? {
      RendezvousParts(id, es, home, from, until);
      hide *;
      PartsLie(Ascii("openair-rendezvous-v1"), id, |es|, all, from, until);
    }
  }

  lemma RendezvousParts(id: bytes, es: seq<bytes>, home: bytes, from: i64, until: i64)
    requires ValidDeviceId(id)
    ensures var context := Ascii("openair-rendezvous-v1");
      && |context| == 21 && |id| == 16
      && RendezvousInput(id, es, home, from, until) == Some(
          context + id + LE(|es|, 4) + PrefixedAll(es + [home]) + (LE(ToU64(from), 8) + LE(ToU64(until), 8)))
  {
    ContextLengths();
    PrefixedAllSnoc(es, home);
    hide Ascii;
    hide PrefixedAll;
    hide Prefixed;
    Grouped(RENDEZVOUS_CONTEXT, id, LE(|es|, 4), PrefixedAll(es), Prefixed(home),
            LE(ToU64(from), 8) + LE(ToU64(until), 8));
  }

  lemma PartsLie(context: bytes, id: bytes, n: nat, all: seq<bytes>, from: i64, until: i64)
    requires |context| == 21 && |id| == 16
    ensures var b := context + id + LE(n, 4) + PrefixedAll(all) + (LE(ToU64(from), 8) + LE(ToU64(until), 8));
      var end := StartOf(all, |all|);
      && |b| == end + 16 && b[..21] == context && b[21..37] == id
      && Little(b[37..41], n) && (forall k | 0 <= k < |all| :: StringAt(b, StartOf(all, k), all[k]))
      && Time(b[end..end + 8], from) && Time(b[end + 8..end + 16], until)
  {
    hide *;
    var head, times := context + id + LE(n, 4), LE(ToU64(from), 8) + LE(ToU64(until), 8);
    LittleIsLE(n, 4);
    TimeIsLE(from);
    TimeIsLE(until);
    HeadOf(context, id, LE(n, 4), PrefixedAll(all) + times);
    StringsLie(head + PrefixedAll(all) + times, head, all, times);
    AppendTwice(head, PrefixedAll(all), times);
    EndOf(head + PrefixedAll(all), LE(ToU64(from), 8), LE(ToU64(until), 8));
  }

  lemma Grouped(a: bytes, b: bytes, c: bytes, d: bytes, e: bytes, f: bytes)
    ensures a + (b + (c + (d + (e + f)))) == a + b + c + (d + e) + f
  {}

  lemma HeadOf(a: bytes, b: bytes, c: bytes, rest: bytes)
    requires |a| == 21 && |b| == 16 && |c| == 4
    ensures var s := a + b + c + rest; s[..21] == a && s[21..37] == b && s[37..41] == c
  {}

  lemma EndOf(s: bytes, a: bytes, b: bytes)
    requires |a| == |b| == 8
    ensures var t, n := s + (a + b), |s|; |t| == n + 16 && t[n..n + 8] == a && t[n + 8..n + 16] == b
  {}

  lemma {:induction false} StringsLie(b: bytes, head: bytes, strings: seq<bytes>, rest: bytes)
    requires |head| == 41 && b == head + PrefixedAll(strings) + rest
    ensures |head + PrefixedAll(strings)| == StartOf(strings, |strings|)
    ensures forall k | 0 <= k < |strings| :: StringAt(b, StartOf(strings, k), strings[k])
    decreases |strings|
  {
    if strings != [] {
      var init, last := strings[..|strings| - 1], strings[|strings| - 1];
      PrefixedAllSnoc(init, last);
      hide *;
      assert strings == init + [last];
      SplitLast(head, PrefixedAll(init), Prefixed(last), rest);
      StringsLie(b, head, init, Prefixed(last) + rest);
      OneMoreLies(b, head + PrefixedAll(init), init, last, rest);
    }
  }

  lemma SplitLast(a: bytes, b: bytes, c: bytes, d: bytes)
    ensures a + (b + c) + d == a + b + (c + d) && |a + (b + c)| == |a + b| + |c|
  {
    AppendTwice(a, b, c);
    AppendTwice(a + b, c, d);
  }

  lemma OneMoreLies(b: bytes, p: bytes, init: seq<bytes>, last: bytes, rest: bytes)
    requires b == p + (Prefixed(last) + rest) && |p| == StartOf(init, |init|)
    requires forall k | 0 <= k < |init| :: StringAt(b, StartOf(init, k), init[k])
    ensures |p| + |Prefixed(last)| == StartOf(init + [last], |init| + 1)
    ensures forall k | 0 <= k <= |init| :: StringAt(b, StartOf(init + [last], k), (init + [last])[k])
  {
    hide *;
    LastLies(p, last, rest);
    StartsAgree(init, last);
  }

  lemma LastLies(before: bytes, s: bytes, rest: bytes)
    ensures StringAt(before + (Prefixed(s) + rest), |before|, s) && |before + Prefixed(s)| == |before| + 4 + |s|
  {
    LittleIsLE(|s|, 4);
    var b, o := before + (Prefixed(s) + rest), |before|;
    assert b[o..o + 4] == LE(|s|, 4) && b[o + 4..o + 4 + |s|] == s;
  }

  lemma StartsAgree(init: seq<bytes>, last: bytes)
    ensures forall k | 0 <= k <= |init| :: StartOf(init + [last], k) == StartOf(init, k)
    ensures StartOf(init + [last], |init| + 1) == StartOf(init, |init|) + 4 + |last|
  {
    forall k | 0 <= k <= |init| ensures StartOf(init + [last], k) == StartOf(init, k) { StartStable(init, last, k); }
  }

  lemma {:induction false} StartStable(init: seq<bytes>, last: bytes, k: nat)
    requires k <= |init|
    ensures StartOf(init + [last], k) == StartOf(init, k)
  {
    if k > 0 { StartStable(init, last, k - 1); }
  }

  /** Which registrations are accepted, and how each other one is refused. */
  lemma RegistrationVerdict(derive: bytes -> bytes, verify: (bytes, bytes, bytes) -> bool, pub: bytes, r: Request,
                            sig: bytes)
    requires r.Registration?
    ensures var v, input := VerifyRegistration(derive, verify, pub, r, sig), Input(r);
      && (v == BadKeyLength <==> |pub| != 32)
      && (v == WrongDevice <==> |pub| == 32 && derive(pub) != r.id)
      && (v == BadDeviceId <==> |pub| == 32 && derive(pub) == r.id && !(|r.id| == 16 && forall c <- r.id :: Letter(c)))
      && (v == Accepted <==> |pub| == 32 && derive(pub) == r.id && input.Some? && verify(pub, input.value, sig))
  {
    RendezvousLayout(r.id, r.endpoints, r.relayHome, r.from, r.until);
    hide RendezvousInput;
    hide Letter;
  }
}
