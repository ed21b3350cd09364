/**
 The STUN Binding codec (internal/path/stun.go; RFC 8489 sections 5, 14, 14.1 and
 14.2) on the socket shared with QUIC and punch probes.
 */
module Stun {
  import opened Bytes

  const HEADER_SIZE: nat := 20
  const COOKIE: u32 := 0x2112A442
  const COOKIE_PORT: u16 := 0x2112
  const BINDING_RESPONSE: u16 := 0x0101
  const ATTR_MAPPED_ADDRESS: u16 := 0x0001
  const ATTR_XOR_MAPPED_ADDRESS: u16 := 0x0020
  const FAMILY_IPV4: byte := 1
  const FAMILY_IPV6: byte := 2
  const TX_ID_LEN: nat := 12

  // --- exclusive or -----------------------------------------------------------

  /** Bitwise exclusive or of two naturals. */
  function Xor(a: nat, b: nat): nat {
    if a == 0 && b == 0 then 0
    else 2 * Xor(a / 2, b / 2) + if a % 2 == b % 2 then 0 else 1
  }

  lemma {:induction false} XorTwice(a: nat, b: nat)
    ensures Xor(Xor(a, b), b) == a
  {
    if a != 0 || b != 0 {
      XorTwice(a / 2, b / 2);
      assert Xor(a, b) / 2 == Xor(a / 2, b / 2);
    }
  }

  function Pow2(k: nat): (p: nat)
    ensures p > 0
  {
    if k == 0 then 1 else 2 * Pow2(k - 1)
  }

  lemma {:induction false} XorBounded(a: nat, b: nat, k: nat)
    requires a < Pow2(k) && b < Pow2(k)
    ensures Xor(a, b) < Pow2(k)
  {
    if k > 0 {
      XorBounded(a / 2, b / 2, k - 1);
    }
  }

  lemma Pow2Widths()
    ensures Pow2(8) == 0x100 && Pow2(16) == 0x1_0000 && Pow2(32) == 0x1_0000_0000
  {
    assert Pow2(4) == 16;
    assert Pow2(12) == 4096;
    assert Pow2(20) == 0x10_0000 && Pow2(24) == 0x100_0000 && Pow2(28) == 0x1000_0000;
  }

  function XorByte(a: byte, b: byte): byte {
    Pow2Widths(); XorBounded(a, b, 8);
    Xor(a, b)
  }

  function XorU16(a: u16, b: u16): u16 {
    Pow2Widths(); XorBounded(a, b, 16);
    Xor(a, b)
  }

  function XorU32(a: u32, b: u32): u32 {
    Pow2Widths(); XorBounded(a, b, 32);
    Xor(a, b)
  }

  function XorBytes(a: bytes, mask: bytes): (r: bytes)
    requires |a| <= |mask|
    ensures |r| == |a|
  {
    seq(|a|, i requires 0 <= i < |a| => XorByte(a[i], mask[i]))
  }

  lemma XorBytesTwice(a: bytes, mask: bytes)
    requires |a| <= |mask|
    ensures XorBytes(XorBytes(a, mask), mask) == a
  {
    forall i | 0 <= i < |a| ensures XorBytes(XorBytes(a, mask), mask)[i] == a[i] {
      XorTwice(a[i], mask[i]);
    }
  }

  // --- encoding ---------------------------------------------------------------

  predicate IsStun(b: bytes) {
    |b| >= HEADER_SIZE && b[0] < 0x40 && FromBE(b[4..8]) == COOKIE
  }

  /** The mask of section 14.2: the cookie, then the transaction id. */
  function Mask(id: bytes): bytes { BE(COOKIE, 4) + id }

  function ReadU16(b: bytes): u16
    requires |b| == 2
  {
    Widths();
    FromBE(b)
  }

  /** An attribute header and value; the caller pads. */
  function Attribute(typ: u16, value: bytes): bytes { BE(typ, 2) + BE(|value|, 2) + value }

  function AddressValue(family: byte, port: u16, ip: bytes): bytes { [0, family] + BE(port, 2) + ip }

  predicate Legal(ap: Endpoint) { if ap.V4? then |ap.ip| == 4 else |ap.ip| == 16 }

  /** The value of an XOR-MAPPED-ADDRESS (section 14.2). */
  function XorValue(id: bytes, ap: Endpoint): bytes
    requires Legal(ap) && |id| == TX_ID_LEN
  {
    Widths();
    var port := XorU16(ap.port, COOKIE_PORT);
    match ap
    case V4(ip, _) => AddressValue(FAMILY_IPV4, port, BE(XorU32(FromBE(ip), COOKIE), 4))
    case V6(ip, _) => AddressValue(FAMILY_IPV6, port, XorBytes(ip, Mask(id)))
  }

  function XorMappedAddress(id: bytes, ap: Endpoint): bytes
    requires Legal(ap) && |id| == TX_ID_LEN
  {
    Attribute(ATTR_XOR_MAPPED_ADDRESS, XorValue(id, ap))
  }

  function StunMessage(typ: u16, id: bytes, attrs: bytes): bytes {
    BE(typ, 2) + BE(|attrs|, 2) + BE(COOKIE, 4) + id + attrs
  }

  function BindingResponse(id: bytes, from: Endpoint): bytes
    requires Legal(from) && |id| == TX_ID_LEN
  {
    StunMessage(BINDING_RESPONSE, id, XorMappedAddress(id, from))
  }

  // --- decoding ---------------------------------------------------------------

  function DecodeAddress(id: bytes, v: bytes, xor: bool): (r: Option<Endpoint>)
    requires |id| == TX_ID_LEN
    ensures r.Some? ==> Legal(r.value)
  {
    Widths();
    if |v| < 4 then None
    else
      var raw := ReadU16(v[2..4]);
      var port := if xor then XorU16(raw, COOKIE_PORT) else raw;
      if v[1] == FAMILY_IPV4 then
        if |v| < 8 then None
        else
          var ip := FromBE(v[4..8]);
          Some(V4(BE(if xor then XorU32(ip, COOKIE) else ip, 4), port))
      else if v[1] == FAMILY_IPV6 then
        if |v| < 20 then None
        else Some(V6(if xor then XorBytes(v[4..20], Mask(id)) else v[4..20], port))
      else None
  }

  datatype Attr = Attr(typ: u16, value: bytes)

  /** The length of a value with its padding to a four-byte boundary. */
  function Padded(n: nat): nat { if n % 4 == 0 then n else n + 4 - n % 4 }

  /** The attribute list of section 14, read up to the first attribute that does not fit. */
  function Attributes(b: bytes): seq<Attr>
    decreases |b|
  {
    if |b| < 4 then []
    else
      var n := ReadU16(b[2..4]);
      if 4 + n > |b| then []
      else
        [Attr(ReadU16(b[0..2]), b[4..4 + n])]
        + if 4 + Padded(n) > |b| then [] else Attributes(b[4 + Padded(n)..])
  }

  datatype Parsed = NotStun | Truncated | Message(typ: u16, id: bytes, mapped: Option<Endpoint>)

  function XorAddress(id: bytes, a: Attr): Option<Endpoint>
    requires |id| == TX_ID_LEN
  {
    if a.typ == ATTR_XOR_MAPPED_ADDRESS then DecodeAddress(id, a.value, true) else None
  }

  function PlainAddress(id: bytes, a: Attr): Option<Endpoint>
    requires |id| == TX_ID_LEN
  {
    if a.typ == ATTR_MAPPED_ADDRESS then DecodeAddress(id, a.value, false) else None
  }

  /** The last decodable XOR-MAPPED-ADDRESS if there is one, else the first decodable MAPPED-ADDRESS. */
  ghost predicate IsMapped(id: bytes, attrs: seq<Attr>, r: Option<Endpoint>)
    requires |id| == TX_ID_LEN
  {
    if exists i :: LastXor(id, attrs, i) then exists i :: LastXor(id, attrs, i) && r == XorAddress(id, attrs[i])
    else if exists i :: FirstPlain(id, attrs, i) then
      exists i :: FirstPlain(id, attrs, i) && r == PlainAddress(id, attrs[i])
    else r == None
  }

  ghost predicate LastXor(id: bytes, attrs: seq<Attr>, i: int)
    requires |id| == TX_ID_LEN
  {
    0 <= i < |attrs| && XorAddress(id, attrs[i]).Some? && forall j | i < j < |attrs| :: XorAddress(id, attrs[j]).None?
  }

  ghost predicate FirstPlain(id: bytes, attrs: seq<Attr>, i: int)
    requires |id| == TX_ID_LEN
  {
    0 <= i < |attrs| && PlainAddress(id, attrs[i]).Some? && forall j | 0 <= j < i :: PlainAddress(id, attrs[j]).None?
  }

  /** The assignment parseSTUN makes for one attribute. */
  function Take(id: bytes, mapped: Option<Endpoint>, a: Attr): Option<Endpoint>
    requires |id| == TX_ID_LEN
  {
    if XorAddress(id, a).Some? then XorAddress(id, a)
    else if mapped.None? && PlainAddress(id, a).Some? then PlainAddress(id, a)
    else mapped
  }

  function TakeAll(id: bytes, attrs: seq<Attr>): Option<Endpoint>
    requires |id| == TX_ID_LEN
  {
    if attrs == [] then None else Take(id, TakeAll(id, attrs[..|attrs| - 1]), attrs[|attrs| - 1])
  }

  lemma {:induction false} XorOrPlain(id: bytes, attrs: seq<Attr>)
    requires |id| == TX_ID_LEN
    ensures TakeAll(id, attrs).Some? <==> exists a <- attrs :: XorAddress(id, a).Some? || PlainAddress(id, a).Some?
    ensures (forall a <- attrs :: XorAddress(id, a).None?) && TakeAll(id, attrs).Some? ==>
      exists i :: FirstPlain(id, attrs, i) && TakeAll(id, attrs) == PlainAddress(id, attrs[i])
  {
    hide XorAddress;
    hide PlainAddress;
    if attrs != [] {
      var init, a := attrs[..|attrs| - 1], attrs[|attrs| - 1];
      XorOrPlain(id, init);
      assert attrs == init + [a];
      if (forall x <- attrs :: XorAddress(id, x).None?) && TakeAll(id, attrs).Some? {
        if TakeAll(id, init).Some? {
          var i :| FirstPlain(id, init, i) && TakeAll(id, init) == PlainAddress(id, init[i]);
          assert FirstPlain(id, attrs, i);
        } else {
          assert forall j | 0 <= j < |init| :: init[j] in init;
          assert FirstPlain(id, attrs, |init|);
        }
      }
    }
  }

  lemma {:induction false} LastXorWins(id: bytes, attrs: seq<Attr>, i: int)
    requires |id| == TX_ID_LEN && LastXor(id, attrs, i)
    ensures TakeAll(id, attrs) == XorAddress(id, attrs[i])
  {
    var init := attrs[..|attrs| - 1];
    if i < |init| {
      assert LastXor(id, init, i);
      LastXorWins(id, init, i);
    }
  }

  lemma {:induction false} SomeLastXor(id: bytes, attrs: seq<Attr>)
    requires |id| == TX_ID_LEN && exists a <- attrs :: XorAddress(id, a).Some?
    ensures exists i :: LastXor(id, attrs, i)
  {
    hide XorAddress;
    var init, a := attrs[..|attrs| - 1], attrs[|attrs| - 1];
    assert attrs == init + [a];
    if XorAddress(id, a).Some? {
      assert LastXor(id, attrs, |init|);
    } else {
      SomeLastXor(id, init);
      var i :| LastXor(id, init, i);
      assert LastXor(id, attrs, i);
    }
  }

  lemma TakeAllIsMapped(id: bytes, attrs: seq<Attr>)
    requires |id| == TX_ID_LEN
    ensures IsMapped(id, attrs, TakeAll(id, attrs))
  {
    XorOrPlain(id, attrs);
    if i :| LastXor(id, attrs, i) {
      LastXorWins(id, attrs, i);
    } else {
      if exists a <- attrs :: XorAddress(id, a).Some? { SomeLastXor(id, attrs); }
      if i :| FirstPlain(id, attrs, i) {
        assert attrs[i] in attrs;
      } else if TakeAll(id, attrs).Some? {
        assert false;
      }
    }
  }

  lemma Regroup(done: seq<Attr>, a: Attr, rest: seq<Attr>)
    ensures done + ([a] + rest) == (done + [a]) + rest
  {}

  /** The switch in parseSTUN's attribute loop. */
  method TakeAttribute(id: bytes, soFar: Option<Endpoint>, attrType: u16, value: bytes)
    returns (mapped: Option<Endpoint>)
    requires |id| == TX_ID_LEN
    ensures mapped == Take(id, soFar, Attr(attrType, value))
  {
    hide DecodeAddress;
    mapped := soFar;
    if attrType == ATTR_XOR_MAPPED_ADDRESS {
      var ap := DecodeAddress(id, value, true);
      if ap.Some? {
        mapped := ap;
      }
    } else if attrType == ATTR_MAPPED_ADDRESS {
      var ap := DecodeAddress(id, value, false);
      if ap.Some? && mapped.None? {
        mapped := ap;
      }
    }
  }

  /** The attribute loop of parseSTUN. */
  method MappedAddress(id: bytes, list: bytes) returns (mapped: Option<Endpoint>)
    requires |id| == TX_ID_LEN
    ensures IsMapped(id, Attributes(list), mapped)
  {
    hide *;
    var attrs := list;
    ghost var done: seq<Attr> := [];
    mapped := None;
    TakeAllEmpty(id);
    TakeAllIsMapped(id, Attributes(list));
    while |attrs| >= 4
      invariant Attributes(list) == done + Attributes(attrs)
      invariant mapped == TakeAll(id, done)
      decreases |attrs|
    {
      var attrType, attrLen := ReadU16(attrs[0..2]), ReadU16(attrs[2..4]);
      AttributesStep(attrs);
      if 4 + attrLen > |attrs| {
        assert Attributes(list) == done;
        return;
      }
      var value := attrs[4..4 + attrLen];
      mapped := TakeAttribute(id, mapped, attrType, value);
      ghost var a := Attr(attrType, value);
      TakeAllSnoc(id, done, a);
      var advance := 4 + attrLen;
      if attrLen % 4 != 0 {
        advance := advance + 4 - attrLen % 4;
      }
      assert advance == 4 + Padded(attrLen) by { PaddedIs(attrLen); }
      if advance > |attrs| {
        assert Attributes(attrs) == [a];
        assert Attributes(list) == done + [a];
        return;
      }
      attrs := attrs[advance..];
      Regroup(done, a, Attributes(attrs));
      done := done + [a];
    }
    AttributesStep(attrs);
    assert Attributes(list) == done;
  }

  /** parseSTUN, on any byte string. */
  method ParseStun(b: bytes) returns (r: Parsed)
    ensures r.NotStun? <==> !IsStun(b)
    ensures r.Truncated? <==> IsStun(b) && HEADER_SIZE + ReadU16(b[2..4]) > |b|
    ensures r.Message? ==> r.typ == ReadU16(b[0..2]) && r.id == b[8..20]
    ensures r.Message? ==> IsMapped(r.id, Attributes(b[20..20 + ReadU16(b[2..4])]), r.mapped)
  {
    hide Attributes;
    hide IsMapped;
    hide ReadU16;
    if !IsStun(b) {
      return NotStun;
    }
    var typ, length, id := ReadU16(b[0..2]), ReadU16(b[2..4]), b[8..20];
    if HEADER_SIZE + length > |b| {
      return Truncated;
    }
    var mapped := MappedAddress(id, b[HEADER_SIZE..HEADER_SIZE + length]);
    r := Message(typ, id, mapped);
  }

  lemma PaddedIs(n: nat)
    ensures Padded(n) == if n % 4 != 0 then n + 4 - n % 4 else n
  {}

  lemma AttributesStep(b: bytes)
    ensures |b| < 4 ==> Attributes(b) == []
    ensures |b| >= 4 ==>
      var n := ReadU16(b[2..4]);
      Attributes(b) == if 4 + n > |b| then []
                       else [Attr(ReadU16(b[0..2]), b[4..4 + n])] + if 4 + Padded(n) > |b| then []
                           else Attributes(b[4 + Padded(n)..])
  {}

  lemma TakeAllEmpty(id: bytes)
    requires |id| == TX_ID_LEN
    ensures TakeAll(id, []) == None
  {}

  lemma TakeAllSnoc(id: bytes, attrs: seq<Attr>, a: Attr)
    requires |id| == TX_ID_LEN
    ensures TakeAll(id, attrs + [a]) == Take(id, TakeAll(id, attrs), a)
  {
    assert (attrs + [a])[..|attrs|] == attrs;
  }

  // --- round trips ------------------------------------------------------------

  /** A list of attributes, each padded as section 14 requires. */
  function EncodeAttributes(attrs: seq<Attr>): bytes {
    if attrs == [] then []
    else
      var a := attrs[0];
      Attribute(a.typ, a.value) + Zeros(Padded(|a.value|) - |a.value|) + EncodeAttributes(attrs[1..])
  }

  lemma ReadHeader(typ: u16, value: bytes, rest: bytes)
    requires |value| < 0x1_0000
    ensures var b := Attribute(typ, value) + rest;
      |b| >= 4 + |value| && ReadU16(b[0..2]) == typ && ReadU16(b[2..4]) == |value| && b[4..4 + |value|] == value
  {
    Widths();
    var b := Attribute(typ, value) + rest;
    assert b[0..2] == BE(typ, 2) && b[2..4] == BE(|value|, 2);
    BERoundTrip(typ, 2);
    BERoundTrip(|value|, 2);
  }

  /** The walk recovers any list of attributes from its padded encoding. */
  lemma {:induction false} AttributesRoundTrip(attrs: seq<Attr>)
    requires forall a <- attrs :: |a.value| < 0x1_0000
    ensures Attributes(EncodeAttributes(attrs)) == attrs
  {
    if attrs != [] {
      var a, rest := attrs[0], EncodeAttributes(attrs[1..]);
      var pad := Zeros(Padded(|a.value|) - |a.value|);
      var b := EncodeAttributes(attrs);
      assert b == Attribute(a.typ, a.value) + (pad + rest);
      ReadHeader(a.typ, a.value, pad + rest);
      assert b[4 + Padded(|a.value|)..] == rest;
      AttributesRoundTrip(attrs[1..]);
      assert attrs == [a] + attrs[1..];
    }
  }

  lemma XorAddressRoundTrip(id: bytes, ap: Endpoint)
    requires Legal(ap) && |id| == TX_ID_LEN
    ensures |XorValue(id, ap)| == 4 + |ap.ip| && DecodeAddress(id, XorValue(id, ap), true) == Some(ap)
  {
    Widths();
    var value, port := XorValue(id, ap), XorU16(ap.port, COOKIE_PORT);
    XorTwice(ap.port, COOKIE_PORT);
    BERoundTrip(port, 2);
    match ap {
      case V4(ip, _) =>
        var x := XorU32(FromBE(ip), COOKIE);
        assert value[2..4] == BE(port, 2) && value[4..8] == BE(x, 4) && value[1] == FAMILY_IPV4;
        BERoundTrip(x, 4);
        XorTwice(FromBE(ip), COOKIE);
        FromBERoundTrip(ip);
      case V6(ip, _) =>
        var x := XorBytes(ip, Mask(id));
        assert value[2..4] == BE(port, 2) && value[4..20] == x && value[1] == FAMILY_IPV6;
        XorBytesTwice(ip, Mask(id));
    }
  }

  /** Where the five parts of a message lie. */
  lemma Parts(a: bytes, l: bytes, c: bytes, id: bytes, attrs: bytes)
    requires |a| == |l| == 2 && |c| == 4 && |id| == TX_ID_LEN
    ensures var b := a + l + c + id + attrs;
      && |b| == HEADER_SIZE + |attrs| && b[0] == a[0] && b[0..2] == a && b[2..4] == l && b[4..8] == c
      && b[8..20] == id && b[20..20 + |attrs|] == attrs
  {}

  lemma FirstByte(typ: u16)
    requires typ < 0x4000
    ensures BE(typ, 2)[0] < 0x40
  {
    assert BE(typ, 2) == BE(typ / 0x100, 1) + [typ % 0x100];
    assert BE(typ / 0x100, 1) == BE(0, 0) + [typ / 0x100];
  }

  lemma HeaderOf(typ: u16, id: bytes, attrs: bytes)
    requires typ < 0x4000 && |id| == TX_ID_LEN && |attrs| < 0x1_0000
    ensures var b := StunMessage(typ, id, attrs);
      && IsStun(b) && |b| == HEADER_SIZE + |attrs| && ReadU16(b[0..2]) == typ && ReadU16(b[2..4]) == |attrs|
      && b[8..20] == id && b[20..20 + |attrs|] == attrs
  {
    Widths();
    hide Pow256;
    hide BE;
    hide FromBE;
    Parts(BE(typ, 2), BE(|attrs|, 2), BE(COOKIE, 4), id, attrs);
    BERoundTrip(typ, 2);
    BERoundTrip(|attrs|, 2);
    BERoundTrip(COOKIE, 4);
    FirstByte(typ);
  }

  lemma OnlyXorAddress(id: bytes, value: bytes, ap: Endpoint, r: Option<Endpoint>)
    requires |id| == TX_ID_LEN && DecodeAddress(id, value, true) == Some(ap)
    ensures IsMapped(id, [Attr(ATTR_XOR_MAPPED_ADDRESS, value)], r) <==> r == Some(ap)
  {
    hide DecodeAddress;
    var attrs := [Attr(ATTR_XOR_MAPPED_ADDRESS, value)];
    assert LastXor(id, attrs, 0);
    assert forall i | LastXor(id, attrs, i) :: i == 0;
  }

  /** A binding response parses back to its own transaction and endpoint. */
  lemma BindingResponseRoundTrip(id: bytes, ap: Endpoint, r: Option<Endpoint>)
    requires Legal(ap) && |id| == TX_ID_LEN
    ensures var b := BindingResponse(id, ap);
      && IsStun(b) && HEADER_SIZE + ReadU16(b[2..4]) == |b| && ReadU16(b[0..2]) == BINDING_RESPONSE && b[8..20] == id
      && (IsMapped(id, Attributes(b[20..20 + ReadU16(b[2..4])]), r) <==> r == Some(ap))
  {
    hide *;
    XorAddressRoundTrip(id, ap);
    ResponseHeader(id, ap);
    OnlyXorAddress(id, XorValue(id, ap), ap, r);
  }

  lemma ResponseHeader(id: bytes, ap: Endpoint)
    requires Legal(ap) && |id| == TX_ID_LEN
    ensures var b := BindingResponse(id, ap);
      && IsStun(b) && HEADER_SIZE + ReadU16(b[2..4]) == |b| && ReadU16(b[0..2]) == BINDING_RESPONSE && b[8..20] == id
      && Attributes(b[20..20 + ReadU16(b[2..4])]) == [Attr(ATTR_XOR_MAPPED_ADDRESS, XorValue(id, ap))]
  {
    var value := XorValue(id, ap);
    assert |value| == 4 + |ap.ip|;
    HeaderOf(BINDING_RESPONSE, id, XorMappedAddress(id, ap));
    OneAttribute(ATTR_XOR_MAPPED_ADDRESS, value);
    hide IsStun;
    hide StunMessage;
    hide Attributes;
    hide ReadU16;
    hide XorValue;
  }

  lemma OneAttribute(typ: u16, value: bytes)
    requires |value| < 0x1_0000 && |value| % 4 == 0
    ensures Attributes(Attribute(typ, value)) == [Attr(typ, value)]
  {
    var list := [Attr(typ, value)];
    assert list[1..] == [];
    assert EncodeAttributes(list) == Attribute(typ, value);
    AttributesRoundTrip(list);
  }

  // --- what the octets mean -----------------------------------------------------------

  /** The `k`-th binary digit, from the right. */
  function Bit(n: nat, k: nat): nat { if k == 0 then n % 2 else Bit(n / 2, k - 1) }

  /** Bit by bit, exclusive or is 1 where its arguments differ. */
  lemma {:induction false} XorBit(a: nat, b: nat, k: nat)
    ensures Bit(Xor(a, b), k) == if Bit(a, k) == Bit(b, k) then 0 else 1
  {
    assert Xor(a, b) % 2 == (if a % 2 == b % 2 then 0 else 1) && Xor(a, b) / 2 == Xor(a / 2, b / 2);
    if k > 0 { XorBit(a / 2, b / 2, k - 1); }
  }

  /** An octet is its eight bits. */
  lemma {:induction false} BitsDetermine(a: nat, b: nat, k: nat)
    requires a < Pow2(k) && b < Pow2(k) && forall i: nat | i < k :: Bit(a, i) == Bit(b, i)
    ensures a == b
  {
    if k > 0 {
      assert Bit(a, 0) == a % 2 && Bit(b, 0) == b % 2;
      forall i: nat | i < k - 1 ensures Bit(a / 2, i) == Bit(b / 2, i) {
        assert Bit(a, i + 1) == Bit(a / 2, i) && Bit(b, i + 1) == Bit(b / 2, i);
      }
      BitsDetermine(a / 2, b / 2, k - 1);
    }
  }

  /** `x` has a 1 exactly where `a` and `m` differ. */
  predicate Differ(x: byte, a: byte, m: byte) {
    forall k: nat | k < 8 :: Bit(x, k) == if Bit(a, k) == Bit(m, k) then 0 else 1
  }

  /** `plain` sent as `raw`: as it is, or octet by octet where it differs from the mask. */
  predicate Sent(plain: bytes, raw: bytes, mask: bytes, xor: bool) {
    if xor then |plain| == |raw| <= |mask| && forall i | 0 <= i < |raw| :: Differ(plain[i], raw[i], mask[i])
    else plain == raw
  }

  lemma DifferIsXor(x: byte, a: byte, m: byte)
    ensures Differ(x, a, m) <==> x == XorByte(a, m)
  {
    forall k: nat ensures Bit(XorByte(a, m), k) == if Bit(a, k) == Bit(m, k) then 0 else 1 { XorBit(a, m, k); }
    if Differ(x, a, m) {
      Pow2Widths();
      BitsDetermine(x, XorByte(a, m), 8);
    }
  }

  lemma SentIsXor(plain: bytes, raw: bytes, mask: bytes)
    requires |raw| <= |mask|
    ensures Sent(plain, raw, mask, true) <==> plain == XorBytes(raw, mask)
  {
    hide Differ;
    hide XorByte;
    if |plain| == |raw| {
      forall i | 0 <= i < |raw| ensures Differ(plain[i], raw[i], mask[i]) <==> plain[i] == XorBytes(raw, mask)[i] {
        DifferIsXor(plain[i], raw[i], mask[i]);
      }
      if Sent(plain, raw, mask, true) { assert plain == XorBytes(raw, mask); }
    }
  }

  lemma {:induction false} XorSplit(a: nat, c: nat, b: nat, d: nat, k: nat)
    requires b < Pow2(k) && d < Pow2(k)
    ensures Xor(Pow2(k) * a + b, Pow2(k) * c + d) == Pow2(k) * Xor(a, c) + Xor(b, d)
  {
    if k == 0 {
      assert Pow2(0) == 1 && Xor(0, 0) == 0;
    } else {
      XorSplit(a, c, b / 2, d / 2, k - 1);
      SplitHigher(a, c, b, d, Pow2(k - 1));
    }
  }

  lemma SplitHigher(a: nat, c: nat, b: nat, d: nat, p: nat)
    requires Xor(p * a + b / 2, p * c + d / 2) == p * Xor(a, c) + Xor(b / 2, d / 2)
    ensures Xor((2 * p) * a + b, (2 * p) * c + d) == (2 * p) * Xor(a, c) + Xor(b, d)
  {
    hide *;
    var m := Halves(p, a, b);
    var n := Halves(p, c, d);
    var high := Double(p, Xor(a, c));
    XorLast(m, n, b, d, high);
  }

  lemma XorLast(m: nat, n: nat, b: nat, d: nat, high: nat)
    requires m % 2 == b % 2 && n % 2 == d % 2 && Xor(m / 2, n / 2) == high + Xor(b / 2, d / 2)
    ensures Xor(m, n) == 2 * high + Xor(b, d)
  {
    XorHalves(m, n);
    XorHalves(b, d);
  }

  lemma XorHalves(a: nat, b: nat)
    ensures Xor(a, b) == 2 * Xor(a / 2, b / 2) + if a % 2 == b % 2 then 0 else 1
  {}

  lemma Double(p: nat, x: nat) returns (h: nat)
    ensures h == p * x && 2 * h == (2 * p) * x
  {
    h := p * x;
  }

  lemma Halves(p: nat, a: nat, b: nat) returns (m: nat)
    ensures m == (2 * p) * a + b && m / 2 == p * a + b / 2 && m % 2 == b % 2
  {
    var h := Double(p, a);
    m := 2 * h + b;
  }

  /** Exclusive or on a number in network order is exclusive or on its octets. */
  lemma {:induction false} XorOctets(a: bytes, m: bytes)
    requires |a| == |m|
    ensures BE(Xor(FromBE(a), FromBE(m)), |a|) == XorBytes(a, m)
  {
    if a == [] {
    } else {
      var a', m' := a[..|a| - 1], m[..|m| - 1];
      XorOctets(a', m');
      XorLastOctet(FromBE(a'), FromBE(m'), a[|a| - 1], m[|m| - 1]);
      hide Xor;
      assert XorBytes(a, m) == XorBytes(a', m') + [XorByte(a[|a| - 1], m[|m| - 1])];
    }
  }

  lemma XorLastOctet(a: nat, m: nat, x: byte, y: byte)
    ensures var n := Xor(0x100 * a + x, 0x100 * m + y); n / 0x100 == Xor(a, m) && n % 0x100 == XorByte(x, y)
  {
    Pow2Widths();
    XorSplit(a, m, x, y, 8);
    XorBounded(x, y, 8);
  }

  /** A message is recognised by its length, its top two bits and the four octets of the cookie. */
  lemma StunRecognised(b: bytes)
    ensures IsStun(b) <==> |b| >= 20 && b[0] < 0x40 && b[4..8] == [0x21, 0x12, 0xA4, 0x42]
  {
    if |b| >= 20 { NetworkOrder(b[4..8]); }
  }

  lemma CookieOctets()
    ensures BE(COOKIE, 4) == [0x21, 0x12, 0xA4, 0x42] && BE(COOKIE_PORT, 2) == [0x21, 0x12]
  {
    Widths();
    NetworkOrder([0x21, 0x12, 0xA4, 0x42]);
    NetworkOrder([0x21, 0x12]);
    FromBERoundTrip([0x21, 0x12, 0xA4, 0x42]);
    FromBERoundTrip([0x21, 0x12]);
  }

  /** Where a value carries an address: octet 1 the family, then port and address, each in network order. */
  predicate Carries(id: bytes, v: bytes, xor: bool, ap: Endpoint) {
    && |ap.ip| == (if ap.V4? then 4 else 16) && |v| >= 4 + |ap.ip| && v[1] == (if ap.V4? then 1 else 2)
    && Sent([ap.port / 0x100, ap.port % 0x100], v[2..4], [0x21, 0x12], xor)
    && Sent(ap.ip, v[4..4 + |ap.ip|], [0x21, 0x12, 0xA4, 0x42] + id, xor)
  }

  lemma PortOctets(port: u16)
    ensures BE(port, 2) == [port / 0x100, port % 0x100]
  {
    assert BE(port, 2) == BE(port / 0x100, 1) + [port % 0x100];
    assert BE(port / 0x100, 1) == BE(0, 0) + [port / 0x100];
  }

  lemma PortMeaning(raw: bytes, port: u16, xor: bool)
    requires |raw| == 2
    ensures Sent([port / 0x100, port % 0x100], raw, [0x21, 0x12], xor)
       <==> port == if xor then XorU16(ReadU16(raw), COOKIE_PORT) else ReadU16(raw)
  {
    CookieOctets();
    SentIsXor([port / 0x100, port % 0x100], raw, [0x21, 0x12]);
    PortOctets(port);
    Widths();
    BERoundTrip(port, 2);
    FromBERoundTrip(raw);
    BERoundTrip(COOKIE_PORT, 2);
    XorOctets(raw, [0x21, 0x12]);
    BERoundTrip(XorU16(ReadU16(raw), COOKIE_PORT), 2);
    hide Sent;
    hide Xor;
    hide XorBytes;
    hide BE;
    hide FromBE;
  }

  lemma V4Meaning(id: bytes, raw: bytes, ip: bytes, xor: bool)
    requires |raw| == |ip| == 4 && |id| == TX_ID_LEN
    ensures FromBE(raw) < 0x1_0000_0000
    ensures Sent(ip, raw, [0x21, 0x12, 0xA4, 0x42] + id, xor)
       <==> ip == BE(if xor then XorU32(FromBE(raw), COOKIE) else FromBE(raw), 4)
  {
    Widths();
    CookieOctets();
    SentIsXor(ip, raw, [0x21, 0x12, 0xA4, 0x42] + id);
    FromBERoundTrip(raw);
    BERoundTrip(COOKIE, 4);
    XorOctets(raw, [0x21, 0x12, 0xA4, 0x42]);
    assert XorBytes(raw, [0x21, 0x12, 0xA4, 0x42] + id) == XorBytes(raw, [0x21, 0x12, 0xA4, 0x42]);
    hide Sent;
    hide Xor;
    hide XorBytes;
    hide BE;
    hide FromBE;
  }

  lemma V6Meaning(id: bytes, raw: bytes, ip: bytes, xor: bool)
    requires |raw| == |ip| == 16 && |id| == TX_ID_LEN
    ensures Sent(ip, raw, [0x21, 0x12, 0xA4, 0x42] + id, xor)
       <==> ip == if xor then XorBytes(raw, Mask(id)) else raw
  {
    CookieOctets();
    SentIsXor(ip, raw, [0x21, 0x12, 0xA4, 0x42] + id);
    hide Sent;
    hide XorBytes;
  }

  /** An attribute value decodes to exactly the endpoint its octets carry, masked or plain; any other is skipped. */
  lemma AddressMeaning(id: bytes, v: bytes, xor: bool, ap: Endpoint)
    requires |id| == TX_ID_LEN
    ensures DecodeAddress(id, v, xor) == Some(ap) <==> Carries(id, v, xor, ap)
  {
    Widths();
    if |v| >= 4 { PortMeaning(v[2..4], ap.port, xor); }
    if |v| >= 8 && |ap.ip| == 4 { V4Meaning(id, v[4..8], ap.ip, xor); }
    if |v| >= 20 && |ap.ip| == 16 { V6Meaning(id, v[4..20], ap.ip, xor); }
    hide Sent;
    hide Xor;
    hide XorBytes;
    hide BE;
    hide FromBE;
  }

  // --- what a list of octets holds ----------------------------------------------------

  /** The least multiple of four that is no less. */
  function RoundUp(n: nat): nat { (n + 3) / 4 * 4 }

  lemma RoundUpIsPadded(n: nat)
    ensures RoundUp(n) == Padded(n)
  {}

  /** Where the `i`-th attribute starts: each takes four octets and its value, rounded up. */
  function Offset(attrs: seq<Attr>, i: nat): nat
    requires i <= |attrs|
  {
    if i == 0 then 0 else 4 + RoundUp(|attrs[0].value|) + Offset(attrs[1..], i - 1)
  }

  /** Type, length and value lie at `o`. */
  predicate LiesAt(b: bytes, o: nat, a: Attr) {
    && o + 4 + |a.value| <= |b| && 0x100 * (b[o] as int) + b[o + 1] == a.typ
    && 0x100 * (b[o + 2] as int) + b[o + 3] == |a.value| && b[o + 4..o + 4 + |a.value|] == a.value
  }

  /** No whole attribute lies at `o`. */
  predicate NothingAt(b: bytes, o: nat) {
    o + 4 > |b| || o + 4 + 0x100 * (b[o + 2] as int) + b[o + 3] > |b|
  }

  /** The walk finds an attribute at every place one is due, and stops only where none fits. */
  lemma {:induction false} AttributesLie(b: bytes)
    ensures var attrs := Attributes(b);
      NothingAt(b, Offset(attrs, |attrs|)) && forall i | 0 <= i < |attrs| :: LiesAt(b, Offset(attrs, i), attrs[i])
    decreases |b|
  {
    AttributesStep(b);
    if |b| < 4 {
    } else {
      NetworkOrder(b[0..2]);
      NetworkOrder(b[2..4]);
      var n := ReadU16(b[2..4]);
      if 4 + n <= |b| {
        FirstLies(b, Attributes(b));
        hide Attributes;
        hide ReadU16;
        if 4 + Padded(n) <= |b| {
          AttributesLie(b[4 + Padded(n)..]);
          RestLies(b, Attributes(b));
        }
      }
    }
  }

  lemma FirstLies(b: bytes, attrs: seq<Attr>)
    requires |b| >= 4 && 4 + ReadU16(b[2..4]) <= |b| && attrs != []
    requires attrs[0] == Attr(ReadU16(b[0..2]), b[4..4 + ReadU16(b[2..4])])
    ensures LiesAt(b, Offset(attrs, 0), attrs[0])
    ensures |attrs| == 1 && 4 + Padded(|attrs[0].value|) > |b| ==> NothingAt(b, Offset(attrs, 1))
  {
    NetworkOrder(b[0..2]);
    NetworkOrder(b[2..4]);
    hide FromBE;
    if |attrs| == 1 {
      OffsetStep(attrs, 1);
      assert Offset(attrs[1..], 0) == 0;
    }
  }

  lemma RestLies(b: bytes, attrs: seq<Attr>)
    requires attrs != [] && LiesAt(b, Offset(attrs, 0), attrs[0]) && 4 + Padded(|attrs[0].value|) <= |b|
    requires var rest, r := b[4 + Padded(|attrs[0].value|)..], attrs[1..];
      NothingAt(rest, Offset(r, |r|)) && forall i | 0 <= i < |r| :: LiesAt(rest, Offset(r, i), r[i])
    ensures NothingAt(b, Offset(attrs, |attrs|))
    ensures forall i | 0 <= i < |attrs| :: LiesAt(b, Offset(attrs, i), attrs[i])
  {
    hide *;
    NothingShift(b, 4 + Padded(|attrs[0].value|), Offset(attrs[1..], |attrs| - 1));
    OffsetStep(attrs, |attrs|);
    forall i | 0 < i < |attrs| ensures LiesAt(b, Offset(attrs, i), attrs[i]) {
      LiesLater(b, attrs, i - 1);
    }
  }

  lemma OffsetStep(attrs: seq<Attr>, i: nat)
    requires 0 < i <= |attrs|
    ensures Offset(attrs, i) == 4 + Padded(|attrs[0].value|) + Offset(attrs[1..], i - 1)
  {
    RoundUpIsPadded(|attrs[0].value|);
    hide RoundUp;
    hide Padded;
  }

  lemma LiesLater(b: bytes, attrs: seq<Attr>, i: nat)
    requires i + 1 < |attrs| && 4 + Padded(|attrs[0].value|) <= |b|
    requires LiesAt(b[4 + Padded(|attrs[0].value|)..], Offset(attrs[1..], i), attrs[1..][i])
    ensures LiesAt(b, Offset(attrs, i + 1), attrs[i + 1])
  {
    hide *;
    OneShift(b, 4 + Padded(|attrs[0].value|), Offset(attrs[1..], i), attrs[1..][i]);
    OffsetStep(attrs, i + 1);
  }

  lemma OneShift(b: bytes, step: nat, o: nat, a: Attr)
    requires step <= |b| && LiesAt(b[step..], o, a)
    ensures LiesAt(b, step + o, a)
  {
    assert b[step..][o + 4..o + 4 + |a.value|] == b[step + o + 4..step + o + 4 + |a.value|];
  }

  lemma NothingShift(b: bytes, step: nat, o: nat)
    requires step <= |b| && NothingAt(b[step..], o)
    ensures NothingAt(b, step + o)
  {}

  // --- messages with several attributes -------------------------------------------------

  lemma MessageParses(typ: u16, id: bytes, attrs: seq<Attr>)
    requires typ < 0x4000 && |id| == TX_ID_LEN && forall a <- attrs :: |a.value| < 0x1_0000
    requires |EncodeAttributes(attrs)| < 0x1_0000
    ensures var b := StunMessage(typ, id, EncodeAttributes(attrs));
      && IsStun(b) && HEADER_SIZE + ReadU16(b[2..4]) == |b| && ReadU16(b[0..2]) == typ && b[8..20] == id
      && Attributes(b[20..20 + ReadU16(b[2..4])]) == attrs
  {
    HeaderOf(typ, id, EncodeAttributes(attrs));
    AttributesRoundTrip(attrs);
    hide IsStun;
    hide StunMessage;
    hide EncodeAttributes;
    hide Attributes;
    hide ReadU16;
  }

  /** Whatever else a message holds, its last XOR-MAPPED-ADDRESS is the endpoint it yields. */
  lemma LastXorIsMapped(typ: u16, id: bytes, before: seq<Attr>, ap: Endpoint, after: seq<Attr>, r: Option<Endpoint>)
    requires Legal(ap) && |id| == TX_ID_LEN && typ < 0x4000
    requires (forall a <- before + after :: |a.value| < 0x1_0000) && forall a <- after :: a.typ != 0x20
    requires |EncodeAttributes(before + [Attr(0x20, XorValue(id, ap))] + after)| < 0x1_0000
    ensures var b := StunMessage(typ, id, EncodeAttributes(before + [Attr(0x20, XorValue(id, ap))] + after));
      && IsStun(b) && HEADER_SIZE + ReadU16(b[2..4]) == |b| && ReadU16(b[0..2]) == typ && b[8..20] == id
      && (IsMapped(id, Attributes(b[20..20 + ReadU16(b[2..4])]), r) <==> r == Some(ap))
  {
    var attrs := before + [Attr(0x20, XorValue(id, ap))] + after;
    XorAddressRoundTrip(id, ap);
    forall a <- attrs ensures |a.value| < 0x1_0000 { assert a in before + after || a == attrs[|before|]; }
    TheLastXor(id, before, XorValue(id, ap), ap, after);
    hide *;
    MessageParses(typ, id, attrs);
    OnlyLastXor(id, attrs, |before|, ap, r);
  }

  lemma TheLastXor(id: bytes, before: seq<Attr>, value: bytes, ap: Endpoint, after: seq<Attr>)
    requires |id| == TX_ID_LEN && DecodeAddress(id, value, true) == Some(ap) && forall a <- after :: a.typ != 0x20
    ensures var attrs := before + [Attr(0x20, value)] + after;
      LastXor(id, attrs, |before|) && XorAddress(id, attrs[|before|]) == Some(ap)
  {
    hide DecodeAddress;
    var attrs := before + [Attr(0x20, value)] + after;
    assert forall j | |before| < j < |attrs| :: attrs[j] in after;
  }

  lemma OnlyLastXor(id: bytes, attrs: seq<Attr>, i: nat, ap: Endpoint, r: Option<Endpoint>)
    requires |id| == TX_ID_LEN && LastXor(id, attrs, i) && XorAddress(id, attrs[i]) == Some(ap)
    ensures IsMapped(id, attrs, r) <==> r == Some(ap)
  {
    hide XorAddress;
    assert forall j | LastXor(id, attrs, j) :: j == i;
  }

  /** With no XOR-MAPPED-ADDRESS, it yields its first MAPPED-ADDRESS. */
  lemma FirstPlainIsMapped(typ: u16, id: bytes, before: seq<Attr>, ap: Endpoint, after: seq<Attr>, r: Option<Endpoint>)
    requires Legal(ap) && |id| == TX_ID_LEN && typ < 0x4000
    requires forall a <- before + after :: |a.value| < 0x1_0000 && a.typ != 0x20
    requires forall a <- before :: a.typ != 1
    requires |EncodeAttributes(before + [PlainAttr(ap)] + after)| < 0x1_0000
    ensures var b := StunMessage(typ, id, EncodeAttributes(before + [PlainAttr(ap)] + after));
      && IsStun(b) && HEADER_SIZE + ReadU16(b[2..4]) == |b| && ReadU16(b[0..2]) == typ && b[8..20] == id
      && (IsMapped(id, Attributes(b[20..20 + ReadU16(b[2..4])]), r) <==> r == Some(ap))
  {
    var attrs := before + [PlainAttr(ap)] + after;
    forall a <- attrs ensures |a.value| < 0x1_0000 { assert a in before + after || a == attrs[|before|]; }
    AddressMeaning(id, PlainAttr(ap).value, false, ap);
    TheFirstPlain(id, before, PlainAttr(ap), ap, after);
    hide *;
    MessageParses(typ, id, attrs);
    OnlyFirstPlain(id, attrs, |before|, ap, r);
  }

  lemma TheFirstPlain(id: bytes, before: seq<Attr>, a: Attr, ap: Endpoint, after: seq<Attr>)
    requires |id| == TX_ID_LEN && a.typ == 1 && DecodeAddress(id, a.value, false) == Some(ap)
    requires (forall b <- before + after :: b.typ != 0x20) && forall b <- before :: b.typ != 1
    ensures var attrs := before + [a] + after;
      && FirstPlain(id, attrs, |before|) && PlainAddress(id, attrs[|before|]) == Some(ap)
      && forall j :: !LastXor(id, attrs, j)
  {
    hide DecodeAddress;
    var attrs := before + [a] + after;
    assert forall j | 0 <= j < |before| :: attrs[j] in before;
    assert forall j | 0 <= j < |attrs| && j != |before| :: attrs[j] in before + after;
  }

  lemma OnlyFirstPlain(id: bytes, attrs: seq<Attr>, i: nat, ap: Endpoint, r: Option<Endpoint>)
    requires |id| == TX_ID_LEN && FirstPlain(id, attrs, i) && PlainAddress(id, attrs[i]) == Some(ap)
    requires forall j :: !LastXor(id, attrs, j)
    ensures IsMapped(id, attrs, r) <==> r == Some(ap)
  {
    hide PlainAddress;
    hide LastXor;
    assert forall j | FirstPlain(id, attrs, j) :: j == i;
  }

  /** A MAPPED-ADDRESS (section 14.1). */
  function PlainAttr(ap: Endpoint): Attr
    requires Legal(ap)
  {
    Attr(1, [0, if ap.V4? then 1 else 2, ap.port / 0x100, ap.port % 0x100] + ap.ip)
  }
}
