/**
 What a device says about itself (internal/discovery/announce.go): the TXT
 record and the fallback datagram that carries the same fields.
 */
module Announcing {
  import opened Bytes
  import Utf8

  const MAX_DISPLAY_NAME: nat := 63
  const MAX_FIELD: nat := 255
  const DATAGRAM_VER: byte := 1
  const TYPE_ANNOUNCE: byte := 1
  const TYPE_QUERY: byte := 2

  datatype Announce = Announce(deviceId: bytes, protoVersion: byte, port: i64, displayName: bytes)

  const ZERO: Announce := Announce([], 0, 0, [])

  datatype Error = Malformed | WrongMagic

  datatype Result<+T> = Ok(value: T) | Err(error: Error)

  datatype Decoded = Query(from: bytes) | Announced(a: Announce)

  function Magic(): (m: bytes)
    ensures |m| == 4
  {
    Ascii("OA2D")
  }

  /** Validate. */
  predicate Valid(a: Announce) {
    ValidDeviceId(a.deviceId) && 0 < a.port <= 65535 && a.protoVersion != 0
  }

  // --- decimal numbers ----------------------------------------------------------

  function Itoa(n: nat): (s: bytes)
    ensures s != []
  {
    if n < 10 then [48 + n] else Itoa(n / 10) + [48 + n % 10]
  }

  function Decimal(s: bytes): Option<nat> {
    if s == [] then None
    else
      var d := s[|s| - 1];
      if !(48 <= d < 58) then None
      else if |s| == 1 then Some(d - 48)
      else match Decimal(s[..|s| - 1]) case None => None case Some(n) => Some(10 * n + d - 48)
  }

  lemma {:induction false} DecimalRoundTrip(n: nat)
    ensures Decimal(Itoa(n)) == Some(n)
  {
    if n >= 10 {
      DecimalRoundTrip(n / 10);
      assert Itoa(n)[..|Itoa(n)| - 1] == Itoa(n / 10);
    }
  }

  /** Digits are read back only as digits: no sign in front. */
  lemma {:induction false} ItoaIsDigits(n: nat)
    ensures forall b <- Itoa(n) :: 48 <= b < 58
  {
    if n >= 10 { ItoaIsDigits(n / 10); }
  }

  /** strconv.ParseUint(s, 10, 8). */
  function ParseUint8(s: bytes): Option<byte> {
    match Decimal(s) case None => None case Some(n) => if n < 0x100 then Some(n) else None
  }

  /** strconv.Atoi: one sign is allowed. */
  function Atoi(s: bytes): Option<i64> {
    var signed := s != [] && (s[0] == 43 || s[0] == 45);
    match Decimal(if signed then s[1..] else s)
    case None => None
    case Some(n) =>
      var v: int := if signed && s[0] == 45 then 0 - (n as int) else n;
      if -0x8000_0000_0000_0000 <= v < 0x8000_0000_0000_0000 then Some(v) else None
  }

  // --- the TXT record --------------------------------------------------------------

  /** strings.Cut(s, "="). */
  function Cut(s: bytes): Option<(bytes, bytes)> {
    if s == [] then None
    else if s[0] == 61 then Some(([], s[1..]))
    else match Cut(s[1..]) case None => None case Some(kv) => Some(([s[0]] + kv.0, kv.1))
  }

  lemma {:induction false} CutsAtFirst(k: bytes, v: bytes)
    requires 61 !in k
    ensures Cut(k + [61] + v) == Some((k, v))
  {
    var s := k + [61] + v;
    if k == [] {
      assert s[1..] == v;
    } else {
      assert s[1..] == k[1..] + [61] + v;
      CutsAtFirst(k[1..], v);
      assert k == [k[0]] + k[1..];
    }
  }

  function Pair(k: string, v: bytes): bytes { Ascii(k) + [61] + v }

  function Txt(a: Announce): seq<bytes>
    requires a.port >= 0
  {
    [Pair("id", a.deviceId), Pair("v", Itoa(a.protoVersion)), Pair("port", Itoa(a.port)),
     Pair("n", Utf8.Truncated(a.displayName, MAX_DISPLAY_NAME))]
  }

  /** One turn of ParseTXT's loop. */
  function WithField(a: Announce, field: bytes): Result<Announce> {
    match Cut(field)
    case None => Ok(a)
    case Some((k, v)) =>
      if k == Ascii("id") then Ok(a.(deviceId := v))
      else if k == Ascii("v")
          then (match ParseUint8(v) case None => Err(Malformed) case Some(n) => Ok(a.(protoVersion := n)))
      else if k == Ascii("port") then (match Atoi(v) case None => Err(Malformed) case Some(n) => Ok(a.(port := n)))
      else if k == Ascii("n") then Ok(a.(displayName := Utf8.Truncated(v, MAX_DISPLAY_NAME)))
      else Ok(a)
  }

  function WithFields(a: Announce, txt: seq<bytes>): Result<Announce>
    decreases |txt|
  {
    if txt == [] then Ok(a)
    else match WithField(a, txt[0]) case Err(e) => Err(e) case Ok(b) => WithFields(b, txt[1..])
  }

  function Parsed(txt: seq<bytes>): Result<Announce> {
    match WithFields(ZERO, txt)
    case Err(e) => Err(e)
    case Ok(a) => if Valid(a) then Ok(a) else Err(Malformed)
  }

  method ParseTxt(txt: seq<bytes>) returns (r: Result<Announce>)
    ensures r == Parsed(txt)
  {
    hide WithField;
    var a := ZERO;
    for i := 0 to |txt|
      invariant WithFields(ZERO, txt) == WithFields(a, txt[i..])
    {
      var next := WithField(a, txt[i]);
      assert txt[i..][1..] == txt[i + 1..];
      if next.Err? {
        return Err(next.error);
      }
      a := next.value;
    }
    r := if Valid(a) then Ok(a) else Err(Malformed);
  }

  /** What a device announces is what its peers read, with the name cut to 63 bytes. */
  lemma TxtRoundTrip(a: Announce)
    requires Valid(a)
    ensures Parsed(Txt(a)) == Ok(a.(displayName := Utf8.Truncated(a.displayName, MAX_DISPLAY_NAME)))
  {
    var name := Utf8.Truncated(a.displayName, MAX_DISPLAY_NAME);
    var txt := Txt(a);
    Utf8.TruncatedIsLongest(a.displayName, MAX_DISPLAY_NAME);
    assert WithField(ZERO, txt[0]) == Ok(ZERO.(deviceId := a.deviceId)) by { CutsAtFirst(Ascii("id"), a.deviceId); }
    var b := ZERO.(deviceId := a.deviceId);
    assert WithField(b, txt[1]) == Ok(b.(protoVersion := a.protoVersion)) by { VersionField(b, a.protoVersion); }
    var c := b.(protoVersion := a.protoVersion);
    assert WithField(c, txt[2]) == Ok(c.(port := a.port)) by { PortField(c, a.port); }
    var d := c.(port := a.port);
    assert WithField(d, txt[3]) == Ok(d.(displayName := name)) by { NameField(d, name); }
    FourFields(txt, ZERO, b, c, d, d.(displayName := name));
  }

  lemma FourFields(txt: seq<bytes>, a: Announce, b: Announce, c: Announce, d: Announce, e: Announce)
    requires |txt| == 4 && WithField(a, txt[0]) == Ok(b) && WithField(b, txt[1]) == Ok(c)
    requires WithField(c, txt[2]) == Ok(d) && WithField(d, txt[3]) == Ok(e)
    ensures WithFields(a, txt) == Ok(e)
  {
    hide WithField;
    assert txt[1..][1..] == txt[2..] && txt[2..][1..] == txt[3..] && txt[3..][1..] == [];
    assert WithFields(d, txt[3..]) == Ok(e);
    assert WithFields(c, txt[2..]) == Ok(e);
    assert WithFields(b, txt[1..]) == Ok(e);
  }

  lemma VersionField(a: Announce, v: byte)
    ensures WithField(a, Pair("v", Itoa(v))) == Ok(a.(protoVersion := v))
  {
    CutsAtFirst(Ascii("v"), Itoa(v));
    DecimalRoundTrip(v);
    Keys();
  }

  lemma PortField(a: Announce, p: i64)
    requires p >= 0
    ensures WithField(a, Pair("port", Itoa(p))) == Ok(a.(port := p))
  {
    CutsAtFirst(Ascii("port"), Itoa(p)) by { Keys(); }
    assert Atoi(Itoa(p)) == Some(p) by {
      DecimalRoundTrip(p);
      ItoaIsDigits(p);
      assert Itoa(p)[0] in Itoa(p);
    }
    Keys();
    hide Atoi;
    hide Itoa;
    hide Cut;
    hide ParseUint8;
  }

  lemma NameField(a: Announce, name: bytes)
    requires Utf8.Truncated(name, MAX_DISPLAY_NAME) == name
    ensures WithField(a, Pair("n", name)) == Ok(a.(displayName := name))
  {
    CutsAtFirst(Ascii("n"), name);
    Keys();
  }

  lemma Keys()
    ensures Ascii("id") == [105, 100] && Ascii("v") == [118] && Ascii("port") == [112, 111, 114, 116] &&
        Ascii("n") == [110]
    ensures Ascii("id=") == [105, 100, 61]
  {
    assert Ascii("port")[0] == 112 && Ascii("port")[1] == 111 && Ascii("port")[2] == 114 && Ascii("port")[3] == 116;
  }

  /** A field with a key this version does not know, or no key at all, changes nothing wherever it stands. */
  lemma {:induction false} UnknownFieldsIgnored(a: Announce, before: seq<bytes>, field: bytes, after: seq<bytes>)
    requires Cut(field).Some? ==> Cut(field).value.0 !in {Ascii("id"), Ascii("v"), Ascii("port"), Ascii("n")}
    ensures WithFields(a, before + [field] + after) == WithFields(a, before + after)
    decreases |before|
  {
    var txt := before + [field] + after;
    if before == [] {
      assert txt[1..] == after && before + after == after;
    } else {
      assert txt[1..] == before[1..] + [field] + after && (before + after)[1..] == before[1..] + after;
      match WithField(a, before[0])
      case Err(_) =>
      case Ok(b) => UnknownFieldsIgnored(b, before[1..], field, after);
    }
  }

  // --- the datagram ------------------------------------------------------------------

  function Capped(f: bytes): (c: bytes)
    ensures |c| <= MAX_FIELD
  {
    if |f| > MAX_FIELD then f[..MAX_FIELD] else f
  }

  function Joined(fields: seq<bytes>): bytes {
    if fields == [] then [] else [|Capped(fields[0])|] + Capped(fields[0]) + Joined(fields[1..])
  }

  function Split(rest: bytes): Option<seq<bytes>>
    decreases |rest|
  {
    if rest == [] then Some([])
    else if rest[0] > |rest| - 1 then None
    else Prepended([rest[1..1 + rest[0]]], Split(rest[1 + rest[0]..]))
  }

  function Prepended(fields: seq<bytes>, o: Option<seq<bytes>>): Option<seq<bytes>> {
    match o case None => None case Some(fs) => Some(fields + fs)
  }

  lemma {:induction false} SplitInvertsJoined(fields: seq<bytes>)
    requires forall f <- fields :: |f| <= MAX_FIELD
    ensures Split(Joined(fields)) == Some(fields)
  {
    if fields != [] {
      var b := Joined(fields);
      assert b[1..1 + b[0]] == fields[0] && b[1 + b[0]..] == Joined(fields[1..]);
      SplitInvertsJoined(fields[1..]);
      assert fields == [fields[0]] + fields[1..];
    }
  }

  /** Every body that splits at all is the encoding of its fields. */
  lemma {:induction false} JoinedInvertsSplit(b: bytes)
    requires Split(b).Some?
    ensures Joined(Split(b).value) == b && forall f <- Split(b).value :: |f| <= MAX_FIELD
    decreases |b|
  {
    if b != [] {
      var f, rest, more := SplitHead(b);
      hide *;
      JoinedInvertsSplit(rest);
      JoinedOne(f, more);
    }
  }

  lemma JoinedOne(f: bytes, more: seq<bytes>)
    requires |f| <= 255
    ensures Joined([f] + more) == [|f|] + f + Joined(more)
  {
    assert ([f] + more)[1..] == more;
  }

  lemma SplitHead(b: bytes) returns (f: bytes, rest: bytes, more: seq<bytes>)
    requires b != [] && Split(b).Some?
    ensures |f| <= 255 && b == [|f|] + f + rest && Split(rest) == Some(more) && Split(b) == Some([f] + more)
  {
    f, rest := b[1..1 + b[0]], b[1 + b[0]..];
    more := Split(rest).value;
  }

  lemma PrependNothing(o: Option<seq<bytes>>)
    ensures Prepended([], o) == o
  {
    if o.Some? { assert [] + o.value == o.value; }
  }

  lemma PrependTwice(fields: seq<bytes>, f: bytes, o: Option<seq<bytes>>)
    ensures Prepended(fields, Prepended([f], o)) == Prepended(fields + [f], o)
  {
    if o.Some? { assert fields + ([f] + o.value) == (fields + [f]) + o.value; }
  }

  function Datagram(typ: byte, fields: seq<bytes>): bytes {
    Magic() + [DATAGRAM_VER, typ] + Joined(fields)
  }

  method EncodeDatagram(typ: byte, fields: seq<bytes>) returns (buf: bytes)
    ensures buf == Datagram(typ, fields)
  {
    hide Magic;
    buf := Magic() + [DATAGRAM_VER, typ];
    for i := 0 to |fields|
      invariant buf + Joined(fields[i..]) == Datagram(typ, fields)
    {
      var f := Capped(fields[i]);
      assert fields[i..][1..] == fields[i + 1..];
      assert buf + Joined(fields[i..]) == buf + [|f|] + f + Joined(fields[i + 1..]);
      buf := buf + [|f|] + f;
    }
  }

  function QueryFrom(fields: seq<bytes>): bytes {
    if fields == [] then []
    else
      var f := fields[|fields| - 1];
      if Ascii("id=") <= f then f[3..] else QueryFrom(fields[..|fields| - 1])
  }

  function DecodedAs(b: bytes): Result<Decoded> {
    if |b| < 6 || b[..4] != Magic() || b[4] != DATAGRAM_VER then Err(WrongMagic)
    else match Split(b[6..])
      case None => Err(Malformed)
      case Some(fields) =>
        if b[5] == TYPE_QUERY then Ok(Query(QueryFrom(fields)))
        else if b[5] == TYPE_ANNOUNCE then (match Parsed(fields) case Err(e) => Err(e) case Ok(a) => Ok(Announced(a)))
        else Err(WrongMagic)
  }

  /** The field loop: every length is checked before it slices, whatever the bytes. */
  method SplitFields(body: bytes) returns (fields: Option<seq<bytes>>)
    ensures fields == Split(body)
  {
    var rest := body;
    var found: seq<bytes> := [];
    PrependNothing(Split(body));
    while |rest| > 0
      invariant Split(body) == Prepended(found, Split(rest))
      decreases |rest|
    {
      var n := rest[0];
      if n > |rest| - 1 {
        return None;
      }
      assert rest[1..][..n] == rest[1..1 + n] && rest[1..][n..] == rest[1 + n..];
      PrependTwice(found, rest[1..1 + n], Split(rest[1 + n..]));
      rest := rest[1..];
      found := found + [rest[..n]];
      rest := rest[n..];
    }
    assert found + [] == found;
    fields := Some(found);
  }

  method FindFrom(fields: seq<bytes>) returns (from: bytes)
    ensures from == QueryFrom(fields)
  {
    from := [];
    for i := 0 to |fields|
      invariant from == QueryFrom(fields[..i])
    {
      assert fields[..i + 1][..i] == fields[..i];
      if Ascii("id=") <= fields[i] {
        from := fields[i][3..];
      }
    }
    assert fields[..|fields|] == fields;
  }

  method DecodeDatagram(b: bytes) returns (r: Result<Decoded>)
    ensures r == DecodedAs(b)
  {
    if |b| < 6 || b[..4] != Magic() {
      return Err(WrongMagic);
    }
    if b[4] != DATAGRAM_VER {
      return Err(WrongMagic);
    }
    hide Magic;
    hide Split;
    hide QueryFrom;
    hide Parsed;
    var fields := SplitFields(b[6..]);
    if fields.None? {
      return Err(Malformed);
    }
    if b[5] == TYPE_QUERY {
      var from := FindFrom(fields.value);
      return Ok(Query(from));
    }
    if b[5] == TYPE_ANNOUNCE {
      var a := ParseTxt(fields.value);
      match a {
        case Err(e) => return Err(e);
        case Ok(v) => return Ok(Announced(v));
      }
    }
    r := Err(WrongMagic);
  }

  lemma DatagramParts(typ: byte, fields: seq<bytes>)
    ensures var b := Datagram(typ, fields);
      && |b| >= 6 && b[..4] == Magic() && b[4] == DATAGRAM_VER
      && b[5] == typ && b[6..] == Joined(fields)
  {
    hide Magic;
  }

  /** Decoding the datagram of any valid announce gives it back, with its name cut to 63 bytes. */
  lemma AnnounceRoundTrip(a: Announce)
    requires Valid(a)
    ensures DecodedAs(Datagram(TYPE_ANNOUNCE, Txt(a)))
        == Ok(Announced(a.(displayName := Utf8.Truncated(a.displayName, MAX_DISPLAY_NAME))))
  {
    DatagramParts(TYPE_ANNOUNCE, Txt(a));
    ShortFields(a);
    SplitInvertsJoined(Txt(a));
    TxtRoundTrip(a);
  }

  lemma ShortFields(a: Announce)
    requires Valid(a)
    ensures forall f <- Txt(a) :: |f| <= MAX_FIELD
  {
    Utf8.TruncatedIsLongest(a.displayName, MAX_DISPLAY_NAME);
    ItoaLength(a.protoVersion);
    ItoaLength(a.port);
  }

  lemma {:induction false} ItoaLength(n: nat)
    ensures |Itoa(n)| <= n + 1
    ensures n < 100_000 ==> |Itoa(n)| <= 5
  {
    if n >= 10 {
      ItoaLength(n / 10);
      if 10 <= n < 100_000 { FiveDigits(n); }
    }
  }

  lemma FiveDigits(n: nat)
    requires n < 100_000
    ensures |Itoa(n)| <= 5
  {
    if n >= 10 {
      var a := n / 10;
      if a >= 10 {
        var b := a / 10;
        if b >= 10 {
          var c := b / 10;
          assert |Itoa(c)| <= 2;
          assert |Itoa(b)| <= 3;
        }
        assert |Itoa(a)| <= 4;
      }
    }
  }

  /** What is accepted from the network is valid, fits a label, and survives being announced again unchanged. */
  lemma AcceptedAnnouncesReannounce(b: bytes)
    requires DecodedAs(b).Ok? && DecodedAs(b).value.Announced?
    ensures var a := DecodedAs(b).value.a; Valid(a) && DecodedAs(Datagram(TYPE_ANNOUNCE, Txt(a))) == Ok(Announced(a))
  {
    var a := DecodedAs(b).value.a;
    FieldsKeepNameShort(ZERO, Split(b[6..]).value);
    AnnounceRoundTrip(a);
  }

  lemma {:induction false} FieldsKeepNameShort(a: Announce, txt: seq<bytes>)
    requires WithFields(a, txt).Ok?
    requires Utf8.Truncated(a.displayName, MAX_DISPLAY_NAME) == a.displayName
    ensures var n := WithFields(a, txt).value.displayName; Utf8.Truncated(n, MAX_DISPLAY_NAME) == n
    decreases |txt|
  {
    if txt != [] {
      var b := WithField(a, txt[0]).value;
      assert Utf8.Truncated(b.displayName, MAX_DISPLAY_NAME) == b.displayName by {
        if Cut(txt[0]).Some? { Utf8.TruncatedIsLongest(Cut(txt[0]).value.1, MAX_DISPLAY_NAME); }
      }
      FieldsKeepNameShort(b, txt[1..]);
    }
  }

  /** A query names the asker, for any id that fits one field. */
  lemma QueryRoundTrip(from: bytes)
    requires |from| <= MAX_FIELD - 3
    ensures DecodedAs(Datagram(TYPE_QUERY, [Pair("id", from)])) == Ok(Query(from))
  {
    var f := Pair("id", from);
    DatagramParts(TYPE_QUERY, [f]);
    SplitInvertsJoined([f]);
    Keys();
    assert f == Ascii("id=") + from;
  }

  // --- what the octets mean -------------------------------------------------------------

  function Pow10(k: nat): (p: nat)
    ensures p > 0
  {
    if k == 0 then 1 else 10 * Pow10(k - 1)
  }

  /** A decimal, read from its most significant digit. */
  function Read(s: bytes): int {
    if s == [] then 0 else (s[0] as int - 48) * Pow10(|s| - 1) + Read(s[1..])
  }

  predicate AllDigits(s: bytes) { s != [] && forall c <- s :: '0' as int <= c <= '9' as int }

  lemma {:induction false} ReadSnoc(s: bytes, d: byte)
    ensures Read(s + [d]) == 10 * Read(s) + (d as int - 48)
  {
    if s == [] {
      assert [d][1..] == [] && Read([d]) == (d as int - 48) * Pow10(0) + Read([]);
    } else {
      ReadSnoc(s[1..], d);
      assert (s + [d])[1..] == s[1..] + [d];
      TimesTen(s[0] as int - 48, Pow10(|s| - 1));
    }
  }

  lemma TimesTen(x: int, p: int)
    ensures x * (10 * p) == 10 * (x * p)
  {}

  /** Digits, and only digits, are a number, and it is the one they spell. */
  lemma {:induction false} DecimalMeaning(s: bytes)
    ensures Decimal(s).Some? <==> AllDigits(s)
    ensures Decimal(s).Some? ==> Decimal(s).value == Read(s)
  {
    if s != [] {
      var init, d := s[..|s| - 1], s[|s| - 1];
      assert s == init + [d];
      DecimalMeaning(init);
      ReadSnoc(init, d);
      assert forall c :: c in s <==> c in init || c == d;
      assert d in s;
      if |s| == 1 {
        assert init == [] && Read(init) == 0;
      } else {
        assert init != [];
      }
      hide Read;
    }
  }

  /** A version is a number below 256. A port is a 64-bit number with at most one sign. */
  lemma NumberMeaning(s: bytes)
    ensures ParseUint8(s).Some? <==> AllDigits(s) && Read(s) < 256
    ensures ParseUint8(s).Some? ==> ParseUint8(s).value == Read(s)
    ensures var negative := s != [] && s[0] == '-' as int;
      var digits := if negative || (s != [] && s[0] == '+' as int) then s[1..] else s;
      var v := if negative then -Read(digits) else Read(digits);
      && (Atoi(s).Some? <==> AllDigits(digits) && -0x8000_0000_0000_0000 <= v < 0x8000_0000_0000_0000)
      && (Atoi(s).Some? ==> Atoi(s).value == v)
  {
    DecimalMeaning(s);
    if s != [] { DecimalMeaning(s[1..]); }
    hide Decimal;
    hide AllDigits;
    hide Read;
  }

  /** The value behind the last field that starts with `key` and "=". */
  function LastValue(txt: seq<bytes>, key: bytes): Option<bytes> {
    if txt == [] then None
    else
      var f := txt[|txt| - 1];
      if key + [61] <= f then Some(f[|key| + 1..]) else LastValue(txt[..|txt| - 1], key)
  }

  lemma {:induction false} CutMeans(field: bytes, key: bytes)
    requires 61 !in key
    ensures key + [61] <= field <==> Cut(field).Some? && Cut(field).value.0 == key
    ensures key + [61] <= field ==> Cut(field) == Some((key, field[|key| + 1..]))
  {
    if key + [61] <= field {
      CutsAtFirst(key, field[|key| + 1..]);
      assert field == key + [61] + field[|key| + 1..];
    } else if Cut(field).Some? {
      CutJoins(field);
      var k := Cut(field).value.0 + [61];
      assert field[..|k|] == k;
    }
  }

  lemma {:induction false} CutJoins(field: bytes)
    requires Cut(field).Some?
    ensures field == Cut(field).value.0 + [61] + Cut(field).value.1
  {
    if field[0] != 61 {
      CutJoins(field[1..]);
      assert field == [field[0]] + field[1..];
    }
  }

  /** A field that is a number but does not read as one. */
  predicate BadField(f: bytes) {
    || (Ascii("v=") <= f && ParseUint8(f[2..]).None?)
    || (Ascii("port=") <= f && Atoi(f[5..]).None?)
  }

  lemma MoreKeys()
    ensures Ascii("v=") == Ascii("v") + [61] && Ascii("port=") == Ascii("port") + [61]
    ensures |Ascii("id")| == 2 && |Ascii("v")| == |Ascii("n")| == 1 && |Ascii("port")| == 4
    ensures 61 !in Ascii("id") && 61 !in Ascii("v") && 61 !in Ascii("port") && 61 !in Ascii("n")
    ensures Ascii("id") != Ascii("v") && Ascii("port") != Ascii("n") && Ascii("v") != Ascii("n")
  {
    Keys();
    assert Ascii("v=")[0] == 118 && Ascii("v=")[1] == 61;
    assert Ascii("port=") == [112, 111, 114, 116, 61] by {
      assert Ascii("port=")[0] == 112 && Ascii("port=")[1] == 111 && Ascii("port=")[2] == 114;
      assert Ascii("port=")[3] == 116 && Ascii("port=")[4] == 61;
    }
    assert Ascii("v") != Ascii("n") by { assert Ascii("v")[0] != Ascii("n")[0]; }
  }

  function Or<T>(o: Option<T>, d: T): T { if o.Some? then o.value else d }

  /** What one field does, by the octets it starts with. */
  lemma FieldMeaning(a: Announce, f: bytes)
    ensures WithField(a, f)
         == if BadField(f) then Err(Malformed)
            else if Ascii("id") + [61] <= f then Ok(a.(deviceId := f[3..]))
            else if Ascii("v") + [61] <= f then Ok(a.(protoVersion := ParseUint8(f[2..]).value))
            else if Ascii("port") + [61] <= f then Ok(a.(port := Atoi(f[5..]).value))
            else if Ascii("n") + [61] <= f then Ok(a.(displayName := Utf8.Truncated(f[2..], 63)))
            else Ok(a)
  {
    MoreKeys();
    CutMeans(f, Ascii("id"));
    CutMeans(f, Ascii("v"));
    CutMeans(f, Ascii("port"));
    CutMeans(f, Ascii("n"));
    hide Ascii;
    hide Cut;
    hide ParseUint8;
    hide Atoi;
  }

  lemma {:induction false} FieldsSnoc(a: Announce, txt: seq<bytes>, f: bytes)
    ensures WithFields(a, txt + [f])
         == match WithFields(a, txt) case Err(e) => Err(e) case Ok(b) => WithField(b, f)
    decreases |txt|
  {
    if txt == [] {
      assert [f][1..] == [] && txt + [f] == [f];
    } else {
      assert (txt + [f])[1..] == txt[1..] + [f];
      match WithField(a, txt[0])
      case Err(_) =>
      case Ok(b) => FieldsSnoc(b, txt[1..], f);
    }
  }

  /** The record the last values make, what is missing being empty or 0. */
  function Latest(txt: seq<bytes>): Announce
    requires forall f <- txt :: !BadField(f)
  {
    LatestNumbers(txt);
    var v, port := LastValue(txt, Ascii("v")), LastValue(txt, Ascii("port"));
    var name := LastValue(txt, Ascii("n"));
    Announce(Or(LastValue(txt, Ascii("id")), []), if v.Some? then ParseUint8(v.value).value else 0,
             if port.Some? then Atoi(port.value).value else 0,
             if name.Some? then Utf8.Truncated(name.value, 63) else [])
  }

  lemma {:induction false} LatestNumbers(txt: seq<bytes>)
    requires forall f <- txt :: !BadField(f)
    ensures var v := LastValue(txt, Ascii("v")); v.Some? ==> ParseUint8(v.value).Some?
    ensures var port := LastValue(txt, Ascii("port")); port.Some? ==> Atoi(port.value).Some?
  {
    MoreKeys();
    hide Ascii;
    hide ParseUint8;
    hide Atoi;
    if txt != [] {
      assert txt[|txt| - 1] in txt;
      LatestNumbers(txt[..|txt| - 1]);
    }
  }

  lemma {:induction false} FieldsMeaning(txt: seq<bytes>)
    ensures WithFields(ZERO, txt) == if exists f <- txt :: BadField(f) then Err(Malformed) else Ok(Latest(txt))
  {
    if txt == [] {
    } else {
      var init, f := txt[..|txt| - 1], txt[|txt| - 1];
      assert txt == init + [f];
      FieldsMeaning(init);
      FieldsSnoc(ZERO, init, f);
      assert forall g :: g in txt <==> g in init || g == f;
      hide WithFields;
      hide WithField;
      if !BadField(f) && !(exists g <- init :: BadField(g)) {
        FieldMeaning(Latest(init), f);
        LatestSnoc(init, f);
      } else if WithFields(ZERO, init).Ok? {
        FieldMeaning(WithFields(ZERO, init).value, f);
      }
    }
  }

  /** The four values behind a record. */
  lemma LatestIs(txt: seq<bytes>)
    requires forall f <- txt :: !BadField(f)
    ensures var a := Latest(txt);
      var id, v := LastValue(txt, Ascii("id")), LastValue(txt, Ascii("v"));
      var port, name := LastValue(txt, Ascii("port")), LastValue(txt, Ascii("n"));
      && (v.Some? ==> ParseUint8(v.value).Some?) && (port.Some? ==> Atoi(port.value).Some?)
      && a.deviceId == (if id.Some? then id.value else [])
      && a.protoVersion == (if v.Some? then ParseUint8(v.value).value else 0)
      && a.port == (if port.Some? then Atoi(port.value).value else 0)
      && a.displayName == (if name.Some? then Utf8.Truncated(name.value, 63) else [])
  {
    LatestNumbers(txt);
    hide LastValue;
    hide Ascii;
    hide ParseUint8;
    hide Atoi;
    hide BadField;
  }

  lemma LatestSnoc(init: seq<bytes>, f: bytes)
    requires (forall g <- init :: !BadField(g)) && !BadField(f) && forall g <- init + [f] :: !BadField(g)
    ensures Ok(Latest(init + [f])) == WithField(Latest(init), f)
  {
    hide *;
    LatestIs(init);
    LatestIs(init + [f]);
    FieldMeaning(Latest(init), f);
    LastSnoc(init, f, Ascii("id"));
    LastSnoc(init, f, Ascii("v"));
    LastSnoc(init, f, Ascii("port"));
    LastSnoc(init, f, Ascii("n"));
    MoreKeys();
    OneKey(f);
  }

  lemma LastSnoc(init: seq<bytes>, f: bytes, key: bytes)
    ensures LastValue(init + [f], key) == if key + [61] <= f then Some(f[|key| + 1..]) else LastValue(init, key)
  {
    assert (init + [f])[..|init|] == init;
  }

  /** A field starts with one key at most. */
  lemma OneKey(f: bytes)
    ensures Ascii("id") + [61] <= f ==>
        !(Ascii("v") + [61] <= f) && !(Ascii("port") + [61] <= f) && !(Ascii("n") + [61] <= f)
    ensures Ascii("v") + [61] <= f ==> !(Ascii("port") + [61] <= f) && !(Ascii("n") + [61] <= f)
    ensures Ascii("port") + [61] <= f ==> !(Ascii("n") + [61] <= f)
  {
    MoreKeys();
    CutMeans(f, Ascii("id"));
    CutMeans(f, Ascii("v"));
    CutMeans(f, Ascii("port"));
    CutMeans(f, Ascii("n"));
    hide Ascii;
    hide Cut;
  }

  /** A record is refused iff a number in it does not read as one, or what its last values say is no announce. */
  lemma TxtVerdict(txt: seq<bytes>)
    ensures Parsed(txt).Ok? <==>
        && (forall f <- txt :: !BadField(f))
        && var a := Latest(txt);
          && |a.deviceId| == 16 && (forall c <- a.deviceId :: Letter(c))
          && 1 <= a.port <= 65_535 && a.protoVersion >= 1
    ensures Parsed(txt).Ok? ==> Parsed(txt).value == Latest(txt)
    ensures Parsed(txt).Err? ==> Parsed(txt).error == Malformed
  {
    FieldsMeaning(txt);
    if forall f <- txt :: !BadField(f) { DeviceIdAlphabet(Latest(txt).deviceId); }
    hide BadField;
    hide Latest;
    hide WithFields;
    hide Letter;
    hide ValidDeviceId;
  }

  // --- the datagram, octet by octet -------------------------------------------------------

  /** What of a field is sent: its first 255 octets. */
  function SentPart(f: bytes): bytes { if |f| <= 255 then f else f[..255] }

  /** Where the `k`-th field starts, behind the length octets and the fields before it. */
  function FieldStart(fields: seq<bytes>, k: nat): nat
    requires k <= |fields|
  {
    if k == 0 then 0 else 1 + |SentPart(fields[0])| + FieldStart(fields[1..], k - 1)
  }

  predicate FieldAt(b: bytes, o: nat, f: bytes) {
    o + 1 + |f| <= |b| && b[o] == |f| && b[o + 1..o + 1 + |f|] == f
  }

  lemma FieldShift(b: bytes, step: nat, o: nat, f: bytes)
    requires step <= |b| && FieldAt(b[step..], o, f)
    ensures FieldAt(b, step + o, f)
  {
    assert b[step..][o + 1..o + 1 + |f|] == b[step + o + 1..step + o + 1 + |f|];
  }

  /** Every field lies where it is due, the first at `from`. */
  ghost predicate AllAt(b: bytes, from: nat, fields: seq<bytes>) {
    forall k | 0 <= k < |fields| :: FieldAt(b, from + FieldStart(fields, k), SentPart(fields[k]))
  }

  lemma AllShift(b: bytes, step: nat, fields: seq<bytes>)
    requires step <= |b| && AllAt(b[step..], 0, fields)
    ensures AllAt(b, step, fields)
  {
    hide FieldAt;
    hide FieldStart;
    hide SentPart;
    forall k | 0 <= k < |fields| ensures FieldAt(b, step + FieldStart(fields, k), SentPart(fields[k])) {
      FieldShift(b, step, FieldStart(fields, k), SentPart(fields[k]));
    }
  }

  lemma AllCons(b: bytes, f: bytes, rest: seq<bytes>)
    requires FieldAt(b, 0, SentPart(f)) && AllAt(b, 1 + |SentPart(f)|, rest)
    ensures AllAt(b, 0, [f] + rest)
  {
    hide FieldAt;
    hide SentPart;
    var all := [f] + rest;
    assert all[1..] == rest;
    forall k | 0 <= k < |all| ensures FieldAt(b, 0 + FieldStart(all, k), SentPart(all[k])) {
      if k > 0 { assert FieldAt(b, 1 + |SentPart(f)| + FieldStart(rest, k - 1), SentPart(rest[k - 1])); }
    }
  }

  lemma {:induction false} FieldsLie(fields: seq<bytes>)
    ensures |Joined(fields)| == FieldStart(fields, |fields|) && AllAt(Joined(fields), 0, fields)
  {
    if fields != [] {
      var f, rest := fields[0], fields[1..];
      FieldsLie(rest);
      JoinedCons(fields);
      hide *;
      assert fields == [f] + rest;
      HeadField(SentPart(f), Joined(rest));
      AllShift(Joined(fields), 1 + |SentPart(f)|, rest);
      AllCons(Joined(fields), f, rest);
    }
  }

  lemma JoinedCons(fields: seq<bytes>)
    requires fields != []
    ensures |SentPart(fields[0])| <= 255
    ensures Joined(fields) == [|SentPart(fields[0])|] + SentPart(fields[0]) + Joined(fields[1..])
    ensures FieldStart(fields, |fields|) == 1 + |SentPart(fields[0])| + FieldStart(fields[1..], |fields| - 1)
  {}

  lemma HeadField(f: bytes, rest: bytes)
    requires |f| <= 255
    ensures var b := [|f|] + f + rest; FieldAt(b, 0, f) && b[1 + |f|..] == rest
  {}

  /** "OA2D", version 1, the type, then every field behind its length. */
  lemma DatagramLayout(typ: byte, fields: seq<bytes>)
    ensures var b := Datagram(typ, fields);
      && |b| == 6 + FieldStart(fields, |fields|) && AllAt(b, 6, fields)
      && b[..6] == ['O' as int, 'A' as int, '2' as int, 'D' as int, 1, typ]
  {
    DatagramParts(typ, fields);
    FieldsLie(fields);
    MagicIs(Datagram(typ, fields), typ);
    hide *;
    AllShift(Datagram(typ, fields), 6, fields);
  }

  lemma MagicIs(b: bytes, typ: byte)
    requires |b| >= 6 && b[..4] == Magic() && b[4] == 1 && b[5] == typ
    ensures b[..6] == ['O' as int, 'A' as int, '2' as int, 'D' as int, 1, typ]
  {
    assert Magic()[0] == 79 && Magic()[1] == 65 && Magic()[2] == 50 && Magic()[3] == 68;
    assert b[..4][0] == b[0] && b[..4][1] == b[1] && b[..4][2] == b[2] && b[..4][3] == b[3];
  }

  /** A body splits into `fields` iff it is their encoding, none of them cut. */
  lemma SplitMeaning(b: bytes, fields: seq<bytes>)
    ensures Split(b) == Some(fields) <==> (forall f <- fields :: |f| <= 255) && Joined(fields) == b
  {
    if (forall f <- fields :: |f| <= 255) && Joined(fields) == b { SplitInvertsJoined(fields); }
    if Split(b).Some? { JoinedInvertsSplit(b); }
    hide Split;
    hide Joined;
  }

  lemma {:induction false} QueryFromIsLast(fields: seq<bytes>)
    ensures QueryFrom(fields) == Or(LastValue(fields, Ascii("id")), [])
  {
    Keys();
    hide Ascii;
    if fields != [] { QueryFromIsLast(fields[..|fields| - 1]); }
  }

  /** Every datagram: what it is taken for, or why it is not. */
  lemma DatagramVerdict(b: bytes)
    ensures var fields := Split(if |b| < 6 then [] else b[6..]);
      DecodedAs(b) == if |b| < 6 || b[..5] != ['O' as int, 'A' as int, '2' as int, 'D' as int, 1] then Err(WrongMagic)
                      else if fields.None? then Err(Malformed)
                      else if b[5] == 2 then Ok(Query(Or(LastValue(fields.value, Ascii("id")), [])))
                      else if b[5] != 1 then Err(WrongMagic)
                      else if Parsed(fields.value).Err? then Err(Malformed)
                      else Ok(Announced(Parsed(fields.value).value))
  {
    if |b| >= 6 {
      assert Magic() == ['O' as int, 'A' as int, '2' as int, 'D' as int];
      assert b[..5] == b[..4] + [b[4]];
      if Split(b[6..]).Some? {
        QueryFromIsLast(Split(b[6..]).value);
        TxtVerdict(Split(b[6..]).value);
      }
      hide Split;
      hide Parsed;
      hide QueryFrom;
      hide LastValue;
      hide Magic;
    }
  }

  /** The decimal of a number: digits that spell it, without a leading zero. */
  lemma {:induction false} ItoaMeaning(n: nat)
    ensures AllDigits(Itoa(n)) && Read(Itoa(n)) == n && (Itoa(n)[0] == '0' as int ==> n == 0)
  {
    DecimalRoundTrip(n);
    DecimalMeaning(Itoa(n));
    if n >= 10 { ItoaMeaning(n / 10); }
  }

  /** The record of an announce: four fields, in this order. */
  lemma TxtLayout(a: Announce)
    requires a.port >= 0
    ensures Txt(a) == [Ascii("id=") + a.deviceId, Ascii("v=") + Itoa(a.protoVersion), Ascii("port=") + Itoa(a.port),
                       Ascii("n=") + Utf8.Truncated(a.displayName, 63)]
  {
    MoreKeys();
    Keys();
    assert Ascii("n=") == Ascii("n") + [61];
    assert Ascii("id=") == Ascii("id") + [61];
    hide Ascii;
  }
}
