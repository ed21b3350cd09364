/**
 truncateUTF8 (internal/discovery/announce.go) against the well-formed byte
 sequences of RFC 3629, section 4.
 */
module Utf8 {
  import opened Bytes

  predicate Tail(b: byte) { 0x80 <= b < 0xC0 }

  predicate TailAt(s: bytes, i: nat) { i < |s| && Tail(s[i]) }

  /** The length of the well-formed character at the front of `s`; 0 if there is none. */
  function RuneLen(s: bytes): (k: nat)
    ensures k <= |s| && k <= 4
  {
    if s == [] then 0
    else if s[0] < 0x80 then 1
    else if 0xC2 <= s[0] < 0xE0 then (if TailAt(s, 1) then 2 else 0)
    else if 0xE0 <= s[0] < 0xF0 then
      if TailAt(s, 1) && TailAt(s, 2) && (s[0] == 0xE0 ==> s[1] >= 0xA0) && (s[0] == 0xED ==> s[1] < 0xA0) then 3 else 0
    else if 0xF0 <= s[0] < 0xF5 then
      if TailAt(s, 1) && TailAt(s, 2) && TailAt(s, 3) && (s[0] == 0xF0 ==> s[1] >= 0x90) &&
          (s[0] == 0xF4 ==> s[1] < 0x90) then 4 else 0
    else 0
  }

  predicate Valid(s: bytes)
    decreases |s|
  {
    s == [] || (RuneLen(s) > 0 && Valid(s[RuneLen(s)..]))
  }

  /** A cut of valid text is valid exactly when it falls in front of a byte that starts a character. */
  lemma {:induction false} CutsAtStarts(s: bytes, k: nat)
    requires Valid(s) && k <= |s|
    ensures Valid(s[..k]) <==> k == |s| || !Tail(s[k])
    decreases |s|
  {
    var n := RuneLen(s);
    if k == 0 || k == |s| {
      assert s[..|s|] == s;
    } else if k < n {
      assert Tail(s[k]);
      assert RuneLen(s[..k]) == 0;
    } else {
      assert RuneLen(s[..k]) == n;
      assert s[..k][n..] == s[n..][..k - n];
      CutsAtStarts(s[n..], k - n);
    }
  }

  function BackUp(s: bytes, n: nat): (k: nat)
    requires n < |s|
    ensures k <= n
  {
    if n > 0 && Tail(s[n]) then BackUp(s, n - 1) else n
  }

  function Truncated(s: bytes, n: nat): bytes {
    if |s| <= n then s else s[..BackUp(s, n)]
  }

  method TruncateUtf8(s: bytes, limit: nat) returns (t: bytes)
    ensures t == Truncated(s, limit)
  {
    if |s| <= limit {
      return s;
    }
    var n: nat := limit;
    while n > 0 && 0x80 <= s[n] < 0xC0
      invariant n <= limit
      invariant BackUp(s, n) == BackUp(s, limit)
    {
      n := n - 1;
    }
    t := s[..n];
  }

  lemma {:induction false} BackUpStops(s: bytes, n: nat)
    requires n < |s|
    ensures BackUp(s, n) == 0 || !Tail(s[BackUp(s, n)])
    ensures forall k | BackUp(s, n) < k <= n :: Tail(s[k])
  {
    if n > 0 && Tail(s[n]) { BackUpStops(s, n - 1); }
  }

  /**
   Of any bytes: a prefix, within the limit, unchanged when cut again. Of valid text: valid, and no longer valid
   prefix fits.
   */
  lemma TruncatedIsLongest(s: bytes, n: nat)
    ensures Truncated(s, n) <= s && |Truncated(s, n)| <= n
    ensures Truncated(Truncated(s, n), n) == Truncated(s, n)
    ensures Valid(s) ==> Valid(Truncated(s, n))
    ensures Valid(s) ==> forall k | |Truncated(s, n)| < k <= n && k <= |s| :: !Valid(s[..k])
    ensures |s| <= n ==> Truncated(s, n) == s
    ensures |s| > n ==>
      var k := |Truncated(s, n)|;
      (k == 0 || !(0x80 <= s[k] < 0xC0)) && forall m | k < m <= n :: 0x80 <= s[m] < 0xC0
  {
    if |s| > n {
      var k := BackUp(s, n);
      BackUpStops(s, n);
      if Valid(s) {
        CutsAtStarts(s, k);
        forall m | k < m <= n ensures !Valid(s[..m]) {
          CutsAtStarts(s, m);
        }
      }
    }
  }

  // --- characters -----------------------------------------------------------------------

  /** A Unicode scalar value: a code point that is no surrogate. */
  predicate Scalar(c: nat) { c < 0xD800 || 0xE000 <= c < 0x11_0000 }

  /** Section 3: the octets of a character. */
  function Encode(c: nat): bytes
    requires Scalar(c)
  {
    if c < 0x80 then [c]
    else if c < 0x800 then [0xC0 + c / 0x40, 0x80 + c % 0x40]
    else if c < 0x1_0000 then [0xE0 + c / 0x1000, 0x80 + c / 0x40 % 0x40, 0x80 + c % 0x40]
    else [0xF0 + c / 0x4_0000, 0x80 + c / 0x1000 % 0x40, 0x80 + c / 0x40 % 0x40, 0x80 + c % 0x40]
  }

  /** The code point the first `k` octets carry. */
  function Decode(s: bytes, k: nat): int
    requires 1 <= k <= |s|
  {
    if k == 1 then s[0]
    else if k == 2 then (s[0] as int - 0xC0) * 0x40 + (s[1] as int - 0x80)
    else if k == 3 then (s[0] as int - 0xE0) * 0x1000 + (s[1] as int - 0x80) * 0x40 + (s[2] as int - 0x80)
    else if |s| < 4 then 0
    else (s[0] as int - 0xF0) * 0x4_0000 + (s[1] as int - 0x80) * 0x1000 + (s[2] as int - 0x80) * 0x40
         + (s[3] as int - 0x80)
  }

  /** The octets of a character are taken whole. */
  lemma EncodedIsTaken(c: nat, rest: bytes)
    requires Scalar(c)
    ensures RuneLen(Encode(c) + rest) == |Encode(c)|
  {
    if 0x1_0000 <= c { assert c / 0x4_0000 <= 4; }
  }

  lemma TwoOctets(s: bytes)
    requires RuneLen(s) == 2
    ensures var c := Decode(s, 2); c >= 0 && Scalar(c) && s[..2] == Encode(c)
  {
    assert Decode(s, 2) / 0x40 == s[0] as int - 0xC0;
    assert s[..2] == [s[0], s[1]];
  }

  lemma ThreeOctets(s: bytes)
    requires RuneLen(s) == 3
    ensures var c := Decode(s, 3); c >= 0 && Scalar(c) && s[..3] == Encode(c)
  {
    var c := Decode(s, 3);
    assert 0x800 <= c && Scalar(c);
    assert c / 0x40 == (s[0] as int - 0xE0) * 0x40 + (s[1] as int - 0x80);
    assert c / 0x1000 == s[0] as int - 0xE0;
    assert s[..3] == [s[0], s[1], s[2]];
  }

  lemma FourOctets(s: bytes)
    requires RuneLen(s) == 4
    ensures var c := Decode(s, 4); c >= 0 && Scalar(c) && s[..4] == Encode(c)
  {
    var c, x, y, z, w := Decode(s, 4), s[0] as int - 0xF0, s[1] as int - 0x80, s[2] as int - 0x80, s[3] as int - 0x80;
    assert c == x * 0x4_0000 + y * 0x1000 + z * 0x40 + w && 0x1_0000 <= c < 0x11_0000;
    Places(x, y, z, w);
    assert s[..4] == [s[0], s[1], s[2], s[3]];
    hide RuneLen;
    hide Decode;
  }

  lemma Places(x: nat, y: nat, z: nat, w: nat)
    requires y < 0x40 && z < 0x40 && w < 0x40
    ensures var c := x * 0x4_0000 + y * 0x1000 + z * 0x40 + w;
      c / 0x4_0000 == x && c / 0x1000 % 0x40 == y && c / 0x40 % 0x40 == z && c % 0x40 == w
  {
    var c := x * 0x4_0000 + y * 0x1000 + z * 0x40 + w;
    assert c / 0x1000 == x * 0x40 + y;
    assert c / 0x40 == x * 0x1000 + y * 0x40 + z;
  }

  /** And whatever is taken is the octets of a character. */
  lemma TakenIsEncoded(s: bytes)
    requires RuneLen(s) > 0
    ensures var k := RuneLen(s); Decode(s, k) >= 0 && Scalar(Decode(s, k)) && s[..k] == Encode(Decode(s, k))
  {
    if RuneLen(s) == 1 {
      assert s[..1] == [s[0]];
    } else if RuneLen(s) == 2 {
      TwoOctets(s);
    } else if RuneLen(s) == 3 {
      ThreeOctets(s);
    } else {
      FourOctets(s);
    }
    hide RuneLen;
  }

  predicate AllScalars(cs: seq<nat>) { forall c <- cs :: Scalar(c) }

  function EncodeAll(cs: seq<nat>): bytes
    requires AllScalars(cs)
  {
    if cs == [] then [] else Encode(cs[0]) + EncodeAll(cs[1..])
  }

  lemma {:induction false} TextIsValid(cs: seq<nat>)
    requires AllScalars(cs)
    ensures Valid(EncodeAll(cs))
  {
    if cs != [] {
      EncodedIsTaken(cs[0], EncodeAll(cs[1..]));
      assert EncodeAll(cs)[|Encode(cs[0])|..] == EncodeAll(cs[1..]);
      TextIsValid(cs[1..]);
    }
  }

  lemma {:induction false} ValidIsText(s: bytes) returns (cs: seq<nat>)
    requires Valid(s)
    ensures AllScalars(cs) && s == EncodeAll(cs)
    decreases |s|
  {
    if s == [] {
      cs := [];
    } else {
      var k, c := FirstCharacter(s);
      hide *;
      var rest := ValidIsText(s[k..]);
      cs := Prepended(c, rest);
      assert s == s[..k] + s[k..];
    }
  }

  lemma FirstCharacter(s: bytes) returns (k: nat, c: nat)
    requires s != [] && Valid(s)
    ensures 0 < k <= |s| && Valid(s[k..]) && Scalar(c) && s[..k] == Encode(c)
  {
    TakenIsEncoded(s);
    hide Encode;
    hide Decode;
    hide Scalar;
    k, c := RuneLen(s), Decode(s, RuneLen(s));
  }

  lemma Prepended(c: nat, rest: seq<nat>) returns (cs: seq<nat>)
    requires Scalar(c) && AllScalars(rest)
    ensures AllScalars(cs) && EncodeAll(cs) == Encode(c) + EncodeAll(rest)
  {
    cs := [c] + rest;
    assert cs[1..] == rest;
    hide Encode;
    hide Scalar;
  }

  /** Valid text is exactly the octets of some characters, one after the other. */
  lemma ValidIff(s: bytes)
    ensures Valid(s) <==> exists cs: seq<nat> :: AllScalars(cs) && s == EncodeAll(cs)
  {
    if Valid(s) { var cs := ValidIsText(s); }
    forall cs: seq<nat> | AllScalars(cs) && s == EncodeAll(cs) ensures Valid(s) { TextIsValid(cs); }
  }
}
