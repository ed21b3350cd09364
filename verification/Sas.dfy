/**
 The pairing transcript and the six digits both users compare
 (internal/pairing/sas.go). SHA-256 is an abstract function `hash`; nothing
 here assumes it is injective.
 */
module Sas {
  import opened Bytes

  const CONTEXT: bytes := Ascii("openair-pair-v1")
  const KEY_LEN: nat := 32
  const NONCE_LEN: nat := 32
  const SAS_DIGITS: nat := 6
  const SAS_MODULUS: nat := 1_000_000

  /** One device's contribution; `priv` is empty for a device that holds no privilege key. */
  datatype Party = Party(id: bytes, priv: bytes, nonce: bytes)

  function CheckKey(k: bytes, allowAbsent: bool): Option<bytes> {
    if |k| == 0 && allowAbsent then Some(Zeros(KEY_LEN))
    else if |k| != KEY_LEN then None
    else Some(k)
  }

  function Order(a: bytes, b: bytes): (bytes, bytes) { if Leq(a, b) then (a, b) else (b, a) }

  /** The key a party contributes: its own or 32 zero bytes. */
  function Contributed(priv: bytes): bytes { if priv == [] then Zeros(KEY_LEN) else priv }

  predicate WellFormed(p: Party) {
    |p.id| == KEY_LEN && (|p.priv| == 0 || |p.priv| == KEY_LEN) && |p.nonce| == NONCE_LEN
  }

  function Transcript(offerer: Party, scanner: Party): (r: Option<bytes>)
    ensures r.Some? <==> WellFormed(offerer) && WellFormed(scanner) && offerer.id != scanner.id
  {
    var idA, idB := CheckKey(offerer.id, false), CheckKey(scanner.id, false);
    if idA.None? || idB.None? || idA == idB then None
    else
      var privA, privB := CheckKey(offerer.priv, true), CheckKey(scanner.priv, true);
      if privA.None? || privB.None? || |offerer.nonce| != NONCE_LEN || |scanner.nonce| != NONCE_LEN then None
      else
        var (lowId, highId) := Order(idA.value, idB.value);
        var (lowPriv, highPriv) := Order(privA.value, privB.value);
        Some(CONTEXT + (lowId + (highId + (lowPriv + (highPriv + (offerer.nonce + scanner.nonce))))))
  }

  /** `v` as exactly `n` decimal digits, most significant first. */
  function Digits(v: nat, n: nat): (d: bytes)
    ensures |d| == n && forall i | 0 <= i < n :: 48 <= d[i] <= 57
  {
    if n == 0 then [] else Digits(v / 10, n - 1) + [48 + v % 10]
  }

  function Pow10(n: nat): (p: nat)
    ensures p > 0
  {
    if n == 0 then 1 else 10 * Pow10(n - 1)
  }

  /** Zero padding keeps distinct values distinct on the screen. */
  lemma {:induction false} DigitsInjective(u: nat, v: nat, n: nat)
    requires u < Pow10(n) && v < Pow10(n) && Digits(u, n) == Digits(v, n)
    ensures u == v
  {
    if n > 0 {
      var du, dv := Digits(u / 10, n - 1), Digits(v / 10, n - 1);
      assert Digits(u, n)[..n - 1] == du && Digits(v, n)[..n - 1] == dv;
      assert Digits(u, n)[n - 1] == Digits(v, n)[n - 1];
      DigitsInjective(u / 10, v / 10, n - 1);
    }
  }

  /** `hash` yields at least four bytes; they are read little-endian. */
  function Sas(hash: bytes -> bytes, offerer: Party, scanner: Party): Option<bytes> {
    match Transcript(offerer, scanner)
    case None => None
    case Some(t) =>
      var sum := hash(t);
      Some(Digits(FromLE(if |sum| >= 4 then sum[..4] else sum) % SAS_MODULUS, SAS_DIGITS))
  }

  // --- what the digits say --------------------------------------------------------

  /** Decimal digits as a reader takes them, the most significant first. */
  function Read(d: bytes): int {
    if d == [] then 0 else (d[0] as int - 48) * Pow10(|d| - 1) + Read(d[1..])
  }

  lemma {:induction false} ReadSnoc(d: bytes, b: byte)
    ensures Read(d + [b]) == 10 * Read(d) + (b as int - 48)
  {
    var e := d + [b];
    if d == [] {
      assert e[1..] == [] && Pow10(0) == 1;
    } else {
      assert e[1..] == d[1..] + [b] && e[0] == d[0];
      ReadSnoc(d[1..], b);
      assert Pow10(|d|) == 10 * Pow10(|d| - 1);
      TimesTen(d[0] as int - 48, Pow10(|d| - 1));
    }
  }

  lemma TimesTen(x: int, p: int)
    ensures x * (10 * p) == 10 * (x * p)
  {}

  lemma {:induction false} DigitsRead(v: nat, n: nat)
    requires v < Pow10(n)
    ensures Read(Digits(v, n)) == v
  {
    if n > 0 {
      DigitsRead(v / 10, n - 1);
      ReadSnoc(Digits(v / 10, n - 1), 48 + v % 10);
    }
  }

  /** The number behind a hash: its first four bytes, the least significant first. */
  function Word(h: bytes): nat
    requires |h| >= 4
  {
    h[0] as int + 0x100 * (h[1] as int) + 0x1_0000 * (h[2] as int) + 0x100_0000 * (h[3] as int)
  }

  function Residue(h: bytes): nat
    requires |h| >= 4
  {
    Word(h) % 1_000_000
  }

  lemma FourBytes(h: bytes)
    requires |h| >= 4
    ensures FromLE(h[..4]) == Word(h)
  {
    var b := h[..4];
    assert b[1..] == h[1..4] && h[1..4][1..] == h[2..4] && h[2..4][1..] == h[3..4] && h[3..4][1..] == [];
    assert FromLE(h[3..4]) == h[3];
    assert FromLE(h[2..4]) == h[2] as int + 0x100 * FromLE(h[3..4]);
    assert FromLE(h[1..4]) == h[1] as int + 0x100 * FromLE(h[2..4]);
  }

  /** The six digits on a screen, read as a number, are the residue of the transcript's hash. */
  lemma DigitsAreResidue(hash: bytes -> bytes, offerer: Party, scanner: Party)
    requires Transcript(offerer, scanner).Some? && |hash(Transcript(offerer, scanner).value)| >= 4
    ensures var shown := Sas(hash, offerer, scanner);
      && shown.Some? && |shown.value| == 6 && (forall b <- shown.value :: 48 <= b <= 57)
      && Read(shown.value) == Residue(hash(Transcript(offerer, scanner).value))
  {
    var h := hash(Transcript(offerer, scanner).value);
    FourBytes(h);
    assert Pow10(3) == 1000 && Pow10(6) == 1_000_000;
    DigitsRead(Residue(h), 6);
  }

  /** Two screens agree exactly if the residues do. */
  lemma ScreensAgreeIff(hash: bytes -> bytes, o: Party, s: Party, o': Party, s': Party)
    requires Transcript(o, s).Some? && |hash(Transcript(o, s).value)| >= 4
    requires Transcript(o', s').Some? && |hash(Transcript(o', s').value)| >= 4
    ensures Sas(hash, o, s) == Sas(hash, o', s') <==>
      Residue(hash(Transcript(o, s).value)) == Residue(hash(Transcript(o', s').value))
  {
    DigitsAreResidue(hash, o, s);
    DigitsAreResidue(hash, o', s');
    FourBytes(hash(Transcript(o, s).value));
    FourBytes(hash(Transcript(o', s').value));
  }

  /** The octets hashed: the name of the protocol, then each pair lower first, then the nonces by role. */
  lemma TranscriptLayout(o: Party, s: Party)
    requires Transcript(o, s).Some?
    ensures var t := Transcript(o, s).value;
      var zeros := seq(32, _ => 0);
      var (po, ps) := (if o.priv == [] then zeros else o.priv, if s.priv == [] then zeros else s.priv);
      && |t| == 207 && t[..15] == [111, 112, 101, 110, 97, 105, 114, 45, 112, 97, 105, 114, 45, 118, 49]
      && (if Leq(o.id, s.id) then t[15..47] == o.id && t[47..79] == s.id else t[15..47] == s.id && t[47..79] == o.id)
      && (if Leq(po, ps) then t[79..111] == po && t[111..143] == ps else t[79..111] == ps && t[111..143] == po)
      && t[143..175] == o.nonce && t[175..] == s.nonce
  {
    assert Zeros(KEY_LEN) == seq(32, _ => 0);
    var (a, b) := Order(o.id, s.id);
    var (c, d) := Order(Contributed(o.priv), Contributed(s.priv));
    Seven(CONTEXT, a, b, c, d, o.nonce, s.nonce);
    assert CONTEXT == [111, 112, 101, 110, 97, 105, 114, 45, 112, 97, 105, 114, 45, 118, 49];
  }

  lemma Seven(x: bytes, a: bytes, b: bytes, c: bytes, d: bytes, m: bytes, n: bytes)
    requires |x| == 15 && |a| == |b| == |c| == |d| == |m| == |n| == 32
    ensures var t := x + (a + (b + (c + (d + (m + n)))));
      && |t| == 207 && t[..15] == x && t[15..47] == a && t[47..79] == b && t[79..111] == c && t[111..143] == d
      && t[143..175] == m && t[175..] == n
  {}

  lemma OrderForgetsOrder(a: bytes, b: bytes, c: bytes, d: bytes)
    ensures Order(a, b) == Order(c, d) <==> multiset{a, b} == multiset{c, d}
  {
    LeqTotal(a, b);
    LeqTotal(c, d);
    if multiset{a, b} == multiset{c, d} {
      assert a in multiset{c, d} && b in multiset{c, d};
      if a == c {
        assert multiset{a, b} - multiset{a} == multiset{b} && multiset{c, d} - multiset{c} == multiset{d};
        assert b in multiset{d};
      } else {
        assert a == d;
        assert multiset{a, b} - multiset{a} == multiset{b} && multiset{c, d} - multiset{d} == multiset{c};
        assert b in multiset{c};
      }
    }
  }

  /**
   Exactly what a transcript pins down: the two identity keys, the two
   contributed privilege keys, and each nonce by role. It does not say which
   privilege key belongs to which identity key.
   */
  lemma TranscriptDetermines(o: Party, s: Party, o': Party, s': Party)
    requires Transcript(o, s).Some? && Transcript(o', s').Some?
    ensures Transcript(o, s) == Transcript(o', s') <==>
      && multiset{o.id, s.id} == multiset{o'.id, s'.id}
      && multiset{Contributed(o.priv), Contributed(s.priv)} == multiset{Contributed(o'.priv), Contributed(s'.priv)}
      && o.nonce == o'.nonce && s.nonce == s'.nonce
  {
    var (a, b) := Order(o.id, s.id);
    var (a', b') := Order(o'.id, s'.id);
    var (c, d) := Order(Contributed(o.priv), Contributed(s.priv));
    var (c', d') := Order(Contributed(o'.priv), Contributed(s'.priv));
    OrderForgetsOrder(o.id, s.id, o'.id, s'.id);
    OrderForgetsOrder(Contributed(o.priv), Contributed(s.priv), Contributed(o'.priv), Contributed(s'.priv));
    if Transcript(o, s) == Transcript(o', s') {
      var n, n' := o.nonce + s.nonce, o'.nonce + s'.nonce;
      Cancel(CONTEXT, a + (b + (c + (d + n))), CONTEXT, a' + (b' + (c' + (d' + n'))));
      Cancel(a, b + (c + (d + n)), a', b' + (c' + (d' + n')));
      Cancel(b, c + (d + n), b', c' + (d' + n'));
      Cancel(c, d + n, c', d' + n');
      Cancel(d, n, d', n');
      Cancel(o.nonce, s.nonce, o'.nonce, s'.nonce);
    }
  }
}
