/**
 Octet strings, the fixed-width integer encodings of the wire layouts, and the
 syntax of a DeviceID. Go's `string` and `[]byte` are both modelled as `bytes`.
 */
module Bytes {
  type byte = x: int | 0 <= x < 0x100
  type u16 = x: int | 0 <= x < 0x1_0000
  type u32 = x: int | 0 <= x < 0x1_0000_0000
  type i64 = x: int | -0x8000_0000_0000_0000 <= x < 0x8000_0000_0000_0000
  type bytes = seq<byte>

  datatype Option<+T> = None | Some(value: T)

  /** netip.AddrPort: a 4- or 16-byte address and a port. */
  datatype Endpoint = V4(ip: bytes, port: u16) | V6(ip: bytes, port: u16)

  const DEVICE_ID_LEN: nat := 16

  /** 16 characters drawn from the lowercase RFC 4648 base32 alphabet. */
  predicate ValidDeviceId(d: bytes) {
    && |d| == DEVICE_ID_LEN
    && forall i | 0 <= i < |d| :: 97 <= d[i] <= 122 || 50 <= d[i] <= 55
  }

  function Ascii(s: string): bytes {
    seq(|s|, i requires 0 <= i < |s| => (s[i] as int) % 0x100)
  }

  /** A letter of the alphabet: a to z, or 2 to 7. */
  predicate Letter(c: byte) {
    'a' as int <= c <= 'z' as int || '2' as int <= c <= '7' as int
  }

  lemma DeviceIdAlphabet(d: bytes)
    ensures ValidDeviceId(d) <==> |d| == 16 && forall c <- d :: Letter(c)
  {
    assert forall i | 0 <= i < |d| :: d[i] in d;
  }

  function Pow256(k: nat): (p: nat)
    ensures p > 0
  {
    if k == 0 then 1 else 0x100 * Pow256(k - 1)
  }

  /** The low `k` octets of `n`, least significant first; higher ones are dropped, as Go's uintN(n) drops them. */
  function LE(n: nat, k: nat): (b: bytes)
    ensures |b| == k
  {
    if k == 0 then [] else [n % 0x100] + LE(n / 0x100, k - 1)
  }

  function FromLE(b: bytes): (n: nat)
    ensures n < Pow256(|b|)
  {
    if b == [] then 0 else b[0] + 0x100 * FromLE(b[1..])
  }

  /** The low `k` octets of `n`, most significant first. */
  function BE(n: nat, k: nat): (b: bytes)
    ensures |b| == k
  {
    if k == 0 then [] else BE(n / 0x100, k - 1) + [n % 0x100]
  }

  function FromBE(b: bytes): (n: nat)
    ensures n < Pow256(|b|)
  {
    if b == [] then 0 else 0x100 * FromBE(b[..|b| - 1]) + b[|b| - 1]
  }

  lemma {:induction false} LERoundTrip(n: nat, k: nat)
    requires n < Pow256(k)
    ensures FromLE(LE(n, k)) == n
  {
    if k > 0 {
      LERoundTrip(n / 0x100, k - 1);
      assert LE(n, k)[1..] == LE(n / 0x100, k - 1);
    }
  }

  lemma {:induction false} FromLERoundTrip(b: bytes)
    ensures LE(FromLE(b), |b|) == b
  {
    if b != [] {
      FromLERoundTrip(b[1..]);
      assert FromLE(b) % 0x100 == b[0] && FromLE(b) / 0x100 == FromLE(b[1..]);
      assert b == [b[0]] + b[1..];
    }
  }

  lemma {:induction false} BERoundTrip(n: nat, k: nat)
    requires n < Pow256(k)
    ensures FromBE(BE(n, k)) == n
  {
    if k > 0 {
      BERoundTrip(n / 0x100, k - 1);
      assert BE(n, k)[..k - 1] == BE(n / 0x100, k - 1);
    }
  }

  lemma {:induction false} FromBERoundTrip(b: bytes)
    ensures BE(FromBE(b), |b|) == b
  {
    if b != [] {
      var init := b[..|b| - 1];
      FromBERoundTrip(init);
      assert FromBE(b) % 0x100 == b[|b| - 1] && FromBE(b) / 0x100 == FromBE(init);
      assert b == init + [b[|b| - 1]];
    }
  }

  /** Bounds the verifier needs for the widths the layouts use. */
  lemma Widths()
    ensures Pow256(2) == 0x1_0000 && Pow256(4) == 0x1_0000_0000
    ensures Pow256(8) == 0x1_0000_0000_0000_0000
  {
    assert Pow256(1) == 0x100;
    assert Pow256(2) == 0x1_0000;
    assert Pow256(3) == 0x100_0000;
    assert Pow256(4) == 0x1_0000_0000;
    assert Pow256(5) == 0x100_0000_0000;
    assert Pow256(6) == 0x1_0000_0000_0000;
    assert Pow256(7) == 0x100_0000_0000_0000;
  }

  /** Each octet of the two encodings is the base-256 digit its place calls for. */
  lemma {:induction false} PlaceValue(n: nat, k: nat, i: nat)
    requires i < k
    ensures LE(n, k)[i] == n / Pow256(i) % 0x100 && BE(n, k)[k - 1 - i] == n / Pow256(i) % 0x100
  {
    if i > 0 {
      PlaceValue(n / 0x100, k - 1, i - 1);
      DivideTwice(n, 0x100, Pow256(i - 1));
    }
  }

  lemma DivideTwice(v: nat, a: nat, b: nat)
    requires a > 0 && b > 0
    ensures a * b > 0 && v / a / b == v / (a * b)
  {
    var x, r := v / a, v % a;
    Division(v, a);
    Division(x, b);
    Combined(v, a, b, x, r, x / b, x % b);
    Quotient(v, a * b, x / b, a * (x % b) + r);
  }

  lemma Division(v: nat, m: nat)
    requires m > 0
    ensures v == m * (v / m) + v % m && v % m < m
  {}

  lemma Combined(v: nat, a: nat, b: nat, x: nat, r: nat, q: nat, t: nat)
    requires v == a * x + r && x == b * q + t && r < a && t < b
    ensures a * b > 0 && a * t + r < a * b && v == (a * b) * q + (a * t + r)
  {
    Regroup(a, b, q, t);
    Below(a, b, t, r);
  }

  lemma Regroup(a: nat, b: nat, q: nat, t: nat)
    ensures a * (b * q + t) == (a * b) * q + a * t
  {}

  lemma Below(a: nat, b: nat, t: nat, r: nat)
    requires t < b && r < a
    ensures a * t + r < a * b && a * b > 0
  {
    assert a * t <= a * (b - 1);
  }

  lemma Quotient(v: nat, m: nat, q: nat, r: nat)
    requires m > 0 && v == m * q + r && r < m
    ensures v / m == q
  {
    var p := v / m;
    assert m * p <= v < m * p + m;
    if p > q {
      Grows(m, q + 1, p);
    } else if p < q {
      Grows(m, p + 1, q);
    }
  }

  lemma Grows(m: nat, a: nat, b: nat)
    requires a <= b
    ensures m * a <= m * b
  {
    assert m * (b - a) >= 0;
  }

  /** Two and four octets, most significant first. */
  lemma NetworkOrder(b: bytes)
    ensures |b| == 2 ==> FromBE(b) == 0x100 * (b[0] as int) + b[1]
    ensures |b| == 4 ==>
        FromBE(b) == 0x100_0000 * (b[0] as int) + 0x1_0000 * (b[1] as int) + 0x100 * (b[2] as int) + b[3]
  {
    if |b| == 2 {
      assert FromBE(b[..1]) == b[0] && FromBE([]) == 0;
    } else if |b| == 4 {
      NetworkOrder(b[..2]);
      assert b[..3][..2] == b[..2];
    }
  }

  /** Two and four octets, least significant first. */
  lemma LittleEndian(b: bytes)
    ensures |b| == 2 ==> FromLE(b) == b[0] as int + 0x100 * (b[1] as int)
    ensures |b| == 4 ==>
        FromLE(b) == b[0] as int + 0x100 * (b[1] as int) + 0x1_0000 * (b[2] as int) + 0x100_0000 * (b[3] as int)
  {
    if |b| == 2 {
      assert FromLE(b[1..]) == b[1] && FromLE([]) == 0;
    } else if |b| == 4 {
      LittleEndian(b[2..]);
      assert b[1..][1..] == b[2..];
    }
  }

  lemma LEInjective(m: nat, n: nat, k: nat)
    requires m < Pow256(k) && n < Pow256(k) && LE(m, k) == LE(n, k)
    ensures m == n
  {
    LERoundTrip(m, k);
    LERoundTrip(n, k);
  }

  /** Two's complement: Go's uint64(x). */
  function ToU64(x: i64): (u: nat)
    ensures u < 0x1_0000_0000_0000_0000
  {
    if x < 0 then x + 0x1_0000_0000_0000_0000 else x
  }

  /** Concatenation cancels when the first parts have the same length. */
  lemma Cancel(a: bytes, x: bytes, b: bytes, y: bytes)
    requires a + x == b + y && |a| == |b|
    ensures a == b && x == y
  {
    assert a == (a + x)[..|a|] && b == (b + y)[..|b|];
    assert x == (a + x)[|a|..] && y == (b + y)[|b|..];
  }

  function Zeros(n: nat): (z: bytes)
    ensures |z| == n
  {
    seq(n, _ => 0)
  }

  /** bytes.Compare(a, b) <= 0; also the order of Go strings. */
  predicate Leq(a: bytes, b: bytes) {
    if a == [] then true
    else if b == [] then false
    else if a[0] != b[0] then a[0] < b[0]
    else Leq(a[1..], b[1..])
  }

  /** `a` ends, or has the smaller octet, where the two first part. */
  predicate PartAt(a: bytes, b: bytes, n: nat) {
    n <= |a| && n <= |b| && a[..n] == b[..n] && (n == |a| || (n < |b| && a[n] < b[n]))
  }

  lemma {:induction false} LeqMeaning(a: bytes, b: bytes)
    ensures Leq(a, b) <==> exists n: nat :: PartAt(a, b, n)
  {
    if a == [] {
      assert PartAt(a, b, 0);
    } else if b != [] {
      LeqMeaning(a[1..], b[1..]);
      if a[0] == b[0] {
        if n: nat :| PartAt(a[1..], b[1..], n) {
          assert a[..n + 1] == [a[0]] + a[1..][..n] && b[..n + 1] == [b[0]] + b[1..][..n];
          assert PartAt(a, b, n + 1);
        }
        if n: nat :| PartAt(a, b, n) {
          assert n > 0 && a[1..][..n - 1] == a[..n][1..] && b[1..][..n - 1] == b[..n][1..];
          assert PartAt(a[1..], b[1..], n - 1);
        }
      } else if a[0] < b[0] {
        assert PartAt(a, b, 0);
      } else {
        forall n: nat ensures !PartAt(a, b, n) {
          if n > 0 && n <= |a| && n <= |b| { assert a[..n][0] == a[0] && b[..n][0] == b[0]; }
        }
      }
    }
  }

  lemma {:induction false} LeqTotal(a: bytes, b: bytes)
    ensures Leq(a, b) || Leq(b, a)
    ensures Leq(a, b) && Leq(b, a) ==> a == b
  {
    if a != [] && b != [] && a[0] == b[0] {
      LeqTotal(a[1..], b[1..]);
      assert a == [a[0]] + a[1..] && b == [b[0]] + b[1..];
    }
  }

  lemma {:induction false} LeqTransitive(a: bytes, b: bytes, c: bytes)
    requires Leq(a, b) && Leq(b, c)
    ensures Leq(a, c)
  {
    if a != [] && a[0] == b[0] && b[0] == c[0] {
      LeqTransitive(a[1..], b[1..], c[1..]);
    }
  }
}
