/**
 rankAddrs (internal/discovery/announce.go): which heard addresses can be
 dialled, and in what order. An address is known by its canonical octets, 4 for
 IPv4 in either of Go's forms; formatting it as text is left out.
 */
module AddrRank {
  import opened Bytes

  /** ip.To4(). */
  function To4(ip: bytes): Option<bytes> {
    if |ip| == 4 then Some(ip)
    else if |ip| == 16 && ip[..10] == Zeros(10) && ip[10] == 0xFF && ip[11] == 0xFF then Some(ip[12..])
    else None
  }

  function Canonical(ip: bytes): bytes {
    match To4(ip) case Some(v4) => v4 case None => ip
  }

  predicate Unspecified(ip: bytes) { Canonical(ip) == Zeros(4) || ip == Zeros(16) }

  predicate Multicast(ip: bytes) {
    match To4(ip)
    case Some(v4) => |v4| == 4 && 224 <= v4[0] < 240
    case None => |ip| == 16 && ip[0] == 0xFF
  }

  predicate Loopback(ip: bytes) {
    match To4(ip)
    case Some(v4) => |v4| == 4 && v4[0] == 127
    case None => ip == Zeros(15) + [1]
  }

  predicate LinkLocal(ip: bytes) {
    match To4(ip)
    case Some(v4) => |v4| == 4 && v4[0] == 169 && v4[1] == 254
    case None => |ip| == 16 && ip[0] == 0xFE && 0x80 <= ip[1] < 0xC0
  }

  predicate PrivateV4(v4: bytes)
    requires |v4| == 4
  {
    v4[0] == 10 || (v4[0] == 172 && 16 <= v4[1] < 32) || (v4[0] == 192 && v4[1] == 168)
  }

  /** addrScore: lower is better. */
  function Score(ip: bytes): int {
    var v4 := if To4(ip).Some? then To4(ip).value else [];
    if Loopback(ip) then 60
    else if |v4| == 4 && v4[0] == 192 && v4[1] == 168 && v4[2] == 56 then 50
    else if |v4| == 4 && PrivateV4(v4) then 10
    else if |v4| == 4 && LinkLocal(ip) then 40
    else if |v4| == 4 then 20
    else if LinkLocal(ip) then 45
    else 15
  }

  /** The two forms of one address are ranked, and dropped, alike. */
  lemma CanonicalAlike(ip: bytes)
    ensures Score(Canonical(ip)) == Score(ip) && Multicast(Canonical(ip)) == Multicast(ip)
    ensures Unspecified(Canonical(ip)) == Unspecified(ip) && Canonical(Canonical(ip)) == Canonical(ip)
  {
    if To4(ip).Some? {
      assert |Canonical(ip)| == 4;
      assert Zeros(16)[10] == 0;
    }
  }

  predicate Usable(ip: Option<bytes>) { ip.Some? && !Unspecified(ip.value) && !Multicast(ip.value) }

  datatype Scored = Scored(host: bytes, score: int)

  function Hosts(out: seq<Scored>): (hs: seq<bytes>)
    ensures |hs| == |out|
  {
    seq(|out|, i requires 0 <= i < |out| => out[i].host)
  }

  /** The usable addresses at their first occurrence. */
  function Distinct(ips: seq<Option<bytes>>): seq<Scored> {
    if ips == [] then []
    else
      var out := Distinct(ips[..|ips| - 1]);
      var ip := ips[|ips| - 1];
      if Usable(ip) && Canonical(ip.value) !in Hosts(out) then out + [Scored(Canonical(ip.value), Score(ip.value))]
          else out
  }

  /** Where insertion puts `x` into a sorted list: behind everything that does not score worse. */
  function InsertLast(p: seq<Scored>, x: Scored): seq<Scored> {
    if p != [] && x.score < p[|p| - 1].score then InsertLast(p[..|p| - 1], x) + [p[|p| - 1]] else p + [x]
  }

  function Stable(s: seq<Scored>): (r: seq<Scored>)
    ensures |r| == |s|
  {
    if s == [] then []
    else
      InsertLength(Stable(s[..|s| - 1]), s[|s| - 1]);
      InsertLast(Stable(s[..|s| - 1]), s[|s| - 1])
  }

  lemma {:induction false} InsertLength(p: seq<Scored>, x: Scored)
    ensures |InsertLast(p, x)| == |p| + 1
  {
    if p != [] { InsertLength(p[..|p| - 1], x); }
  }

  // --- the code -----------------------------------------------------------------

  method Collect(ips: seq<Option<bytes>>) returns (out: seq<Scored>)
    ensures out == Distinct(ips)
  {
    out := [];
    var seen: set<bytes> := {};
    for i := 0 to |ips|
      invariant out == Distinct(ips[..i])
      invariant forall h :: h in seen <==> h in Hosts(out)
    {
      assert ips[..i + 1][..i] == ips[..i];
      var ip := ips[i];
      if ip.None? || Unspecified(ip.value) || Multicast(ip.value) {
        continue;
      }
      var s := Canonical(ip.value);
      if s in seen {
        continue;
      }
      seen := seen + {s};
      assert Hosts(out + [Scored(s, Score(ip.value))]) == Hosts(out) + [s];
      out := out + [Scored(s, Score(ip.value))];
    }
    assert ips[..|ips|] == ips;
  }

  /** Moving one element down past the elements that score worse is inserting it. */
  lemma {:induction false} SwapsInsert(p: seq<Scored>, x: Scored, j: nat)
    requires j <= |p| && (forall k | j <= k < |p| :: x.score < p[k].score) && (j > 0 ==> p[j - 1].score <= x.score)
    ensures InsertLast(p, x) == p[..j] + [x] + p[j..]
  {
    var n := |p|;
    if j == n {
      assert p[..j] == p && p[j..] == [];
      assert InsertLast(p, x) == p + [x];
    } else {
      var init := p[..n - 1];
      assert p[n - 1].score > x.score;
      assert InsertLast(p, x) == InsertLast(init, x) + [p[n - 1]];
      SwapsInsert(init, x, j);
      hide InsertLast;
      assert p[j..] == init[j..] + [p[n - 1]] && init[..j] == p[..j];
    }
  }

  lemma StableEmpty()
    ensures Stable([]) == []
  {}

  lemma StableGrows(s: seq<Scored>, i: nat)
    requires i < |s|
    ensures Stable(s[..i + 1]) == InsertLast(Stable(s[..i]), s[i])
  {
    assert s[..i + 1][..i] == s[..i];
  }

  /** The array while `x` has come down to `j`. */
  function Lifted(p: seq<Scored>, x: Scored, rest: seq<Scored>, j: nat): (a: seq<Scored>)
    requires j <= |p|
    ensures |a| == |p| + 1 + |rest| && a[j] == x && (j > 0 ==> a[j - 1] == p[j - 1])
  {
    p[..j] + [x] + p[j..] + rest
  }

  lemma LiftedStep(p: seq<Scored>, x: Scored, rest: seq<Scored>, j: nat)
    requires 0 < j <= |p|
    ensures Lifted(p, x, rest, j)[j := p[j - 1]][j - 1 := x] == Lifted(p, x, rest, j - 1)
  {}

  lemma LiftedParts(p: seq<Scored>, x: Scored, rest: seq<Scored>, j: nat)
    requires j <= |p|
    ensures Lifted(p, x, rest, j)[..|p| + 1] == p[..j] + [x] + p[j..] && Lifted(p, x, rest, j)[|p| + 1..] == rest
    ensures Lifted(p, x, rest, |p|) == p + [x] + rest
  {}

  /** The inner loop. */
  method SiftDown(out: array<Scored>, i: nat)
    requires i < out.Length
    modifies out
    ensures out[..i + 1] == InsertLast(old(out[..i]), old(out[i])) && out[i + 1..] == old(out[i + 1..])
  {
    hide *;
    ghost var p, x, rest := out[..i], out[i], out[i + 1..];
    LiftedParts(p, x, rest, i);
    assert out[..] == p + [x] + rest;
    var j := i;
    while j > 0 && out[j].score < out[j - 1].score
      invariant 0 <= j <= i
      invariant out[..] == Lifted(p, x, rest, j)
      invariant forall k | j <= k < i :: x.score < p[k].score
    {
      ghost var before := out[..];
      LiftedStep(p, x, rest, j);
      assert before[j] == out[j] && before[j - 1] == out[j - 1];
      out[j], out[j - 1] := out[j - 1], out[j];
      assert out[..] == before[j := p[j - 1]][j - 1 := x];
      j := j - 1;
    }
    assert out[j] == out[..][j] && (j > 0 ==> out[j - 1] == out[..][j - 1]);
    SwapsInsert(p, x, j);
    LiftedParts(p, x, rest, j);
    assert out[..i + 1] == out[..][..i + 1] && out[i + 1..] == out[..][i + 1..];
  }

  /** The insertion sort, in place. */
  method SortByScore(out: array<Scored>)
    modifies out
    ensures out[..] == Stable(old(out[..]))
  {
    hide *;
    ghost var s := out[..];
    assert Stable(s[..0]) == [] by { StableEmpty(); }
    var i := 0;
    while i < out.Length
      invariant i <= out.Length
      invariant out[..i] == Stable(s[..i]) && out[i..] == s[i..]
    {
      assert out[i] == s[i..][0] == s[i] && out[i + 1..] == s[i..][1..] == s[i + 1..];
      StableGrows(s, i);
      SiftDown(out, i);
      i := i + 1;
    }
    assert out[..] == out[..i] && s[..i] == s;
  }

  datatype HostPort = HostPort(host: bytes, port: int)

  method RankAddrs(ips: seq<Option<bytes>>, port: int) returns (addrs: seq<HostPort>)
    ensures |addrs| == |Stable(Distinct(ips))|
    ensures forall k | 0 <= k < |addrs| :: addrs[k] == HostPort(Stable(Distinct(ips))[k].host, port)
  {
    hide *;
    var list := Collect(ips);
    var out := new Scored[|list|](i requires 0 <= i < |list| => list[i]);
    assert out[..] == list;
    SortByScore(out);
    ghost var ranked := Stable(Distinct(ips));
    assert out[..] == ranked;
    addrs := [];
    for i := 0 to out.Length
      invariant |addrs| == i
      invariant forall k | 0 <= k < i :: addrs[k] == HostPort(ranked[k].host, port)
    {
      assert out[i] == out[..][i] == ranked[i];
      addrs := addrs + [HostPort(out[i].host, port)];
    }
  }

  // --- what it means ---------------------------------------------------------------

  predicate ByScore(s: seq<Scored>) {
    forall i, j | 0 <= i < j < |s| :: s[i].score <= s[j].score
  }

  /** The elements that score `c`, in order. */
  function Class(s: seq<Scored>, c: int): seq<Scored> {
    if s == [] then []
    else Class(s[..|s| - 1], c) + (if s[|s| - 1].score == c then [s[|s| - 1]] else [])
  }

  lemma {:induction false} InsertPermutes(p: seq<Scored>, x: Scored)
    ensures multiset(InsertLast(p, x)) == multiset(p) + multiset{x}
  {
    if p != [] && x.score < p[|p| - 1].score {
      var init, last := p[..|p| - 1], p[|p| - 1];
      InsertPermutes(init, x);
      assert p == init + [last];
    }
  }

  lemma {:induction false} InsertSorts(p: seq<Scored>, x: Scored)
    requires ByScore(p)
    ensures ByScore(InsertLast(p, x))
  {
    if p != [] && x.score < p[|p| - 1].score {
      var init, last := p[..|p| - 1], p[|p| - 1];
      InsertSorts(init, x);
      InsertPermutes(init, x);
      var q := InsertLast(init, x);
      hide InsertLast;
      assert ByScore(q + [last]) by { AppendSorted(q, last, init, x); }
    }
  }

  lemma AppendSorted(q: seq<Scored>, last: Scored, init: seq<Scored>, x: Scored)
    requires ByScore(q) && multiset(q) == multiset(init) + multiset{x} && x.score <= last.score
    requires forall y <- init :: y.score <= last.score
    ensures ByScore(q + [last])
  {
    forall y | y in q ensures y.score <= last.score {
      assert y in multiset(q);
      if y != x { assert y in multiset(init); }
    }
  }

  lemma {:induction false} InsertKeepsClasses(p: seq<Scored>, x: Scored, c: int)
    requires ByScore(p)
    ensures Class(InsertLast(p, x), c) == Class(p, c) + (if x.score == c then [x] else [])
  {
    var q := InsertLast(p, x);
    if p != [] && x.score < p[|p| - 1].score {
      var init, last := p[..|p| - 1], p[|p| - 1];
      InsertKeepsClasses(init, x, c);
      assert q[..|q| - 1] == InsertLast(init, x) && q[|q| - 1] == last;
      if x.score == c {
        assert last.score != c;
      }
    } else {
      assert q[..|q| - 1] == p && q[|q| - 1] == x;
    }
  }

  /** The sort permutes and orders by score. */
  lemma {:induction false} StableSorts(s: seq<Scored>)
    ensures ByScore(Stable(s)) && multiset(Stable(s)) == multiset(s)
  {
    if s != [] {
      hide InsertLast;
      hide ByScore;
      var init, last := s[..|s| - 1], s[|s| - 1];
      StableSorts(init);
      assert s == init + [last];
      assert Stable(s) == InsertLast(Stable(init), last);
      InsertSorts(Stable(init), last);
      InsertPermutes(Stable(init), last);
      hide Stable;
    }
  }

  /** And keeps the order of equals. */
  lemma {:induction false} StableKeepsClasses(s: seq<Scored>, c: int)
    ensures Class(Stable(s), c) == Class(s, c)
  {
    if s != [] {
      hide InsertLast;
      var init, last := s[..|s| - 1], s[|s| - 1];
      StableKeepsClasses(init, c);
      StableSorts(init);
      assert Class(s, c) == Class(init, c) + (if last.score == c then [last] else []);
      hide Class;
      InsertKeepsClasses(Stable(init), last, c);
    }
  }

  /** Those two properties leave no other answer. */
  lemma {:induction false} StableUnique(s: seq<Scored>, t: seq<Scored>)
    requires ByScore(s) && ByScore(t) && forall c :: Class(s, c) == Class(t, c)
    ensures s == t
    decreases |s| + |t|
  {
    if s == [] || t == [] {
      if s != [] { assert Class(s, s[|s| - 1].score) != Class(t, s[|s| - 1].score); }
      if t != [] { assert Class(s, t[|t| - 1].score) != Class(t, t[|t| - 1].score); }
    } else {
      var x, y := s[|s| - 1], t[|t| - 1];
      LastIsWorst(s, t);
      LastIsWorst(t, s);
      assert Class(s, x.score)[|Class(s, x.score)| - 1] == x;
      assert Class(t, x.score)[|Class(t, x.score)| - 1] == y;
      forall c: int {:trigger Class(s[..|s| - 1], c)} ensures Class(s[..|s| - 1], c) == Class(t[..|t| - 1], c) {
        assert Class(s, c) == Class(t, c);
        ClassInit(s, c);
        ClassInit(t, c);
      }
      StableUnique(s[..|s| - 1], t[..|t| - 1]);
      assert s == s[..|s| - 1] + [x] && t == t[..|t| - 1] + [y];
    }
  }

  lemma ClassInit(s: seq<Scored>, c: int)
    requires s != []
    ensures Class(s[..|s| - 1], c) == if s[|s| - 1].score == c then Class(s, c)[..|Class(s, c)| - 1] else Class(s, c)
  {}

  lemma LastIsWorst(s: seq<Scored>, t: seq<Scored>)
    requires ByScore(t) && s != [] && t != [] && Class(s, s[|s| - 1].score) == Class(t, s[|s| - 1].score)
    ensures s[|s| - 1].score <= t[|t| - 1].score
  {
    var c := s[|s| - 1].score;
    assert Class(t, c) != [];
    ClassMember(t, c);
  }

  lemma {:induction false} ClassMember(s: seq<Scored>, c: int)
    requires Class(s, c) != []
    ensures exists k :: 0 <= k < |s| && s[k].score == c
  {
    if s != [] && s[|s| - 1].score != c {
      ClassMember(s[..|s| - 1], c);
      var k :| 0 <= k < |s| - 1 && s[..|s| - 1][k].score == c;
      assert s[k].score == c;
    }
  }

  /** No address twice, exactly the usable ones, each with its own score. */
  lemma {:induction false} DistinctIsUsable(ips: seq<Option<bytes>>, h: bytes)
    ensures h in Hosts(Distinct(ips)) <==> Some(h) in Canonicals(ips)
    ensures forall i, j | 0 <= i < j < |Distinct(ips)| :: Distinct(ips)[i].host != Distinct(ips)[j].host
    ensures forall x <- Distinct(ips) :: x.score == Score(x.host)
  {
    if ips != [] {
      var init, ip := ips[..|ips| - 1], ips[|ips| - 1];
      DistinctIsUsable(init, h);
      var out := Distinct(init);
      if Usable(ip) {
        CanonicalAlike(ip.value);
        var x := Scored(Canonical(ip.value), Score(ip.value));
        assert Hosts(out + [x]) == Hosts(out) + [x.host];
        forall i | 0 <= i < |out| && x.host !in Hosts(out) ensures out[i].host != x.host {
          assert Hosts(out)[i] in Hosts(out);
        }
      }
    }
  }

  /** The usable inputs in canonical form. */
  function Canonicals(ips: seq<Option<bytes>>): seq<Option<bytes>> {
    if ips == [] then []
    else Canonicals(ips[..|ips| - 1]) + (if Usable(ips[|ips| - 1]) then [Some(Canonical(ips[|ips| - 1].value))] else [])
  }

  /** The ranking, for any list heard: usable addresses, each once, best score first, ties in the order heard. */
  lemma RankingMeaning(ips: seq<Option<bytes>>, h: bytes, c: int)
    ensures var r := Stable(Distinct(ips));
      && ByScore(r) && Class(r, c) == Class(Distinct(ips), c)
      && (h in Hosts(r) <==> Some(h) in Canonicals(ips))
      && (forall x <- r :: x.score == Score(x.host))
      && forall i, j | 0 <= i < j < |r| :: r[i].host != r[j].host
  {
    var d := Distinct(ips);
    StableSorts(d);
    StableKeepsClasses(d, c);
    DistinctIsUsable(ips, h);
    hide Distinct;
    hide Stable;
    hide Score;
    SameMembers(Stable(d), d);
    SameHosts(Stable(d), d, h);
    NoHostTwice(Stable(d), d);
  }

  lemma NoHostTwice(r: seq<Scored>, d: seq<Scored>)
    requires multiset(r) == multiset(d) && forall i, j | 0 <= i < j < |d| :: d[i].host != d[j].host
    requires forall x <- r :: x.score == Score(x.host)
    ensures forall i, j | 0 <= i < j < |r| :: r[i].host != r[j].host
  {
    hide Score;
    NoRepeat(d);
    forall i, j | 0 <= i < j < |r| ensures r[i].host != r[j].host {
      assert r[i] in r && r[j] in r;
      Twice(r, i, j);
      assert multiset(r)[r[i]] == multiset(d)[r[i]];
    }
  }

  lemma SameMembers(r: seq<Scored>, d: seq<Scored>)
    requires multiset(r) == multiset(d)
    ensures forall y :: y in r <==> y in d
  {
    forall y ensures y in r <==> y in d {
      assert y in r <==> y in multiset(r);
      assert y in d <==> y in multiset(d);
    }
  }

  lemma {:induction false} NoRepeat(d: seq<Scored>)
    requires forall i, j | 0 <= i < j < |d| :: d[i].host != d[j].host
    ensures forall y :: multiset(d)[y] <= 1
  {
    if d != [] {
      var init, last := d[..|d| - 1], d[|d| - 1];
      NoRepeat(init);
      assert d == init + [last];
      assert last !in init;
    }
  }

  lemma Twice(r: seq<Scored>, i: nat, j: nat)
    requires i < j < |r|
    ensures r[i] == r[j] ==> multiset(r)[r[i]] >= 2
  {
    assert r == r[..j] + [r[j]] + r[j + 1..];
    assert r[i] in r[..j];
  }

  lemma SameHosts(r: seq<Scored>, d: seq<Scored>, h: bytes)
    requires forall y :: y in r <==> y in d
    ensures h in Hosts(r) <==> h in Hosts(d)
  {
    HostOf(r, h);
    HostOf(d, h);
  }

  lemma HostOf(d: seq<Scored>, h: bytes)
    ensures h in Hosts(d) <==> exists x :: x in d && x.host == h
  {
    if h in Hosts(d) {
      var k :| 0 <= k < |d| && Hosts(d)[k] == h;
      assert d[k] in d;
    }
    forall x | x in d && x.host == h ensures h in Hosts(d) {
      var k :| 0 <= k < |d| && d[k] == x;
      assert Hosts(d)[k] == h;
    }
  }

  // --- the scores, address by address -----------------------------------------------------

  /** An IPv4 address, in either form: `a.b.c.d`. */
  predicate IsV4(ip: bytes, v: bytes) {
    |v| == 4 && (ip == v || ip == [0, 0, 0, 0, 0, 0, 0, 0, 0, 0, 255, 255] + v)
  }

  lemma V4Forms(ip: bytes, v: bytes)
    ensures IsV4(ip, v) <==> To4(ip) == Some(v)
  {
    if |ip| == 16 {
      assert Zeros(10) == [0, 0, 0, 0, 0, 0, 0, 0, 0, 0];
      assert ip == ip[..10] + [ip[10], ip[11]] + ip[12..];
      var p: bytes := [0, 0, 0, 0, 0, 0, 0, 0, 0, 0, 255, 255];
      assert ip == p + v && |v| == 4 ==> ip[..10] == p[..10] && ip[10] == p[10] && ip[11] == p[11] && ip[12..] == v;
    }
  }

  /** IPv4: what can be dialled, and how it ranks. */
  lemma V4Scores(ip: bytes, v: bytes)
    requires IsV4(ip, v)
    ensures Usable(Some(ip)) <==> v != [0, 0, 0, 0] && !(224 <= v[0] <= 239)
    ensures Score(ip) == if v[0] == 127 then 60
                         else if v[..3] == [192, 168, 56] then 50
                         else if v[0] == 10 || (v[0] == 172 && 16 <= v[1] <= 31) || v[..2] == [192, 168] then 10
                         else if v[..2] == [169, 254] then 40
                         else 20
  {
    V4Forms(ip, v);
    assert Zeros(4) == [0, 0, 0, 0];
    assert v[..3] == [v[0], v[1], v[2]] && v[..2] == [v[0], v[1]];
    assert Zeros(16)[10] == 0;
  }

  /** IPv6, and whatever has another length. */
  lemma V6Scores(ip: bytes)
    requires !exists v :: IsV4(ip, v)
    ensures Usable(Some(ip)) <==> ip != Zeros(16) && !(|ip| == 16 && ip[0] == 0xFF)
    ensures Score(ip) == if ip == Zeros(15) + [1] then 60
                         else if |ip| == 16 && ip[0] == 0xFE && 0x80 <= ip[1] <= 0xBF then 45
                         else 15
  {
    if To4(ip).Some? { V4Forms(ip, To4(ip).value); }
  }
}
