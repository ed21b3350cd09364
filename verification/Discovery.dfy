/**
 The table of peers heard on the local network and the events that describe it
 (internal/discovery/discovery.go). Every event is taken as delivered.
 */
module Discovery {
  import opened Bytes
  import opened Sorting
  import Announcing

  datatype Via = Mdns | Unicast

  datatype Candidate = Candidate(
    deviceId: bytes, addrs: seq<bytes>, via: Via, displayName: bytes, protoVersion: byte, firstSeen: int, lastSeen: int)

  type Table = map<bytes, Candidate>

  datatype Event = Found(p: Candidate) | Updated(p: Candidate) | Lost(p: Candidate)

  /** An announce, the addresses it gives, the transport and the time. */
  datatype Sighting = Sighting(a: Announcing.Announce, addrs: seq<bytes>, via: Via, now: int)

  predicate Accepted(self: bytes, s: Sighting) {
    s.a.deviceId != self && Announcing.Valid(s.a) && s.addrs != []
  }

  /** `xs`, then those of `ys` not yet in the list, in order. */
  function Merged(xs: seq<bytes>, ys: seq<bytes>): seq<bytes>
    decreases |ys|
  {
    if ys == [] then xs else Merged(if ys[0] in xs then xs else xs + [ys[0]], ys[1..])
  }

  function Refreshed(p: Candidate, s: Sighting): Candidate {
    p.(addrs := Merged(p.addrs, s.addrs), displayName := s.a.displayName,
       protoVersion := s.a.protoVersion, lastSeen := s.now,
       via := if s.via == Mdns then Mdns else p.via)
  }

  function Fresh(s: Sighting): Candidate {
    Candidate(s.a.deviceId, s.addrs, s.via, s.a.displayName, s.a.protoVersion, s.now, s.now)
  }

  /** What a subscriber is told of a peer. */
  datatype Shown = Shown(addrs: seq<bytes>, displayName: bytes, protoVersion: byte)

  function Show(p: Candidate): Shown { Shown(p.addrs, p.displayName, p.protoVersion) }

  function Observed(self: bytes, t: Table, s: Sighting): (Table, seq<Event>) {
    var id := s.a.deviceId;
    if !Accepted(self, s) then (t, [])
    else if id !in t then (t[id := Fresh(s)], [Found(Fresh(s))])
    else
      var p := Refreshed(t[id], s);
      (t[id := p], if Show(p) == Show(t[id]) then [] else [Updated(p)])
  }

  function Kept(t: Table, cutoff: int): Table { map id | id in t && t[id].lastSeen >= cutoff :: t[id] }

  /** Stale peers of the table, each once. */
  ghost predicate SomeStale(lost: seq<Candidate>, t: Table, cutoff: int) {
    && (forall i, j | 0 <= i < j < |lost| :: lost[i].deviceId != lost[j].deviceId)
    && (forall p <- lost :: p.deviceId in t && t[p.deviceId] == p && p.lastSeen < cutoff)
  }

  /** All of them, in whatever order the map gave them. */
  ghost predicate ListsStale(lost: seq<Candidate>, t: Table, cutoff: int) {
    SomeStale(lost, t, cutoff) && forall id <- t :: t[id].lastSeen < cutoff ==> t[id] in lost
  }

  ghost function Without(t: Table, lost: seq<Candidate>): Table {
    map id | id in t && t[id] !in lost :: t[id]
  }

  lemma OneMoreLost(t: Table, lost: seq<Candidate>, p: Candidate, cutoff: int)
    requires WellKeyed(t) && SomeStale(lost, t, cutoff)
    requires p.deviceId in t && t[p.deviceId] == p && p.lastSeen < cutoff && p !in lost
    ensures SomeStale(lost + [p], t, cutoff) && Without(t, lost + [p]) == Without(t, lost) - {p.deviceId}
  {
    forall i | 0 <= i < |lost| ensures lost[i].deviceId != p.deviceId {
      assert lost[i] in lost;
    }
  }

  ghost predicate WellKeyed(t: Table) { forall id <- t :: t[id].deviceId == id }

  // --- the code -------------------------------------------------------------------

  method MergeAddrs(xs: seq<bytes>, addrs: seq<bytes>) returns (merged: seq<bytes>, changed: bool)
    ensures merged == Merged(xs, addrs) && changed == (merged != xs)
  {
    merged, changed := xs, false;
    for i := 0 to |addrs|
      invariant Merged(merged, addrs[i..]) == Merged(xs, addrs)
      invariant xs <= merged && changed == (|merged| > |xs|)
    {
      assert addrs[i..][1..] == addrs[i + 1..];
      if addrs[i] !in merged {
        merged := merged + [addrs[i]];
        changed := true;
      }
    }
  }

  class Discoverer {
    const self: bytes
    const ttl: int
    var peers: Table

    constructor (self: bytes, ttl: int)
      ensures this.self == self && this.ttl == ttl && peers == map[]
    {
      this.self, this.ttl, this.peers := self, ttl, map[];
    }

    method Observe(s: Sighting) returns (events: seq<Event>)
      modifies this`peers
      ensures (peers, events) == Observed(self, old(peers), s)
    {
      events := [];
      if s.a.deviceId == self || !Announcing.Valid(s.a) || |s.addrs| == 0 {
        return;
      }
      var id := s.a.deviceId;
      if id !in peers {
        var p := Candidate(id, s.addrs, s.via, s.a.displayName, s.a.protoVersion, s.now, s.now);
        peers := peers[id := p];
        return [Found(p)];
      }
      var existing := peers[id];
      var addrs, changed := MergeAddrs(existing.addrs, s.addrs);
      changed := changed || existing.displayName != s.a.displayName || existing.protoVersion != s.a.protoVersion;
      existing := existing.(addrs := addrs, displayName := s.a.displayName,
                            protoVersion := s.a.protoVersion, lastSeen := s.now);
      if s.via == Mdns {
        existing := existing.(via := s.via);
      }
      peers := peers[id := existing];
      if changed {
        events := [Updated(existing)];
      }
    }

    method Sweep(now: int) returns (lost: seq<Candidate>)
      requires WellKeyed(peers)
      modifies this`peers
      ensures ListsStale(lost, old(peers), now - ttl) && peers == Kept(old(peers), now - ttl)
    {
      var cutoff := now - ttl;
      ghost var before := peers;
      lost := [];
      var rest := peers.Keys;
      while rest != {}
        invariant rest <= before.Keys
        invariant peers == Without(before, lost)
        invariant forall p <- lost :: p.deviceId in before.Keys - rest
        invariant forall id <- before.Keys - rest :: before[id].lastSeen < cutoff ==> before[id] in lost
        invariant SomeStale(lost, before, cutoff)
        decreases |rest|
      {
        var id :| id in rest;
        var p := peers[id];
        if p.lastSeen < cutoff {
          OneMoreLost(before, lost, p, cutoff);
          lost := lost + [p];
          peers := peers - {id};
        }
        rest := rest - {id};
      }
      assert peers == Kept(before, cutoff);
    }

    /** Peers: the whole table in id order. */
    method Peers() returns (out: seq<Candidate>)
      requires WellKeyed(peers)
      ensures forall i, j | 0 <= i < j < |out| :: Before(out[i].deviceId, out[j].deviceId)
      ensures forall p :: p in out <==> p.deviceId in peers && peers[p.deviceId] == p
    {
      hide Leq;
      var ids := SortKeys(peers.Keys);
      assert forall k | 0 <= k < |ids| :: ids[k] in ids && ids[k] in peers;
      out := [];
      for i := 0 to |ids|
        invariant |out| == i
        invariant forall k | 0 <= k < i :: out[k] == peers[ids[k]]
      {
        out := out + [peers[ids[i]]];
      }
      forall p: Candidate | p.deviceId in peers && peers[p.deviceId] == p ensures p in out {
        var k :| 0 <= k < |ids| && ids[k] == p.deviceId;
        assert out[k] == p;
      }
    }
  }

  // --- every run ------------------------------------------------------------------

  /** A sweep comes with the order in which it met the stale peers. */
  datatype Step = Observe(s: Sighting) | Sweep(now: int, lost: seq<Candidate>)

  ghost predicate Possible(ttl: int, t: Table, step: Step) {
    step.Sweep? ==> ListsStale(step.lost, t, step.now - ttl)
  }

  function Next(self: bytes, ttl: int, t: Table, step: Step): Table {
    match step
    case Observe(s) => Observed(self, t, s).0
    case Sweep(now, _) => Kept(t, now - ttl)
  }

  function LostEvents(lost: seq<Candidate>): seq<Event> {
    seq(|lost|, i requires 0 <= i < |lost| => Lost(lost[i]))
  }

  function Emitted(self: bytes, t: Table, step: Step): seq<Event> {
    match step
    case Observe(s) => Observed(self, t, s).1
    case Sweep(_, lost) => LostEvents(lost)
  }

  function After(self: bytes, ttl: int, steps: seq<Step>): Table {
    if steps == [] then map[] else Next(self, ttl, After(self, ttl, steps[..|steps| - 1]), steps[|steps| - 1])
  }

  function Stream(self: bytes, ttl: int, steps: seq<Step>): seq<Event> {
    if steps == [] then []
    else
      var init := steps[..|steps| - 1];
      Stream(self, ttl, init) + Emitted(self, After(self, ttl, init), steps[|steps| - 1])
  }

  ghost predicate Run(self: bytes, ttl: int, steps: seq<Step>) {
    steps == [] ||
    var init := steps[..|steps| - 1];
    Run(self, ttl, init) && Possible(ttl, After(self, ttl, init), steps[|steps| - 1])
  }

  // --- a subscriber's view ----------------------------------------------------------

  type View = map<bytes, Shown>

  function ShowAll(t: Table): View { map id | id in t :: Show(t[id]) }

  function Applied(v: View, e: Event): View {
    match e
    case Found(p) => v[p.deviceId := Show(p)]
    case Updated(p) => v[p.deviceId := Show(p)]
    case Lost(p) => v - {p.deviceId}
  }

  function Folded(v: View, es: seq<Event>): View {
    if es == [] then v else Applied(Folded(v, es[..|es| - 1]), es[|es| - 1])
  }

  /** An event announces only what is new: a first sighting, a real change, or the loss of a peer that was shown. */
  predicate Proper(v: View, e: Event) {
    match e
    case Found(p) => p.deviceId !in v
    case Updated(p) => p.deviceId in v && v[p.deviceId] != Show(p)
    case Lost(p) => p.deviceId in v
  }

  ghost predicate AllProper(v: View, es: seq<Event>) {
    es == [] || (AllProper(v, es[..|es| - 1]) && Proper(Folded(v, es[..|es| - 1]), es[|es| - 1]))
  }

  lemma {:induction false} FoldedParts(v: View, es: seq<Event>, fs: seq<Event>)
    ensures Folded(v, es + fs) == Folded(Folded(v, es), fs)
    ensures AllProper(v, es + fs) <==> AllProper(v, es) && AllProper(Folded(v, es), fs)
  {
    if fs == [] {
      assert es + fs == es;
    } else {
      var init := fs[..|fs| - 1];
      assert (es + fs)[..|es + fs| - 1] == es + init;
      FoldedParts(v, es, init);
    }
  }

  function IdsOf(ps: seq<Candidate>): set<bytes> { set p | p in ps :: p.deviceId }

  lemma {:induction false} LossesFold(v: View, lost: seq<Candidate>)
    requires forall i, j | 0 <= i < j < |lost| :: lost[i].deviceId != lost[j].deviceId
    requires forall p <- lost :: p.deviceId in v
    ensures Folded(v, LostEvents(lost)) == v - IdsOf(lost) && AllProper(v, LostEvents(lost))
  {
    if lost != [] {
      var init, last := lost[..|lost| - 1], lost[|lost| - 1];
      LossesFold(v, init);
      LastLoss(lost);
      var es := LostEvents(lost);
      assert es[..|es| - 1] == LostEvents(init) && es[|es| - 1] == Lost(last);
      hide IdsOf;
    }
  }

  lemma LastLoss(lost: seq<Candidate>)
    requires lost != [] && forall i, j | 0 <= i < j < |lost| :: lost[i].deviceId != lost[j].deviceId
    ensures var init, last := lost[..|lost| - 1], lost[|lost| - 1];
      last.deviceId !in IdsOf(init) && IdsOf(lost) == IdsOf(init) + {last.deviceId}
  {
    var init, last := lost[..|lost| - 1], lost[|lost| - 1];
    assert lost == init + [last];
  }

  lemma SweepFolds(t: Table, cutoff: int, lost: seq<Candidate>)
    requires WellKeyed(t) && ListsStale(lost, t, cutoff)
    ensures Folded(ShowAll(t), LostEvents(lost)) == ShowAll(Kept(t, cutoff)) && AllProper(ShowAll(t), LostEvents(lost))
  {
    LossesFold(ShowAll(t), lost);
    forall id <- t ensures id in IdsOf(lost) <==> t[id].lastSeen < cutoff {
      if t[id].lastSeen < cutoff { assert t[id] in lost && t[id].deviceId == id; }
    }
    assert ShowAll(t) - IdsOf(lost) == ShowAll(Kept(t, cutoff));
  }

  lemma StepFolds(self: bytes, ttl: int, t: Table, step: Step)
    requires WellKeyed(t) && Possible(ttl, t, step)
    ensures WellKeyed(Next(self, ttl, t, step))
    ensures Folded(ShowAll(t), Emitted(self, t, step)) == ShowAll(Next(self, ttl, t, step))
    ensures AllProper(ShowAll(t), Emitted(self, t, step))
  {
    match step
    case Sweep(now, lost) => SweepFolds(t, now - ttl, lost);
    case Observe(s) => ObserveFolds(self, t, s);
  }

  lemma ObserveFolds(self: bytes, t: Table, s: Sighting)
    requires WellKeyed(t)
    ensures WellKeyed(Observed(self, t, s).0)
    ensures Folded(ShowAll(t), Observed(self, t, s).1) == ShowAll(Observed(self, t, s).0)
    ensures AllProper(ShowAll(t), Observed(self, t, s).1)
  {
    var (u, es) := Observed(self, t, s);
    if es != [] {
      assert |es| == 1 && es[..0] == [] && AllProper(ShowAll(t), []);
      assert Proper(ShowAll(t), es[0]);
      assert Folded(ShowAll(t), es) == Applied(ShowAll(t), es[0]);
      assert ShowAll(u) == ShowAll(t)[s.a.deviceId := Show(u[s.a.deviceId])];
    } else {
      assert ShowAll(u) == ShowAll(t);
    }
  }

  /**
   After every step of every run the events so far rebuild the ids, addresses, names and versions
   of the table, no event was idle, and this device is in neither.
   */
  lemma {:induction false} EventsRebuildTable(self: bytes, ttl: int, steps: seq<Step>)
    requires Run(self, ttl, steps)
    ensures WellKeyed(After(self, ttl, steps))
    ensures Folded(map[], Stream(self, ttl, steps)) == ShowAll(After(self, ttl, steps))
    ensures AllProper(map[], Stream(self, ttl, steps))
    ensures self !in After(self, ttl, steps) && forall e <- Stream(self, ttl, steps) :: e.p.deviceId != self
  {
    if steps == [] {
      assert ShowAll(map[]) == map[];
    } else {
      var init, last := steps[..|steps| - 1], steps[|steps| - 1];
      var t := After(self, ttl, init);
      EventsRebuildTable(self, ttl, init);
      StepFolds(self, ttl, t, last);
      FoldedParts(map[], Stream(self, ttl, init), Emitted(self, t, last));
      NotSelf(self, ttl, t, last);
    }
  }

  lemma NotSelf(self: bytes, ttl: int, t: Table, step: Step)
    requires WellKeyed(t) && Possible(ttl, t, step) && self !in t
    ensures self !in Next(self, ttl, t, step) && forall e <- Emitted(self, t, step) :: e.p.deviceId != self
  {
    if step.Sweep? {
      forall e <- Emitted(self, t, step) ensures e.p.deviceId != self {
        assert e.p in step.lost;
      }
    }
  }

  // --- events that overtake one another -------------------------------------------

  /** The events about one peer, in the order they were sent. */
  function About(es: seq<Event>, id: bytes): seq<Event> {
    if es == [] then []
    else About(es[..|es| - 1], id) + (if es[|es| - 1].p.deviceId == id then [es[|es| - 1]] else [])
  }

  /** What the newest event about a peer says of it. */
  function Says(es: seq<Event>, id: bytes): Option<Shown> {
    var mine := About(es, id);
    if mine == [] || mine[|mine| - 1].Lost? then None else Some(Show(mine[|mine| - 1].p))
  }

  function Lookup(v: View, id: bytes): Option<Shown> { if id in v then Some(v[id]) else None }

  /** What a subscriber shows of a peer depends on the newest event about it alone. */
  lemma {:induction false} NewestEventDecides(es: seq<Event>, id: bytes)
    ensures Lookup(Folded(map[], es), id) == Says(es, id)
  {
    if es != [] { NewestEventDecides(es[..|es| - 1], id); }
  }

  lemma SameView(v: View, u: View)
    ensures v == u <==> forall id :: Lookup(v, id) == Lookup(u, id)
  {
    if forall id :: Lookup(v, id) == Lookup(u, id) {
      forall id ensures (id in v <==> id in u) && (id in v ==> v[id] == u[id]) {
        assert Lookup(v, id) == Lookup(u, id);
      }
    }
  }

  /**
   Table and stream are updated apart: an event is sent after the lock is released, so events may overtake
   one another. Whatever is sent in the end, the view is that of the table iff for every peer the event sent
   last says what the event made last says.
   */
  lemma ViewIsRightIff(self: bytes, ttl: int, steps: seq<Step>, sent: seq<Event>)
    requires Run(self, ttl, steps)
    ensures Folded(map[], sent) == ShowAll(After(self, ttl, steps))
       <==> forall id :: Says(sent, id) == Says(Stream(self, ttl, steps), id)
  {
    EventsRebuildTable(self, ttl, steps);
    hide *;
    var made := Stream(self, ttl, steps);
    SameView(Folded(map[], sent), Folded(map[], made));
    forall id ensures Lookup(Folded(map[], sent), id) == Says(sent, id) { NewestEventDecides(sent, id); }
    forall id ensures Lookup(Folded(map[], made), id) == Says(made, id) { NewestEventDecides(made, id); }
  }

  /** So events of different peers overtake one another without harm. */
  lemma OvertakingOtherPeersIsHarmless(self: bytes, ttl: int, steps: seq<Step>, sent: seq<Event>)
    requires Run(self, ttl, steps) && forall id :: About(sent, id) == About(Stream(self, ttl, steps), id)
    ensures Folded(map[], sent) == ShowAll(After(self, ttl, steps))
  {
    ViewIsRightIff(self, ttl, steps, sent);
    forall id ensures Says(sent, id) == Says(Stream(self, ttl, steps), id) {
      assert About(sent, id) == About(Stream(self, ttl, steps), id);
    }
  }

  /** The events each step of a run leaves to be sent. */
  function Batches(self: bytes, ttl: int, steps: seq<Step>): (bs: seq<seq<Event>>)
    ensures |bs| == |steps|
  {
    if steps == [] then []
    else
      var init := steps[..|steps| - 1];
      Batches(self, ttl, init) + [Emitted(self, After(self, ttl, init), steps[|steps| - 1])]
  }

  /** `sent` takes every batch in its own order, and the batches in any. */
  ghost predicate Interleaves(batches: seq<seq<Event>>, sent: seq<Event>)
    decreases |sent|
  {
    if sent == [] then forall k | 0 <= k < |batches| :: batches[k] == []
    else exists k :: TakenFrom(batches, k, sent[0]) && Interleaves(batches[k := batches[k][1..]], sent[1..])
  }

  predicate TakenFrom(batches: seq<seq<Event>>, k: int, e: Event) {
    0 <= k < |batches| && batches[k] != [] && batches[k][0] == e
  }

  /** A peer heard, gone stale and heard again. */
  function Resighting(s0: Sighting, now: int, s1: Sighting): seq<Step> {
    [Observe(s0), Sweep(now, [Fresh(s0)]), Observe(s1)]
  }

  lemma ResightingRuns(self: bytes, ttl: int, s0: Sighting, now: int, s1: Sighting)
    requires Accepted(self, s0) && Accepted(self, s1) && s0.a.deviceId == s1.a.deviceId && s0.now < now - ttl
    ensures var steps := Resighting(s0, now, s1);
      && Run(self, ttl, steps) && After(self, ttl, steps) == map[s0.a.deviceId := Fresh(s1)]
      && Stream(self, ttl, steps) == [Found(Fresh(s0)), Lost(Fresh(s0)), Found(Fresh(s1))]
      && Batches(self, ttl, steps) == [[Found(Fresh(s0))], [Lost(Fresh(s0))], [Found(Fresh(s1))]]
  {
    var id := s0.a.deviceId;
    var e0, e1, e2 := Observe(s0), Sweep(now, [Fresh(s0)]), Observe(s1);
    var t1: Table := map[id := Fresh(s0)];
    assert Observed(self, map[], s0) == (t1, [Found(Fresh(s0))]);
    assert ListsStale([Fresh(s0)], t1, now - ttl) && Kept(t1, now - ttl) == map[];
    assert LostEvents([Fresh(s0)]) == [Lost(Fresh(s0))];
    assert Observed(self, map[], s1) == (map[id := Fresh(s1)], [Found(Fresh(s1))]);
    hide Observed;
    hide Kept;
    hide LostEvents;
    OneMoreStep(self, ttl, [], e0);
    OneMoreStep(self, ttl, [] + [e0], e1);
    OneMoreStep(self, ttl, [] + [e0] + [e1], e2);
    assert [] + [e0] + [e1] + [e2] == Resighting(s0, now, s1);
  }

  lemma OneMoreStep(self: bytes, ttl: int, steps: seq<Step>, e: Step)
    ensures var t := After(self, ttl, steps);
      && After(self, ttl, steps + [e]) == Next(self, ttl, t, e)
      && Stream(self, ttl, steps + [e]) == Stream(self, ttl, steps) + Emitted(self, t, e)
      && Batches(self, ttl, steps + [e]) == Batches(self, ttl, steps) + [Emitted(self, t, e)]
      && (Run(self, ttl, steps + [e]) <==> Run(self, ttl, steps) && Possible(ttl, t, e))
  {
    assert (steps + [e])[..|steps|] == steps;
  }

  /**
   And events of one peer may not. The second Found is sent while the Lost of the sweep before it is still
   unsent: the peer is in the table, and the view the subscriber is left with does not show it.
   */
  lemma OvertakenFoundHidesPeer(self: bytes, ttl: int, s0: Sighting, now: int, s1: Sighting)
    requires Accepted(self, s0) && Accepted(self, s1) && s0.a.deviceId == s1.a.deviceId && s0.now < now - ttl
    ensures var steps := Resighting(s0, now, s1);
      var sent := [Found(Fresh(s0)), Found(Fresh(s1)), Lost(Fresh(s0))];
      && Run(self, ttl, steps) && Interleaves(Batches(self, ttl, steps), sent)
      && s0.a.deviceId in After(self, ttl, steps) && s0.a.deviceId !in Folded(map[], sent)
  {
    ResightingRuns(self, ttl, s0, now, s1);
    var f, l, g := Found(Fresh(s0)), Lost(Fresh(s0)), Found(Fresh(s1));
    OvertakingInterleaves(f, l, g);
    NewestEventDecides([f, g, l], s0.a.deviceId);
    hide Interleaves;
    hide Run;
    hide After;
    hide Batches;
  }

  lemma OvertakingInterleaves(f: Event, l: Event, g: Event)
    ensures Interleaves([[f], [l], [g]], [f, g, l])
  {
    assert [l][1..] == [] && [[], [l], []][1 := [l][1..]] == [[], [], []];
    assert Interleaves([[], [], []], []);
    assert TakenFrom([[], [l], []], 1, l) && Interleaves([[], [l], []], [l]);
    assert [g, l][1..] == [l] && [[], [l], [g]][2 := [g][1..]] == [[], [l], []];
    assert TakenFrom([[], [l], [g]], 2, g) && Interleaves([[], [l], [g]], [g, l]);
    assert [f, g, l][1..] == [g, l] && [[f], [l], [g]][0 := [f][1..]] == [[], [l], [g]];
    assert TakenFrom([[f], [l], [g]], 0, f);
  }

  // --- addresses ----------------------------------------------------------------------

  /** The addresses `id` was found with, most recently. */
  function FirstAddrs(es: seq<Event>, id: bytes): seq<bytes> {
    if es == [] then []
    else
      var e := es[|es| - 1];
      if e.Found? && e.p.deviceId == id then e.p.addrs else FirstAddrs(es[..|es| - 1], id)
  }

  /** `addrs` goes on from `first` without repeating anything. */
  predicate GrowsFrom(first: seq<bytes>, addrs: seq<bytes>) {
    first <= addrs && forall i | |first| <= i < |addrs| :: addrs[i] !in addrs[..i]
  }

  lemma {:induction false} MergedGrows(first: seq<bytes>, xs: seq<bytes>, ys: seq<bytes>)
    requires GrowsFrom(first, xs)
    ensures GrowsFrom(first, Merged(xs, ys)) && xs <= Merged(xs, ys)
    ensures forall y :: y in Merged(xs, ys) <==> y in xs || y in ys
    decreases |ys|
  {
    if ys != [] {
      var zs := if ys[0] in xs then xs else xs + [ys[0]];
      assert forall i | 0 <= i < |xs| :: zs[..i] == xs[..i];
      assert zs[..|xs|] == xs;
      MergedGrows(first, zs, ys[1..]);
      assert ys == [ys[0]] + ys[1..];
    }
  }

  lemma ObserveGrows(self: bytes, t: Table, s: Sighting, es: seq<Event>, id: bytes)
    requires WellKeyed(t) && (id in t ==> GrowsFrom(FirstAddrs(es, id), t[id].addrs))
    ensures var (u, fs) := Observed(self, t, s); id in u ==> GrowsFrom(FirstAddrs(es + fs, id), u[id].addrs)
  {
    var (u, fs) := Observed(self, t, s);
    if fs != [] {
      assert (es + fs)[..|es + fs| - 1] == es;
    } else {
      assert es + fs == es;
    }
    if id in t { MergedGrows(FirstAddrs(es, id), t[id].addrs, s.addrs); }
    hide Merged;
  }

  /** An address repeats only where the first sighting repeated it. */
  lemma {:induction false} AddressesRepeatOnlyAtFirst(self: bytes, ttl: int, steps: seq<Step>, id: bytes)
    requires Run(self, ttl, steps)
    ensures id in After(self, ttl, steps) ==>
        GrowsFrom(FirstAddrs(Stream(self, ttl, steps), id), After(self, ttl, steps)[id].addrs)
  {
    if steps != [] {
      hide Observed;
      hide GrowsFrom;
      var init, last := steps[..|steps| - 1], steps[|steps| - 1];
      AddressesRepeatOnlyAtFirst(self, ttl, init, id);
      EventsRebuildTable(self, ttl, init);
      match last
      case Observe(s) => ObserveGrows(self, After(self, ttl, init), s, Stream(self, ttl, init), id);
      case Sweep(_, lost) => LossesFindNothing(Stream(self, ttl, init), lost, id);
    }
  }

  lemma {:induction false} LossesFindNothing(es: seq<Event>, lost: seq<Candidate>, id: bytes)
    ensures FirstAddrs(es + LostEvents(lost), id) == FirstAddrs(es, id)
  {
    var all := es + LostEvents(lost);
    if lost == [] {
      assert all == es;
    } else {
      assert all[..|all| - 1] == es + LostEvents(lost[..|lost| - 1]);
      LossesFindNothing(es, lost[..|lost| - 1], id);
    }
  }

  /** Until a peer is lost, its addresses are only added to, at the end. */
  lemma {:induction false} AddressesKeepOrder(self: bytes, ttl: int, steps: seq<Step>, n: nat, id: bytes)
    requires Run(self, ttl, steps) && n <= |steps|
    requires forall k | n <= k <= |steps| :: id in After(self, ttl, steps[..k])
    ensures id in After(self, ttl, steps[..n]) && id in After(self, ttl, steps)
    ensures After(self, ttl, steps[..n])[id].addrs <= After(self, ttl, steps)[id].addrs
  {
    assert steps[..|steps|] == steps;
    if n < |steps| {
      var init, last := steps[..|steps| - 1], steps[|steps| - 1];
      assert forall k | n <= k <= |init| :: init[..k] == steps[..k];
      AddressesKeepOrder(self, ttl, init, n, id);
      var t := After(self, ttl, init);
      if last.Observe? { MergedGrows(t[id].addrs, t[id].addrs, last.s.addrs); }
    }
  }

  // --- silence ------------------------------------------------------------------------

  /** When `id` was last heard, by the sightings alone. */
  function LastHeard(self: bytes, steps: seq<Step>, id: bytes): Option<int> {
    if steps == [] then None
    else
      var last := steps[|steps| - 1];
      if last.Observe? && Accepted(self, last.s) && last.s.a.deviceId == id then Some(last.s.now)
      else LastHeard(self, steps[..|steps| - 1], id)
  }

  /** A peer is dropped only when its newest sighting is older than the limit, and a sweep leaves none that old. */
  lemma {:induction false} LostMeansSilent(self: bytes, ttl: int, steps: seq<Step>, id: bytes)
    requires Run(self, ttl, steps)
    ensures id in After(self, ttl, steps) ==> LastHeard(self, steps, id) == Some(After(self, ttl, steps)[id].lastSeen)
    ensures steps != [] && steps[|steps| - 1].Sweep? ==>
      var init, cutoff := steps[..|steps| - 1], steps[|steps| - 1].now - ttl;
      id in After(self, ttl, init) ==>
        && LastHeard(self, init, id).Some?
        && (id !in After(self, ttl, steps) <==> LastHeard(self, init, id).value < cutoff)
  {
    if steps != [] { LostMeansSilent(self, ttl, steps[..|steps| - 1], id); }
  }

  // --- the table, from what was heard ---------------------------------------------------

  /** A sighting that counts: of another device, well formed, with an address. */
  predicate Counts(self: bytes, s: Sighting) {
    && s.a.deviceId != self && ValidDeviceId(s.a.deviceId) && 1 <= s.a.port <= 65_535
    && s.a.protoVersion >= 1 && |s.addrs| >= 1
  }

  /** The sightings of `id` since a sweep last found it silent for longer than the limit. */
  function Streak(self: bytes, ttl: int, steps: seq<Step>, id: bytes): seq<Sighting> {
    if steps == [] then []
    else
      var h := Streak(self, ttl, steps[..|steps| - 1], id);
      match steps[|steps| - 1]
      case Observe(s) => if Counts(self, s) && s.a.deviceId == id then h + [s] else h
      case Sweep(now, _) => if h != [] && now - h[|h| - 1].now > ttl then [] else h
  }

  /** Every address heard, in the order heard. */
  function AllAddrs(h: seq<Sighting>): seq<bytes> {
    if h == [] then [] else AllAddrs(h[..|h| - 1]) + h[|h| - 1].addrs
  }

  /** Where `x` is first heard. */
  function FirstAt(xs: seq<bytes>, x: bytes): (i: nat)
    ensures i <= |xs| && (i < |xs| <==> x in xs) && (i < |xs| ==> xs[i] == x) && x !in xs[..i]
  {
    if xs == [] then 0 else if xs[0] == x then 0 else 1 + FirstAt(xs[1..], x)
  }

  /** The addresses of the first sighting, then each other one heard, once, in the order first heard. */
  ghost predicate InOrderHeard(first: seq<bytes>, addrs: seq<bytes>, heard: seq<bytes>) {
    && first <= addrs && (forall x :: x in addrs <==> x in heard)
    && forall i, j | 0 <= i < j < |addrs| && |first| <= j :: FirstAt(heard, addrs[i]) < FirstAt(heard, addrs[j])
  }

  lemma {:induction false} FirstAtStable(xs: seq<bytes>, y: bytes, x: bytes)
    ensures FirstAt(xs + [y], x) == if x in xs then FirstAt(xs, x) else if x == y then |xs| else |xs| + 1
  {
    if xs == [] {
    } else if xs[0] != x {
      assert (xs + [y])[1..] == xs[1..] + [y];
      FirstAtStable(xs[1..], y, x);
      assert xs == [xs[0]] + xs[1..];
    }
  }

  lemma OneMoreHeard(first: seq<bytes>, addrs: seq<bytes>, heard: seq<bytes>, y: bytes)
    requires InOrderHeard(first, addrs, heard)
    ensures InOrderHeard(first, if y in addrs then addrs else addrs + [y], heard + [y])
  {
    var more := if y in addrs then addrs else addrs + [y];
    forall i, j | 0 <= i < j < |more| && |first| <= j
      ensures FirstAt(heard + [y], more[i]) < FirstAt(heard + [y], more[j])
    {
      FirstAtStable(heard, y, more[i]);
      FirstAtStable(heard, y, more[j]);
      assert i < |addrs| && addrs[i] in addrs;
      if j < |addrs| { assert addrs[j] in addrs; }
    }
    assert forall x :: x in more <==> x in addrs || x == y;
    hide FirstAt;
  }

  lemma {:induction false} MergedInOrder(first: seq<bytes>, addrs: seq<bytes>, heard: seq<bytes>, ys: seq<bytes>)
    requires InOrderHeard(first, addrs, heard)
    ensures InOrderHeard(first, Merged(addrs, ys), heard + ys)
    decreases |ys|
  {
    hide InOrderHeard;
    if ys == [] {
      assert heard + [] == heard;
    } else {
      var more, now := if ys[0] in addrs then addrs else addrs + [ys[0]], heard + [ys[0]];
      assert Merged(addrs, ys) == Merged(more, ys[1..]) && now + ys[1..] == heard + ys;
      OneMoreHeard(first, addrs, heard, ys[0]);
      hide *;
      MergedInOrder(first, more, now, ys[1..]);
    }
  }

  /** What the table holds of a peer heard in the sightings `h`. */
  ghost predicate Sums(p: Candidate, id: bytes, h: seq<Sighting>) {
    && h != [] && p.deviceId == id && p.displayName == h[|h| - 1].a.displayName
    && p.protoVersion == h[|h| - 1].a.protoVersion && p.firstSeen == h[0].now && p.lastSeen == h[|h| - 1].now
    && (p.via == Mdns <==> exists s <- h :: s.via == Mdns) && InOrderHeard(h[0].addrs, p.addrs, AllAddrs(h))
  }

  lemma FreshSums(s: Sighting)
    ensures Sums(Fresh(s), s.a.deviceId, [] + [s])
  {
    var h := [] + [s];
    assert h == [s] && h[..0] == [] && AllAddrs([]) == [] && AllAddrs(h) == [] + s.addrs == s.addrs;
    assert s in h;
  }

  lemma RefreshedSums(p: Candidate, id: bytes, h: seq<Sighting>, s: Sighting)
    requires Sums(p, id, h)
    ensures Sums(Refreshed(p, s), id, h + [s])
  {
    MergedInOrder(h[0].addrs, p.addrs, AllAddrs(h), s.addrs);
    assert (h + [s])[..|h|] == h;
    hide InOrderHeard;
    hide Merged;
    assert forall x :: x in h + [s] <==> x in h || x == s;
  }

  /** Who is in the table, and with what, follows from the sightings since each peer was last dropped. */
  lemma {:induction false} TableFollowsSightings(self: bytes, ttl: int, steps: seq<Step>, id: bytes)
    ensures var t, h := After(self, ttl, steps), Streak(self, ttl, steps, id);
      (id in t <==> h != []) && (id in t ==> Sums(t[id], id, h))
  {
    if steps != [] {
      var init, last := steps[..|steps| - 1], steps[|steps| - 1];
      TableFollowsSightings(self, ttl, init, id);
      var t, h := After(self, ttl, init), Streak(self, ttl, init, id);
      if last.Observe? && Counts(self, last.s) && last.s.a.deviceId == id {
        if id in t { RefreshedSums(t[id], id, h, last.s); } else { FreshSums(last.s); }
      }
      hide InOrderHeard;
      hide Refreshed;
      hide Fresh;
    }
  }

  /** An event names the peer as the table has it: after the sighting, or before the loss. */
  lemma EventsCarryTable(self: bytes, ttl: int, steps: seq<Step>, step: Step, e: Event)
    requires Run(self, ttl, steps + [step]) && e in Emitted(self, After(self, ttl, steps), step)
    ensures var t, u := After(self, ttl, steps), After(self, ttl, steps + [step]);
      var id := e.p.deviceId;
      && (e.Found? <==> id !in t) && (e.Lost? <==> id !in u)
      && (if e.Lost? then t[id] == e.p else u[id] == e.p)
  {
    OneMoreStep(self, ttl, steps, step);
    EventsRebuildTable(self, ttl, steps);
    if step.Sweep? {
      assert e.p in step.lost;
    }
  }
}
