/**
 The encoder's Annex-B byte stream cut into frames (internal/screen/capture.go).

 `SplitFrames` is the incremental loop over reads. `Units` and `FramesOf` define
 the same frames from the whole stream at once, with no notion of a read.
 */
module AnnexB {
  import opened Bytes

  const NAL_AUD: nat := 9
  const NAL_IDR: nat := 5
  const NAL_SPS: nat := 7
  const MAX_FRAME: nat := 8 * 0x10_0000

  // --- start codes ------------------------------------------------------------

  predicate StartCodeAt(b: bytes, i: int) {
    0 <= i && i + 3 <= |b| && b[i] == 0 && b[i + 1] == 0 && b[i + 2] == 1
  }

  /** bytes.Index(b[from:], {0,0,1}) + from, or -1. */
  function IndexFrom(b: bytes, from: nat): (i: int)
    requires from <= |b|
    ensures i < 0 ==> forall j | from <= j :: !StartCodeAt(b, j)
    ensures i >= 0 ==> from <= i && StartCodeAt(b, i) && forall j | from <= j < i :: !StartCodeAt(b, j)
    decreases |b| - from
  {
    if StartCodeAt(b, from) then from
    else if from == |b| then -1
    else IndexFrom(b, from + 1)
  }

  datatype Nal = NoNal | Nal(start: nat, end: nat, kind: byte)

  /** nextNAL: the bounds and type of the first complete unit of `b`. */
  function NextNal(b: bytes): (n: Nal)
    ensures n.Nal? ==> n.start + 3 <= n.end <= |b|
  {
    var first := IndexFrom(b, 0);
    if first < 0 || first + 3 >= |b| then NoNal
    else
      var next := IndexFrom(b, first + 3);
      if next < 0 then NoNal
      else Nal(first, if b[next - 1] == 0 then next - 1 else next, b[first + 3] % 32)
  }

  // --- the incremental splitter -----------------------------------------------

  datatype Frame = Frame(data: bytes, keyframe: bool)

  /** What splitFrames carries from one read to the next, and the frames it has tried to send. */
  datatype State =
    | Running(buf: bytes, current: bytes, haveIdr: bool, frames: seq<Frame>)
    | Oversize(frames: seq<Frame>)

  const START: State := Running([], [], false, [])

  /** emit: an empty frame is not sent. */
  function Emit(s: State): State
    requires s.Running?
  {
    if s.current == [] then s
    else s.(current := [], haveIdr := false, frames := s.frames + [Frame(s.current, s.haveIdr)])
  }

  /** One pass of the inner loop, for the unit `n` at the head of the buffer. */
  function TakeUnit(s: State, n: Nal): State
    requires s.Running? && n.Nal? && n.start <= n.end <= |s.buf|
  {
    var e := if n.kind == NAL_AUD && s.current != [] then Emit(s) else s;
    var current := e.current + s.buf[n.start..n.end];
    if |current| > MAX_FRAME then Oversize(e.frames)
    else Running(s.buf[n.end..], current, e.haveIdr || n.kind == NAL_IDR || n.kind == NAL_SPS, e.frames)
  }

  /** Every complete unit taken out of the buffer. */
  function Drain(s: State): State
    decreases if s.Running? then |s.buf| else 0
  {
    if s.Oversize? then s
    else
      var n := NextNal(s.buf);
      if n.NoNal? then s
      else
        var t := TakeUnit(s, n);
        if t.Oversize? then t else Drain(t)
  }

  lemma DrainStep(s: State)
    requires s.Running?
    ensures var n := NextNal(s.buf);
      Drain(s) == (if n.NoNal? then s else if TakeUnit(s, n).Oversize? then TakeUnit(s, n) else Drain(TakeUnit(s, n)))
  {}

  function Feed(s: State, chunk: bytes): State {
    if s.Oversize? then s else Drain(s.(buf := s.buf + chunk))
  }

  datatype ReadError = NoError | Eof | Failed
  datatype Read = Read(data: bytes, err: ReadError, cancelled: bool)
  datatype End = Blocked | Finished | TooLarge | ReadFailed | Cancelled

  function Join(chunks: seq<bytes>): bytes {
    if chunks == [] then [] else chunks[0] + Join(chunks[1..])
  }

  lemma {:induction false} JoinSnoc(chunks: seq<bytes>, c: bytes)
    ensures Join(chunks + [c]) == Join(chunks) + c
  {
    if chunks == [] {
      assert [c][1..] == [] && Join([c]) == c + [];
    } else {
      JoinSnoc(chunks[1..], c);
      assert (chunks + [c])[1..] == chunks[1..] + [c];
    }
  }

  /** The bytes consumed by the first `n` reads. */
  function Consumed(inputs: seq<Read>, n: nat): bytes
    requires n <= |inputs|
  {
    if n == 0 then [] else Consumed(inputs, n - 1) + inputs[n - 1].data
  }

  /** The inner loop of splitFrames: take every complete unit out of the buffer. */
  method TakeUnits(buf0: bytes, current0: bytes, haveIdr0: bool, frames0: seq<Frame>)
    returns (buf: bytes, current: bytes, haveIdr: bool, frames: seq<Frame>, oversize: bool)
    ensures Drain(Running(buf0, current0, haveIdr0, frames0))
         == (if oversize then Oversize(frames) else Running(buf, current, haveIdr, frames))
  {
    buf, current, haveIdr, frames := buf0, current0, haveIdr0, frames0;
    hide Drain;
    hide NextNal;
    var n := NextNal(buf);
    while n.Nal?
      invariant n == NextNal(buf)
      invariant Drain(Running(buf, current, haveIdr, frames)) == Drain(Running(buf0, current0, haveIdr0, frames0))
      decreases |buf|
    {
      DrainStep(Running(buf, current, haveIdr, frames));
      if n.kind == NAL_AUD && |current| > 0 {
        frames := frames + [Frame(current, haveIdr)];
        current, haveIdr := [], false;
      }
      if n.kind == NAL_IDR || n.kind == NAL_SPS {
        haveIdr := true;
      }
      current := current + buf[n.start..n.end];
      buf := buf[n.end..];
      if |current| > MAX_FRAME {
        return buf, current, haveIdr, frames, true;
      }
      n := NextNal(buf);
    }
    DrainStep(Running(buf, current, haveIdr, frames));
    oversize := false;
  }

  lemma ReadStep(inputs: seq<Read>, i: nat)
    requires i < |inputs| && Feed(START, Consumed(inputs, i)).Running?
    ensures var s := Feed(START, Consumed(inputs, i));
      Feed(START, Consumed(inputs, i + 1)) == Drain(s.(buf := s.buf + inputs[i].data))
  {
    FeedTwice(START, Consumed(inputs, i), inputs[i].data);
  }

  /** The flush at end of stream. */
  method Flushed(current: bytes, haveIdr: bool, frames: seq<Frame>) returns (all: seq<Frame>)
    ensures forall buf :: all == Emit(Running(buf, current, haveIdr, frames)).frames
  {
    all := if |current| > 0 then frames + [Frame(current, haveIdr)] else frames;
  }

  /** A read after which the loop goes on. */
  predicate Goes(r: Read) { r.err == NoError && !r.cancelled }

  /** The first `n` reads leave the loop running. */
  ghost predicate GoesOn(inputs: seq<Read>, n: nat) {
    n <= |inputs| && forall i | 0 <= i < n :: Goes(inputs[i]) && Feed(START, Consumed(inputs, i + 1)).Running?
  }

  /** What a read that ends the loop makes of the run. */
  function EndOf(r: Read, oversize: bool): End {
    if oversize then TooLarge
    else match r.err case Eof => Finished case Failed => ReadFailed
                     case NoError => if r.cancelled then Cancelled else Blocked
  }

  /**
   How a run over the first `used` reads ends: with the first read that ends it, for the reason that read
   gives, or blocked behind the last. At a clean end of stream the frames sent are those the whole-stream
   definition below gives the bytes; otherwise those complete so far. None is over the cap.
   */
  ghost predicate EndsAs(inputs: seq<Read>, used: nat, frames: seq<Frame>, end: End) {
    && used <= |inputs| && Bounded(frames)
    && var all := Feed(START, Consumed(inputs, used));
      && frames == (if end == Finished then FramesOf(Consumed(inputs, used)) else all.frames)
      && (if end == Blocked then used == |inputs| && GoesOn(inputs, used)
          else used > 0 && GoesOn(inputs, used - 1) && end == EndOf(inputs[used - 1], all.Oversize?))
  }

  lemma EndsUnflushed(inputs: seq<Read>, used: nat, end: End)
    requires used <= |inputs| && end != Finished
    requires if end == Blocked then used == |inputs| && GoesOn(inputs, used)
             else used > 0 && GoesOn(inputs, used - 1)
                  && end == EndOf(inputs[used - 1], Feed(START, Consumed(inputs, used)).Oversize?)
    ensures EndsAs(inputs, used, Feed(START, Consumed(inputs, used)).frames, end)
  {
    SplitterMeetsDefinition(Consumed(inputs, used));
    hide Feed;
    hide Consumed;
    hide Bounded;
    hide GoesOn;
  }

  lemma EndsFlushed(inputs: seq<Read>, used: nat)
    requires 0 < used <= |inputs| && inputs[used - 1].err == Eof && Feed(START, Consumed(inputs, used)).Running?
    requires GoesOn(inputs, used - 1)
    ensures EndsAs(inputs, used, Emit(Feed(START, Consumed(inputs, used))).frames, Finished)
  {
    SplitterMeetsDefinition(Consumed(inputs, used));
    hide Feed;
    hide Consumed;
    hide Bounded;
    hide FramesOf;
    hide GoesOn;
  }

  lemma GoesOnward(inputs: seq<Read>, n: nat)
    requires n < |inputs| && GoesOn(inputs, n) && Goes(inputs[n]) && Feed(START, Consumed(inputs, n + 1)).Running?
    ensures GoesOn(inputs, n + 1)
  {
    hide Feed;
    hide Consumed;
  }

  /** What one read adds: the state after the first `i` reads becomes that after the first `i + 1`. */
  method TakeRead(inputs: seq<Read>, i: nat, buf0: bytes, current0: bytes, haveIdr0: bool, frames0: seq<Frame>)
    returns (buf: bytes, current: bytes, haveIdr: bool, frames: seq<Frame>, oversize: bool)
    requires i < |inputs| && Running(buf0, current0, haveIdr0, frames0) == Feed(START, Consumed(inputs, i))
    ensures Feed(START, Consumed(inputs, i + 1))
         == (if oversize then Oversize(frames) else Running(buf, current, haveIdr, frames))
  {
    hide *;
    ReadStep(inputs, i);
    buf, current, haveIdr, frames, oversize := TakeUnits(buf0 + inputs[i].data, current0, haveIdr0, frames0);
  }

  lemma NothingConsumed(inputs: seq<Read>)
    ensures Feed(START, Consumed(inputs, 0)) == Running([], [], false, []) && GoesOn(inputs, 0)
  {
    DrainIdle(START);
    assert START.(buf := START.buf + []) == START;
  }

  /**
   splitFrames. `inputs` is what successive Read calls return; running out of it
   is a reader that is still blocked. `used` counts the reads made.
   */
  method SplitFrames(inputs: seq<Read>) returns (frames: seq<Frame>, end: End, used: nat)
    ensures EndsAs(inputs, used, frames, end)
  {
    hide *;
    var buf: bytes, current: bytes, haveIdr := [], [], false;
    frames, used := [], 0;
    NothingConsumed(inputs);
    for i := 0 to |inputs|
      invariant used == i && GoesOn(inputs, i)
      invariant Running(buf, current, haveIdr, frames) == Feed(START, Consumed(inputs, i))
    {
      var r := inputs[i];
      var oversize;
      buf, current, haveIdr, frames, oversize := TakeRead(inputs, i, buf, current, haveIdr, frames);
      used := i + 1;
      EndOfRead(r, oversize);
      if oversize {
        EndsUnflushed(inputs, used, TooLarge);
        return frames, TooLarge, used;
      }
      if r.err == Eof {
        EndsFlushed(inputs, used);
        frames := Flushed(current, haveIdr, frames);
        return frames, Finished, used;
      }
      if r.err == Failed {
        EndsUnflushed(inputs, used, ReadFailed);
        return frames, ReadFailed, used;
      }
      if r.cancelled {
        EndsUnflushed(inputs, used, Cancelled);
        return frames, Cancelled, used;
      }
      GoesOnward(inputs, i);
    }
    end := Blocked;
    EndsUnflushed(inputs, used, Blocked);
  }

  lemma EndOfRead(r: Read, oversize: bool)
    ensures oversize ==> EndOf(r, oversize) == TooLarge
    ensures !oversize && r.err == Failed ==> EndOf(r, oversize) == ReadFailed
    ensures !oversize && r.err == NoError && r.cancelled ==> EndOf(r, oversize) == Cancelled
    ensures r.err == NoError && !r.cancelled ==> Goes(r)
  {}

  // --- chunk independence -----------------------------------------------------

  lemma {:induction false} IndexFromStable(b: bytes, x: bytes, from: nat)
    requires from <= |b| && IndexFrom(b, from) >= 0
    ensures IndexFrom(b + x, from) == IndexFrom(b, from)
  {
    var i, j := IndexFrom(b, from), IndexFrom(b + x, from);
    assert forall k | 0 <= k && k + 3 <= |b| :: StartCodeAt(b, k) == StartCodeAt(b + x, k);
    assert StartCodeAt(b + x, i);
    assert j >= 0;
  }

  /** Later bytes never change a unit that is already complete. */
  lemma NextNalStable(b: bytes, x: bytes)
    requires NextNal(b).Nal?
    ensures NextNal(b + x) == NextNal(b)
  {
    IndexFromStable(b, x, 0);
    IndexFromStable(b, x, IndexFrom(b, 0) + 3);
  }

  lemma DrainIdle(s: State)
    requires s.Running? && s.buf == []
    ensures Drain(s) == s
  {}

  lemma {:induction false} DrainThenMore(s: State, x: bytes)
    requires s.Running?
    ensures Feed(Drain(s), x) == Drain(s.(buf := s.buf + x))
    decreases |s.buf|
  {
    var n := NextNal(s.buf);
    if n.Nal? {
      NextNalStable(s.buf, x);
      var t, t' := TakeUnit(s, n), TakeUnit(s.(buf := s.buf + x), n);
      assert (s.buf + x)[n.start..n.end] == s.buf[n.start..n.end];
      assert (s.buf + x)[n.end..] == s.buf[n.end..] + x;
      if t.Running? {
        assert t' == t.(buf := t.buf + x);
        DrainThenMore(t, x);
      }
    }
  }

  /** Two reads do what one read of both would have done. */
  lemma FeedTwice(s: State, a: bytes, b: bytes)
    ensures Feed(Feed(s, a), b) == Feed(s, a + b)
  {
    hide NextNal;
    if s.Running? {
      DrainThenMore(s.(buf := s.buf + a), b);
      assert s.buf + a + b == s.buf + (a + b);
    }
  }

  function FeedAll(s: State, chunks: seq<bytes>): State
    decreases |chunks|
  {
    if chunks == [] then s else FeedAll(Feed(s, chunks[0]), chunks[1..])
  }

  lemma {:induction false} FeedAllIsFeed(s: State, chunks: seq<bytes>)
    requires Drain(s) == s
    ensures FeedAll(s, chunks) == Feed(s, Join(chunks))
    decreases |chunks|
  {
    hide NextNal;
    if chunks == [] {
      if s.Running? { assert s.(buf := s.buf + []) == s; }
    } else {
      var t := Feed(s, chunks[0]);
      if s.Running? {
        DrainTwice(s.(buf := s.buf + chunks[0]));
      }
      FeedAllIsFeed(t, chunks[1..]);
      FeedTwice(s, chunks[0], Join(chunks[1..]));
    }
  }

  lemma DrainTwice(s: State)
    ensures Drain(Drain(s)) == Drain(s)
  {
    hide NextNal;
    if s.Running? {
      DrainThenMore(s, []);
      assert s.buf + [] == s.buf;
      if Drain(s).Running? {
        assert Drain(s).buf + [] == Drain(s).buf;
      }
    }
  }

  /** Frames, leftover state and the oversize error depend on the bytes alone, not on how reads cut them. */
  lemma ChunkIndependence(a: seq<bytes>, b: seq<bytes>)
    requires Join(a) == Join(b)
    ensures FeedAll(START, a) == FeedAll(START, b)
  {
    DrainIdle(START);
    FeedAllIsFeed(START, a);
    FeedAllIsFeed(START, b);
  }

  // --- what the units of a stream are -----------------------------------------

  datatype Unit = Unit(kind: byte, data: bytes)

  /** Every complete unit of the stream, in order. */
  function Units(b: bytes): seq<Unit>
    decreases |b|
  {
    var n := NextNal(b);
    if n.NoNal? then [] else [Unit(n.kind, b[n.start..n.end])] + Units(b[n.end..])
  }

  /** The positions of all start codes at or after `from`, ascending. */
  function StartCodes(b: bytes, from: nat): seq<nat>
    requires from <= |b|
    decreases |b| - from
  {
    if from == |b| then []
    else if StartCodeAt(b, from) then [from] + StartCodes(b, from + 1)
    else StartCodes(b, from + 1)
  }

  lemma {:induction false} StartCodesAreAll(b: bytes, from: nat)
    requires from <= |b|
    ensures forall p: nat :: p in StartCodes(b, from) <==> from <= p && StartCodeAt(b, p)
    ensures forall i, j | 0 <= i < j < |StartCodes(b, from)| :: StartCodes(b, from)[i] < StartCodes(b, from)[j]
    decreases |b| - from
  {
    if from < |b| {
      StartCodesAreAll(b, from + 1);
      var rest := StartCodes(b, from + 1);
      forall i | 0 <= i < |rest| ensures from < rest[i] {
        assert rest[i] in rest;
      }
    }
  }

  lemma {:induction false} StartCodesSkip(b: bytes, from: nat, to: nat)
    requires from <= to <= |b|
    requires forall j | from <= j < to :: !StartCodeAt(b, j)
    ensures StartCodes(b, from) == StartCodes(b, to)
    decreases |b| - from
  {
    if from < to {
      StartCodesSkip(b, from + 1, to);
    }
  }

  lemma {:induction false} StartCodesShift(b: bytes, e: nat, i: nat)
    requires e + i <= |b|
    ensures |StartCodes(b[e..], i)| == |StartCodes(b, e + i)|
    ensures forall k | 0 <= k < |StartCodes(b[e..], i)| :: StartCodes(b[e..], i)[k] + e == StartCodes(b, e + i)[k]
    decreases |b| - e - i
  {
    if e + i < |b| {
      StartCodesShift(b, e, i + 1);
      CodeShift(b, e, i);
      hide StartCodeAt;
    }
  }

  lemma CodeShift(b: bytes, e: nat, i: nat)
    requires e + i <= |b|
    ensures StartCodeAt(b[e..], i) == StartCodeAt(b, e + i)
  {
    var r := b[e..];
    if i + 3 <= |r| {
      assert r[i] == b[e + i] && r[i + 1] == b[e + i + 1] && r[i + 2] == b[e + i + 2];
    }
  }

  /** The unit between two neighbouring start codes; one zero before the second is the second's own. */
  function UnitBetween(b: bytes, p: nat, q: nat): Unit
    requires p + 3 <= q <= |b|
  {
    Unit(if p + 3 < |b| then b[p + 3] % 32 else 0, b[p..if b[q - 1] == 0 then q - 1 else q])
  }

  lemma StartCodesHead(b: bytes, from: nat)
    requires from <= |b|
    ensures IndexFrom(b, from) < 0 ==> StartCodes(b, from) == []
    ensures IndexFrom(b, from) >= 0 ==>
        StartCodes(b, from) == [IndexFrom(b, from)] + StartCodes(b, IndexFrom(b, from) + 1)
  {
    var i := IndexFrom(b, from);
    hide IndexFrom;
    if i < 0 {
      StartCodesSkip(b, from, |b|);
    } else {
      assert forall j | from <= j < i :: !StartCodeAt(b, j);
      StartCodesSkip(b, from, i);
    }
  }

  lemma StartCodesApart(b: bytes, p: nat)
    requires StartCodeAt(b, p)
    ensures StartCodes(b, p + 1) == StartCodes(b, p + 3)
  {
    assert b[p + 2] == 1;
    assert !StartCodeAt(b, p + 1) && !StartCodeAt(b, p + 2);
    StartCodesSkip(b, p + 1, p + 3);
  }

  ghost predicate UnitLies(b: bytes, u: Unit, p: nat, q: nat) {
    p + 3 <= q <= |b| && u == UnitBetween(b, p, q)
  }

  /** nextNAL looks at exactly the first two start codes. */
  lemma FirstUnit(b: bytes)
    ensures NextNal(b).NoNal? <==> |StartCodes(b, 0)| < 2
    ensures NextNal(b).Nal? ==>
      var n, ps := NextNal(b), StartCodes(b, 0);
      UnitLies(b, Unit(n.kind, b[n.start..n.end]), ps[0], ps[1]) && ps[1..] == StartCodes(b, n.end)
  {
    StartCodesHead(b, 0);
    var first := IndexFrom(b, 0);
    if first >= 0 {
      StartCodesApart(b, first);
      StartCodesHead(b, first + 3);
      var n, next := NextNal(b), IndexFrom(b, first + 3);
      assert n.Nal? <==> next >= 0;
      if n.Nal? {
        CodesFromEnd(b, first, next);
        UnitOf(b, first, next);
      }
    }
    hide IndexFrom;
    hide NextNal;
    hide StartCodes;
  }

  lemma UnitOf(b: bytes, first: nat, next: nat)
    requires NextNal(b).Nal? && first == IndexFrom(b, 0) && first + 3 <= next == IndexFrom(b, first + 3)
    ensures var n := NextNal(b); UnitLies(b, Unit(n.kind, b[n.start..n.end]), first, next)
  {
    hide IndexFrom;
  }

  /** The zero a unit gives up starts no code, so the codes from its end on are those from the next one on. */
  lemma CodesFromEnd(b: bytes, first: nat, next: int)
    requires StartCodeAt(b, first) && first + 3 <= |b| && next == IndexFrom(b, first + 3) && next >= 0
    ensures var e := if b[next - 1] == 0 then next - 1 else next;
      first + 3 <= e && StartCodes(b, e) == [next] + StartCodes(b, next + 1)
  {
    var e := if b[next - 1] == 0 then next - 1 else next;
    assert b[first + 2] == 1;
    StartCodesSkip(b, e, next);
    StartCodesHead(b, next);
    assert IndexFrom(b, next) == next;
    hide IndexFrom;
  }

  ghost predicate UnitsLieBetween(b: bytes, us: seq<Unit>, ps: seq<nat>) {
    && |us| == (if ps == [] then 0 else |ps| - 1)
    && forall k | 0 <= k < |us| :: UnitLies(b, us[k], ps[k], ps[k + 1])
  }

  /**
   The k-th unit is the stream between the k-th start code and the next, short of
   at most one zero byte, and there is one unit for every start code but the
   last. So nothing between two start codes is lost but that zero, and the bytes
   from the last start code on belong to no unit.
   */
  lemma {:induction false} UnitsAreBetweenStartCodes(b: bytes)
    ensures UnitsLieBetween(b, Units(b), StartCodes(b, 0))
    decreases |b|
  {
    FirstUnit(b);
    var n := NextNal(b);
    if n.Nal? {
      UnitsAreBetweenStartCodes(b[n.end..]);
      StartCodesShift(b, n.end, 0);
      UnitsLieBetweenCons(b, n.end, Unit(n.kind, b[n.start..n.end]), Units(b[n.end..]), StartCodes(b[n.end..], 0),
          StartCodes(b, 0));
    }
  }

  lemma UnitsLieBetweenCons(b: bytes, e: nat, u: Unit, vs: seq<Unit>, qs: seq<nat>, ps: seq<nat>)
    requires e <= |b| && UnitsLieBetween(b[e..], vs, qs)
    requires |ps| == |qs| + 1 && forall k | 0 <= k < |qs| :: ps[k + 1] == qs[k] + e
    requires |ps| >= 2 && UnitLies(b, u, ps[0], ps[1])
    ensures UnitsLieBetween(b, [u] + vs, ps)
  {
    var us := [u] + vs;
    forall k | 0 <= k < |us| ensures UnitLies(b, us[k], ps[k], ps[k + 1]) {
      if k > 0 {
        assert UnitLies(b[e..], vs[k - 1], qs[k - 1], qs[k]);
        ShiftedUnit(b, e, qs[k - 1], qs[k]);
      }
    }
  }

  lemma ShiftedUnit(b: bytes, e: nat, p: nat, q: nat)
    requires e <= |b| && p + 3 <= q <= |b| - e
    ensures UnitBetween(b[e..], p, q) == UnitBetween(b, p + e, q + e)
  {
    var r := b[e..];
    assert r[q - 1] == b[q + e - 1];
    var z := if r[q - 1] == 0 then q - 1 else q;
    assert r[p..z] == b[p + e..z + e];
  }

  // --- what the frames of a stream are ----------------------------------------

  /** Units grouped into frames: an AUD closes whatever came before it. */
  function Groups(done: seq<seq<Unit>>, open: seq<Unit>, us: seq<Unit>): seq<seq<Unit>>
    decreases |us|
  {
    if us == [] then (if open == [] then done else done + [open])
    else if us[0].kind == NAL_AUD && open != [] then Groups(done + [open], [us[0]], us[1..])
    else Groups(done, open + [us[0]], us[1..])
  }

  function Payload(g: seq<Unit>): bytes {
    if g == [] then [] else Payload(g[..|g| - 1]) + g[|g| - 1].data
  }

  predicate IsKey(u: Unit) { u.kind == NAL_IDR || u.kind == NAL_SPS }

  predicate HasKey(g: seq<Unit>) { exists u <- g :: IsKey(u) }

  function AsFrame(g: seq<Unit>): Frame {
    Frame(Payload(g), HasKey(g))
  }

  function AsFrames(gs: seq<seq<Unit>>): seq<Frame> {
    seq(|gs|, i requires 0 <= i < |gs| => AsFrame(gs[i]))
  }

  ghost predicate NonEmptyUnits(us: seq<Unit>) { forall u <- us :: u.data != [] }

  /** The state that has closed the groups `done` and is filling `open`. */
  ghost predicate Represents(s: State, done: seq<seq<Unit>>, open: seq<Unit>) {
    && s.Running? && s.frames == AsFrames(done) && s.current == Payload(open)
    && s.haveIdr == HasKey(open) && NonEmptyUnits(open)
  }

  lemma PayloadSnoc(g: seq<Unit>, u: Unit)
    ensures Payload(g + [u]) == Payload(g) + u.data
    ensures HasKey(g + [u]) <==> HasKey(g) || IsKey(u)
    ensures NonEmptyUnits(g + [u]) <==> NonEmptyUnits(g) && u.data != []
  {
    assert (g + [u])[..|g|] == g;
    assert forall v :: v in g + [u] <==> v in g || v == u;
    hide Payload;
    hide IsKey;
  }

  lemma PayloadEmpty(g: seq<Unit>)
    requires NonEmptyUnits(g)
    ensures Payload(g) == [] <==> g == []
  {
    if g != [] { assert g[|g| - 1] in g; }
  }

  /** Frames kept within the cap, each nonempty. */
  ghost predicate Bounded(frames: seq<Frame>) {
    forall f <- frames :: 0 < |f.data| <= MAX_FRAME
  }

  lemma {:induction false} DrainGroups(s: State, done: seq<seq<Unit>>, open: seq<Unit>)
    requires Represents(s, done, open) && Bounded(s.frames) && |s.current| <= MAX_FRAME
    ensures Bounded(Drain(s).frames)
    ensures Drain(s).Running? ==>
      && Emit(Drain(s)).frames == AsFrames(Groups(done, open, Units(s.buf)))
      && |Drain(s).current| <= MAX_FRAME
    decreases |s.buf|
  {
    var n := NextNal(s.buf);
    DrainStep(s);
    if n.NoNal? {
      UnitsStep(s.buf);
      EmitGroups(s, done, open);
      return;
    }
    var u := Unit(n.kind, s.buf[n.start..n.end]);
    var t := TakeUnit(s, n);
    UnitsStep(s.buf);
    hide NextNal;
    hide Drain;
    hide Units;
    if u.kind == NAL_AUD && open != [] {
      TakeAud(s, done, open, n);
      hide *;
      if t.Running? { DrainGroups(t, done + [open], [u]); }
    } else {
      TakeOther(s, done, open, n);
      hide *;
      if t.Running? { DrainGroups(t, done, open + [u]); }
    }
  }

  lemma UnitsStep(b: bytes)
    ensures var n := NextNal(b);
      if n.NoNal? then Units(b) == []
      else |Units(b)| > 0 && Units(b)[0] == Unit(n.kind, b[n.start..n.end]) && Units(b)[1..] == Units(b[n.end..])
  {}

  lemma EmitGroups(s: State, done: seq<seq<Unit>>, open: seq<Unit>)
    requires Represents(s, done, open)
    ensures Emit(s).frames == AsFrames(if open == [] then done else done + [open])
  {
    PayloadEmpty(open);
    assert AsFrames(done + [open]) == AsFrames(done) + [AsFrame(open)];
  }

  lemma TakeAud(s: State, done: seq<seq<Unit>>, open: seq<Unit>, n: Nal)
    requires Represents(s, done, open) && Bounded(s.frames) && |s.current| <= MAX_FRAME
    requires n.Nal? && n.start < n.end <= |s.buf| && n.kind == NAL_AUD && open != []
    ensures var t, u := TakeUnit(s, n), Unit(n.kind, s.buf[n.start..n.end]);
      Bounded(t.frames) && (t.Running? ==>
          Represents(t, done + [open], [u]) && |t.current| <= MAX_FRAME && t.buf == s.buf[n.end..])
  {
    var u := Unit(n.kind, s.buf[n.start..n.end]);
    EmitGroups(s, done, open);
    PayloadEmpty(open);
    PayloadSnoc([], u);
    assert [] + [u] == [u] && Payload([]) == [] && !HasKey([]);
    hide Payload;
    hide AsFrames;
    hide HasKey;
    hide NonEmptyUnits;
  }

  lemma TakeOther(s: State, done: seq<seq<Unit>>, open: seq<Unit>, n: Nal)
    requires Represents(s, done, open) && Bounded(s.frames) && |s.current| <= MAX_FRAME
    requires n.Nal? && n.start < n.end <= |s.buf| && (n.kind == NAL_AUD ==> open == [])
    ensures var t, u := TakeUnit(s, n), Unit(n.kind, s.buf[n.start..n.end]);
      Bounded(t.frames) && (t.Running? ==>
          Represents(t, done, open + [u]) && |t.current| <= MAX_FRAME && t.buf == s.buf[n.end..])
  {
    var u := Unit(n.kind, s.buf[n.start..n.end]);
    PayloadEmpty(open);
    PayloadSnoc(open, u);
    hide Payload;
    hide AsFrames;
    hide HasKey;
    hide NonEmptyUnits;
  }

  function FramesOf(b: bytes): seq<Frame> { AsFrames(Groups([], [], Units(b))) }

  /** A stream read to its clean end yields the frames defined on the whole stream; no frame is ever over the cap. */
  lemma SplitterMeetsDefinition(b: bytes)
    ensures Bounded(Feed(START, b).frames)
    ensures Feed(START, b).Running? ==> Emit(Feed(START, b)).frames == FramesOf(b) && Bounded(FramesOf(b))
  {
    var s := START.(buf := START.buf + b);
    assert s.buf == b;
    DrainGroups(s, [], []);
  }

  function Flatten(gs: seq<seq<Unit>>): seq<Unit> {
    if gs == [] then [] else Flatten(gs[..|gs| - 1]) + gs[|gs| - 1]
  }

  /** A frame's units: an AUD may only come first, and must unless this is the first frame. */
  ghost predicate WellFormed(g: seq<Unit>, first: bool) {
    && g != [] && (!first ==> g[0].kind == NAL_AUD)
    && forall j | 0 < j < |g| :: g[j].kind != NAL_AUD
  }

  ghost predicate WellGrouped(gs: seq<seq<Unit>>) {
    forall i | 0 <= i < |gs| :: WellFormed(gs[i], i == 0)
  }

  lemma FlattenSnoc(gs: seq<seq<Unit>>, g: seq<Unit>)
    ensures Flatten(gs + [g]) == Flatten(gs) + g
  {
    assert (gs + [g])[..|gs|] == gs;
  }

  lemma {:induction false} GroupsShape(done: seq<seq<Unit>>, open: seq<Unit>, us: seq<Unit>)
    requires WellGrouped(done) && (if open == [] then done == [] else WellFormed(open, done == []))
    ensures WellGrouped(Groups(done, open, us))
    decreases |us|
  {
    if us != [] {
      var u := us[0];
      hide WellFormed;
      if u.kind == NAL_AUD && open != [] {
        StartsGroup(u);
        assert WellGrouped(done + [open]);
        hide WellGrouped;
        GroupsShape(done + [open], [u], us[1..]);
      } else {
        JoinsGroup(open, u, done == []);
        hide WellGrouped;
        GroupsShape(done, open + [u], us[1..]);
      }
    }
  }

  lemma {:induction false} GroupsKeepUnits(done: seq<seq<Unit>>, open: seq<Unit>, us: seq<Unit>)
    ensures Flatten(Groups(done, open, us)) == Flatten(done) + open + us
    decreases |us|
  {
    FlattenSnoc(done, open);
    hide Flatten;
    if us == [] {
      assert Flatten(done) + open + us == Flatten(done) + open;
    } else {
      var u := us[0];
      assert us == [u] + us[1..];
      if u.kind == NAL_AUD && open != [] {
        GroupsKeepUnits(done + [open], [u], us[1..]);
      } else {
        GroupsKeepUnits(done, open + [u], us[1..]);
      }
    }
  }

  lemma StartsGroup(u: Unit)
    requires u.kind == NAL_AUD
    ensures WellFormed([u], false)
  {}

  lemma JoinsGroup(g: seq<Unit>, u: Unit, first: bool)
    requires if g == [] then first else WellFormed(g, first) && u.kind != NAL_AUD
    ensures WellFormed(g + [u], first)
  {}

  /**
   Every frame but the first starts with the only AUD it contains, and the frames hold exactly the units, in
   order.
   */
  lemma FramesPartitionUnits(b: bytes)
    ensures WellGrouped(Groups([], [], Units(b))) && Flatten(Groups([], [], Units(b))) == Units(b)
  {
    GroupsShape([], [], Units(b));
    GroupsKeepUnits([], [], Units(b));
    assert Flatten([]) + [] + Units(b) == Units(b);
  }

  // --- where a stream stands ----------------------------------------------------------

  /** The units since the last AUD, itself included. */
  function OpenUnits(us: seq<Unit>): seq<Unit> {
    if us == [] then []
    else if us[|us| - 1].kind == 9 then [us[|us| - 1]]
    else OpenUnits(us[..|us| - 1]) + [us[|us| - 1]]
  }

  /** The frames an AUD has closed so far. */
  function ClosedFrames(us: seq<Unit>): seq<seq<Unit>> {
    if us == [] then []
    else
      var init := us[..|us| - 1];
      if us[|us| - 1].kind == 9 && init != [] then ClosedFrames(init) + [OpenUnits(init)] else ClosedFrames(init)
  }

  /** With its k-th unit the open frame outgrows 8 MiB. */
  predicate Outgrows(us: seq<Unit>, k: int) {
    0 < k <= |us| && |Payload(OpenUnits(us[..k]))| > 8_388_608
  }

  ghost predicate FirstOutgrows(us: seq<Unit>, k: int) {
    Outgrows(us, k) && forall j | 0 <= j < k :: !Outgrows(us, j)
  }

  lemma OpenSnoc(us: seq<Unit>, u: Unit)
    ensures OpenUnits(us + [u]) == if u.kind == 9 then [u] else OpenUnits(us) + [u]
    ensures ClosedFrames(us + [u])
         == if u.kind == 9 && us != [] then ClosedFrames(us) + [OpenUnits(us)] else ClosedFrames(us)
    ensures OpenUnits(us) == [] <==> us == []
  {
    assert (us + [u])[..|us|] == us;
  }

  lemma OutgrowsPrefix(us: seq<Unit>, more: seq<Unit>, k: int)
    requires k <= |us|
    ensures Outgrows(us + more, k) == Outgrows(us, k)
  {
    if 0 < k { assert (us + more)[..k] == us[..k]; }
  }

  lemma NoneOutgrow(us: seq<Unit>, u: Unit)
    requires (forall k :: !Outgrows(us, k)) && |Payload(OpenUnits(us + [u]))| <= 8_388_608
    ensures forall k :: !Outgrows(us + [u], k)
  {
    forall k ensures !Outgrows(us + [u], k) {
      if k <= |us| {
        OutgrowsPrefix(us, [u], k);
      } else if k == |us| + 1 {
        assert (us + [u])[..k] == us + [u];
      }
    }
  }

  /** Where a state stands after the units `us`. */
  ghost predicate StandsAt(s: State, us: seq<Unit>) {
    && Represents(s, ClosedFrames(us), OpenUnits(us)) && Bounded(s.frames)
    && |s.current| <= MAX_FRAME && forall k :: !Outgrows(us, k)
  }

  lemma OneUnitRuns(s: State, us: seq<Unit>, n: Nal)
    requires StandsAt(s, us) && n.Nal? && n.start < n.end <= |s.buf| && TakeUnit(s, n).Running?
    ensures StandsAt(TakeUnit(s, n), us + [Unit(n.kind, s.buf[n.start..n.end])]) && TakeUnit(s, n).buf == s.buf[n.end..]
  {
    var u := Unit(n.kind, s.buf[n.start..n.end]);
    OpenSnoc(us, u);
    if u.kind == NAL_AUD && us != [] {
      TakeAud(s, ClosedFrames(us), OpenUnits(us), n);
    } else {
      TakeOther(s, ClosedFrames(us), OpenUnits(us), n);
      assert [] + [u] == [u];
    }
    var t := TakeUnit(s, n);
    assert Represents(t, ClosedFrames(us + [u]), OpenUnits(us + [u])) && |t.current| <= MAX_FRAME;
    hide TakeUnit;
    assert |Payload(OpenUnits(us + [u]))| <= 8_388_608;
    hide Represents;
    NoneOutgrow(us, u);
  }

  /** What a unit that makes the open frame too large leaves behind. */
  lemma TooLargeLeaves(s: State, us: seq<Unit>, n: Nal)
    requires Represents(s, ClosedFrames(us), OpenUnits(us)) && n.Nal? && n.start < n.end <= |s.buf|
    requires TakeUnit(s, n).Oversize?
    ensures var t, more := TakeUnit(s, n), us + [Unit(n.kind, s.buf[n.start..n.end])];
      t.frames == AsFrames(ClosedFrames(more)) && |Payload(OpenUnits(more))| > 8_388_608
  {
    var u := Unit(n.kind, s.buf[n.start..n.end]);
    OpenSnoc(us, u);
    PayloadSnoc(OpenUnits(us), u);
    if us == [] {
      assert [] + [u] == [u];
    } else if n.kind == 9 {
      AudAlone(u);
      EmitGroups(s, ClosedFrames(us), OpenUnits(us));
      PayloadEmpty(OpenUnits(us));
    }
    hide Payload;
    hide AsFrames;
    hide HasKey;
    hide NonEmptyUnits;
    hide OpenUnits;
    hide ClosedFrames;
  }

  lemma AudAlone(u: Unit)
    ensures Payload([u]) == u.data
  {
    assert [u][..0] == [] && Payload([]) == [];
  }

  lemma OneUnitTooMany(s: State, us: seq<Unit>, n: Nal)
    requires StandsAt(s, us) && n.Nal? && n.start < n.end <= |s.buf| && TakeUnit(s, n).Oversize?
    ensures var t, more := TakeUnit(s, n), us + [Unit(n.kind, s.buf[n.start..n.end])];
      FirstOutgrows(more, |more|) && t.frames == AsFrames(ClosedFrames(more))
  {
    var u := Unit(n.kind, s.buf[n.start..n.end]);
    var t, more := TakeUnit(s, n), us + [u];
    TooLargeLeaves(s, us, n);
    assert forall k :: !Outgrows(us, k);
    hide TakeUnit;
    hide Payload;
    hide AsFrames;
    hide ClosedFrames;
    hide OpenUnits;
    hide StandsAt;
    assert more[..|more|] == more;
    forall j | 0 <= j < |more| ensures !Outgrows(more, j) { OutgrowsPrefix(us, [u], j); }
  }

  predicate EndsWith(a: bytes, b: bytes) { |b| <= |a| && a[|a| - |b|..] == b }

  /** How draining may end, all the units met so far being `all`. */
  ghost predicate Ended(d: State, all: seq<Unit>, buf: bytes) {
    if d.Running? then StandsAt(d, all) && NextNal(d.buf).NoNal? && EndsWith(buf, d.buf)
    else exists k :: FirstOutgrows(all, k) && d.frames == AsFrames(ClosedFrames(all[..k]))
  }

  lemma EndedEarly(d: State, us: seq<Unit>, rest: seq<Unit>, buf: bytes)
    requires d.Oversize? && FirstOutgrows(us, |us|) && d.frames == AsFrames(ClosedFrames(us))
    ensures Ended(d, us + rest, buf)
  {
    var k, all := |us|, us + rest;
    assert all[..k] == us && us[..k] == us;
    forall j | j <= k ensures Outgrows(all, j) == Outgrows(us, j) { OutgrowsPrefix(us, rest, j); }
    assert FirstOutgrows(all, k);
    hide Outgrows;
    hide AsFrames;
    hide ClosedFrames;
  }

  /** One pass of the inner loop: done, or a unit `u` taken with `rest` still to come. */
  lemma DrainUnit(s: State) returns (u: Unit, rest: seq<Unit>, t: State)
    requires s.Running? && NextNal(s.buf).Nal?
    ensures t == TakeUnit(s, NextNal(s.buf)) && Drain(s) == (if t.Oversize? then t else Drain(t))
    ensures u == Unit(NextNal(s.buf).kind, s.buf[NextNal(s.buf).start..NextNal(s.buf).end])
    ensures Units(s.buf) == [u] + rest && rest == Units(s.buf[NextNal(s.buf).end..])
  {
    var n := NextNal(s.buf);
    DrainStep(s);
    UnitsStep(s.buf);
    hide *;
    u, t, rest := Unit(n.kind, s.buf[n.start..n.end]), TakeUnit(s, n), Units(s.buf)[1..];
  }

  lemma {:induction false} DrainStands(s: State, us: seq<Unit>)
    requires s.Running? && StandsAt(s, us)
    ensures Ended(Drain(s), us + Units(s.buf), s.buf)
    decreases |s.buf|
  {
    hide *;
    var n := NextNal(s.buf);
    if n.NoNal? {
      DrainDone(s, us);
    } else {
      var u, rest, t := DrainUnit(s);
      assert us + Units(s.buf) == (us + [u]) + rest;
      if t.Running? {
        OneUnitRuns(s, us, n);
        DrainStands(t, us + [u]);
        EndedLater(Drain(t), (us + [u]) + rest, s.buf, n.end);
      } else {
        OneUnitTooMany(s, us, n);
        EndedEarly(t, us + [u], rest, s.buf);
      }
    }
  }

  lemma DrainDone(s: State, us: seq<Unit>)
    requires s.Running? && NextNal(s.buf).NoNal? && StandsAt(s, us)
    ensures Ended(Drain(s), us + Units(s.buf), s.buf)
  {
    DrainStep(s);
    UnitsStep(s.buf);
    hide Drain;
    hide Units;
    hide NextNal;
    hide StandsAt;
    assert us + [] == us && EndsWith(s.buf, s.buf);
  }

  lemma EndedLater(d: State, all: seq<Unit>, whole: bytes, from: nat)
    requires from <= |whole| && Ended(d, all, whole[from..])
    ensures Ended(d, all, whole)
  {
    hide StandsAt;
    hide FirstOutgrows;
    hide NextNal;
    hide AsFrames;
    hide ClosedFrames;
  }

  /**
   After any bytes: the frames sent are those an AUD has closed, the open frame holds the units since,
   and what is left over holds no complete unit. The run has failed for size iff with some unit the
   open frame outgrew 8 MiB, and then it had sent the frames closed by that unit.
   */
  lemma WhereTheStreamStands(b: bytes)
    ensures var s, us := Feed(START, b), Units(b);
      && (s.Oversize? <==> exists k :: Outgrows(us, k))
      && (s.Oversize? ==> exists k :: FirstOutgrows(us, k) && s.frames == AsFrames(ClosedFrames(us[..k])))
      && (s.Running? ==>
            && s.frames == AsFrames(ClosedFrames(us)) && s.current == Payload(OpenUnits(us))
            && (s.haveIdr <==> exists u <- OpenUnits(us) :: u.kind == 5 || u.kind == 7)
            && NextNal(s.buf).NoNal? && EndsWith(b, s.buf))
  {
    var s0 := START.(buf := START.buf + b);
    assert s0.buf == b && Feed(START, b) == Drain(s0);
    StartStands(s0);
    hide Feed;
    DrainStands(s0, []);
    assert [] + Units(b) == Units(b);
    hide Drain;
    hide Units;
    hide Outgrows;
    hide NextNal;
    hide Payload;
    hide AsFrames;
  }

  lemma StartStands(s: State)
    requires s.Running? && s == START.(buf := s.buf)
    ensures StandsAt(s, [])
  {}

  /** A frame is the octets of its units, in order, and a keyframe iff one of them is an IDR slice or an SPS. */
  lemma {:induction false} FrameMeaning(g: seq<Unit>, h: seq<Unit>)
    ensures AsFrame(g + h).data == AsFrame(g).data + AsFrame(h).data
    ensures |g| == 1 ==> AsFrame(g).data == g[0].data
    ensures AsFrame(g).keyframe <==> exists u <- g :: u.kind == 5 || u.kind == 7
    decreases |h|
  {
    if h == [] {
      assert g + h == g;
      if |g| == 1 { assert Payload(g[..0]) == []; }
    } else {
      var init := h[..|h| - 1];
      FrameMeaning(g, init);
      assert (g + h)[..|g + h| - 1] == g + init;
    }
  }
}
