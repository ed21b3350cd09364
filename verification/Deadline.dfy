/**
 The read-deadline protocol of path.Conn (internal/path/conn.go): readers that
 wait on a replaceable channel, a setter that closes and replaces it, and timer
 callbacks that do the same unless they are out of date. Any number of readers,
 setters and timers interleave; each step below is one critical section of `dmu`
 or one lock-free wait.
 */
module Deadline {
  import opened Bytes

  datatype Outcome = GotPacket | TimedOut | ConnClosed

  /** Where a ReadFrom call is: at the top of its loop, in the select on `ch`, just woken by it, or done. */
  datatype Reader = Top | Selecting(ch: nat) | Woken | Returned(outcome: Outcome)

  /** A callback that has started can no longer be stopped, only find itself out of date. */
  datatype Phase = Armed | Started | Stopped | Ran

  datatype Timer = Timer(ch: nat, due: int, phase: Phase)

  /** Channels are numbered in order of creation, `next` being the first unused number. */
  datatype State = State(
    now: int, next: nat, current: nat, closed: set<nat>, doubleClose: bool,
    deadline: Option<int>, timers: seq<Timer>, deadlineTimer: Option<nat>, readers: map<nat, Reader>)

  const BOOT: State := State(0, 1, 0, {}, false, None, [], None, map[])

  predicate Expired(s: State) { s.deadline.Some? && s.deadline.value <= s.now }

  datatype Step =
    | Tick(elapsed: nat)
    | Call(r: nat)
    | Check(r: nat)
    | Wake(r: nat)
    | Recheck(r: nat)
    | Finish(r: nat, outcome: Outcome)
    | SetDeadline(t: Option<int>)
    | Start(i: nat)
    | Callback(i: nat)

  predicate Enabled(s: State, e: Step) {
    match e
    case Tick(_) => true
    case Call(r) => r !in s.readers || s.readers[r].Returned?
    case Check(r) => r in s.readers && s.readers[r].Top?
    case Wake(r) => r in s.readers && s.readers[r].Selecting? && s.readers[r].ch in s.closed
    case Recheck(r) => r in s.readers && s.readers[r].Woken?
    case Finish(r, outcome) => r in s.readers && s.readers[r].Selecting? && outcome != TimedOut
    case SetDeadline(_) => true
    case Start(i) => i < |s.timers| && s.timers[i].phase == Armed && s.timers[i].due <= s.now
    case Callback(i) => i < |s.timers| && s.timers[i].phase == Started
  }

  /** close(c.deadlineCh) followed by a fresh channel. */
  function Replace(s: State): State {
    s.(doubleClose := s.doubleClose || s.current in s.closed, closed := s.closed + {s.current},
       current := s.next, next := s.next + 1)
  }

  function StopTimer(s: State): State {
    var i := if s.deadlineTimer.Some? then s.deadlineTimer.value else |s.timers|;
    s.(deadlineTimer := None,
       timers := if i < |s.timers| && s.timers[i].phase == Armed then s.timers[i := s.timers[i].(phase := Stopped)]
           else s.timers)
  }

  function SetReadDeadline(s: State, t: Option<int>): State {
    var u := Replace(StopTimer(s)).(deadline := t);
    if t.None? then u
    else u.(timers := u.timers + [Timer(u.current, t.value, Armed)], deadlineTimer := Some(|u.timers|))
  }

  function Next(s: State, e: Step): State
    requires Enabled(s, e)
  {
    match e
    case Tick(elapsed) => s.(now := s.now + elapsed)
    case Call(r) => s.(readers := s.readers[r := Top])
    case Check(r) => s.(readers := s.readers[r := if Expired(s) then Returned(TimedOut) else Selecting(s.current)])
    case Wake(r) => s.(readers := s.readers[r := Woken])
    case Recheck(r) => s.(readers := s.readers[r := if Expired(s) then Returned(TimedOut) else Top])
    case Finish(r, outcome) => s.(readers := s.readers[r := Returned(outcome)])
    case SetDeadline(t) => SetReadDeadline(s, t)
    case Start(i) => s.(timers := s.timers[i := s.timers[i].(phase := Started)])
    case Callback(i) =>
      var u := s.(timers := s.timers[i := s.timers[i].(phase := Ran)]);
      if s.current == s.timers[i].ch then Replace(u) else u
  }

  /** A run: every step taken was enabled. */
  ghost predicate Reaches(s: State, steps: seq<Step>, t: State)
    decreases |steps|
  {
    if steps == [] then s == t
    else Enabled(s, steps[0]) && Reaches(Next(s, steps[0]), steps[1..], t)
  }

  // --- the invariant ----------------------------------------------------------

  ghost predicate Pending(s: State, i: nat, t: int) {
    i < |s.timers| && s.timers[i].ch == s.current && s.timers[i].due == t &&
        (s.timers[i].phase == Armed || s.timers[i].phase == Started)
  }

  ghost predicate WaitsOn(s: State, r: nat, ch: nat) { r in s.readers && s.readers[r] == Selecting(ch) }

  ghost predicate Channels(s: State) {
    && !s.doubleClose && s.current < s.next && s.current !in s.closed
    && (forall r, ch | WaitsOn(s, r, ch) :: ch in s.closed || ch == s.current)
    && (forall ch <- s.closed :: ch < s.next)
  }

  ghost predicate Timers(s: State) {
    forall i | 0 <= i < |s.timers| ::
      && s.timers[i].ch < s.next
      && (s.timers[i].phase == Started ==> s.timers[i].due <= s.now)
      && (s.timers[i].ch == s.current ==> s.deadline == Some(s.timers[i].due))
  }

  /** A set deadline still has its timer, or has passed with nobody waiting on the current channel. */
  ghost predicate Covered(s: State) {
    s.deadline.Some? ==>
      || (exists i :: Pending(s, i, s.deadline.value))
      || (Expired(s) && forall r :: !WaitsOn(s, r, s.current))
  }

  ghost predicate Inv(s: State) { Channels(s) && Timers(s) && Covered(s) }

  lemma SameWaits(s: State, t: State)
    requires s.readers == t.readers
    ensures forall r, ch :: WaitsOn(s, r, ch) == WaitsOn(t, r, ch)
  {}

  lemma CallbackKeepsInv(s: State, i: nat)
    requires Inv(s) && Enabled(s, Callback(i))
    ensures Inv(Next(s, Callback(i)))
  {
    var t := Next(s, Callback(i));
    SameWaits(s, t);
    if s.current != s.timers[i].ch && s.deadline.Some? {
      if j :| Pending(s, j, s.deadline.value) {
        assert Pending(t, j, s.deadline.value);
      }
    }
  }

  lemma SetKeepsInv(s: State, d: Option<int>)
    requires Inv(s)
    ensures Inv(Next(s, SetDeadline(d)))
  {
    var t := Next(s, SetDeadline(d));
    SameWaits(s, t);
    if d.Some? {
      assert Pending(t, |t.timers| - 1, d.value);
    }
  }

  lemma ReaderKeepsInv(s: State, e: Step)
    requires Inv(s) && Enabled(s, e) && (e.Call? || e.Check? || e.Wake? || e.Recheck? || e.Finish?)
    ensures Inv(Next(s, e))
  {
    var t := Next(s, e);
    assert forall i, d :: Pending(s, i, d) == Pending(t, i, d);
    assert forall r, ch | WaitsOn(t, r, ch) :: WaitsOn(s, r, ch) || (e == Check(r) && ch == s.current && !Expired(s));
  }

  lemma StepKeepsInv(s: State, e: Step)
    requires Inv(s) && Enabled(s, e)
    ensures Inv(Next(s, e))
  {
    var t := Next(s, e);
    match e {
      case Tick(_) =>
        assert forall i, d :: Pending(s, i, d) == Pending(t, i, d);
        assert forall r, ch :: WaitsOn(s, r, ch) == WaitsOn(t, r, ch);
      case Start(i) =>
        assert forall j, d :: Pending(s, j, d) == Pending(t, j, d);
        assert forall r, ch :: WaitsOn(s, r, ch) == WaitsOn(t, r, ch);
      case SetDeadline(d) => SetKeepsInv(s, d);
      case Callback(i) => CallbackKeepsInv(s, i);
      case _ => ReaderKeepsInv(s, e);
    }
  }

  lemma {:induction false} RunKeepsInv(s: State, steps: seq<Step>, t: State)
    requires Inv(s) && Reaches(s, steps, t)
    ensures Inv(t)
    decreases |steps|
  {
    if steps != [] {
      StepKeepsInv(s, steps[0]);
      RunKeepsInv(Next(s, steps[0]), steps[1..], t);
    }
  }

  // --- the theorems -----------------------------------------------------------

  /** The reader's own channel is closed, or the timer of the channel it waits on has started or is due. */
  ghost predicate HasWake(s: State, ch: nat) {
    || ch in s.closed
    || (s.deadline.Some? &&
        exists i: nat ::
          && Pending(s, i, s.deadline.value) && s.timers[i].ch == ch
          && (s.timers[i].phase == Started || s.timers[i].due <= s.now))
  }

  /**
   No lost timeout: in every reachable state, once the set deadline has passed,
   no reader waits without an enabled wake. And no channel is ever closed twice,
   which in Go would be a panic.
   */
  lemma NoLostTimeout(steps: seq<Step>, s: State)
    requires Reaches(BOOT, steps, s)
    ensures !s.doubleClose
    ensures Expired(s) ==> forall r, ch | WaitsOn(s, r, ch) :: HasWake(s, ch)
  {
    RunKeepsInv(BOOT, steps, s);
    if Expired(s) {
      forall r, ch | WaitsOn(s, r, ch) ensures HasWake(s, ch) {
        if ch !in s.closed {
          var i: nat :| Pending(s, i, s.deadline.value);
          assert s.timers[i].due <= s.now;
        }
      }
    }
  }

  /** The steps that are left to the timer `i` and the reader `r` alone. */
  function Delivery(s: State, r: nat, ch: nat, i: nat): seq<Step> {
    if ch in s.closed || i >= |s.timers| then [Wake(r), Recheck(r)]
    else if s.timers[i].phase == Started then [Callback(i), Wake(r), Recheck(r)]
    else [Start(i), Callback(i), Wake(r), Recheck(r)]
  }

  /** And the wake delivers: with no help from anyone else the waiting reader comes back with a timeout. */
  lemma TimeoutIsDelivered(steps: seq<Step>, s: State, r: nat, ch: nat)
    requires Reaches(BOOT, steps, s) && Expired(s) && WaitsOn(s, r, ch)
    ensures exists i: nat, t: State ::
      && Reaches(s, Delivery(s, r, ch, i), t)
      && r in t.readers && t.readers[r] == Returned(TimedOut)
  {
    NoLostTimeout(steps, s);
    assert HasWake(s, ch);
    var i: nat := |s.timers|;
    if ch in s.closed {
      WakeDelivers(s, r, ch);
      assert Delivery(s, r, ch, i) == [Wake(r), Recheck(r)];
    } else {
      i :| Pending(s, i, s.deadline.value) && s.timers[i].ch == ch &&
          (s.timers[i].phase == Started || s.timers[i].due <= s.now);
      var u := if s.timers[i].phase == Started then s else Next(s, Start(i));
      var v := Next(u, Callback(i));
      WakeDelivers(v, r, ch);
      var t := Next(Next(v, Wake(r)), Recheck(r));
      var tail := [Callback(i), Wake(r), Recheck(r)];
      assert tail[1..] == [Wake(r), Recheck(r)];
      assert Reaches(u, tail, t);
      var all := [Start(i), Callback(i), Wake(r), Recheck(r)];
      if s.timers[i].phase == Started {
        assert Delivery(s, r, ch, i) == tail;
      } else {
        assert all[1..] == tail;
        assert Reaches(s, all, t);
        assert Delivery(s, r, ch, i) == all;
      }
      assert Reaches(s, Delivery(s, r, ch, i), t);
    }
  }

  lemma WakeDelivers(s: State, r: nat, ch: nat)
    requires WaitsOn(s, r, ch) && ch in s.closed && Expired(s)
    ensures Enabled(s, Wake(r)) && Enabled(Next(s, Wake(r)), Recheck(r))
    ensures var t := Next(Next(s, Wake(r)), Recheck(r));
      Reaches(s, [Wake(r), Recheck(r)], t) && t.readers[r] == Returned(TimedOut)
  {
    var both := [Wake(r), Recheck(r)];
    assert both[1..] == [Recheck(r)] && [Recheck(r)][1..] == [];
    var t := Next(Next(s, Wake(r)), Recheck(r));
    assert Reaches(t, [], t);
    assert Reaches(Next(s, Wake(r)), [Recheck(r)], t);
  }

  /** A timeout is never reported early: the reader that returns one re-read a deadline that is set and has passed. */
  lemma TimeoutIsReal(s: State, e: Step, r: nat)
    requires Enabled(s, e) && r in Next(s, e).readers && Next(s, e).readers[r] == Returned(TimedOut)
    requires r !in s.readers || s.readers[r] != Returned(TimedOut)
    ensures Expired(s)
  {}

  // --- what a run amounts to --------------------------------------------------------

  /** The deadline the setters of a run leave behind, starting from `d`. */
  function LastSet(d: Option<int>, steps: seq<Step>): Option<int>
    decreases |steps|
  {
    if steps == [] then d else LastSet(if steps[0].SetDeadline? then steps[0].t else d, steps[1..])
  }

  function Elapsed(steps: seq<Step>): nat
    decreases |steps|
  {
    if steps == [] then 0 else (if steps[0].Tick? then steps[0].elapsed else 0) + Elapsed(steps[1..])
  }

  /** Of the timers ever made only the newest one set can still be armed. */
  ghost predicate OneArmed(s: State) {
    forall i: nat | i < |s.timers| && s.timers[i].phase == Armed :: s.deadlineTimer == Some(i)
  }

  lemma StepKeepsOneArmed(s: State, e: Step)
    requires OneArmed(s) && Enabled(s, e)
    ensures OneArmed(Next(s, e))
  {
    var u := Next(s, e);
    forall i: nat | i < |u.timers| && u.timers[i].phase == Armed ensures u.deadlineTimer == Some(i) {
      if i < |s.timers| && s.timers[i].phase == Armed { assert s.deadlineTimer == Some(i); }
    }
  }

  lemma {:induction false} RunSummary(s: State, steps: seq<Step>, t: State)
    requires Reaches(s, steps, t) && OneArmed(s)
    ensures t.deadline == LastSet(s.deadline, steps) && t.now == s.now + Elapsed(steps) && OneArmed(t)
    decreases |steps|
  {
    if steps != [] {
      StepKeepsOneArmed(s, steps[0]);
      RunSummary(Next(s, steps[0]), steps[1..], t);
    }
    hide OneArmed;
  }

  /**
   In every reachable state the deadline in force is the one set last, and at most one timer is armed. A call
   made now comes straight back with a timeout iff that deadline is set and its time has come, and otherwise
   waits, ready for a packet, on a channel that is still open.
   */
  lemma CallVerdict(steps: seq<Step>, s: State, r: nat)
    requires Reaches(BOOT, steps, s) && Enabled(s, Call(r))
    ensures var d := LastSet(None, steps);
      && s.deadline == d && OneArmed(s)
      && Enabled(Next(s, Call(r)), Check(r))
      && var u := Next(Next(s, Call(r)), Check(r));
        && r in u.readers
        && (d.Some? && d.value <= Elapsed(steps) ==> u.readers[r] == Returned(TimedOut))
        && (!(d.Some? && d.value <= Elapsed(steps)) ==>
              u.readers[r].Selecting? && u.readers[r].ch !in u.closed && Enabled(u, Finish(r, GotPacket)))
  {
    RunSummary(BOOT, steps, s);
    RunKeepsInv(BOOT, steps, s);
  }

  /** The same loop entered without looking at the deadline first. */
  function BlindCheck(s: State, r: nat): State
    requires Enabled(s, Check(r))
  {
    s.(readers := s.readers[r := Selecting(s.current)])
  }

  ghost predicate Lost(s: State, r: nat) { Expired(s) && WaitsOn(s, r, s.current) && !HasWake(s, s.current) }

  /**
   The check at the top of ReadFrom is what the theorem rests on: without it, a reader that arrives after the
   timer has run waits for ever.
   */
  lemma BlindReaderIsLost(r: nat)
    ensures exists s ::
      && Reaches(BOOT, [SetDeadline(Some(0)), Start(0), Callback(0), Call(r)], s)
      && Enabled(s, Check(r)) && Lost(BlindCheck(s, r), r)
  {
    var e0, e1, e2, e3 := SetDeadline(Some(0)), Start(0), Callback(0), Call(r);
    var s4 := SPENT.(readers := map[r := Top]);
    OneTimerRuns(r);
    TopMayCheck(s4, r);
    assert Lost(BlindCheck(s4, r), r);
    assert Reaches(s4, [], s4);
    hide *;
    Then(SPENT, e3, [], s4);
    Then(STARTED, e2, [e3] + [], s4);
    Then(ARMED, e1, [e2] + ([e3] + []), s4);
    Then(BOOT, e0, [e1] + ([e2] + ([e3] + [])), s4);
    assert [e0] + ([e1] + ([e2] + ([e3] + []))) == [e0, e1, e2, e3];
  }

  lemma Then(s: State, e: Step, steps: seq<Step>, t: State)
    requires Enabled(s, e) && Reaches(Next(s, e), steps, t)
    ensures Reaches(s, [e] + steps, t)
  {
    hide Next;
    hide Enabled;
    assert ([e] + steps)[1..] == steps;
  }

  const ARMED: State := State(0, 2, 1, {0}, false, Some(0), [Timer(1, 0, Armed)], Some(0), map[])
  const STARTED: State := ARMED.(timers := [Timer(1, 0, Started)])
  const SPENT: State := State(0, 3, 2, {0, 1}, false, Some(0), [Timer(1, 0, Ran)], Some(0), map[])

  /** A deadline set to now, and its timer run through, with nobody waiting; then a reader calls. */
  lemma OneTimerRuns(r: nat)
    ensures Enabled(BOOT, SetDeadline(Some(0))) && Next(BOOT, SetDeadline(Some(0))) == ARMED
    ensures Enabled(ARMED, Start(0)) && Next(ARMED, Start(0)) == STARTED
    ensures Enabled(STARTED, Callback(0)) && Next(STARTED, Callback(0)) == SPENT
    ensures Enabled(SPENT, Call(r)) && Next(SPENT, Call(r)) == SPENT.(readers := map[r := Top])
  {
    assert BOOT.closed + {0} == {0};
    assert [Timer(1, 0, Armed)][0 := Timer(1, 0, Started)] == [Timer(1, 0, Started)];
    assert [Timer(1, 0, Started)][0 := Timer(1, 0, Ran)] == [Timer(1, 0, Ran)];
  }

  lemma TopMayCheck(s: State, r: nat)
    requires r in s.readers && s.readers[r] == Top
    ensures Enabled(s, Check(r))
  {}
}
