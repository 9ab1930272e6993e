/**
 The wake-up protocol of the event ring. Producers in the kernel share one timestamp cell without a lock and
 decide for each record whether to wake the reader; the reader alternates between short timed polls and a long
 wait. The machine interleaves every read, write and submission of every producer with the reader's polls.
 */
module WakeProtocol {

  const U64: nat := 0x1_0000_0000_0000_0000
  const WAKE_GAP: nat := 20_000_000
  const REFRESH: nat := 1_000_000
  const BURST_TIMEOUT: nat := 5_000_000
  const IDLE_TIMEOUT: nat := 1_000_000_000
  const QUIET_POLLS: nat := 6

  /**
   The constants of both halves, the longest time from a record's timestamp to its submission, and whether a waking
   record forces its wake-up. The program does not force it: a record submitted with flags 0 wakes the reader only if
   the reader has read everything before it.
   */
  datatype Timing = Timing(gap: nat, refresh: nat, burst: nat, idle: nat, quietPolls: nat, latency: nat, forced: bool) {
    function Quiet(): nat { quietPolls * burst }

    predicate Sensible() { gap >= 1 && burst >= 1 && quietPolls >= 1 && latency >= 1 }
  }

  /** The constants of the program, for a given bound on the latency. */
  function Shipped(latency: nat): Timing {
    Timing(WAKE_GAP, REFRESH, BURST_TIMEOUT, IDLE_TIMEOUT, QUIET_POLLS, latency, false)
  }

  /** `now - seen` in unsigned 64-bit arithmetic. */
  function Elapsed(now: nat, seen: nat): int { if now >= seen then now - seen else now - seen + U64 }

  predicate Wakes(t: Timing, now: nat, seen: nat) { Elapsed(now, seen) >= t.gap }

  predicate Refreshes(t: Timing, now: nat, seen: nat) { Wakes(t, now, seen) || Elapsed(now, seen) >= t.refresh }

  // ---- the two halves as they are written ----------------------------------------------------

  /** The shared cell. */
  class WakeCell {
    var last: nat

    /** `wake_flags`, run without interference; true is `BPF_RB_NO_WAKEUP`. */
    method WakeFlags(now: nat) returns (noWakeup: bool)
      modifies this
      ensures noWakeup == !Wakes(Shipped(0), now, old(last))
      ensures last == if Refreshes(Shipped(0), now, old(last)) then now else old(last)
    {
      var seen := last;
      if Elapsed(now, seen) >= WAKE_GAP {
        last := now;
        return false;
      }
      if Elapsed(now, seen) >= REFRESH { last := now; }
      return true;
    }
  }

  datatype Mode = Burst | Waiting

  /** What the reader loop does with the outcome of one poll. */
  function AfterPoll(t: Timing, mode: Mode, quiet: nat, found: bool): (Mode, nat) {
    if found then (Burst, 0)
    else if mode == Burst then (if quiet + 1 >= t.quietPolls then Waiting else Burst, quiet + 1)
    else (mode, quiet)
  }

  class Reader {
    var timeout: nat
    var quietPolls: nat

    ghost predicate Valid()
      reads this
    {
      timeout == IDLE_TIMEOUT || timeout == BURST_TIMEOUT
    }

    ghost function Mode(): Mode
      reads this
    {
      if timeout == BURST_TIMEOUT then Burst else Waiting
    }

    /** One turn of the loop in `run`, after `ring_buffer__poll` and `ring_buffer__consume`. */
    method Polled(polled: nat, consumed: nat)
      requires Valid()
      modifies this
      ensures Valid()
      ensures (Mode(), quietPolls) == AfterPoll(Shipped(0), old(Mode()), old(quietPolls), polled > 0 || consumed > 0)
    {
      if polled > 0 || consumed > 0 {
        quietPolls := 0;
        timeout := BURST_TIMEOUT;
      } else if timeout == BURST_TIMEOUT {
        quietPolls := quietPolls + 1;
        if quietPolls >= QUIET_POLLS { timeout := IDLE_TIMEOUT; }
      }
    }
  }

  // ---- the machine ---------------------------------------------------------------------------

  /** A record between its timestamp and its submission. */
  datatype Flight =
    | Stamped(stamp: nat)
    | Looked(stamp: nat, seen: nat, stored: bool)

  /** A record in the ring, not yet read. */
  datatype Unread = Unread(stamp: nat, at: nat)

  /**
   `lastActive` is the time of the last poll that found a record (or of the start), `lastFinish` that of the last
   record submitted or dropped, `latest` the latest timestamp taken, `pollStart` the start of the poll now running.
   */
  datatype State = State(now: nat, cell: nat, flying: map<nat, Flight>, ring: seq<Unread>, signalled: bool,
                         mode: Mode, quiet: nat, pollStart: nat, lastActive: nat, lastFinish: nat, latest: nat)

  datatype Event =
    | Tick(now: nat)
    | Stamp(p: nat)
    | Look(p: nat)
    | Store(p: nat)
    | Submit(p: nat)
    | Drop(p: nat)
    | Return

  predicate Waker(t: Timing, f: Flight) { f.Looked? && Wakes(t, f.stamp, f.seen) }

  /** Whether this record, submitted now, wakes the reader. */
  predicate Signals(t: Timing, s: State, f: Flight) { Waker(t, f) && (t.forced || s.ring == []) }

  /** Before it can be submitted, a record has refreshed the cell if it must. */
  predicate Submittable(t: Timing, f: Flight) { f.Looked? && (f.stored || !Refreshes(t, f.stamp, f.seen)) }

  /** Time passes only as far as no record in flight exceeds the latency bound. */
  predicate InTime(t: Timing, s: State, now: nat) {
    forall p :: p in s.flying ==> now < s.flying[p].stamp + t.latency
  }

  /**
   A poll ends when its timeout has passed in full. The long wait ends early for a wake-up and for nothing else; a short
   poll may also end early because there is something to read, as the poll after a woken one does.
   */
  predicate CanReturn(t: Timing, s: State) {
    || (if s.mode == Waiting then s.signalled else s.ring != [])
    || s.now >= s.pollStart + (if s.mode == Burst then t.burst else t.idle)
  }

  predicate Enabled(t: Timing, e: Event, s: State) {
    match e
    case Tick(now) => s.now <= now < U64 && InTime(t, s, now)
    case Stamp(p) => p !in s.flying
    case Look(p) => p in s.flying && s.flying[p].Stamped?
    case Store(p) => p in s.flying && s.flying[p].Looked? && Refreshes(t, s.flying[p].stamp, s.flying[p].seen)
    case Submit(p) => p in s.flying && Submittable(t, s.flying[p])
    case Drop(p) => p in s.flying && Submittable(t, s.flying[p]) && s.ring != []
    case Return => CanReturn(t, s)
  }

  function Next(t: Timing, e: Event, s: State): State
    requires Enabled(t, e, s)
  {
    match e
    case Tick(now) => s.(now := now)
    case Stamp(p) => s.(flying := s.flying[p := Stamped(s.now)], latest := s.now)
    case Look(p) => s.(flying := s.flying[p := Looked(s.flying[p].stamp, s.cell, false)])
    case Store(p) => s.(cell := s.flying[p].stamp, flying := s.flying[p := s.flying[p].(stored := true)])
    case Submit(p) =>
      s.(flying := s.flying - {p}, ring := s.ring + [Unread(s.flying[p].stamp, s.now)], lastFinish := s.now,
         signalled := s.signalled || Signals(t, s, s.flying[p]))
    case Drop(p) => s.(flying := s.flying - {p}, lastFinish := s.now)
    case Return =>
      var (mode, quiet) := AfterPoll(t, s.mode, s.quiet, s.ring != []);
      s.(ring := [], signalled := false, mode := mode, quiet := quiet, pollStart := s.now,
         lastActive := if s.ring != [] then s.now else s.lastActive)
  }

  /**
   With forced wake-ups, a waking record that the full ring refuses is excluded: it would take its wake-up with it.
   */
  predicate Delivers(t: Timing, e: Event, s: State) {
    t.forced && e.Drop? && e.p in s.flying ==> !Waker(t, s.flying[e.p])
  }

  /** A record without a wake-up enters the empty ring of a waiting reader ahead of a waking one in flight. */
  ghost predicate Overtakes(t: Timing, e: Event, s: State) {
    && e.Submit? && e.p in s.flying && !Waker(t, s.flying[e.p]) && s.mode == Waiting && s.ring == []
    && exists q :: q in s.flying && Waker(t, s.flying[q])
  }

  ghost predicate StepAt(t: Timing, states: seq<State>, events: seq<Event>, i: nat)
    requires |states| == |events| + 1 && i < |events|
  {
    Enabled(t, events[i], states[i]) && Delivers(t, events[i], states[i]) &&
        states[i + 1] == Next(t, events[i], states[i])
  }

  ghost predicate Run(t: Timing, states: seq<State>, events: seq<Event>) {
    |states| == |events| + 1 &&
    forall i {:trigger StepAt(t, states, events, i)} :: 0 <= i < |events| ==> StepAt(t, states, events, i)
  }

  ghost predicate OvertakenAt(t: Timing, states: seq<State>, events: seq<Event>, i: nat) {
    i < |events| && i < |states| && Overtakes(t, events[i], states[i])
  }

  /** No record overtakes. */
  ghost predicate Orderly(t: Timing, states: seq<State>, events: seq<Event>) {
    forall i {:trigger OvertakenAt(t, states, events, i)} :: 0 <= i < |events| ==> !OvertakenAt(t, states, events, i)
  }

  /** The reader starts in the long wait, with the machine up for longer than the quiet time and nothing recorded. */
  predicate Begins(t: Timing, s: State) {
    s.cell == 0 && s.flying == map[] && s.ring == [] && !s.signalled && s.mode == Waiting &&
    s.lastActive == 0 && s.lastFinish == 0 && s.latest == 0 && t.Quiet() <= s.now < U64 && s.pollStart == s.now
  }

  // ---- the invariant -------------------------------------------------------------------------

  /** Every value read from the cell is the time of some record made by then. */
  predicate Past(s: State, f: Flight) {
    f.stamp <= s.now && (f.Looked? ==> f.seen <= s.now)
  }

  predicate HasLooked(s: State, p: nat) { p in s.flying && s.flying[p].Looked? }

  /** Some record in flight read a value no younger than the last finished record, if any has read at all. */
  ghost predicate FirstLooker(s: State) {
    (exists p :: HasLooked(s, p)) ==> exists p :: HasLooked(s, p) && s.flying[p].seen <= s.lastFinish
  }

  /** The cell holds the time of a finished record or of one still in flight. */
  ghost predicate CellOk(s: State) {
    s.cell <= s.lastFinish || exists p :: HasLooked(s, p) && s.flying[p].stored && s.flying[p].stamp == s.cell
  }

  /** A waking record in flight that will wake the reader, and was stamped before everything unread was submitted. */
  predicate Rescues(t: Timing, s: State, p: nat) {
    p in s.flying && Signals(t, s, s.flying[p]) && forall i :: 0 <= i < |s.ring| ==> s.ring[i].at >= s.flying[p].stamp
  }

  ghost predicate ReaderOk(t: Timing, s: State) {
    match s.mode
    case Burst => s.pollStart >= s.lastActive + s.quiet * t.burst && s.quiet < t.quietPolls
    case Waiting =>
      s.signalled || (exists p :: Rescues(t, s, p)) ||
      (s.ring == [] && s.lastFinish + t.Quiet() <= s.pollStart && forall p :: p in s.flying ==> s.flying[p].Stamped?)
  }

  ghost predicate Inv(t: Timing, s: State) {
    s.now < U64 && s.cell <= s.now && s.pollStart <= s.now && s.lastActive <= s.now && s.lastFinish <= s.now &&
    InTime(t, s, s.now) && (forall p :: p in s.flying ==> Past(s, s.flying[p])) &&
    (s.ring == [] ==> s.lastFinish <= s.lastActive) && (s.signalled ==> s.ring != []) &&
    (forall i :: 0 <= i < |s.ring| ==> s.ring[i].at <= s.now) &&
    FirstLooker(s) && CellOk(s) && ReaderOk(t, s)
  }

  /** The constants fit: the quiet time covers the gap and the latency. */
  predicate Fits(t: Timing) { t.Sensible() && t.Quiet() + 1 >= t.gap + t.latency }

  /** A record in flight at `now` that read a value at least the quiet time old decides to wake. */
  lemma OldValueWakes(t: Timing, now: nat, since: nat, stamp: nat, seen: nat)
    requires Fits(t) && seen + t.Quiet() <= since <= now < stamp + t.latency
    ensures Wakes(t, stamp, seen)
  {
  }

  // ---- every event keeps it ------------------------------------------------------------------

  lemma TickKeeps(t: Timing, s: State, now: nat)
    requires Fits(t) && Inv(t, s) && Enabled(t, Tick(now), s)
    ensures Inv(t, s.(now := now))
  {
    var after := s.(now := now);
    assert forall p :: HasLooked(after, p) <==> HasLooked(s, p);
    if exists p :: Rescues(t, s, p) { var p :| Rescues(t, s, p); assert Rescues(t, after, p); }
  }

  lemma StampKeeps(t: Timing, s: State, p: nat)
    requires Fits(t) && Inv(t, s) && Enabled(t, Stamp(p), s)
    ensures Inv(t, Next(t, Stamp(p), s))
  {
    var after := Next(t, Stamp(p), s);
    assert forall q :: HasLooked(after, q) <==> HasLooked(s, q);
    if exists q :: Rescues(t, s, q) { var q :| Rescues(t, s, q); assert Rescues(t, after, q); }
  }

  lemma LookKeeps(t: Timing, s: State, p: nat)
    requires Fits(t) && Inv(t, s) && Enabled(t, Look(p), s)
    ensures Inv(t, Next(t, Look(p), s))
  {
    var after := Next(t, Look(p), s);
    assert HasLooked(after, p);
    assert forall q :: q != p ==> (HasLooked(after, q) <==> HasLooked(s, q));
    if q :| HasLooked(s, q) && s.flying[q].seen <= s.lastFinish {
      assert HasLooked(after, q) && after.flying[q].seen <= after.lastFinish;
    } else {
      assert s.cell <= s.lastFinish;
      assert after.flying[p].seen <= after.lastFinish;
    }
    if s.cell > s.lastFinish {
      var q :| HasLooked(s, q) && s.flying[q].stored && s.flying[q].stamp == s.cell;
      assert HasLooked(after, q) && after.flying[q].stored && after.flying[q].stamp == after.cell;
    }
    if s.mode == Waiting && !s.signalled {
      if q :| Rescues(t, s, q) {
        assert Rescues(t, after, q);
      } else {
        OldValueWakes(t, s.now, s.pollStart, s.flying[p].stamp, s.cell);
        assert Rescues(t, after, p);
      }
    }
  }

  lemma StoreKeeps(t: Timing, s: State, p: nat)
    requires Fits(t) && Inv(t, s) && Enabled(t, Store(p), s)
    ensures Inv(t, Next(t, Store(p), s))
  {
    var after := Next(t, Store(p), s);
    assert HasLooked(s, p) && HasLooked(after, p) && after.flying[p].stamp == after.cell;
    var q :| HasLooked(s, q) && s.flying[q].seen <= s.lastFinish;
    assert HasLooked(after, q) && after.flying[q].seen <= after.lastFinish;
    if s.mode == Waiting && !s.signalled {
      var r :| Rescues(t, s, r);
      assert Rescues(t, after, r);
    }
  }

  lemma FinishKeepsFlight(t: Timing, s: State, p: nat, after: State)
    requires Inv(t, s) && p in s.flying
    requires after.flying == s.flying - {p} && after.now == s.now && after.cell == s.cell && after.lastFinish == s.now
    ensures FirstLooker(after) && CellOk(after) && InTime(t, after, after.now)
    ensures forall q :: q in after.flying ==> Past(after, after.flying[q])
  {
    if q :| HasLooked(after, q) {
      assert Past(s, s.flying[q]);
      assert HasLooked(after, q) && after.flying[q].seen <= after.lastFinish;
    }
  }

  lemma SubmitKeeps(t: Timing, s: State, p: nat)
    requires Fits(t) && Inv(t, s) && Enabled(t, Submit(p), s) && (t.forced || !Overtakes(t, Submit(p), s))
    ensures Inv(t, Next(t, Submit(p), s))
  {
    var after := Next(t, Submit(p), s);
    FinishKeepsFlight(t, s, p, after);
    assert forall i :: 0 <= i < |after.ring| ==> after.ring[i].at <= after.now;
    if s.mode == Waiting && !after.signalled {
      var q :| Rescues(t, s, q);
      assert q != p && Past(s, s.flying[q]);
      assert t.forced;
      assert Rescues(t, after, q);
    }
  }

  lemma DropKeeps(t: Timing, s: State, p: nat)
    requires Fits(t) && Inv(t, s) && Enabled(t, Drop(p), s) && Delivers(t, Drop(p), s)
    ensures Inv(t, Next(t, Drop(p), s))
  {
    var after := Next(t, Drop(p), s);
    FinishKeepsFlight(t, s, p, after);
    if s.mode == Waiting && !s.signalled {
      var q :| Rescues(t, s, q);
      assert q != p;
      assert Rescues(t, after, q);
    }
  }

  lemma QuietStep(quiet: nat, burst: nat, active: nat, start: nat, now: nat)
    requires start >= active + quiet * burst && now >= start + burst
    ensures now >= active + (quiet + 1) * burst
  {
  }

  lemma ReturnKeeps(t: Timing, s: State)
    requires Fits(t) && Inv(t, s) && Enabled(t, Return, s)
    ensures Inv(t, Next(t, Return, s))
  {
    var after := Next(t, Return, s);
    assert forall q :: HasLooked(after, q) <==> HasLooked(s, q);
    if s.ring != [] {
      assert 0 * t.burst == 0;
    } else if s.mode == Burst {
      QuietStep(s.quiet, t.burst, s.lastActive, s.pollStart, s.now);
      if after.mode == Waiting {
        assert s.quiet + 1 == t.quietPolls;
        if q :| HasLooked(s, q) && s.flying[q].seen <= s.lastFinish {
          OldValueWakes(t, s.now, s.now, s.flying[q].stamp, s.flying[q].seen);
          assert Rescues(t, after, q);
        } else {
          assert forall q :: q in after.flying ==> !HasLooked(s, q);
        }
      }
    } else {
      if q :| Rescues(t, s, q) { assert Rescues(t, after, q); }
    }
  }

  lemma NextKeeps(t: Timing, e: Event, s: State)
    requires Fits(t) && Inv(t, s) && Enabled(t, e, s) && Delivers(t, e, s) && (t.forced || !Overtakes(t, e, s))
    ensures Inv(t, Next(t, e, s))
  {
    match e
    case Tick(now) => TickKeeps(t, s, now);
    case Stamp(p) => StampKeeps(t, s, p);
    case Look(p) => LookKeeps(t, s, p);
    case Store(p) => StoreKeeps(t, s, p);
    case Submit(p) => SubmitKeeps(t, s, p);
    case Drop(p) => DropKeeps(t, s, p);
    case Return => ReturnKeeps(t, s);
  }

  // ---- every run -----------------------------------------------------------------------------

  lemma {:induction false} RunKeeps(t: Timing, states: seq<State>, events: seq<Event>, k: nat)
    requires Fits(t) && Run(t, states, events) && Begins(t, states[0]) && k <= |events|
    requires t.forced || forall i {:trigger OvertakenAt(t, states, events, i)} :: 0 <= i < k ==>
               !OvertakenAt(t, states, events, i)
    ensures Inv(t, states[k])
  {
    if k > 0 {
      assert StepAt(t, states, events, k - 1);
      RunKeeps(t, states, events, k - 1);
      assert t.forced || !OvertakenAt(t, states, events, k - 1);
      NextKeeps(t, events[k - 1], states[k - 1]);
    }
  }

  /** No unread record has waited this long. */
  predicate Waits(s: State, bound: nat) { forall i :: 0 <= i < |s.ring| ==> s.now < s.ring[i].at + bound }

  /**
   No lost wake-up, with forced wake-ups or where no record overtakes: while the reader sits in the long wait with a
   record unread, the wake-up is already delivered, or it is forced and about to be delivered by a record in flight, and
   then no unread record has waited as long as the latency bound.
   */
  lemma NoLostWakeup(t: Timing, states: seq<State>, events: seq<Event>, k: nat)
    requires Fits(t) && Run(t, states, events) && Begins(t, states[0]) && k <= |events| &&
             (t.forced || Orderly(t, states, events))
    requires states[k].mode == Waiting && states[k].ring != []
    ensures states[k].signalled ||
            (t.forced && Waits(states[k], t.latency) &&
             exists p :: p in states[k].flying && Waker(t, states[k].flying[p]))
  {
    RunKeeps(t, states, events, k);
    var s := states[k];
    if !s.signalled {
      var p :| Rescues(t, s, p);
      assert p in s.flying && Waker(t, s.flying[p]);
    }
  }

  /** The shipped constants fit exactly the latencies up to 10 ms. */
  lemma ShippedConstantsFit(latency: nat)
    requires latency >= 1
    ensures Fits(Shipped(latency)) <==> latency <= 10_000_001
  {
    assert Shipped(latency).Quiet() == 30_000_000;
  }

  predicate CellBehind(s: State) {
    s.cell <= s.latest <= s.now && forall p :: p in s.flying ==> s.flying[p].stamp <= s.latest
  }

  lemma NextKeepsCellBehind(t: Timing, e: Event, s: State)
    requires CellBehind(s) && Enabled(t, e, s)
    ensures CellBehind(Next(t, e, s))
  {
  }

  /** Whatever the constants and the interleaving, the shared cell never exceeds the latest timestamp taken. */
  lemma {:induction false} CellNeverAhead(t: Timing, states: seq<State>, events: seq<Event>, k: nat)
    requires Run(t, states, events) && Begins(t, states[0]) && k <= |events|
    ensures CellBehind(states[k])
  {
    if k > 0 {
      assert StepAt(t, states, events, k - 1);
      CellNeverAhead(t, states, events, k - 1);
      NextKeepsCellBehind(t, events[k - 1], states[k - 1]);
    }
  }

  // ---- when a wake-up is lost ------------------------------------------------------------------

  /** The reader sleeps on an unread record and nothing in flight will wake it. */
  predicate Lost(t: Timing, s: State) {
    s.mode == Waiting && s.ring != [] && !s.signalled && forall p :: p in s.flying ==> !Signals(t, s, s.flying[p])
  }

  /** With constants that fit and forced wake-ups, or no record overtaking, no run ever loses a wake-up. */
  lemma NeverLost(t: Timing, states: seq<State>, events: seq<Event>, k: nat)
    requires Fits(t) && Run(t, states, events) && Begins(t, states[0]) && k <= |events| &&
             (t.forced || Orderly(t, states, events))
    ensures !Lost(t, states[k])
  {
    if states[k].mode == Waiting && states[k].ring != [] { NoLostWakeup(t, states, events, k); }
  }

  lemma {:induction false} SignalledHasRecord(t: Timing, states: seq<State>, events: seq<Event>, k: nat)
    requires Run(t, states, events) && Begins(t, states[0]) && k <= |events|
    ensures states[k].signalled ==> states[k].ring != []
  {
    if k > 0 {
      assert StepAt(t, states, events, k - 1);
      SignalledHasRecord(t, states, events, k - 1);
    }
  }

  /**
   The program's wake-ups, exactly: with constants that fit, a run loses a wake-up if and only if in it a record without
   a wake-up is submitted into the empty ring of the waiting reader ahead of a waking one in flight.
   */
  lemma LostIffOvertaken(t: Timing, states: seq<State>, events: seq<Event>)
    requires Fits(t) && !t.forced && Run(t, states, events) && Begins(t, states[0])
    ensures (exists k :: 0 <= k <= |events| && Lost(t, states[k])) <==> !Orderly(t, states, events)
  {
    if Orderly(t, states, events) {
      forall k | 0 <= k <= |events|
        ensures !Lost(t, states[k])
      {
        NeverLost(t, states, events, k);
      }
    } else {
      var i :| 0 <= i < |events| && OvertakenAt(t, states, events, i);
      assert StepAt(t, states, events, i);
      SignalledHasRecord(t, states, events, i);
      assert Lost(t, states[i + 1]);
    }
  }

  /**
   Nothing but the end of the poll ends it: what is submitted behind a lost record does not wake the reader either.
   */
  lemma {:induction false} LostUntilTimeout(t: Timing, states: seq<State>, events: seq<Event>, k: nat, m: nat)
    requires !t.forced && Run(t, states, events) && k <= m <= |events| && Lost(t, states[k])
    requires forall i :: k <= i < m ==> !events[i].Return?
    ensures Lost(t, states[m]) && states[m].pollStart == states[k].pollStart && states[k].ring <= states[m].ring
    decreases m
  {
    if k < m {
      LostUntilTimeout(t, states, events, k, m - 1);
      assert StepAt(t, states, events, m - 1);
    }
  }

  /** So the first poll to end after a wake-up was lost ends with the long timeout, and everything has waited for it. */
  lemma WaitsForTimeout(t: Timing, states: seq<State>, events: seq<Event>, k: nat, m: nat)
    requires !t.forced && Run(t, states, events) && k <= m < |events| && Lost(t, states[k])
    requires events[m].Return? && forall i :: k <= i < m ==> !events[i].Return?
    ensures states[m].now >= states[k].pollStart + t.idle && states[k].ring <= states[m].ring
  {
    LostUntilTimeout(t, states, events, k, m);
    assert StepAt(t, states, events, m);
  }

  lemma Join(t: Timing, s1: seq<State>, e1: seq<Event>, s2: seq<State>, e2: seq<Event>)
    requires Run(t, s1, e1) && Run(t, s2, e2) && s1[|e1|] == s2[0]
    ensures Run(t, s1 + s2[1..], e1 + e2) && (s1 + s2[1..])[0] == s1[0] && (s1 + s2[1..])[|e1 + e2|] == s2[|e2|]
    ensures Orderly(t, s1, e1) && Orderly(t, s2, e2) ==> Orderly(t, s1 + s2[1..], e1 + e2)
  {
    var ss, es := s1 + s2[1..], e1 + e2;
    forall i | 0 <= i < |es| ensures StepAt(t, ss, es, i) {
      if i < |e1| {
        assert StepAt(t, s1, e1, i);
        assert ss[i] == s1[i] && ss[i + 1] == s1[i + 1] && es[i] == e1[i];
      } else {
        assert StepAt(t, s2, e2, i - |e1|);
        assert ss[i] == s2[i - |e1|] && ss[i + 1] == s2[i - |e1| + 1] && es[i] == e2[i - |e1|];
      }
    }
    if Orderly(t, s1, e1) && Orderly(t, s2, e2) {
      forall i | 0 <= i < |es| ensures !OvertakenAt(t, ss, es, i) {
        if i < |e1| {
          assert !OvertakenAt(t, s1, e1, i) && ss[i] == s1[i] && es[i] == e1[i];
        } else {
          assert !OvertakenAt(t, s2, e2, i - |e1|) && ss[i] == s2[i - |e1|] && es[i] == e2[i - |e1|];
        }
      }
    }
  }

  lemma One(t: Timing, s: State, e: Event) returns (states: seq<State>, events: seq<Event>)
    requires Enabled(t, e, s) && Delivers(t, e, s)
    ensures Run(t, states, events) && states[0] == s && states[|events|] == Next(t, e, s)
    ensures !Overtakes(t, e, s) ==> Orderly(t, states, events)
  {
    states, events := [s, Next(t, e, s)], [e];
    assert StepAt(t, states, events, 0);
  }

  /** One more event at the end of a run. */
  lemma Then(t: Timing, states: seq<State>, events: seq<Event>, e: Event)
    returns (states': seq<State>, events': seq<Event>)
    requires Run(t, states, events) && Enabled(t, e, states[|events|]) && Delivers(t, e, states[|events|])
    ensures Run(t, states', events') && states'[0] == states[0] && states'[|events'|] == Next(t, e, states[|events|])
    ensures Orderly(t, states, events) && !Overtakes(t, e, states[|events|]) ==> Orderly(t, states', events')
  {
    var s2, e2 := One(t, states[|events|], e);
    Join(t, states, events, s2, e2);
    states', events' := states + s2[1..], events + e2;
  }

  /**
   The shipped program can lose a wake-up: a record without a wake-up overtakes the waking one between its look at the
   cell and its submission, and the waking one then lands behind an unread record and wakes nobody. The long wait has
   just begun, so by `WaitsForTimeout` both records wait for all of it. The constants play no part in it.
   */
  lemma OvertakingLoses(t: Timing, start: State) returns (states: seq<State>, events: seq<Event>)
    requires t.Sensible() && !t.forced && t.refresh >= 1 && Begins(t, start) && start.now >= t.gap
    ensures Run(t, states, events) && states[0] == start
    ensures Lost(t, states[|events|]) && |states[|events|].ring| == 2 && states[|events|].flying == map[]
    ensures states[|events|].pollStart == states[|events|].now == start.now
  {
    states, events := One(t, start, Stamp(0));
    states, events := Then(t, states, events, Look(0));
    states, events := Then(t, states, events, Store(0));
    states, events := Then(t, states, events, Stamp(1));
    states, events := Then(t, states, events, Look(1));
    states, events := Then(t, states, events, Submit(1));
    states, events := Then(t, states, events, Submit(0));
    assert states[|events|].flying == map[];
  }

  /** However such a run goes on, both records are unread until the long timeout has passed. */
  lemma BothWait(t: Timing, start: State, states: seq<State>, events: seq<Event>, m: nat)
    returns (first: seq<State>, steps: seq<Event>)
    requires t.Sensible() && !t.forced && t.refresh >= 1 && Begins(t, start) && start.now >= t.gap
    ensures Run(t, first, steps) && first[0] == start && |first[|steps|].ring| == 2
    ensures Run(t, states, events) && states[0] == first[|steps|] && m < |events| && events[m].Return? &&
            (forall i :: 0 <= i < m ==> !events[i].Return?) ==>
              states[m].now >= start.now + t.idle && first[|steps|].ring <= states[m].ring
  {
    first, steps := OvertakingLoses(t, start);
    if Run(t, states, events) && states[0] == first[|steps|] && m < |events| && events[m].Return? &&
       (forall i :: 0 <= i < m ==> !events[i].Return?)
    {
      WaitsForTimeout(t, states, events, 0, m);
    }
  }

  /** Whatever the latency, also one that the shipped constants fit. */
  lemma LostAsShipped(latency: nat, start: State) returns (states: seq<State>, events: seq<Event>)
    requires latency >= 1 && Begins(Shipped(latency), start)
    ensures Run(Shipped(latency), states, events) && states[0] == start && Lost(Shipped(latency), states[|events|])
    ensures Fits(Shipped(latency)) ==> !Orderly(Shipped(latency), states, events)
  {
    assert Shipped(latency).Quiet() == 30_000_000;
    states, events := OvertakingLoses(Shipped(latency), start);
    if Fits(Shipped(latency)) { LostIffOvertaken(Shipped(latency), states, events); }
  }

  /** When a reader in short polls goes to the long wait if it finds nothing. */
  function Deadline(t: Timing, s: State): int { s.pollStart + (t.quietPolls - s.quiet) * t.burst }

  lemma DeadlineSteps(t: Timing, polls: int)
    ensures polls * t.burst == (polls - 1) * t.burst + t.burst
    ensures polls >= 0 ==> polls * t.burst >= 0
  {
  }

  predicate Polling(t: Timing, s: State) {
    t.Sensible() && s.ring == [] && !s.signalled && s.mode == Burst && s.quiet < t.quietPolls &&
    s.pollStart <= s.now <= s.pollStart + t.burst
  }

  /** One short poll that times out. */
  lemma OnePoll(t: Timing, s: State) returns (states: seq<State>, events: seq<Event>)
    requires Polling(t, s) && s.pollStart + t.burst < U64 && InTime(t, s, s.pollStart + t.burst)
    ensures Run(t, states, events) && states[0] == s
    ensures var end := s.pollStart + t.burst;
            states[|events|] == s.(now := end, pollStart := end, quiet := s.quiet + 1,
                                   mode := if s.quiet + 1 >= t.quietPolls then Waiting else Burst)
    ensures Deadline(t, states[|events|]) == Deadline(t, s) && Orderly(t, states, events)
  {
    states, events := One(t, s, Tick(s.pollStart + t.burst));
    states, events := Then(t, states, events, Return);
    DeadlineSteps(t, t.quietPolls - s.quiet);
  }

  /** Nothing but the clock and the reader's own bookkeeping changed. */
  predicate SameButReader(a: State, b: State) {
    a == b.(now := a.now, mode := a.mode, quiet := a.quiet, pollStart := a.pollStart)
  }

  /** A reader in short polls over an empty ring reaches any time up to its deadline, and at the deadline it waits. */
  lemma {:induction false} PollUntil(t: Timing, s: State, target: nat) returns (states: seq<State>, events: seq<Event>)
    requires Polling(t, s) && s.now <= target < U64 && target <= Deadline(t, s) && InTime(t, s, target)
    ensures Run(t, states, events) && states[0] == s
    ensures SameButReader(states[|events|], s) && states[|events|].now == target &&
            Deadline(t, states[|events|]) == Deadline(t, s)
    ensures if target == Deadline(t, s) then states[|events|].mode == Waiting else Polling(t, states[|events|])
    ensures Orderly(t, states, events)
    decreases t.quietPolls - s.quiet
  {
    DeadlineSteps(t, t.quietPolls - s.quiet);
    DeadlineSteps(t, t.quietPolls - s.quiet - 1);
    if target < s.pollStart + t.burst {
      states, events := One(t, s, Tick(target));
    } else {
      states, events := OnePoll(t, s);
      var next := states[|events|];
      if next.mode == Burst {
        var more, steps := PollUntil(t, next, target);
        Join(t, states, events, more, steps);
        states, events := states + more[1..], events + steps;
      }
    }
  }

  /** The first record wakes the reader, which reads it and turns to short polls. */
  lemma FirstRecord(t: Timing, start: State) returns (states: seq<State>, events: seq<Event>)
    requires t.Sensible() && Begins(t, start) && start.now >= t.gap
    ensures Run(t, states, events) && states[0] == start && Polling(t, states[|events|])
    ensures states[|events|].now == start.now && states[|events|].cell == start.now && states[|events|].flying == map[]
    ensures Deadline(t, states[|events|]) == start.now + t.Quiet() && Orderly(t, states, events)
  {
    states, events := One(t, start, Stamp(0));
    states, events := Then(t, states, events, Look(0));
    states, events := Then(t, states, events, Store(0));
    states, events := Then(t, states, events, Submit(0));
    assert states[|events|].flying == map[];
    states, events := Then(t, states, events, Return);
  }

  /** A record stamped `age` before the deadline, early enough not to wake, is held back until the deadline. */
  lemma HeldBack(t: Timing, s: State, age: nat) returns (states: seq<State>, events: seq<Event>)
    requires Polling(t, s) && s.flying == map[] && s.now < U64 && s.now == s.cell
    requires Deadline(t, s) < U64 && s.now + age <= Deadline(t, s) && age < t.latency
    requires Deadline(t, s) - age - s.cell < t.gap
    ensures Run(t, states, events) && states[0] == s && Lost(t, states[|events|]) && Orderly(t, states, events)
  {
    var stamp := Deadline(t, s) - age;
    states, events := PollUntil(t, s, stamp);
    states, events := Then(t, states, events, Stamp(1));
    states, events := Then(t, states, events, Look(1));
    var f := states[|events|].flying[1];
    if Refreshes(t, f.stamp, f.seen) { states, events := Then(t, states, events, Store(1)); }
    if age > 0 {
      var more, steps := PollUntil(t, states[|events|], Deadline(t, s));
      Join(t, states, events, more, steps);
      states, events := states + more[1..], events + steps;
    }
    states, events := Then(t, states, events, Submit(1));
  }

  /**
   The constants are exact, with the program's wake-ups and with forced ones: whenever the quiet time does not cover the
   gap and the latency, some run in which no record overtakes loses a wake-up.
   */
  lemma OtherwiseLost(t: Timing, start: State) returns (states: seq<State>, events: seq<Event>)
    requires t.Sensible() && !Fits(t) && Begins(t, start) && start.now >= t.gap && start.now + t.Quiet() < U64
    ensures Run(t, states, events) && states[0] == start && Lost(t, states[|events|]) && Orderly(t, states, events)
  {
    var age := if t.latency - 1 <= t.Quiet() then t.latency - 1 else t.Quiet();
    states, events := FirstRecord(t, start);
    var more, steps := HeldBack(t, states[|events|], age);
    Join(t, states, events, more, steps);
    states, events := states + more[1..], events + steps;
  }
}
