/**
 What is executed was admitted. Over every run, each execution goes back to a delivery of the command that met every
 condition of admission at that moment, and the readings kept for the rate limit are those of a clock in order.
 */
module CommandAdmission {
  import opened Text
  import opened LedgerFormat
  import opened CommandPolicy
  import opened CommandMachine

  /** The `j`th event delivers the command, at that time, with everything admission asks for. */
  ghost predicate AdmittedAt(cfg: Config, worlds: seq<World>, events: seq<Event>, j: nat, c: Command, dry: bool,
                             at: int) {
    && j < |events| && j < |worlds| && events[j].Handle? && events[j].command == c
    && worlds[j].memory.Up? && worlds[j].now == at
    && Admissible(cfg.options, c, events[j].signature, worlds[j].memory.epoch, worlds[j].memory.changes, at)
    && (dry <==> ChangesTheHost(c.action) && cfg.options.policy.mode != Enforce)
  }

  ghost predicate Admitted(cfg: Config, worlds: seq<World>, events: seq<Event>, k: nat, c: Command, dry: bool,
                           at: int) {
    exists j :: 0 <= j < k && AdmittedAt(cfg, worlds, events, j, c, dry, at)
  }

  lemma AdmittedStays(cfg: Config, worlds: seq<World>, events: seq<Event>, k: nat, c: Command, dry: bool, at: int)
    requires Admitted(cfg, worlds, events, k, c, dry, at)
    ensures Admitted(cfg, worlds, events, k + 1, c, dry, at)
  {
  }

  ghost predicate RanOk(cfg: Config, worlds: seq<World>, events: seq<Event>, k: nat, r: Ran) {
    Admitted(cfg, worlds, events, k, r.command, r.dryRun, r.at)
  }

  ghost predicate AllAdmitted(cfg: Config, worlds: seq<World>, events: seq<Event>, k: nat)
    requires k < |worlds|
  {
    && (worlds[k].memory.Up? && worlds[k].memory.stage.Begun? ==>
          var s := worlds[k].memory.stage; Admitted(cfg, worlds, events, k, s.command, s.dryRun, s.at))
    && forall i :: 0 <= i < |worlds[k].ran| ==> RanOk(cfg, worlds, events, k, worlds[k].ran[i])
  }

  function RanNow(w: World): Ran
    requires w.memory.Up? && w.memory.stage.Begun?
  {
    Ran(w.memory.stage.command, w.memory.stage.dryRun, w.memory.stage.at, w.memory.epoch, w.reign)
  }

  /** A command is begun by its delivery, when it is admitted; only the executor's call adds to the executions. */
  ghost predicate Starts(cfg: Config, e: Event, w: World, after: World) {
    after.memory.Up? && after.memory.stage.Begun? ==>
      w.memory.Up? &&
      (w.memory.stage == after.memory.stage ||
       (e.Handle? && after.memory.stage.command == e.command && after.memory.stage.at == w.now &&
        Decide(cfg.options, e.command, e.signature, w.memory.epoch, w.memory.changes, w.now) ==
        Admission(after.memory.stage.dryRun)))
  }

  lemma HandleStarts(cfg: Config, w: World, c: Command, s: Signature, how: Write)
    requires Enabled(cfg, Handle(c, s, how), w)
    ensures var after := HandleStep(cfg, w, c, s, how); Starts(cfg, Handle(c, s, how), w, after) && after.ran == w.ran
  {
  }

  lemma NextStarts(cfg: Config, e: Event, w: World)
    requires Enabled(cfg, e, w)
    ensures Starts(cfg, e, w, Next(cfg, e, w))
    ensures Next(cfg, e, w).ran ==
            if e.Execute? then w.ran + [RanNow(w)] else w.ran
  {
    if e.Handle? { HandleStarts(cfg, w, e.command, e.signature, e.how); }
  }

  lemma {:induction false} RunAdmits(cfg: Config, worlds: seq<World>, events: seq<Event>, k: nat)
    requires Run(cfg, worlds, events) && CommandMachine.Begins(worlds[0]) && k <= |events|
    ensures AllAdmitted(cfg, worlds, events, k)
  {
    if k > 0 {
      assert StepAt(cfg, worlds, events, k - 1);
      RunAdmits(cfg, worlds, events, k - 1);
      NextStarts(cfg, events[k - 1], worlds[k - 1]);
      OneMore(cfg, worlds, events, k - 1, k, events[k - 1], worlds[k - 1], worlds[k]);
    }
  }

  /** One event after the first `k`. */
  lemma OneMore(cfg: Config, worlds: seq<World>, events: seq<Event>, k: nat, n: nat, e: Event, w: World, after: World)
    requires n == k + 1 < |worlds| && k < |events| && events[k] == e && worlds[k] == w && worlds[n] == after
    requires AllAdmitted(cfg, worlds, events, k) && Starts(cfg, e, w, after)
    requires if e.Execute? then
               w.memory.Up? && w.memory.stage.Begun? &&
               after.ran == w.ran + [RanNow(w)]
             else after.ran == w.ran
    ensures AllAdmitted(cfg, worlds, events, n)
  {
    if after.memory.Up? && after.memory.stage.Begun? {
      var s := after.memory.stage;
      if w.memory.stage == s {
        AdmittedStays(cfg, worlds, events, k, s.command, s.dryRun, s.at);
      } else {
        AdmittedIff(cfg.options, e.command, e.signature, w.memory.epoch, w.memory.changes, w.now);
        assert AdmittedAt(cfg, worlds, events, k, s.command, s.dryRun, s.at);
      }
    }
    forall i | 0 <= i < |after.ran|
      ensures RanOk(cfg, worlds, events, n, after.ran[i])
    {
      var r := after.ran[i];
      if i < |w.ran| { assert r == w.ran[i] && RanOk(cfg, worlds, events, k, w.ran[i]); }
      AdmittedStays(cfg, worlds, events, k, r.command, r.dryRun, r.at);
    }
  }

  /**
   Only the admitted are executed. In every run, each execution goes back to a delivery of that command at the time it
   is recorded with, which met every condition of admission: right endpoint, a signature that verifies if a key is
   pinned, this boot, in time, permitted, within the rate; and for show only exactly where a change is not to be
   enforced.
   */
  lemma OnlyAdmittedRun(cfg: Config, worlds: seq<World>, events: seq<Event>, i: nat)
    requires Run(cfg, worlds, events) && CommandMachine.Begins(worlds[0]) && i < |worlds[|events|].ran|
    ensures var r := worlds[|events|].ran[i];
            && (r.dryRun <==> ChangesTheHost(r.command.action) && cfg.options.policy.mode != Enforce)
            && exists j :: 0 <= j < |events| && worlds[j].memory.Up? && events[j].Handle? &&
                 events[j].command == r.command &&
                           worlds[j].now == r.at &&
                           Admissible(cfg.options, r.command, events[j].signature, worlds[j].memory.epoch,
                                      worlds[j].memory.changes, r.at)
  {
    RunAdmits(cfg, worlds, events, |events|);
    var r := worlds[|events|].ran[i];
    assert RanOk(cfg, worlds, events, |events|, r);
    var j :| 0 <= j < |events| && AdmittedAt(cfg, worlds, events, j, r.command, r.dryRun, r.at);
  }

  // ---- the readings of the clock -------------------------------------------------------------

  /** The readings are in order and none is of the future, nor later than the command that is begun. */
  predicate InOrder(w: World) {
    w.memory.Up? ==>
      && Ascending(w.memory.changes) && (forall i :: 0 <= i < |w.memory.changes| ==> w.memory.changes[i] <= w.now)
      && (w.memory.stage.Begun? ==>
            w.memory.stage.at <= w.now &&
            forall i :: 0 <= i < |w.memory.changes| ==> w.memory.changes[i] <= w.memory.stage.at)
  }

  lemma {:induction false} RecentIsSuffix(times: seq<int>, now: int)
    ensures |Recent(times, now)| <= |times| && Recent(times, now) == times[|times| - |Recent(times, now)|..]
    decreases |times|
  {
    if times != [] && times[0] <= now - 60 { RecentIsSuffix(times[1..], now); }
  }

  lemma ReceivingInOrder(cfg: Config, w: World, id: string, correlation: string, expires: int, how: Write, next: Stage,
                         otherwise: Answer)
    requires InOrder(w) && Waiting(w)
    requires CommandIdOk(id) && CommandIdOk(correlation) && id !in w.memory.entries && expires <= INT64_MAX
    requires expires > 0 ==> Possible(how, EditText(Receive(id, correlation, expires)))
    requires next.Begun? ==> next.at == w.now
    ensures InOrder(Receiving(cfg, w, id, correlation, expires, how, next, otherwise))
  {
  }

  lemma HandleInOrder(cfg: Config, w: World, c: Command, s: Signature, how: Write)
    requires InOrder(w) && Enabled(cfg, Handle(c, s, how), w)
    ensures InOrder(HandleStep(cfg, w, c, s, how))
  {
    RecentIsSuffix(w.memory.changes, w.now);
    var pruned := Pruned(cfg, w, c, s);
    assert InOrder(pruned);
    match Decide(cfg.options, c, s, w.memory.epoch, w.memory.changes, w.now)
    case Refusal(why) =>
      var a := RefusalAnswer(cfg, c, why);
      ReceivingInOrder(cfg, pruned, c.id, c.correlation, AtLeastOne(c.expires), how, Recording(a), a);
    case Admission(dry) =>
      ReceivingInOrder(cfg, pruned, c.id, c.correlation, c.expires, how, Begun(c, dry, w.now), Unavailable(cfg, c));
  }

  lemma AppendInOrder(w: World, e: Edit, how: Write, stage: Stage)
    requires InOrder(w) && w.memory.Up? && Edited(e, ImageIn(w.memory)).Some? && Possible(how, EditText(e))
    requires !stage.Begun?
    ensures InOrder(Enter(Append(w, e, how), stage))
  {
  }

  lemma EnterInOrder(w: World, stage: Stage)
    requires InOrder(w) && !stage.Begun?
    ensures InOrder(Enter(w, stage))
  {
  }

  lemma ExecuteInOrder(w: World, outcome: string, reason: string, detail: string)
    requires InOrder(w) && w.memory.Up? && w.memory.stage.Begun?
    ensures InOrder(ExecuteStep(w, outcome, reason, detail))
  {
  }

  lemma NextInOrder(cfg: Config, e: Event, w: World)
    requires InOrder(w) && Enabled(cfg, e, w)
    ensures InOrder(Next(cfg, e, w))
  {
    match e
    case Handle(c, s, how) => HandleInOrder(cfg, w, c, s, how);
    case Execute(outcome, reason, detail) => ExecuteInOrder(w, outcome, reason, detail);
    case Record(how) =>
      var a := w.memory.stage.answer;
      EnterInOrder(w, Answering(a));
      if Edited(FinishOf(a), ImageIn(w.memory)).Some? { AppendInOrder(w, FinishOf(a), how, Answering(a)); }
    case Unreadable(id, correlation, detail, how) =>
      var a := UnreadableAnswer(id, correlation, detail);
      ReceivingInOrder(cfg, w, id, correlation, w.now + 86400, how, Recording(a), a);
    case Close(how) =>
      var edit := Report(w.memory.stage.id);
      EnterInOrder(w, Idle);
      if Edited(edit, ImageIn(w.memory)).Some? { AppendInOrder(w, edit, how, Idle); }
    case _ =>
  }

  /** In every run the window of the rate limit is the last minute. */
  lemma {:induction false} ReadingsInOrder(cfg: Config, worlds: seq<World>, events: seq<Event>, k: nat)
    requires Run(cfg, worlds, events) && CommandMachine.Begins(worlds[0]) && k <= |events|
    ensures InOrder(worlds[k])
    ensures worlds[k].memory.Up? ==>
              forall i :: i in WindowOf(worlds[k].memory.changes, worlds[k].now) <==>
                0 <= i < |worlds[k].memory.changes| && worlds[k].memory.changes[i] > worlds[k].now - 60
  {
    if k > 0 {
      assert StepAt(cfg, worlds, events, k - 1);
      ReadingsInOrder(cfg, worlds, events, k - 1);
      NextInOrder(cfg, events[k - 1], worlds[k - 1]);
    }
    if worlds[k].memory.Up? { WindowIsLastMinute(worlds[k].memory.changes, worlds[k].now); }
  }
}
