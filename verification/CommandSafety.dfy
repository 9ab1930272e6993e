/**
 At most once: over every run of the command machine, with write failures, failed syncs, crashes at any
 byte, restarts, compaction and lost or corrupt ledgers, what can make the executor run a command id again.
 */
module CommandSafety {
  import opened Text
  import opened LedgerFormat
  import opened CommandPolicy
  import opened CommandMachine

  // ---- the invariant ------------------------------------------------------------------------

  /** The ledger still stands between this execution and a second one, or the command has long expired. */
  predicate Guarded(entries: map<string, Entry>, r: Ran, now: int) {
    (r.command.id in entries && entries[r.command.id].expires == r.command.expires) ||
    r.command.expires + KEEP_AFTER_EXPIRY < now
  }

  /** Every execution under the present ledger is guarded. */
  predicate AllGuarded(entries: map<string, Entry>, ran: seq<Ran>, reign: nat, now: int) {
    forall i :: 0 <= i < |ran| && ran[i].reign == reign ==> Guarded(entries, ran[i], now)
  }

  /** What is known of each execution: its command is the one its id names, admitted at a past time. */
  predicate RanOk(cfg: Config, w: World, r: Ran) {
    r.command.id in cfg.book && cfg.book[r.command.id] == r.command &&
    r.command.created <= r.at + cfg.options.policy.clockSkew && r.at <= w.now &&
    r.reign <= w.reign && (r.reign < w.reign ==> r.at <= w.reset) &&
    (cfg.options.keyring ==> r.command.created > 0)
  }

  predicate AllRanOk(cfg: Config, w: World) {
    forall i :: 0 <= i < |w.ran| ==> RanOk(cfg, w, w.ran[i])
  }

  /**
   Two executions of one id: the ledger of the first was lost or set aside before the second, and, for a
   command that says when it was issued, the ledger of the second began within the clock skew of the first run.
   */
  predicate OnlyAfterReset(cfg: Config, first: Ran, second: Ran) {
    first.reign < second.reign &&
    (second.command.created > 0 ==>
      first.at <= second.epoch <= second.command.created <= first.at + cfg.options.policy.clockSkew)
  }

  predicate HistoryOk(cfg: Config, ran: seq<Ran>) {
    forall i, j :: 0 <= i < j < |ran| && ran[i].command.id == ran[j].command.id ==> OnlyAfterReset(cfg, ran[i], ran[j])
  }

  /** The command whose intent is recorded and whose action has not begun. */
  predicate BegunOk(cfg: Config, w: World, c: Command, at: int)
    requires w.memory.Up?
  {
    c.id in cfg.book && cfg.book[c.id] == c &&
    c.id in w.memory.entries && w.memory.entries[c.id].expires == c.expires &&
    at <= w.now && c.created <= at + cfg.options.policy.clockSkew &&
    (c.created > 0 && w.memory.epoch > 0 ==> w.memory.epoch <= c.created) &&
    (cfg.options.keyring ==> c.created > 0) &&
    (Load(w.file).Some? ==>
        c.id in Load(w.file).value.entries && Load(w.file).value.entries[c.id].expires == c.expires) &&
    forall i :: 0 <= i < |w.ran| && w.ran[i].command.id == c.id ==> w.ran[i].reign < w.reign
  }

  /** A ledger that replaced a lost one began no earlier than the loss. */
  predicate EpochOk(epoch: int, w: World) { w.reign > 0 ==> epoch >= w.reset && epoch >= 1 }

  predicate MemoryOk(cfg: Config, w: World) {
    w.memory.Up? ==>
      (w.memory.writable ==> Terminated(w.file)) &&
      AllGuarded(w.memory.entries, w.ran, w.reign, w.now) && EpochOk(w.memory.epoch, w) &&
      (w.memory.stage.Begun? ==> BegunOk(cfg, w, w.memory.stage.command, w.memory.stage.at))
  }

  predicate FileOk(w: World) {
    Load(w.file).Some? ==>
      AllGuarded(Load(w.file).value.entries, w.ran, w.reign, w.now) &&
      (EpochOk(Load(w.file).value.epoch, w) || (w.memory.Down? && WholeLines(w.file) == []))
  }

  predicate ClockOk(w: World) { w.reset <= w.now <= INT64_MAX - 86400 }

  predicate Safe(cfg: Config, w: World) {
    ClockOk(w) && AllRanOk(cfg, w) && HistoryOk(cfg, w.ran) && MemoryOk(cfg, w) && FileOk(w)
  }

  // ---- one append ---------------------------------------------------------------------------

  /** What an append can make of the file: what it said before, or that and the whole line. */
  lemma AppendToFile(w: World, e: Edit, how: Write)
    requires w.memory.Up? && Edited(e, ImageIn(w.memory)).Some? && Possible(how, EditText(e))
    requires w.memory.writable ==> Terminated(w.file)
    ensures var after := Append(w, e, how);
            (Load(after.file) == Load(w.file) && (w.memory.writable ==> !how.Synced? && !how.Unsynced?)) ||
            Load(after.file) == if Load(w.file).None? then None else ReadBack(e, Load(w.file).value)
    ensures Append(w, e, how).memory.Up? && Append(w, e, how).memory.writable ==> Terminated(Append(w, e, how).file)
    ensures WholeLines(Append(w, e, how).file) == [] ==> WholeLines(w.file) == []
  {
    if w.memory.writable {
      match how
      case Synced => AppendReadsBack(w.file, e);
      case Unsynced => AppendReadsBack(w.file, e);
      case CutBack =>
      case Stuck(kept) => TornAppend(w.file, e, kept);
      case Died(kept) =>
        if kept < |EditText(e)| {
          TornAppend(w.file, e, kept);
        } else {
          assert EditText(e)[..kept] == EditText(e);
          AppendReadsBack(w.file, e);
        }
    }
  }

  /** Under the present ledger, only a long-expired command can be missing from memory. */
  predicate Forgotten(ran: seq<Ran>, reign: nat, now: int, id: string) {
    forall i :: 0 <= i < |ran| && ran[i].reign == reign && ran[i].command.id == id ==>
      ran[i].command.expires + KEEP_AFTER_EXPIRY < now
  }

  lemma MissingIsForgotten(entries: map<string, Entry>, ran: seq<Ran>, reign: nat, now: int, id: string)
    requires AllGuarded(entries, ran, reign, now) && id !in entries
    ensures Forgotten(ran, reign, now, id)
  {
    forall i | 0 <= i < |ran| && ran[i].reign == reign && ran[i].command.id == id
      ensures ran[i].command.expires + KEEP_AFTER_EXPIRY < now
    {
      assert Guarded(entries, ran[i], now);
    }
  }

  /** A change of one entry that keeps its expiry, or of an id nothing depends on, keeps the guards. */
  lemma UpdateKeepsGuards(entries: map<string, Entry>, ran: seq<Ran>, reign: nat, now: int, id: string, made: Entry)
    requires AllGuarded(entries, ran, reign, now)
    requires Forgotten(ran, reign, now, id) || (id in entries && made.expires == entries[id].expires)
    ensures AllGuarded(entries[id := made], ran, reign, now)
  {
    forall i | 0 <= i < |ran| && ran[i].reign == reign
      ensures Guarded(entries[id := made], ran[i], now)
    {
      assert Guarded(entries, ran[i], now);
    }
  }

  lemma ReadBackKeepsGuards(e: Edit, img: Image, ran: seq<Ran>, reign: nat, now: int)
    requires AllGuarded(img.entries, ran, reign, now) && ReadBack(e, img).Some?
    requires e.Receive? ==> Forgotten(ran, reign, now, e.id)
    ensures AllGuarded(ReadBack(e, img).value.entries, ran, reign, now)
    ensures ReadBack(e, img).value.epoch == img.epoch
  {
    UpdateKeepsGuards(img.entries, ran, reign, now, e.id, ReadBack(e, img).value.entries[e.id]);
  }

  lemma EditedKeepsGuards(e: Edit, img: Image, ran: seq<Ran>, reign: nat, now: int)
    requires AllGuarded(img.entries, ran, reign, now) && Edited(e, img).Some?
    ensures AllGuarded(Edited(e, img).value.entries, ran, reign, now)
  {
    if e.Receive? { MissingIsForgotten(img.entries, ran, reign, now, e.id); }
    UpdateKeepsGuards(img.entries, ran, reign, now, e.id, Edited(e, img).value.entries[e.id]);
  }

  /** No append, however it ends, opens the way to a second execution. */
  lemma AppendIsSafe(cfg: Config, w: World, e: Edit, how: Write)
    requires Safe(cfg, w) && w.memory.Up? && !w.memory.stage.Begun?
    requires Edited(e, ImageIn(w.memory)).Some? && Possible(how, EditText(e))
    ensures Safe(cfg, Append(w, e, how))
  {
    var after := Append(w, e, how);
    AppendToFile(w, e, how);
    EditedKeepsGuards(e, ImageIn(w.memory), w.ran, w.reign, w.now);
    if e.Receive? { MissingIsForgotten(w.memory.entries, w.ran, w.reign, w.now, e.id); }
    if Load(after.file).Some? && Load(after.file) != Load(w.file) {
      ReadBackKeepsGuards(e, Load(w.file).value, w.ran, w.reign, w.now);
    }
    assert AllRanOk(cfg, after) by {
      forall i | 0 <= i < |after.ran| ensures RanOk(cfg, after, after.ran[i]) { assert RanOk(cfg, w, w.ran[i]); }
    }
  }

  // ---- one event ----------------------------------------------------------------------------

  lemma EnterIsSafe(cfg: Config, w: World, stage: Stage)
    requires Safe(cfg, w)
    requires stage.Begun? && w.memory.Up? ==> BegunOk(cfg, w, stage.command, stage.at)
    ensures Safe(cfg, Enter(w, stage))
  {
    forall i | 0 <= i < |w.ran| ensures RanOk(cfg, Enter(w, stage), w.ran[i]) { assert RanOk(cfg, w, w.ran[i]); }
  }

  /** Recording the intent of an admitted command makes it the one command that may be executed. */
  lemma AdmittedIsBegun(cfg: Config, w: World, c: Command, s: Signature)
    requires Safe(cfg, w) && Waiting(w) && w.memory.writable && CommandOk(c) && c.expires > 0
    requires c.id in cfg.book && cfg.book[c.id] == c && c.id !in w.memory.entries
    requires Decide(cfg.options, c, s, w.memory.epoch, w.memory.changes, w.now).Admission?
    ensures BegunOk(cfg, Append(w, Receive(c.id, c.correlation, c.expires), Synced), c, w.now)
  {
    var e := Receive(c.id, c.correlation, c.expires);
    AdmittedInTime(cfg.options, c, s, w.memory.epoch, w.memory.changes, w.now);
    AppendToFile(w, e, Synced);
    MissingIsForgotten(w.memory.entries, w.ran, w.reign, w.now, c.id);
    forall i | 0 <= i < |w.ran| && w.ran[i].command.id == c.id
      ensures w.ran[i].reign < w.reign
    {
      assert RanOk(cfg, w, w.ran[i]);
    }
  }

  lemma PruneIsSafe(cfg: Config, w: World, changes: seq<int>)
    requires Safe(cfg, w) && Waiting(w)
    ensures Safe(cfg, w.(memory := w.memory.(changes := changes)))
  {
    var after := w.(memory := w.memory.(changes := changes));
    forall i | 0 <= i < |w.ran| ensures RanOk(cfg, after, w.ran[i]) { assert RanOk(cfg, w, w.ran[i]); }
  }

  lemma ReceivingIsSafe(cfg: Config, w: World, id: string, correlation: string, expires: int, how: Write, next: Stage,
                        otherwise: Answer)
    requires Safe(cfg, w) && Waiting(w)
    requires CommandIdOk(id) && CommandIdOk(correlation) && id !in w.memory.entries && expires <= INT64_MAX
    requires expires > 0 ==> Possible(how, EditText(Receive(id, correlation, expires)))
    requires next.Begun? && expires > 0 && w.memory.writable ==>
               BegunOk(cfg, Append(w, Receive(id, correlation, expires), Synced), next.command, next.at)
    ensures Safe(cfg, Receiving(cfg, w, id, correlation, expires, how, next, otherwise))
  {
    if expires <= 0 || |w.memory.entries| >= cfg.maximum {
      EnterIsSafe(cfg, w, Answering(otherwise));
    } else {
      var e := Receive(id, correlation, expires);
      AppendIsSafe(cfg, w, e, how);
      EnterIsSafe(cfg, Append(w, e, how), if Recorded(w, how) then next else Answering(otherwise));
    }
  }

  lemma AdmissionIsSafe(cfg: Config, w: World, c: Command, s: Signature, dry: bool, how: Write, changes: seq<int>)
    requires Safe(cfg, w) && Enabled(cfg, Handle(c, s, how), w)
    requires Decide(cfg.options, c, s, w.memory.epoch, w.memory.changes, w.now) == Admission(dry)
    requires Possible(how, EditText(Receive(c.id, c.correlation, AtLeastOne(c.expires))))
    ensures Safe(cfg, Receiving(cfg, w.(memory := w.memory.(changes := changes)), c.id, c.correlation, c.expires, how,
                                Begun(c, dry, w.now), Unavailable(cfg, c)))
  {
    var pruned := w.(memory := w.memory.(changes := changes));
    PruneIsSafe(cfg, w, changes);
    if c.expires > 0 && w.memory.writable {
      AdmittedIsBegun(cfg, w, c, s);
      assert BegunOk(cfg, Append(pruned, Receive(c.id, c.correlation, c.expires), Synced), c, w.now);
    }
    ReceivingIsSafe(cfg, pruned, c.id, c.correlation, c.expires, how, Begun(c, dry, w.now), Unavailable(cfg, c));
  }

  lemma HandleIsSafe(cfg: Config, w: World, c: Command, s: Signature, how: Write)
    requires Safe(cfg, w) && Enabled(cfg, Handle(c, s, how), w)
    ensures Safe(cfg, HandleStep(cfg, w, c, s, how))
  {
    var m := w.memory;
    var changes := Window(cfg.options, c, s, m.epoch, m.changes, w.now);
    match Decide(cfg.options, c, s, m.epoch, m.changes, w.now)
    case Refusal(why) =>
      PruneIsSafe(cfg, w, changes);
      ReceivingIsSafe(cfg, w.(memory := m.(changes := changes)), c.id, c.correlation, AtLeastOne(c.expires), how,
                      Recording(RefusalAnswer(cfg, c, why)), RefusalAnswer(cfg, c, why));
    case Admission(dry) => AdmissionIsSafe(cfg, w, c, s, dry, how, changes);
  }

  lemma ExecuteIsSafe(cfg: Config, w: World, outcome: string, reason: string, detail: string)
    requires Safe(cfg, w) && w.memory.Up? && w.memory.stage.Begun?
    ensures Safe(cfg, ExecuteStep(w, outcome, reason, detail))
  {
    var after := ExecuteStep(w, outcome, reason, detail);
    var c, n := w.memory.stage.command, |w.ran|;
    var r := after.ran[n];
    forall i | 0 <= i < |after.ran|
      ensures RanOk(cfg, after, after.ran[i])
      ensures after.ran[i].reign == w.reign ==> Guarded(w.memory.entries, after.ran[i], w.now)
      ensures Load(w.file).Some? && after.ran[i].reign == w.reign ==>
                Guarded(Load(w.file).value.entries, after.ran[i], w.now)
    {
      if i < n { assert after.ran[i] == w.ran[i]; assert RanOk(cfg, w, w.ran[i]); }
    }
    forall i, j | 0 <= i < j < |after.ran| && after.ran[i].command.id == after.ran[j].command.id
      ensures OnlyAfterReset(cfg, after.ran[i], after.ran[j])
    {
      assert after.ran[i] == w.ran[i];
      if j == n { assert RanOk(cfg, w, w.ran[i]); } else { assert after.ran[j] == w.ran[j]; }
    }
  }

  lemma KeptKeepsGuards(entries: map<string, Entry>, ran: seq<Ran>, reign: nat, now: int)
    requires AllGuarded(entries, ran, reign, now)
    ensures AllGuarded(Kept(entries, now), ran, reign, now)
  {
    forall i | 0 <= i < |ran| && ran[i].reign == reign
      ensures Guarded(Kept(entries, now), ran[i], now)
    {
      assert Guarded(entries, ran[i], now);
    }
  }

  lemma StartIsSafe(cfg: Config, w: World, file: string)
    requires Safe(cfg, w) && Enabled(cfg, Start(file), w)
    ensures Safe(cfg, StartStep(cfg, w, file))
  {
    var after := StartStep(cfg, w, file);
    OpenLeavesItsImage(w.file, cfg.maximum, w.now, file);
    KeptKeepsGuards(Load(w.file).value.entries, w.ran, w.reign, w.now);
    forall i | 0 <= i < |w.ran| ensures RanOk(cfg, after, w.ran[i]) { assert RanOk(cfg, w, w.ran[i]); }
  }

  lemma TickIsSafe(cfg: Config, w: World, now: int)
    requires Safe(cfg, w) && Enabled(cfg, Tick(now), w)
    ensures Safe(cfg, w.(now := now))
  {
    var after := w.(now := now);
    forall i | 0 <= i < |w.ran|
      ensures RanOk(cfg, after, w.ran[i])
      ensures w.memory.Up? && w.ran[i].reign == w.reign ==> Guarded(w.memory.entries, w.ran[i], now)
      ensures Load(w.file).Some? && w.ran[i].reign == w.reign ==> Guarded(Load(w.file).value.entries, w.ran[i], now)
    {
      assert RanOk(cfg, w, w.ran[i]);
    }
  }

  lemma ResetIsSafe(cfg: Config, w: World)
    requires Safe(cfg, w) && w.memory.Down?
    ensures Safe(cfg, w.(file := "", reign := w.reign + 1, reset := w.now))
  {
    var after := w.(file := "", reign := w.reign + 1, reset := w.now);
    forall i | 0 <= i < |w.ran|
      ensures RanOk(cfg, after, w.ran[i]) && w.ran[i].reign < after.reign
    {
      assert RanOk(cfg, w, w.ran[i]);
    }
    assert WholeLines("") == [];
  }

  lemma CrashIsSafe(cfg: Config, w: World)
    requires Safe(cfg, w)
    ensures Safe(cfg, w.(memory := Down))
  {
    var after := w.(memory := Down);
    forall i | 0 <= i < |w.ran| ensures RanOk(cfg, after, w.ran[i]) { assert RanOk(cfg, w, w.ran[i]); }
  }

  lemma SubmitIsSafe(cfg: Config, w: World, reply: Reply)
    requires Safe(cfg, w) && w.memory.Up? && w.memory.stage.Answering?
    ensures Safe(cfg, SubmitStep(w, reply))
  {
    var after := SubmitStep(w, reply);
    forall i | 0 <= i < |w.ran| ensures RanOk(cfg, after, w.ran[i]) { assert RanOk(cfg, w, w.ran[i]); }
  }

  /** Every event keeps the invariant. */
  lemma NextIsSafe(cfg: Config, e: Event, w: World)
    requires Safe(cfg, w) && Enabled(cfg, e, w)
    ensures Safe(cfg, Next(cfg, e, w))
  {
    match e
    case Tick(now) => TickIsSafe(cfg, w, now);
    case Crash => CrashIsSafe(cfg, w);
    case Lose => ResetIsSafe(cfg, w);
    case SetAside => ResetIsSafe(cfg, w);
    case Start(file) => StartIsSafe(cfg, w, file);
    case Handle(c, s, how) => HandleIsSafe(cfg, w, c, s, how);
    case Execute(outcome, reason, detail) => ExecuteIsSafe(cfg, w, outcome, reason, detail);
    case Decline =>
      var c := w.memory.stage.command;
      EnterIsSafe(cfg, w, Recording(NotAccepted(cfg, c)));
    case Record(how) =>
      var a := w.memory.stage.answer;
      if Edited(FinishOf(a), ImageIn(w.memory)).None? {
        EnterIsSafe(cfg, w, Answering(a));
      } else {
        AppendIsSafe(cfg, w, FinishOf(a), how);
        EnterIsSafe(cfg, Append(w, FinishOf(a), how), Answering(a));
      }
    case Resume(id) => EnterIsSafe(cfg, w, Recording(Interrupted(cfg, id, w.memory.entries[id])));
    case Retell(id) => EnterIsSafe(cfg, w, Answering(Stored(id, w.memory.entries[id])));
    case Unreadable(id, correlation, detail, how) =>
      var a := UnreadableAnswer(id, correlation, detail);
      ReceivingIsSafe(cfg, w, id, correlation, w.now + 86400, how, Recording(a), a);
    case Submit(reply) => SubmitIsSafe(cfg, w, reply);
    case Close(how) =>
      var r := Report(w.memory.stage.id);
      if Edited(r, ImageIn(w.memory)).None? {
        EnterIsSafe(cfg, w, Idle);
      } else {
        AppendIsSafe(cfg, w, r, how);
        EnterIsSafe(cfg, Append(w, r, how), Idle);
      }
  }

  // ---- every run ----------------------------------------------------------------------------

  lemma {:induction false} RunIsSafe(cfg: Config, worlds: seq<World>, events: seq<Event>, k: nat)
    requires Run(cfg, worlds, events) && Begins(worlds[0]) && k <= |events|
    ensures Safe(cfg, worlds[k])
  {
    if k > 0 {
      assert StepAt(cfg, worlds, events, k - 1);
      RunIsSafe(cfg, worlds, events, k - 1);
      NextIsSafe(cfg, events[k - 1], worlds[k - 1]);
    }
  }

  /**
   Reset safety. In any run whatever, a command id is executed a second time only under a later ledger,
   and a command that says when it was issued only when that ledger began within the clock skew of the
   first run. With a pinned keyring every executed command says when it was issued.
   */
  lemma ResetSafety(cfg: Config, worlds: seq<World>, events: seq<Event>, i: nat, j: nat)
    requires Run(cfg, worlds, events) && Begins(worlds[0])
    requires var ran := worlds[|events|].ran; i < j < |ran| && ran[i].command.id == ran[j].command.id
    ensures var ran := worlds[|events|].ran;
            ran[i].command == ran[j].command && ran[i].reign < ran[j].reign &&
            (cfg.options.keyring ==> ran[j].command.created > 0) &&
            (ran[j].command.created > 0 ==>
              ran[i].at <= ran[j].epoch <= ran[j].command.created <= ran[i].at + cfg.options.policy.clockSkew)
  {
    RunIsSafe(cfg, worlds, events, |events|);
    var w := worlds[|events|];
    assert RanOk(cfg, w, w.ran[i]) && RanOk(cfg, w, w.ran[j]);
  }

  predicate KeepsLedger(e: Event) { !e.Lose? && !e.SetAside? }

  lemma NextKeepsReign(cfg: Config, e: Event, w: World)
    requires Enabled(cfg, e, w) && KeepsLedger(e)
    ensures Next(cfg, e, w).reign == w.reign
  {
  }

  lemma {:induction false} ReignIsConstant(cfg: Config, worlds: seq<World>, events: seq<Event>, k: nat)
    requires Run(cfg, worlds, events) && Begins(worlds[0]) && k <= |events|
    requires forall i :: 0 <= i < |events| ==> KeepsLedger(events[i])
    ensures worlds[k].reign == 0
  {
    if k > 0 {
      assert StepAt(cfg, worlds, events, k - 1);
      ReignIsConstant(cfg, worlds, events, k - 1);
      NextKeepsReign(cfg, events[k - 1], worlds[k - 1]);
    }
  }

  /**
   At most once. In any run in which the ledger is neither lost nor set aside, no command id is executed
   twice, whatever is redelivered and however writes, syncs and processes fail.
   */
  lemma AtMostOnce(cfg: Config, worlds: seq<World>, events: seq<Event>, i: nat, j: nat)
    requires Run(cfg, worlds, events) && Begins(worlds[0])
    requires forall k :: 0 <= k < |events| ==> KeepsLedger(events[k])
    requires i < j < |worlds[|events|].ran|
    ensures worlds[|events|].ran[i].command.id != worlds[|events|].ran[j].command.id
  {
    var w := worlds[|events|];
    RunIsSafe(cfg, worlds, events, |events|);
    ReignIsConstant(cfg, worlds, events, |events|);
    assert RanOk(cfg, w, w.ran[i]) && RanOk(cfg, w, w.ran[j]);
  }
}
