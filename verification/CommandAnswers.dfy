/**
 Two results about runs in which writes behave. While no sync fails, the file always says what memory
 holds and is never found corrupt. While no append fails and the ledger has room, every result sent for a
 command id is the same, as long as the ledger remembers the command.
 */
module CommandAnswers {
  import opened Text
  import opened LedgerFormat
  import opened CommandPolicy
  import opened CommandMachine
  import opened CommandSafety

  // ---- memory and file in step --------------------------------------------------------------

  predicate InStep(w: World) {
    match w.memory
    case Down => Load(w.file).Some?
    case Up(epoch, entries, writable, _, _) =>
      Load(w.file) == Some(Image(epoch, entries)) && (writable ==> Terminated(w.file))
  }

  predicate NoFailedSync(e: Event) {
    match e
    case Handle(_, _, how) => how != Unsynced
    case Record(how) => how != Unsynced
    case Unreadable(_, _, _, how) => how != Unsynced
    case Close(how) => how != Unsynced
    case _ => true
  }

  lemma AppendInStep(w: World, e: Edit, how: Write)
    requires InStep(w) && w.memory.Up? && how != Unsynced
    requires Edited(e, ImageIn(w.memory)).Some? && Possible(how, EditText(e))
    ensures InStep(Append(w, e, how))
  {
    if w.memory.writable {
      match how
      case Synced => AppendIsEdit(w.file, e, ImageIn(w.memory));
      case CutBack =>
      case Stuck(kept) => TornAppend(w.file, e, kept);
      case Died(kept) =>
        if kept < |EditText(e)| {
          TornAppend(w.file, e, kept);
        } else {
          assert EditText(e)[..kept] == EditText(e);
          AppendIsEdit(w.file, e, ImageIn(w.memory));
        }
    }
  }

  lemma ReceivingInStep(cfg: Config, w: World, id: string, correlation: string, expires: int, how: Write, next: Stage,
                        otherwise: Answer)
    requires InStep(w) && Waiting(w) && how != Unsynced
    requires CommandIdOk(id) && CommandIdOk(correlation) && id !in w.memory.entries && expires <= INT64_MAX
    requires expires > 0 ==> Possible(how, EditText(Receive(id, correlation, expires)))
    ensures InStep(Receiving(cfg, w, id, correlation, expires, how, next, otherwise))
  {
    if expires > 0 { AppendInStep(w, Receive(id, correlation, expires), how); }
  }

  lemma NextInStep(cfg: Config, e: Event, w: World)
    requires InStep(w) && w.now < SIGNED_LIMIT && Enabled(cfg, e, w) && NoFailedSync(e)
    ensures InStep(Next(cfg, e, w))
  {
    match e
    case Lose => assert Load("") == Some(EMPTY);
    case SetAside =>
    case Start(file) => OpenLeavesItsImage(w.file, cfg.maximum, w.now, file);
    case Handle(c, s, how) =>
      var m, pruned := w.memory, Pruned(cfg, w, c, s);
      match Decide(cfg.options, c, s, m.epoch, m.changes, w.now) {
        case Refusal(why) =>
          ReceivingInStep(cfg, pruned, c.id, c.correlation, AtLeastOne(c.expires), how,
              Recording(RefusalAnswer(cfg, c, why)), RefusalAnswer(cfg, c, why));
        case Admission(dry) =>
          ReceivingInStep(cfg, pruned, c.id, c.correlation, c.expires, how, Begun(c, dry, w.now), Unavailable(cfg, c));
      }
    case Record(how) =>
      if Edited(FinishOf(w.memory.stage.answer), ImageIn(w.memory)).Some? {
        AppendInStep(w, FinishOf(w.memory.stage.answer), how);
      }
    case Unreadable(id, correlation, detail, how) =>
      var a := UnreadableAnswer(id, correlation, detail);
      ReceivingInStep(cfg, w, id, correlation, w.now + 86400, how, Recording(a), a);
    case Close(how) =>
      if Edited(Report(w.memory.stage.id), ImageIn(w.memory)).Some? { AppendInStep(w, Report(w.memory.stage.id), how); }
    case _ =>
  }

  lemma NextMovesClock(cfg: Config, e: Event, w: World)
    requires Enabled(cfg, e, w) && w.now <= INT64_MAX - 86400
    ensures w.now <= Next(cfg, e, w).now <= INT64_MAX - 86400
  {
  }

  lemma {:induction false} ClockIsBounded(cfg: Config, worlds: seq<World>, events: seq<Event>, k: nat)
    requires Run(cfg, worlds, events) && Begins(worlds[0]) && k <= |events|
    ensures worlds[0].now <= worlds[k].now <= INT64_MAX - 86400
  {
    if k > 0 {
      assert StepAt(cfg, worlds, events, k - 1);
      ClockIsBounded(cfg, worlds, events, k - 1);
      NextMovesClock(cfg, events[k - 1], worlds[k - 1]);
    }
  }

  lemma {:induction false} RunInStep(cfg: Config, worlds: seq<World>, events: seq<Event>, k: nat)
    requires Run(cfg, worlds, events) && Begins(worlds[0]) && Load(worlds[0].file).Some? && k <= |events|
    requires forall i :: 0 <= i < |events| ==> NoFailedSync(events[i])
    ensures InStep(worlds[k])
  {
    if k > 0 {
      assert StepAt(cfg, worlds, events, k - 1);
      RunInStep(cfg, worlds, events, k - 1);
      ClockIsBounded(cfg, worlds, events, k - 1);
      assert NoFailedSync(events[k - 1]);
      NextInStep(cfg, events[k - 1], worlds[k - 1]);
    }
  }

  /**
   Ledger refinement over whole runs. From a file that loads, with every write synced, cut back, stuck or
   torn by a crash at any byte, the file always says exactly what memory holds, and no restart ever finds
   it corrupt.
   */
  lemma NeverCorrupt(cfg: Config, worlds: seq<World>, events: seq<Event>, k: nat)
    requires Run(cfg, worlds, events) && Begins(worlds[0]) && Load(worlds[0].file).Some? && k <= |events|
    requires forall i :: 0 <= i < |events| ==> NoFailedSync(events[i])
    ensures !Enabled(cfg, SetAside, worlds[k])
    ensures match worlds[k].memory
            case Down => Load(worlds[k].file).Some?
            case Up(epoch, entries, _, _, _) => Load(worlds[k].file) == Some(Image(epoch, entries))
  {
    RunInStep(cfg, worlds, events, k);
  }

  // ---- failed syncs -------------------------------------------------------------------------

  /** The file loads, and what memory has as done is done in it. */
  predicate Loads(w: World) {
    Load(w.file).Some? &&
    (w.memory.Up? ==>
        (w.memory.writable ==> Terminated(w.file)) && NotBehind(Load(w.file).value.entries, w.memory.entries))
  }

  predicate NotBehind(file: map<string, Entry>, entries: map<string, Entry>) {
    forall id :: id in entries ==> id in file && (entries[id].phase == Done ==> file[id].phase == Done)
  }

  predicate ReportsSync(e: Event) { e.Close? ==> e.how != Unsynced }

  /** A line that is written, and the change of memory that it stands for, if that is made. */
  lemma WrittenLoads(file: string, entries: map<string, Entry>, epoch: int, e: Edit)
    requires Terminated(file) && Load(file).Some? && NotBehind(Load(file).value.entries, entries)
    requires Edited(e, Image(epoch, entries)).Some?
    ensures Terminated(file + EditText(e)) && Load(file + EditText(e)).Some?
    ensures NotBehind(Load(file + EditText(e)).value.entries, Edited(e, Image(epoch, entries)).value.entries)
    ensures !e.Report? ==> NotBehind(Load(file + EditText(e)).value.entries, entries)
  {
    AppendReadsBack(file, e);
  }

  lemma AppendLoads(w: World, e: Edit, how: Write)
    requires Loads(w) && w.memory.Up? && (e.Report? ==> how != Unsynced)
    requires Edited(e, ImageIn(w.memory)).Some? && Possible(how, EditText(e))
    ensures Loads(Append(w, e, how))
  {
    if w.memory.writable {
      WrittenLoads(w.file, w.memory.entries, w.memory.epoch, e);
      match how
      case Stuck(kept) => TornAppend(w.file, e, kept);
      case Died(kept) =>
        if kept < |EditText(e)| { TornAppend(w.file, e, kept); } else { assert EditText(e)[..kept] == EditText(e); }
      case _ =>
    }
  }

  lemma EnterLoads(w: World, stage: Stage)
    requires Loads(w)
    ensures Loads(Enter(w, stage))
  {
  }

  lemma ReceivingLoads(cfg: Config, w: World, id: string, correlation: string, expires: int, how: Write, next: Stage,
                       otherwise: Answer)
    requires Loads(w) && Waiting(w)
    requires CommandIdOk(id) && CommandIdOk(correlation) && id !in w.memory.entries && expires <= INT64_MAX
    requires expires > 0 ==> Possible(how, EditText(Receive(id, correlation, expires)))
    ensures Loads(Receiving(cfg, w, id, correlation, expires, how, next, otherwise))
  {
    if expires <= 0 || |w.memory.entries| >= cfg.maximum {
      EnterLoads(w, Answering(otherwise));
    } else {
      var e := Receive(id, correlation, expires);
      AppendLoads(w, e, how);
      EnterLoads(Append(w, e, how), if Recorded(w, how) then next else Answering(otherwise));
    }
  }

  lemma NextLoads(cfg: Config, e: Event, w: World)
    requires Loads(w) && w.now < SIGNED_LIMIT && Enabled(cfg, e, w) && ReportsSync(e)
    ensures Loads(Next(cfg, e, w))
  {
    match e
    case Lose => assert Load("") == Some(EMPTY);
    case SetAside =>
    case Start(file) => OpenLeavesItsImage(w.file, cfg.maximum, w.now, file);
    case Handle(c, s, how) =>
      var m, pruned := w.memory, Pruned(cfg, w, c, s);
      match Decide(cfg.options, c, s, m.epoch, m.changes, w.now) {
        case Refusal(why) =>
          ReceivingLoads(cfg, pruned, c.id, c.correlation, AtLeastOne(c.expires), how,
              Recording(RefusalAnswer(cfg, c, why)), RefusalAnswer(cfg, c, why));
        case Admission(dry) =>
          ReceivingLoads(cfg, pruned, c.id, c.correlation, c.expires, how, Begun(c, dry, w.now), Unavailable(cfg, c));
      }
    case Record(how) =>
      if Edited(FinishOf(w.memory.stage.answer), ImageIn(w.memory)).Some? {
        AppendLoads(w, FinishOf(w.memory.stage.answer), how);
      }
    case Unreadable(id, correlation, detail, how) =>
      var a := UnreadableAnswer(id, correlation, detail);
      ReceivingLoads(cfg, w, id, correlation, w.now + 86400, how, Recording(a), a);
    case Close(how) =>
      if Edited(Report(w.memory.stage.id), ImageIn(w.memory)).Some? { AppendLoads(w, Report(w.memory.stage.id), how); }
    case _ =>
  }

  lemma {:induction false} RunLoads(cfg: Config, worlds: seq<World>, events: seq<Event>, k: nat)
    requires Run(cfg, worlds, events) && Begins(worlds[0]) && Load(worlds[0].file).Some? && k <= |events|
    requires forall i :: 0 <= i < k ==> ReportsSync(events[i])
    ensures Loads(worlds[k])
  {
    if k > 0 {
      assert StepAt(cfg, worlds, events, k - 1);
      RunLoads(cfg, worlds, events, k - 1);
      ClockIsBounded(cfg, worlds, events, k - 1);
      NextLoads(cfg, events[k - 1], worlds[k - 1]);
    }
  }

  /**
   Which failed syncs can corrupt the ledger. Whatever other syncs fail, the file loads, and no restart finds it
   corrupt, until the sync of a reported line fails.
   */
  lemma LoadsUntilReportUnsynced(cfg: Config, worlds: seq<World>, events: seq<Event>, k: nat)
    requires Run(cfg, worlds, events) && Begins(worlds[0]) && Load(worlds[0].file).Some? && k <= |events|
    requires forall i :: 0 <= i < k ==> events[i] != Close(Unsynced)
    ensures Load(worlds[k].file).Some? && !Enabled(cfg, SetAside, worlds[k])
  {
    RunLoads(cfg, worlds, events, k);
  }

  /**
   What a failed sync costs. When the sync of a reported line fails, memory stays at done, the answer is
   sent and closed again, and the second reported line makes the file corrupt for good: every later file
   the process can write is corrupt too.
   */
  lemma SecondReportCorrupts(w: World, id: string)
    requires InStep(w) && w.memory.Up? && w.memory.writable && CommandIdOk(id)
    requires id in w.memory.entries && w.memory.entries[id].phase == Done
    ensures var once := Append(w, Report(id), Unsynced);
            Load(once.file).Some? && Edited(Report(id), ImageIn(once.memory)).Some? &&
            Load(Append(once, Report(id), Synced).file).None?
    ensures forall e: Edit :: Wellformed(e) ==>
              Load(Append(Append(w, Report(id), Unsynced), Report(id), Synced).file + EditText(e)).None?
  {
    AppendReadsBack(w.file, Report(id));
    var once := w.file + EditText(Report(id));
    AppendReadsBack(once, Report(id));
    assert Append(w, Report(id), Unsynced).file == once;
    forall e: Edit | Wellformed(e) ensures Load(once + EditText(Report(id)) + EditText(e)).None? {
      AppendReadsBack(once + EditText(Report(id)), e);
    }
  }

  /** The answer is sent and closed again. */
  lemma ToldAndClosed(cfg: Config, worlds: seq<World>, events: seq<Event>, id: string)
    returns (ws: seq<World>, es: seq<Event>)
    requires Run(cfg, worlds, events) && Waiting(worlds[|events|]) && worlds[|events|].memory.writable &&
             CommandIdOk(id)
    requires var m := worlds[|events|].memory; id in m.entries && m.entries[id].phase == Done
    ensures Run(cfg, ws, es) && es == events + [Retell(id), Submit(Answered), Close(Synced)]
    ensures ws[|es|].file == worlds[|events|].file + EditText(Report(id))
  {
    var w := worlds[|events|];
    RetellHappens(cfg, worlds, events, id);
    var again := Enter(w, Answering(Stored(id, w.memory.entries[id])));
    ws, es := worlds + [again], events + [Retell(id)];
    SubmitHappens(cfg, ws, es, Answered);
    var sent := SubmitStep(again, Answered);
    ws, es := ws + [sent], es + [Submit(Answered)];
    CloseHappens(cfg, ws, es, Synced);
    ws, es := ws + [CloseStep(sent, Synced)], es + [Close(Synced)];
  }

  lemma TwoReports(file: string, img: Image, id: string)
    requires Terminated(file) && Load(file) == Some(img) && CommandIdOk(id)
    ensures Load(file + EditText(Report(id)) + EditText(Report(id))).None?
  {
    AppendReadsBack(file, Report(id));
    AppendReadsBack(file + EditText(Report(id)), Report(id));
  }

  lemma ClosedUnsynced(w: World, id: string)
    requires w.memory.Up? && w.memory.writable && w.memory.stage == Closing(id) && CommandIdOk(id)
    requires id in w.memory.entries && w.memory.entries[id].phase == Done
    ensures CloseStep(w, Unsynced) == w.(file := w.file + EditText(Report(id)), memory := w.memory.(stage := Idle))
  {
  }

  lemma FoundCorrupt(cfg: Config, worlds: seq<World>, events: seq<Event>)
    requires Run(cfg, worlds, events) && Load(worlds[|events|].file).None?
    ensures var after := worlds[|events|].(memory := Down);
            Run(cfg, worlds + [after], events + [Crash]) && Enabled(cfg, SetAside, after)
  {
    ExtendRun(cfg, worlds, events, Crash);
  }

  /**
   That happens in a run: from any state in which a done command is about to be closed, the sync of its reported line
   fails, the answer is sent and closed again, the process ends, and the ledger is found corrupt and set aside.
   */
  lemma UnsyncedReportCorrupts(cfg: Config, worlds: seq<World>, events: seq<Event>, id: string)
    returns (ws: seq<World>, es: seq<Event>)
    requires Run(cfg, worlds, events) && InStep(worlds[|events|]) && CommandIdOk(id)
    requires var m := worlds[|events|].memory;
             m.Up? && m.writable && m.stage == Closing(id) && id in m.entries && m.entries[id].phase == Done
    ensures Run(cfg, ws, es) && Enabled(cfg, SetAside, ws[|es|])
    ensures es == events + [Close(Unsynced), Retell(id), Submit(Answered), Close(Synced), Crash]
  {
    var w := worlds[|events|];
    TwoReports(w.file, ImageIn(w.memory), id);
    CloseHappens(cfg, worlds, events, Unsynced);
    var closed := CloseStep(w, Unsynced);
    ClosedUnsynced(w, id);
    ws, es := ToldAndClosed(cfg, worlds + [closed], events + [Close(Unsynced)], id);
    FoundCorrupt(cfg, ws, es);
    ws, es := ws + [ws[|es|].(memory := Down)], es + [Crash];
  }

  // ---- one stable answer --------------------------------------------------------------------

  /** The ledger holds exactly what was sent, or the command may have been forgotten. */
  predicate Remembered(entries: map<string, Entry>, t: Told, now: int) {
    (t.answer.id in entries && entries[t.answer.id].phase != Received &&
     Stored(t.answer.id, entries[t.answer.id]) == t.answer && entries[t.answer.id].expires == t.expires) ||
    t.expires + KEEP_AFTER_EXPIRY < now
  }

  predicate AllRemembered(entries: map<string, Entry>, told: seq<Told>, now: int) {
    forall i :: 0 <= i < |told| ==> Remembered(entries, told[i], now)
  }

  /** Two results for one id agree, unless the second came more than a day after the command expired. */
  predicate Agree(first: Told, second: Told) {
    first.answer == second.answer || first.expires + KEEP_AFTER_EXPIRY < second.at
  }

  predicate AnswersAgree(told: seq<Told>) {
    forall i, j :: 0 <= i < j < |told| && told[i].answer.id == told[j].answer.id ==> Agree(told[i], told[j])
  }

  predicate AnswerOk(a: Answer) {
    OutcomeOk(a.outcome) && ReasonOk(a.reason) && '\t' !in a.detail && '\n' !in a.detail
  }

  /** The stage agrees with the entry it works on. */
  predicate StageOk(entries: map<string, Entry>, stage: Stage) {
    match stage
    case Begun(c, _, _) => c.id in entries && entries[c.id].phase == Received &&
        entries[c.id].correlation == c.correlation
    case Recording(a) =>
      a.id in entries && entries[a.id].phase == Received && entries[a.id].correlation == a.correlation &&
          AnswerOk(a) && CommandIdOk(a.id)
    case Answering(a) => a.id in entries && entries[a.id].phase != Received && Stored(a.id, entries[a.id]) == a
    case Closing(_) => true
    case Idle => true
  }

  predicate Steady(w: World) {
    InStep(w) && 0 <= w.now <= INT64_MAX - 86400 && AnswersAgree(w.told) &&
    match w.memory
    case Down => AllRemembered(Load(w.file).value.entries, w.told, w.now)
    case Up(_, entries, writable, _, stage) =>
      writable && AllRemembered(entries, w.told, w.now) && StageOk(entries, stage)
  }

  predicate Clear(how: Write) { how.Synced? || how.Died? }

  /**
   Appends succeed or the process dies; the ledger has room and is not lost; the executor reports outcomes and reasons.
   */
  predicate Smooth(cfg: Config, e: Event, w: World) {
    match e
    case Lose => false
    case SetAside => false
    case Handle(_, _, how) => Clear(how) && w.memory.Up? && |w.memory.entries| < cfg.maximum
    case Unreadable(_, _, _, how) => Clear(how) && w.memory.Up? && |w.memory.entries| < cfg.maximum
    case Record(how) => Clear(how)
    case Close(how) => Clear(how)
    case Execute(outcome, reason, _) => OutcomeOk(outcome) && ReasonOk(reason)
    case _ => true
  }

  lemma EditKeepsMemory(e: Edit, img: Image, told: seq<Told>, now: int)
    requires AllRemembered(img.entries, told, now) && Edited(e, img).Some?
    ensures AllRemembered(Edited(e, img).value.entries, told, now)
  {
    forall i | 0 <= i < |told|
      ensures Remembered(Edited(e, img).value.entries, told[i], now)
    {
      assert Remembered(img.entries, told[i], now);
    }
  }

  /** An append that succeeds or dies keeps every answer; alive, it made its change. */
  lemma AppendSteady(w: World, e: Edit, how: Write)
    requires Steady(w) && w.memory.Up? && w.memory.stage.Idle? && Clear(how)
    requires Edited(e, ImageIn(w.memory)).Some? && Possible(how, EditText(e))
    ensures Steady(Append(w, e, how))
    ensures Append(w, e, how).memory.Up? ==>
              Append(w, e, how).memory == w.memory.(entries := Edited(e, ImageIn(w.memory)).value.entries)
  {
    AppendInStep(w, e, how);
    EditKeepsMemory(e, ImageIn(w.memory), w.told, w.now);
    if how.Died? {
      if how.kept < |EditText(e)| {
        TornAppend(w.file, e, how.kept);
      } else {
        assert EditText(e)[..how.kept] == EditText(e);
        AppendIsEdit(w.file, e, ImageIn(w.memory));
      }
    }
  }

  lemma EnterSteady(w: World, stage: Stage)
    requires Steady(w) && (w.memory.Up? ==> StageOk(w.memory.entries, stage))
    ensures Steady(Enter(w, stage))
  {
  }

  lemma ReceivingSteady(cfg: Config, w: World, id: string, correlation: string, expires: int, how: Write, next: Stage,
                        otherwise: Answer)
    requires Steady(w) && Waiting(w) && Clear(how) && |w.memory.entries| < cfg.maximum
    requires CommandIdOk(id) && CommandIdOk(correlation) && id !in w.memory.entries && 0 < expires <= INT64_MAX
    requires Possible(how, EditText(Receive(id, correlation, expires)))
    requires StageOk(w.memory.entries[id := Fresh(correlation, expires)], next)
    ensures Steady(Receiving(cfg, w, id, correlation, expires, how, next, otherwise))
  {
    var e := Receive(id, correlation, expires);
    AppendSteady(w, e, how);
    if Append(w, e, how).memory.Up? { EnterSteady(Append(w, e, how), next); }
  }

  lemma HandleSteady(cfg: Config, w: World, c: Command, s: Signature, how: Write)
    requires Steady(w) && Enabled(cfg, Handle(c, s, how), w) && Smooth(cfg, Handle(c, s, how), w)
    ensures Steady(HandleStep(cfg, w, c, s, how))
  {
    var m, pruned := w.memory, Pruned(cfg, w, c, s);
    match Decide(cfg.options, c, s, m.epoch, m.changes, w.now)
    case Refusal(why) =>
      CodeIsReason(why);
      PrintableHasNoSeparator(Clean(cfg.options.texts.refusal(why)));
      ReceivingSteady(cfg, pruned, c.id, c.correlation, AtLeastOne(c.expires), how,
          Recording(RefusalAnswer(cfg, c, why)), RefusalAnswer(cfg, c, why));
    case Admission(dry) =>
      AdmittedInTime(cfg.options, c, s, m.epoch, m.changes, w.now);
      ReceivingSteady(cfg, pruned, c.id, c.correlation, c.expires, how, Begun(c, dry, w.now), Unavailable(cfg, c));
  }

  lemma RecordSteady(w: World, how: Write)
    requires Steady(w) && w.memory.Up? && w.memory.stage.Recording? && Clear(how)
    requires Possible(how, EditText(FinishOf(w.memory.stage.answer)))
    ensures Steady(RecordStep(w, how))
  {
    var a := w.memory.stage.answer;
    var idle := Enter(w, Idle);
    EnterSteady(w, Idle);
    AppendSteady(idle, FinishOf(a), how);
    var after := Append(idle, FinishOf(a), how);
    if after.memory.Up? { EnterSteady(after, Answering(a)); }
    assert Enter(Append(w, FinishOf(a), how), Answering(a)) == Enter(after, Answering(a));
  }

  lemma CloseSteady(w: World, how: Write)
    requires Steady(w) && w.memory.Up? && w.memory.stage.Closing? && Clear(how)
    requires Possible(how, EditText(Report(w.memory.stage.id)))
    ensures Steady(CloseStep(w, how))
  {
    var e := Report(w.memory.stage.id);
    var idle := Enter(w, Idle);
    EnterSteady(w, Idle);
    if Edited(e, ImageIn(w.memory)).Some? {
      AppendSteady(idle, e, how);
      assert Enter(Append(w, e, how), Idle) == Enter(Append(idle, e, how), Idle);
    }
  }

  lemma SubmitSteady(w: World, reply: Reply)
    requires Steady(w) && w.memory.Up? && w.memory.stage.Answering?
    ensures Steady(SubmitStep(w, reply))
  {
    var after := SubmitStep(w, reply);
    var n := |w.told|;
    forall i | 0 <= i < |after.told| ensures Remembered(w.memory.entries, after.told[i], w.now) {
      if i < n { assert after.told[i] == w.told[i]; }
    }
    forall i, j | 0 <= i < j < |after.told| && after.told[i].answer.id == after.told[j].answer.id
      ensures Agree(after.told[i], after.told[j])
    {
      assert after.told[i] == w.told[i];
      if j < n { assert after.told[j] == w.told[j]; } else { assert Remembered(w.memory.entries, w.told[i], w.now); }
    }
  }

  lemma StartSteady(cfg: Config, w: World, file: string)
    requires Steady(w) && Enabled(cfg, Start(file), w)
    ensures Steady(StartStep(cfg, w, file))
  {
    OpenLeavesItsImage(w.file, cfg.maximum, w.now, file);
    var entries := Load(w.file).value.entries;
    forall i | 0 <= i < |w.told| ensures Remembered(Kept(entries, w.now), w.told[i], w.now) {
      assert Remembered(entries, w.told[i], w.now);
    }
  }

  lemma TickSteady(w: World, now: int)
    requires Steady(w) && w.now <= now <= INT64_MAX - 86400
    ensures Steady(w.(now := now))
  {
    var entries := if w.memory.Up? then w.memory.entries else Load(w.file).value.entries;
    forall i | 0 <= i < |w.told| ensures Remembered(entries, w.told[i], now) {
      assert Remembered(entries, w.told[i], w.now);
    }
  }

  lemma NextSteady(cfg: Config, e: Event, w: World)
    requires Steady(w) && Enabled(cfg, e, w) && Smooth(cfg, e, w)
    ensures Steady(Next(cfg, e, w))
  {
    OtherReasons();
    match e
    case Tick(now) => TickSteady(w, now);
    case Crash =>
    case Start(file) => StartSteady(cfg, w, file);
    case Handle(c, s, how) => HandleSteady(cfg, w, c, s, how);
    case Execute(_, _, detail) => PrintableHasNoSeparator(Clean(detail)); LoadOk(w.file);
    case Decline => PrintableHasNoSeparator(Clean(cfg.options.texts.notAccepted)); LoadOk(w.file);
    case Record(how) => RecordSteady(w, how);
    case Resume(id) => PrintableHasNoSeparator(Clean(cfg.options.texts.interrupted)); LoadOk(w.file);
    case Retell(id) => EnterSteady(w, Answering(Stored(id, w.memory.entries[id])));
    case Unreadable(id, correlation, detail, how) =>
      var a := UnreadableAnswer(id, correlation, detail);
      PrintableHasNoSeparator(a.detail);
      ReceivingSteady(cfg, w, id, correlation, w.now + 86400, how, Recording(a), a);
    case Submit(reply) => SubmitSteady(w, reply);
    case Close(how) => CloseSteady(w, how);
  }

  lemma {:induction false} RunIsSteady(cfg: Config, worlds: seq<World>, events: seq<Event>, k: nat)
    requires Run(cfg, worlds, events) && Begins(worlds[0]) && Load(worlds[0].file).Some? && worlds[0].now >= 0 &&
             k <= |events|
    requires forall i :: 0 <= i < |events| ==> Smooth(cfg, events[i], worlds[i])
    ensures Steady(worlds[k])
  {
    if k > 0 {
      assert StepAt(cfg, worlds, events, k - 1);
      RunIsSteady(cfg, worlds, events, k - 1);
      assert Smooth(cfg, events[k - 1], worlds[k - 1]);
      NextSteady(cfg, events[k - 1], worlds[k - 1]);
    }
  }

  /**
   One stable answer. In any run whose appends succeed or are cut off by a crash, all results submitted
   for one command id carry the same correlation, outcome, reason and detail, except that a result
   submitted more than a day after the expiry recorded with an earlier one may differ from it.
   */
  lemma OneStableAnswer(cfg: Config, worlds: seq<World>, events: seq<Event>, i: nat, j: nat)
    requires Run(cfg, worlds, events) && Begins(worlds[0]) && Load(worlds[0].file).Some? && worlds[0].now >= 0
    requires forall k :: 0 <= k < |events| ==> Smooth(cfg, events[k], worlds[k])
    requires var told := worlds[|events|].told; i < j < |told| && told[i].answer.id == told[j].answer.id
    ensures var told := worlds[|events|].told;
            told[i].answer == told[j].answer || told[i].expires + 86400 < told[j].at
  {
    RunIsSteady(cfg, worlds, events, |events|);
  }

  // ---- the exception is needed --------------------------------------------------------------

  ghost predicate SmoothRun(cfg: Config, worlds: seq<World>, events: seq<Event>) {
    && Run(cfg, worlds, events) && Begins(worlds[0]) && Load(worlds[0].file).Some? && worlds[0].now >= 0
    && forall k :: 0 <= k < |events| ==> Smooth(cfg, events[k], worlds[k])
  }

  lemma ExtendSmooth(cfg: Config, worlds: seq<World>, events: seq<Event>, e: Event)
    requires SmoothRun(cfg, worlds, events) && Enabled(cfg, e, worlds[|events|]) && Smooth(cfg, e, worlds[|events|])
    ensures SmoothRun(cfg, worlds + [Next(cfg, e, worlds[|events|])], events + [e])
  {
    ExtendRun(cfg, worlds, events, e);
    var ws, es := worlds + [Next(cfg, e, worlds[|events|])], events + [e];
    forall k | 0 <= k < |es| ensures Smooth(cfg, es[k], ws[k]) {
      if k < |events| { assert Smooth(cfg, events[k], worlds[k]); }
    }
  }

  /** A smooth run that ends there. */
  ghost predicate Reaches(cfg: Config, worlds: seq<World>, events: seq<Event>, w: World) {
    SmoothRun(cfg, worlds, events) && worlds[|events|] == w
  }

  /** It can go on with any event that can happen there. */
  lemma Extended(cfg: Config, worlds: seq<World>, events: seq<Event>, w: World, e: Event)
    returns (ws: seq<World>, es: seq<Event>)
    requires Reaches(cfg, worlds, events, w) && Enabled(cfg, e, w) && Smooth(cfg, e, w)
    ensures Reaches(cfg, ws, es, Next(cfg, e, w)) && es == events + [e]
  {
    ExtendSmooth(cfg, worlds, events, e);
    ws, es := worlds + [Next(cfg, e, w)], events + [e];
  }

  lemma StartWaits(cfg: Config, worlds: seq<World>, events: seq<Event>, w: World, file: string)
    returns (ws: seq<World>, es: seq<Event>, after: World)
    requires Reaches(cfg, worlds, events, w) && Enabled(cfg, Start(file), w)
    ensures Reaches(cfg, ws, es, after) && es == events + [Start(file)]
    ensures Waiting(after) && after.memory.writable && after.told == w.told && after.now == w.now &&
            after.memory.changes == []
    ensures ImageIn(after.memory) == Opened(w.file, cfg.maximum, w.now).image
  {
    ws, es := Extended(cfg, worlds, events, w, Start(file));
    after := Next(cfg, Start(file), w);
  }

  /** An expired command whose id is not in the ledger is refused. */
  lemma ExpiredIsRefused(cfg: Config, worlds: seq<World>, events: seq<Event>, w: World, c: Command, s: Signature)
    returns (ws: seq<World>, es: seq<Event>, after: World)
    requires Reaches(cfg, worlds, events, w) && Waiting(w) && w.memory.writable && CommandOk(c) && c.id in cfg.book &&
             cfg.book[c.id] == c
    requires c.id !in w.memory.entries && c.expires <= w.now && |w.memory.entries| < cfg.maximum
    ensures Reaches(cfg, ws, es, after) && es == events + [Handle(c, s, Synced)]
    ensures after.memory.Up? && after.memory.writable && after.told == w.told
    ensures after.memory.stage.Recording? && StageOk(after.memory.entries, after.memory.stage)
    ensures after.memory.stage.answer.id == c.id && after.memory.stage.answer.outcome == "rejected"
  {
    var why := Decide(cfg.options, c, s, w.memory.epoch, w.memory.changes, w.now).why;
    CodeIsReason(why);
    PrintableHasNoSeparator(Clean(cfg.options.texts.refusal(why)));
    ws, es := Extended(cfg, worlds, events, w, Handle(c, s, Synced));
    after := Next(cfg, Handle(c, s, Synced), w);
  }

  /** An admitted one is begun. */
  lemma AdmittedIsBegun(cfg: Config, worlds: seq<World>, events: seq<Event>, w: World, c: Command, s: Signature)
    returns (ws: seq<World>, es: seq<Event>, after: World)
    requires Reaches(cfg, worlds, events, w) && Waiting(w) && w.memory.writable && CommandOk(c) && c.id in cfg.book &&
             cfg.book[c.id] == c
    requires c.id !in w.memory.entries && |w.memory.entries| < cfg.maximum && w.now >= 0
    requires Decide(cfg.options, c, s, w.memory.epoch, w.memory.changes, w.now).Admission?
    ensures Reaches(cfg, ws, es, after) && es == events + [Handle(c, s, Synced)]
    ensures after.memory.Up? && after.memory.writable && after.told == w.told && after.now == w.now
    ensures after.memory.stage.Begun? && after.memory.stage.command == c
    ensures after.memory.entries == w.memory.entries[c.id := Fresh(c.correlation, c.expires)]
  {
    var dry := Decide(cfg.options, c, s, w.memory.epoch, w.memory.changes, w.now).dryRun;
    AdmittedInTime(cfg.options, c, s, w.memory.epoch, w.memory.changes, w.now);
    ws, es := Extended(cfg, worlds, events, w, Handle(c, s, Synced));
    after := Next(cfg, Handle(c, s, Synced), w);
  }

  lemma ExecutedIsAnswered(cfg: Config, worlds: seq<World>, events: seq<Event>, w: World, outcome: string,
                           reason: string, detail: string)
    returns (ws: seq<World>, es: seq<Event>, after: World)
    requires Reaches(cfg, worlds, events, w) && w.memory.Up? && w.memory.stage.Begun? && OutcomeOk(outcome) &&
             ReasonOk(reason)
    ensures var c := w.memory.stage.command; var a := Answer(c.id, c.correlation, outcome, reason, Clean(detail));
            AnswerOk(a) && after.memory.Up? &&
                after == w.(ran := after.ran,
                    memory := w.memory.(changes := after.memory.changes, stage := Recording(a)))
    ensures Reaches(cfg, ws, es, after) && es == events + [Execute(outcome, reason, detail)]
  {
    PrintableHasNoSeparator(Clean(detail));
    ws, es := Extended(cfg, worlds, events, w, Execute(outcome, reason, detail));
    after := Next(cfg, Execute(outcome, reason, detail), w);
  }

  /** An answer that is to be recorded is recorded, and ready to be sent. */
  lemma RecordedIsReady(cfg: Config, worlds: seq<World>, events: seq<Event>, w: World, a: Answer)
    returns (ws: seq<World>, es: seq<Event>, after: World)
    requires Reaches(cfg, worlds, events, w) && w.memory.Up? && w.memory.writable
    requires w.memory.stage == Recording(a) && StageOk(w.memory.entries, w.memory.stage)
    ensures Reaches(cfg, ws, es, after) && es == events + [Record(Synced)]
    ensures after.memory.Up? && after.memory.writable && after.memory.stage == Answering(a) && after.told == w.told &&
            after.now == w.now
    ensures after.memory.entries ==
            w.memory.entries[a.id := w.memory.entries[a.id].(phase := Done, outcome := a.outcome, reason := a.reason,
                detail := a.detail)]
  {
    ws, es := Extended(cfg, worlds, events, w, Record(Synced));
    after := Next(cfg, Record(Synced), w);
  }

  lemma SubmittedIsTold(cfg: Config, worlds: seq<World>, events: seq<Event>, w: World, a: Answer, reply: Reply)
    returns (ws: seq<World>, es: seq<Event>, after: World)
    requires Reaches(cfg, worlds, events, w) && w.memory.Up? && w.memory.stage == Answering(a)
    ensures Reaches(cfg, ws, es, after) && es == events + [Submit(reply)]
    ensures |after.told| == |w.told| + 1 && w.told <= after.told && after.told[|w.told|].answer == a
    ensures after ==
            w.(told := after.told, memory := w.memory.(stage := if reply == Undelivered then Idle else Closing(a.id)))
  {
    ws, es := Extended(cfg, worlds, events, w, Submit(reply));
    after := Next(cfg, Submit(reply), w);
  }

  /**
   A forgotten command is refused. Take any run that has sent a result other than a rejection for a command that has
   expired since and that opening the ledger forgets. After a restart a redelivery is handled like a new command, and
   the run goes on to send a second result for the same id that differs from the first.
   */
  lemma ForgottenIsRefused(cfg: Config, worlds: seq<World>, events: seq<Event>, w: World, i: nat, file: string,
                           c: Command, s: Signature, reply: Reply)
    returns (ws: seq<World>, es: seq<Event>, after: World)
    requires Reaches(cfg, worlds, events, w) && Enabled(cfg, Start(file), w)
    requires CommandOk(c) && c.id in cfg.book && cfg.book[c.id] == c && c.expires <= w.now
    requires i < |w.told| && w.told[i].answer.id == c.id && w.told[i].answer.outcome != "rejected"
    requires var entries := Opened(w.file, cfg.maximum, w.now).image.entries;
             c.id !in entries && |entries| < cfg.maximum
    ensures Reaches(cfg, ws, es, after) &&
            es == events + [Start(file), Handle(c, s, Synced), Record(Synced), Submit(reply)]
    ensures |after.told| == |w.told| + 1 && w.told <= after.told
    ensures var last := after.told[|w.told|].answer;
            last.id == c.id && last.outcome == "rejected" && last != after.told[i].answer
  {
    ws, es, after := StartWaits(cfg, worlds, events, w, file);
    ws, es, after := ExpiredIsRefused(cfg, ws, es, after, c, s);
    var a := after.memory.stage.answer;
    ws, es, after := RecordedIsReady(cfg, ws, es, after, a);
    ws, es, after := SubmittedIsTold(cfg, ws, es, after, a, reply);
  }

  /** A ledger with no commands left can be opened. */
  lemma EmptyCanStart(cfg: Config, w: World) returns (file: string)
    requires w.memory.Down? && w.now < SIGNED_LIMIT && Opened(w.file, cfg.maximum, w.now).Ready?
    requires Opened(w.file, cfg.maximum, w.now).image.entries == map[]
    ensures Enabled(cfg, Start(file), w)
  {
    OpenedOk(w.file, cfg.maximum, w.now);
    var o := Opened(w.file, cfg.maximum, w.now);
    assert Enumerates([], o.image.entries);
    file := if o.rewrite then Render(o.image, []) else w.file;
  }

  /** A new ledger opens. */
  lemma FirstStart(cfg: Config, now: int) returns (ws: seq<World>, es: seq<Event>, after: World)
    requires 0 <= now <= INT64_MAX - 86400
    ensures Reaches(cfg, ws, es, after) && Waiting(after) && after.memory.writable && after.told == [] &&
            after.now == now
    ensures after.memory.changes == [] && ImageIn(after.memory) == Image(NewEpoch(now), map[])
  {
    var w := World("", Down, now, [], [], 0, now);
    assert Load("") == Some(EMPTY);
    assert Opened("", cfg.maximum, now).image == Image(NewEpoch(now), map[]);
    var file := EmptyCanStart(cfg, w);
    assert Reaches(cfg, [w], [], w);
    ws, es, after := StartWaits(cfg, [w], [], w, file);
  }

  /** The one command of a ledger is admitted, executed, answered and closed. */
  lemma AnsweredOnce(cfg: Config, c: Command, s: Signature, now: int, outcome: string, reason: string, detail: string)
    returns (ws: seq<World>, es: seq<Event>, after: World)
    requires 0 <= now <= INT64_MAX - 86400 && cfg.maximum > 0 && CommandOk(c) && c.id in cfg.book && cfg.book[c.id] == c
    requires Decide(cfg.options, c, s, NewEpoch(now), [], now).Admission?
    requires OutcomeOk(outcome) && ReasonOk(reason)
    ensures Reaches(cfg, ws, es, after) && Waiting(after) && after.memory.writable && after.now == now
    ensures |after.told| == 1 && after.told[0].answer.id == c.id && after.told[0].answer.outcome == outcome
    ensures after.memory.entries.Keys == {c.id} && after.memory.entries[c.id].phase == Reported &&
            after.memory.entries[c.id].expires == c.expires
  {
    ws, es, after := FirstStart(cfg, now);
    ws, es, after := AdmittedIsBegun(cfg, ws, es, after, c, s);
    ws, es, after := ExecutedIsAnswered(cfg, ws, es, after, outcome, reason, detail);
    var a := after.memory.stage.answer;
    ws, es, after := RecordedIsReady(cfg, ws, es, after, a);
    ws, es, after := SubmittedIsTold(cfg, ws, es, after, a, Answered);
    ws, es, after := ClosedIsReported(cfg, ws, es, after);
  }

  lemma ClosedIsReported(cfg: Config, worlds: seq<World>, events: seq<Event>, w: World)
    returns (ws: seq<World>, es: seq<Event>, after: World)
    requires Reaches(cfg, worlds, events, w) && w.memory.Up? && w.memory.writable && w.memory.stage.Closing?
    requires var id := w.memory.stage.id;
             CommandIdOk(id) && id in w.memory.entries && w.memory.entries[id].phase == Done
    ensures Reaches(cfg, ws, es, after) && es == events + [Close(Synced)] && Waiting(after) && after.memory.writable
    ensures after.told == w.told && after.now == w.now
    ensures var id := w.memory.stage.id;
            after.memory.entries == w.memory.entries[id := w.memory.entries[id].(phase := Reported)]
  {
    ws, es := Extended(cfg, worlds, events, w, Close(Synced));
    after := Next(cfg, Close(Synced), w);
  }

  /** A crash, and a time after it. */
  lemma CrashedAndLater(cfg: Config, worlds: seq<World>, events: seq<Event>, w: World, now: int)
    returns (ws: seq<World>, es: seq<Event>, after: World)
    requires Reaches(cfg, worlds, events, w) && w.memory.Up? && w.now <= now <= INT64_MAX - 86400
    ensures Reaches(cfg, ws, es, after) && es == events + [Crash, Tick(now)] && after == w.(memory := Down, now := now)
    ensures Load(after.file) == Some(ImageIn(w.memory))
  {
    RunIsSteady(cfg, worlds, events, |events|);
    ws, es := Extended(cfg, worlds, events, w, Crash);
    ws, es := Extended(cfg, ws, es, w.(memory := Down), Tick(now));
    after := w.(memory := Down, now := now);
  }

  /**
   The exception is needed. For every command a new ledger admits and every outcome of it but a rejection there is a run
   without a failed append that sends two different results for its id.
   */
  lemma AnswersCanDiffer(cfg: Config, c: Command, s: Signature, now: int, outcome: string, reason: string,
                         detail: string)
    returns (ws: seq<World>, es: seq<Event>, after: World)
    requires 0 <= now && c.expires + KEEP_AFTER_EXPIRY < INT64_MAX - 86400 && cfg.maximum > 0 && CommandOk(c) &&
             c.id in cfg.book && cfg.book[c.id] == c
    requires Decide(cfg.options, c, s, NewEpoch(now), [], now).Admission?
    requires OutcomeOk(outcome) && ReasonOk(reason) && outcome != "rejected"
    ensures SmoothRun(cfg, ws, es) && after == ws[|es|] && |after.told| == 2
    ensures after.told[0].answer.id == c.id == after.told[1].answer.id && after.told[0].answer.outcome == outcome
    ensures after.told[0].answer != after.told[1].answer && after.told[1].answer.outcome == "rejected"
  {
    AdmittedInTime(cfg.options, c, s, NewEpoch(now), [], now);
    ws, es, after := AnsweredOnce(cfg, c, s, now, outcome, reason, detail);
    var entries := after.memory.entries;
    var later := c.expires + KEEP_AFTER_EXPIRY + 1;
    ws, es, after := CrashedAndLater(cfg, ws, es, after, later);
    assert Kept(entries, later) == map[];
    var file := EmptyCanStart(cfg, after);
    ws, es, after := ForgottenIsRefused(cfg, ws, es, after, 0, file, c, s, Answered);
  }
}
