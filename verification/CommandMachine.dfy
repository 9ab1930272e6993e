/**
 The command channel as a state machine: one process that handles one command at a time, the ledger
 file that outlives it, and everything the environment can do to both. Each event is one step of
 `handle`, `resume`, `unreadable`, `report` or `prepare` between two points at which the process can
 die; a line being appended can be cut off at any byte.
 */
module CommandMachine {
  import opened Text
  import opened LedgerFormat
  import opened CommandPolicy

  const INT64_MAX := 0x7FFF_FFFF_FFFF_FFFF

  /** What is fixed over a run: the options, the bound of the ledger, and the command each id names. */
  datatype Config = Config(options: Options, maximum: nat, book: map<string, Command>)

  /** What is sent to the Manager about one command. */
  datatype Answer = Answer(id: string, correlation: string, outcome: string, reason: string, detail: string)

  /**
   One call of the executor: the command, whether for show only, the clock reading it was admitted at and the ledger it
   ran under.
   */
  datatype Ran = Ran(command: Command, dryRun: bool, at: int, epoch: int, reign: nat)

  /** One submitted result, with the expiry its ledger entry had. */
  datatype Told = Told(answer: Answer, expires: int, at: int)

  datatype Stage =
    | Idle
    | Begun(command: Command, dryRun: bool, at: int)  // the intent is recorded, the action has not begun
    | Recording(answer: Answer)                       // the outcome is known and not yet recorded
    | Answering(answer: Answer)                       // to be submitted
    | Closing(id: string)                             // the Manager took or refused the result

  datatype Memory =
    | Down
    | Up(epoch: int, entries: map<string, Entry>, writable: bool, changes: seq<int>, stage: Stage)

  /** `reign` counts the ledgers lost or set aside so far; the last one was at time `reset`. */
  datatype World = World(file: string, memory: Memory, now: int, ran: seq<Ran>, told: seq<Told>, reign: nat, reset: int)

  /** How one append ends. */
  datatype Write =
    | Synced            // on disk
    | CutBack           // failed part way and was truncated back
    | Stuck(kept: nat)  // failed part way and could not be truncated: nothing more is written
    | Unsynced          // written whole, but the sync failed
    | Died(kept: nat)   // the process died after this many bytes

  datatype Reply = Answered | Refused | Undelivered

  datatype Event =
    | Tick(now: int)
    | Crash
    | Lose
    | SetAside
    | Start(file: string)
    | Handle(command: Command, signature: Signature, how: Write)
    | Execute(outcome: string, reason: string, detail: string)
    | Decline
    | Record(how: Write)
    | Resume(id: string)
    | Retell(id: string)
    | Unreadable(id: string, correlation: string, detail: string, how: Write)
    | Submit(reply: Reply)
    | Close(how: Write)

  // ---- appending ----------------------------------------------------------------------------

  predicate Possible(how: Write, text: string) {
    match how
    case Stuck(kept) => kept < |text|
    case Died(kept) => kept <= |text|
    case _ => true
  }

  function ImageIn(m: Memory): Image
    requires m.Up?
  {
    Image(m.epoch, m.entries)
  }

  /** `append` and the change of memory that follows a successful one. */
  function Append(w: World, e: Edit, how: Write): World
    requires w.memory.Up? && Edited(e, ImageIn(w.memory)).Some? && Possible(how, EditText(e))
  {
    if !w.memory.writable then w
    else
      match how
      case Synced =>
          w.(file := w.file + EditText(e), memory := w.memory.(entries := Edited(e, ImageIn(w.memory)).value.entries))
      case CutBack => w
      case Stuck(kept) => w.(file := w.file + EditText(e)[..kept], memory := w.memory.(writable := false))
      case Unsynced => w.(file := w.file + EditText(e))
      case Died(kept) => w.(file := w.file + EditText(e)[..kept], memory := Down)
  }

  predicate Recorded(w: World, how: Write)
    requires w.memory.Up?
  {
    w.memory.writable && how == Synced
  }

  function Enter(w: World, stage: Stage): World {
    if w.memory.Up? then w.(memory := w.memory.(stage := stage)) else w
  }

  // ---- the steps ----------------------------------------------------------------------------

  predicate CommandOk(c: Command) {
    CommandIdOk(c.id) && CommandIdOk(c.correlation) && -INT64_MAX <= c.expires <= INT64_MAX
  }

  function RefusalAnswer(cfg: Config, c: Command, why: Why): Answer {
    Answer(c.id, c.correlation, "rejected", Code(why), Clean(cfg.options.texts.refusal(why)))
  }

  function Unavailable(cfg: Config, c: Command): Answer {
    Answer(c.id, c.correlation, "rejected", "ledger_unavailable", Clean(cfg.options.texts.unavailable))
  }

  function Interrupted(cfg: Config, id: string, e: Entry): Answer {
    Answer(id, e.correlation, "indeterminate", "interrupted", Clean(cfg.options.texts.interrupted))
  }

  function NotAccepted(cfg: Config, c: Command): Answer {
    Answer(c.id, c.correlation, "rejected", "manager_acceptance_required", Clean(cfg.options.texts.notAccepted))
  }

  function Stored(id: string, e: Entry): Answer { Answer(id, e.correlation, e.outcome, e.reason, e.detail) }

  /** `mark_received`, then on to `next`; without a record, straight to the answer. */
  function Receiving(cfg: Config, w: World, id: string, correlation: string, expires: int, how: Write, next: Stage,
                     otherwise: Answer): World
    requires w.memory.Up? && CommandIdOk(id) && CommandIdOk(correlation) && id !in w.memory.entries &&
             expires <= INT64_MAX
    requires expires > 0 ==> Possible(how, EditText(Receive(id, correlation, expires)))
  {
    if expires <= 0 || |w.memory.entries| >= cfg.maximum then Enter(w, Answering(otherwise))
    else Enter(Append(w, Receive(id, correlation, expires), how), if Recorded(w, how) then next
        else Answering(otherwise))
  }

  function AtLeastOne(n: int): int { if n < 1 then 1 else n }

  /** The clock readings kept for the rate limit are pruned when a changing command reaches that check. */
  function Window(o: Options, c: Command, s: Signature, epoch: int, times: seq<int>, now: int): seq<int> {
    if CheckIssuer(o, c, s).None? && CheckTime(o, c, epoch, now).None? && o.policy.mode == Enforce &&
       c.action in o.policy.allowed && ChangesHost(c.action)
    then Recent(times, now) else times
  }

  /** The world with the clock readings pruned. */
  function Pruned(cfg: Config, w: World, c: Command, s: Signature): World
    requires w.memory.Up?
  {
    w.(memory := w.memory.(changes := Window(cfg.options, c, s, w.memory.epoch, w.memory.changes, w.now)))
  }

  function RefusalStep(cfg: Config, w: World, c: Command, s: Signature, how: Write, why: Why): World
    requires w.memory.Up? && CommandOk(c) && c.id !in w.memory.entries
    requires Possible(how, EditText(Receive(c.id, c.correlation, AtLeastOne(c.expires))))
  {
    var a := RefusalAnswer(cfg, c, why);
    Receiving(cfg, Pruned(cfg, w, c, s), c.id, c.correlation, AtLeastOne(c.expires), how, Recording(a), a)
  }

  function AdmissionStep(cfg: Config, w: World, c: Command, s: Signature, how: Write, dry: bool): World
    requires w.memory.Up? && CommandOk(c) && c.id !in w.memory.entries
    requires Possible(how, EditText(Receive(c.id, c.correlation, AtLeastOne(c.expires))))
  {
    Receiving(cfg, Pruned(cfg, w, c, s), c.id, c.correlation, c.expires, how, Begun(c, dry, w.now), Unavailable(cfg, c))
  }

  function HandleStep(cfg: Config, w: World, c: Command, s: Signature, how: Write): World
    requires w.memory.Up? && CommandOk(c) && c.id !in w.memory.entries
    requires Possible(how, EditText(Receive(c.id, c.correlation, AtLeastOne(c.expires))))
  {
    match Decide(cfg.options, c, s, w.memory.epoch, w.memory.changes, w.now)
    case Refusal(why) => RefusalStep(cfg, w, c, s, how, why)
    case Admission(dry) => AdmissionStep(cfg, w, c, s, how, dry)
  }

  /** A change of the host counts towards the rate limit. */
  function AfterRun(times: seq<int>, c: Command, dry: bool, at: int): seq<int> {
    if ChangesHost(c.action) && !dry then times + [at] else times
  }

  function ExecuteStep(w: World, outcome: string, reason: string, detail: string): World
    requires w.memory.Up? && w.memory.stage.Begun?
  {
    var m := w.memory;
    var Begun(c, dry, at) := m.stage;
    w.(ran := w.ran + [Ran(c, dry, at, m.epoch, w.reign)],
       memory := m.(changes := AfterRun(m.changes, c, dry, at),
           stage := Recording(Answer(c.id, c.correlation, outcome, reason, Clean(detail)))))
  }

  function FinishOf(a: Answer): Edit { Finish(a.id, a.outcome, a.reason, a.detail) }

  /** `mark_done`: nothing is written for an outcome the ledger does not take. */
  function RecordStep(w: World, how: Write): World
    requires w.memory.Up? && w.memory.stage.Recording?
    requires Possible(how, EditText(FinishOf(w.memory.stage.answer)))
  {
    var a := w.memory.stage.answer;
    if Edited(FinishOf(a), ImageIn(w.memory)).None? then Enter(w, Answering(a))
    else Enter(Append(w, FinishOf(a), how), Answering(a))
  }

  function SubmitStep(w: World, reply: Reply): World
    requires w.memory.Up? && w.memory.stage.Answering?
  {
    var a := w.memory.stage.answer;
    var expires := if a.id in w.memory.entries then w.memory.entries[a.id].expires else 0;
    Enter(w.(told := w.told + [Told(a, expires, w.now)]), if reply == Undelivered then Idle else Closing(a.id))
  }

  /** `mark_reported`: only for a done command. */
  function CloseStep(w: World, how: Write): World
    requires w.memory.Up? && w.memory.stage.Closing?
    requires Possible(how, EditText(Report(w.memory.stage.id)))
  {
    var e := Report(w.memory.stage.id);
    if Edited(e, ImageIn(w.memory)).None? then Enter(w, Idle) else Enter(Append(w, e, how), Idle)
  }

  function StartStep(cfg: Config, w: World, file: string): World
    requires Opened(w.file, cfg.maximum, w.now).Ready?
  {
    var image := Opened(w.file, cfg.maximum, w.now).image;
    w.(file := file, memory := Up(image.epoch, image.entries, true, [], Idle))
  }

  predicate Waiting(w: World) { w.memory.Up? && w.memory.stage == Idle }

  ghost predicate Enabled(cfg: Config, e: Event, w: World) {
    match e
    case Tick(now) => w.now <= now <= INT64_MAX - 86400
    case Crash => true
    case Lose => w.memory.Down?
    case SetAside => w.memory.Down? && Opened(w.file, cfg.maximum, w.now).Corrupt?
    case Start(file) =>
      w.memory.Down? && Opened(w.file, cfg.maximum, w.now).Ready? &&
          ImageOk(Opened(w.file, cfg.maximum, w.now).image) &&
      LeftBehind(file, w.file, Opened(w.file, cfg.maximum, w.now))
    case Handle(c, s, how) =>
      Waiting(w) && CommandOk(c) && c.id in cfg.book && cfg.book[c.id] == c && c.id !in w.memory.entries &&
      Possible(how, EditText(Receive(c.id, c.correlation, AtLeastOne(c.expires))))
    case Execute(_, _, _) => w.memory.Up? && w.memory.stage.Begun?
    case Decline => w.memory.Up? && w.memory.stage.Begun? && cfg.options.acceptance &&
        Collects(w.memory.stage.command.action)
    case Record(how) => w.memory.Up? && w.memory.stage.Recording? &&
        Possible(how, EditText(FinishOf(w.memory.stage.answer)))
    case Resume(id) => Waiting(w) && id in w.memory.entries && w.memory.entries[id].phase == Received
    case Retell(id) => Waiting(w) && id in w.memory.entries && w.memory.entries[id].phase == Done
    case Unreadable(id, correlation, _, how) =>
      Waiting(w) && CommandIdOk(id) && CommandIdOk(correlation) && id !in w.memory.entries &&
          w.now <= INT64_MAX - 86400 &&
      (w.now + 86400 > 0 ==> Possible(how, EditText(Receive(id, correlation, w.now + 86400))))
    case Submit(_) => w.memory.Up? && w.memory.stage.Answering?
    case Close(how) => w.memory.Up? && w.memory.stage.Closing? && Possible(how, EditText(Report(w.memory.stage.id)))
  }

  function UnreadableAnswer(id: string, correlation: string, detail: string): Answer {
    Answer(id, correlation, "rejected", "invalid_command", Clean(detail))
  }

  function UnreadableStep(cfg: Config, w: World, id: string, correlation: string, detail: string, how: Write): World
    requires w.memory.Up? && CommandIdOk(id) && CommandIdOk(correlation) && id !in w.memory.entries
    requires w.now <= INT64_MAX - 86400
    requires w.now + 86400 > 0 ==> Possible(how, EditText(Receive(id, correlation, w.now + 86400)))
  {
    var a := UnreadableAnswer(id, correlation, detail);
    Receiving(cfg, w, id, correlation, w.now + 86400, how, Recording(a), a)
  }

  ghost function Next(cfg: Config, e: Event, w: World): World
    requires Enabled(cfg, e, w)
  {
    match e
    case Tick(now) => w.(now := now)
    case Crash => w.(memory := Down)
    case Lose => w.(file := "", reign := w.reign + 1, reset := w.now)
    case SetAside => w.(file := "", reign := w.reign + 1, reset := w.now)
    case Start(file) => StartStep(cfg, w, file)
    case Handle(c, s, how) => HandleStep(cfg, w, c, s, how)
    case Execute(outcome, reason, detail) => ExecuteStep(w, outcome, reason, detail)
    case Decline => Enter(w, Recording(NotAccepted(cfg, w.memory.stage.command)))
    case Record(how) => RecordStep(w, how)
    case Resume(id) => Enter(w, Recording(Interrupted(cfg, id, w.memory.entries[id])))
    case Retell(id) => Enter(w, Answering(Stored(id, w.memory.entries[id])))
    case Unreadable(id, correlation, detail, how) => UnreadableStep(cfg, w, id, correlation, detail, how)
    case Submit(reply) => SubmitStep(w, reply)
    case Close(how) => CloseStep(w, how)
  }

  ghost predicate StepAt(cfg: Config, worlds: seq<World>, events: seq<Event>, i: nat)
    requires |worlds| == |events| + 1 && i < |events|
  {
    Enabled(cfg, events[i], worlds[i]) && worlds[i + 1] == Next(cfg, events[i], worlds[i])
  }

  /** The worlds after each event of a run. */
  ghost predicate Run(cfg: Config, worlds: seq<World>, events: seq<Event>) {
    && |worlds| == |events| + 1
    && forall i {:trigger StepAt(cfg, worlds, events, i)} :: 0 <= i < |events| ==> StepAt(cfg, worlds, events, i)
  }

  lemma ExtendRun(cfg: Config, worlds: seq<World>, events: seq<Event>, e: Event)
    requires Run(cfg, worlds, events) && Enabled(cfg, e, worlds[|events|])
    ensures Run(cfg, worlds + [Next(cfg, e, worlds[|events|])], events + [e])
  {
    var ws, es := worlds + [Next(cfg, e, worlds[|events|])], events + [e];
    forall i | 0 <= i < |es| ensures StepAt(cfg, ws, es, i) {
      if i < |events| {
        assert StepAt(cfg, worlds, events, i);
        assert es[i] == events[i] && ws[i] == worlds[i] && ws[i + 1] == worlds[i + 1];
      }
    }
  }

  lemma TickHappens(cfg: Config, worlds: seq<World>, events: seq<Event>, now: int)
    requires Run(cfg, worlds, events)
    requires var w := worlds[|events|]; w.now <= now <= INT64_MAX - 86400
    ensures var w := worlds[|events|]; Run(cfg, worlds + [w.(now := now)], events + [Tick(now)])
  {
    ExtendRun(cfg, worlds, events, Tick(now));
  }

  lemma RefusalHappens(cfg: Config, worlds: seq<World>, events: seq<Event>, c: Command, s: Signature, how: Write,
                       why: Why)
    requires Run(cfg, worlds, events)
    requires Enabled(cfg, Handle(c, s, how), worlds[|events|])
    requires var w := worlds[|events|];
             Decide(cfg.options, c, s, w.memory.epoch, w.memory.changes, w.now) == Refusal(why)
    ensures var w := worlds[|events|];
            Run(cfg, worlds + [RefusalStep(cfg, w, c, s, how, why)], events + [Handle(c, s, how)])
  {
    ExtendRun(cfg, worlds, events, Handle(c, s, how));
  }

  lemma AdmissionHappens(cfg: Config, worlds: seq<World>, events: seq<Event>, c: Command, s: Signature, how: Write,
                         dry: bool)
    requires Run(cfg, worlds, events)
    requires Enabled(cfg, Handle(c, s, how), worlds[|events|])
    requires var w := worlds[|events|];
             Decide(cfg.options, c, s, w.memory.epoch, w.memory.changes, w.now) == Admission(dry)
    ensures var w := worlds[|events|];
            Run(cfg, worlds + [AdmissionStep(cfg, w, c, s, how, dry)], events + [Handle(c, s, how)])
  {
    ExtendRun(cfg, worlds, events, Handle(c, s, how));
  }

  lemma DeclineHappens(cfg: Config, worlds: seq<World>, events: seq<Event>, c: Command)
    requires Run(cfg, worlds, events)
    requires var w := worlds[|events|];
             w.memory.Up? && w.memory.stage.Begun? && w.memory.stage.command == c &&
             cfg.options.acceptance && Collects(c.action)
    ensures var w := worlds[|events|]; Run(cfg, worlds + [Enter(w, Recording(NotAccepted(cfg, c)))], events + [Decline])
  {
    ExtendRun(cfg, worlds, events, Decline);
  }

  lemma RecordHappens(cfg: Config, worlds: seq<World>, events: seq<Event>, how: Write)
    requires Run(cfg, worlds, events)
    requires var w := worlds[|events|];
             w.memory.Up? && w.memory.stage.Recording? && Possible(how, EditText(FinishOf(w.memory.stage.answer)))
    ensures var w := worlds[|events|]; Run(cfg, worlds + [RecordStep(w, how)], events + [Record(how)])
  {
    ExtendRun(cfg, worlds, events, Record(how));
  }

  lemma ExecuteHappens(cfg: Config, worlds: seq<World>, events: seq<Event>, outcome: string, reason: string,
                       detail: string)
    requires Run(cfg, worlds, events)
    requires var w := worlds[|events|]; w.memory.Up? && w.memory.stage.Begun?
    ensures var w := worlds[|events|];
            Run(cfg, worlds + [ExecuteStep(w, outcome, reason, detail)], events + [Execute(outcome, reason, detail)])
  {
    ExtendRun(cfg, worlds, events, Execute(outcome, reason, detail));
  }

  lemma ResumeHappens(cfg: Config, worlds: seq<World>, events: seq<Event>, id: string)
    requires Run(cfg, worlds, events)
    requires var w := worlds[|events|]; Waiting(w) && id in w.memory.entries && w.memory.entries[id].phase == Received
    ensures var w := worlds[|events|];
            Run(cfg, worlds + [Enter(w, Recording(Interrupted(cfg, id, w.memory.entries[id])))], events + [Resume(id)])
  {
    ExtendRun(cfg, worlds, events, Resume(id));
  }

  lemma RetellHappens(cfg: Config, worlds: seq<World>, events: seq<Event>, id: string)
    requires Run(cfg, worlds, events)
    requires var w := worlds[|events|]; Waiting(w) && id in w.memory.entries && w.memory.entries[id].phase == Done
    ensures var w := worlds[|events|];
            Run(cfg, worlds + [Enter(w, Answering(Stored(id, w.memory.entries[id])))], events + [Retell(id)])
  {
    ExtendRun(cfg, worlds, events, Retell(id));
  }

  lemma UnreadableHappens(cfg: Config, worlds: seq<World>, events: seq<Event>, id: string, correlation: string,
                          detail: string, how: Write)
    requires Run(cfg, worlds, events)
    requires var w := worlds[|events|]; Enabled(cfg, Unreadable(id, correlation, detail, how), w)
    ensures var w := worlds[|events|];
            Run(cfg, worlds + [UnreadableStep(cfg, w, id, correlation, detail, how)],
                events + [Unreadable(id, correlation, detail, how)])
  {
    ExtendRun(cfg, worlds, events, Unreadable(id, correlation, detail, how));
  }

  lemma SubmitHappens(cfg: Config, worlds: seq<World>, events: seq<Event>, reply: Reply)
    requires Run(cfg, worlds, events)
    requires var w := worlds[|events|]; w.memory.Up? && w.memory.stage.Answering?
    ensures var w := worlds[|events|]; Run(cfg, worlds + [SubmitStep(w, reply)], events + [Submit(reply)])
  {
    ExtendRun(cfg, worlds, events, Submit(reply));
  }

  lemma CloseHappens(cfg: Config, worlds: seq<World>, events: seq<Event>, how: Write)
    requires Run(cfg, worlds, events)
    requires var w := worlds[|events|];
             w.memory.Up? && w.memory.stage.Closing? && Possible(how, EditText(Report(w.memory.stage.id)))
    ensures var w := worlds[|events|]; Run(cfg, worlds + [CloseStep(w, how)], events + [Close(how)])
  {
    ExtendRun(cfg, worlds, events, Close(how));
  }

  /** Where every run begins: no process, any file that a sensor could have left, nothing run yet. */
  predicate Begins(w: World) {
    w.memory.Down? && w.ran == [] && w.told == [] && w.reign == 0 && w.reset <= w.now && w.now <= INT64_MAX - 86400
  }
}
