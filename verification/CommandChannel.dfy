/**
 The command processor and provider: `handle`, `resume`, `unreadable`, `report` and `step` as they run in a
 process that does not die. Every effect they have is an event of the command machine, in which the process
 can die between any two events and inside any append.
 */
module CommandChannels {
  import opened Text
  import opened LedgerFormat
  import opened CommandPolicy
  import opened CommandMachine
  import opened CommandLedgers
  import CommandSafety
  import CommandAnswers

  /** One element of a poll reply. */
  datatype Item =
    | Readable(command: Command)
    | Garbled(id: string, correlation: string, why: string)  // empty id or correlation: not readable either

  /** An append that was not recorded, a result that was not taken, or an outcome the ledger does not take. */
  predicate Faulty(e: Event) {
    match e
    case Handle(_, _, how) => how != Synced
    case Record(how) => how != Synced
    case Unreadable(_, _, _, how) => how != Synced
    case Close(how) => how != Synced
    case Submit(reply) => reply == Undelivered
    case Execute(outcome, reason, _) => !OutcomeOk(outcome) || !ReasonOk(reason)
    case _ => false
  }

  function Faults(events: seq<Event>): nat {
    if events == [] then 0
    else Faults(events[..|events| - 1]) + if Faulty(events[|events| - 1]) then 1 else 0
  }

  lemma FaultsMore(events: seq<Event>, e: Event)
    ensures Faults(events + [e]) == Faults(events) + if Faulty(e) then 1 else 0
  {
    assert (events + [e])[..|events|] == events;
  }

  /** One call of the executor, with what it gave. */
  datatype Call = Call(command: Command, dryRun: bool, outcome: string, reason: string, detail: string)

  /** One collection the Manager was asked to accept. */
  datatype Asked = Asked(command: Command, accepted: bool)

  /** The calls are the executions of the machine, in order. */
  ghost predicate Called(calls: seq<Call>, ran: seq<Ran>) {
    |calls| == |ran| && forall i :: 0 <= i < |ran| ==>
        calls[i].command == ran[i].command && calls[i].dryRun == ran[i].dryRun
  }

  /** The submissions are the results of the machine, in order. */
  ghost predicate Submitted(results: seq<Answer>, told: seq<Told>) {
    |results| == |told| && forall i :: 0 <= i < |told| ==> results[i] == told[i].answer
  }

  lemma SubmittedMore(results: seq<Answer>, told: seq<Told>, t: Told)
    requires Submitted(results, told)
    ensures Submitted(results + [t.answer], told + [t])
  {
  }

  /** A result with this answer is among those after the first `from`. */
  ghost predicate SentSince(results: seq<Answer>, from: nat, a: Answer) {
    exists k :: from <= k < |results| && results[k] == a
  }

  /**
   Of the wanted answers each was sent after the first `from` results, and nothing else, but for those still to do.
   */
  ghost predicate SentAllBut(results: seq<Answer>, from: nat, want: map<string, Answer>, todo: set<string>) {
    && todo <= want.Keys && from <= |results| && |results| + |todo| == from + |want|
    && forall id :: id in want && id !in todo ==> SentSince(results, from, want[id])
  }

  lemma NoneSent(results: seq<Answer>, want: map<string, Answer>)
    ensures SentAllBut(results, |results|, want, want.Keys)
  {
    assert |want| == |want.Keys|;
  }

  lemma OneMoreSent(results: seq<Answer>, from: nat, want: map<string, Answer>, todo: set<string>, id: string)
    requires SentAllBut(results, from, want, todo) && id in todo
    ensures SentAllBut(results + [want[id]], from, want, todo - {id})
  {
    var after := results + [want[id]];
    forall other | other in want && other !in todo - {id}
      ensures SentSince(after, from, want[other])
    {
      if other == id {
        assert after[|results|] == want[other];
      } else {
        var k :| from <= k < |results| && results[k] == want[other];
        assert after[k] == results[k];
      }
    }
  }

  /** The answers to the commands that were begun and never finished. */
  function InterruptedAnswers(cfg: Config, entries: map<string, Entry>): map<string, Answer> {
    map id | id in entries && entries[id].phase == Received :: Interrupted(cfg, id, entries[id])
  }

  /** The answers to the commands that are done, as they were stored. */
  function StoredAnswers(entries: map<string, Entry>): map<string, Answer> {
    map id | id in entries && entries[id].phase == Done :: Stored(id, entries[id])
  }

  /** The answer made of what the executor gave. */
  function AnswerOf(c: Command, call: Call): Answer {
    Answer(c.id, c.correlation, call.outcome, call.reason, Clean(call.detail))
  }

  /** The executor was called once more, for this command, and its outcome is the answer. */
  ghost predicate RanOnce(c: Command, dry: bool, a: Answer, before: seq<Call>, after: seq<Call>) {
    && |after| == |before| + 1 && before <= after
    && after[|before|].command == c && after[|before|].dryRun == dry && a == AnswerOf(c, after[|before|])
  }

  /** What the outside has seen: the calls of the executor and the collections the Manager was asked to accept. */
  datatype Seen = Seen(calls: seq<Call>, asked: seq<Asked>)

  /** An admitted command whose intent is recorded: the Manager is asked where it must be, and the executor called. */
  ghost predicate ActedOn(cfg: Config, c: Command, dry: bool, a: Answer, before: Seen, after: Seen) {
    if cfg.options.acceptance && c.action in {CollectProcessInfo, CollectNetworkConnections, CollectFile} then
      && |after.asked| == |before.asked| + 1 && before.asked <= after.asked && after.asked[|before.asked|].command == c
      && if after.asked[|before.asked|].accepted then RanOnce(c, dry, a, before.calls, after.calls)
         else after.calls == before.calls && a == NotAccepted(cfg, c)
    else
      after.asked == before.asked && RanOnce(c, dry, a, before.calls, after.calls)
  }

  /** What comes of a command that is new to the ledger, by the decision on it and whether it could be recorded. */
  ghost predicate Dealt(cfg: Config, c: Command, d: Decision, recorded: bool, a: Answer, before: Seen, after: Seen) {
    match d
    case Refusal(why) => after == before && a == RefusalAnswer(cfg, c, why)
    case Admission(dry) =>
      if recorded then ActedOn(cfg, c, dry, a, before, after) else after == before && a == Unavailable(cfg, c)
  }

  /** Two tables that agree on every id but this one. */
  ghost predicate SameBut(a: map<string, Entry>, b: map<string, Entry>, id: string) {
    forall other :: other != id ==> (other in a <==> other in b) && (other in a ==> a[other] == b[other])
  }

  lemma SameButTwice(a: map<string, Entry>, b: map<string, Entry>, c: map<string, Entry>, id: string)
    requires SameBut(b, a, id) && SameBut(c, b, id)
    ensures SameBut(c, a, id)
  {
  }

  /** The ledger takes this answer to a command it has as received. */
  predicate AnswerTaken(entries: map<string, Entry>, a: Answer) {
    OutcomeOk(a.outcome) && ReasonOk(a.reason) && a.id in entries && entries[a.id].phase == Received
  }

  lemma FinishedIs(entries: map<string, Entry>, a: Answer)
    ensures var after := Finished(entries, a.id, a.outcome, a.reason, a.detail);
            && SameBut(after, entries, a.id) && (a.id in after <==> a.id in entries)
            && (AnswerTaken(entries, a) ==> a.id in after && after[a.id].phase == Done)
  {
  }

  lemma ClosedIs(entries: map<string, Entry>, id: string)
    ensures var after := Closed(entries, id);
            && SameBut(after, entries, id) && (id in after <==> id in entries)
            && (id in entries && entries[id].phase != Received ==> after[id].phase == Reported)
  {
  }

  ghost predicate ClosedBut(entries: map<string, Entry>, todo: set<string>) {
    forall id :: id in entries && id !in todo ==> entries[id].phase == Reported
  }

  lemma OneMoreClosed(before: map<string, Entry>, after: map<string, Entry>, todo: set<string>, id: string)
    requires ClosedBut(before, todo) && SameBut(after, before, id) && (id in after ==> after[id].phase == Reported)
    ensures ClosedBut(after, todo - {id})
  {
  }

  ghost predicate NoneBegunBut(entries: map<string, Entry>, todo: set<string>) {
    forall id :: id in entries && id !in todo ==> entries[id].phase != Received
  }

  lemma OneMoreSettled(before: map<string, Entry>, after: map<string, Entry>, todo: set<string>, id: string)
    requires NoneBegunBut(before, todo) && SameBut(after, before, id) && (id in after ==> after[id].phase != Received)
    ensures NoneBegunBut(after, todo - {id})
  {
  }

  /** These are as they were. */
  ghost predicate Still(entries: map<string, Entry>, was: map<string, Entry>, todo: set<string>) {
    forall id :: id in todo ==> id in entries && id in was && entries[id] == was[id]
  }

  lemma OneLessToDo(after: map<string, Entry>, before: map<string, Entry>, was: map<string, Entry>, todo: set<string>,
                    id: string)
    requires Still(before, was, todo) && SameBut(after, before, id)
    ensures Still(after, was, todo - {id})
  {
  }

  // ---- what one item comes to ----------------------------------------------------------------

  /** Everything an item of a poll can change, and the clock. */
  datatype Scene = Scene(entries: map<string, Entry>, results: seq<Answer>, seen: Seen, faults: nat, epoch: int,
                         changes: seq<int>, now: int)

  /** A command that is new to the ledger: one result, by the decision on it, and reported unless something fails. */
  ghost predicate NewTaken(cfg: Config, c: Command, s: Signature, a: Scene, b: Scene) {
    TakenAs(cfg, c, Decide(cfg.options, c, s, a.epoch, a.changes, b.now), a, b)
  }

  ghost predicate TakenAs(cfg: Config, c: Command, d: Decision, a: Scene, b: Scene) {
    && |b.results| == |a.results| + 1 && a.results <= b.results
    && var answer := b.results[|a.results|];
    && answer.id == c.id && answer.correlation == c.correlation
    && Dealt(cfg, c, d, c.id in b.entries, answer, a.seen, b.seen)
    && (b.faults == a.faults ==>
          && (c.id in b.entries <==> |a.entries| < cfg.maximum && (d.Admission? ==> c.expires > 0))
          && (c.id in b.entries ==> b.entries[c.id].phase == Reported))
  }

  /** One that was begun and never finished is answered as such; one that is done or reported is left alone. */
  ghost predicate KnownTaken(cfg: Config, id: string, a: Scene, b: Scene)
    requires id in a.entries
  {
    && b.seen == a.seen
    && if a.entries[id].phase == Received then
         && b.results == a.results + [Interrupted(cfg, id, a.entries[id])]
         && (b.faults == a.faults ==> id in b.entries && b.entries[id].phase == Reported)
       else b.results == a.results && b.entries == a.entries
  }

  /** An item that is no command: rejected if it can be answered and was not before, and left alone if not. */
  ghost predicate GarbledTaken(cfg: Config, id: string, correlation: string, why: string, a: Scene, b: Scene) {
    && b.seen == a.seen
    && if id == "" || correlation == "" || id in a.entries then b.results == a.results && b.entries == a.entries
       else
         && b.results == a.results + [Answer(id, correlation, "rejected", "invalid_command", Clean(why))]
         && (b.faults == a.faults ==>
               && (id in b.entries <==> |a.entries| < cfg.maximum && b.now + 86400 > 0)
               && (id in b.entries ==> b.entries[id].phase == Reported))
  }

  ghost predicate ItemTaken(cfg: Config, item: Item, s: Signature, a: Scene, b: Scene) {
    match item
    case Readable(c) =>
      && SameBut(b.entries, a.entries, c.id)
      && if c.id in a.entries then KnownTaken(cfg, c.id, a, b) else NewTaken(cfg, c, s, a, b)
    case Garbled(id, correlation, why) =>
      SameBut(b.entries, a.entries, id) && GarbledTaken(cfg, id, correlation, why, a, b)
  }

  lemma DealtAnswers(cfg: Config, c: Command, d: Decision, recorded: bool, a: Answer, before: Seen, after: Seen)
    requires Dealt(cfg, c, d, recorded, a, before, after)
    ensures a.id == c.id && a.correlation == c.correlation
  {
  }

  /**
   The executor is called for a new command exactly when the command is admissible, its intent is on record, and the
   Manager accepts it where it is asked; then once, and for show only exactly where a change is not to be enforced.
   */
  lemma CalledIffAdmissible(cfg: Config, c: Command, s: Signature, a: Scene, b: Scene)
    requires c.id !in a.entries && NewTaken(cfg, c, s, a, b)
    ensures var asks := cfg.options.acceptance &&
            c.action in {CollectProcessInfo, CollectNetworkConnections, CollectFile};
            var admissible := Admissible(cfg.options, c, s, a.epoch, a.changes, b.now);
            && (b.seen.calls != a.seen.calls <==>
                  admissible && c.id in b.entries &&
                  (asks ==> |b.seen.asked| == |a.seen.asked| + 1 && b.seen.asked[|a.seen.asked|].accepted))
            && (b.seen.calls != a.seen.calls ==>
                  && |b.seen.calls| == |a.seen.calls| + 1 && a.seen.calls <= b.seen.calls
                  && var call := b.seen.calls[|a.seen.calls|];
                  && call.command == c
                  && (call.dryRun <==> ChangesTheHost(c.action) && cfg.options.policy.mode != Enforce))
            && (b.seen.asked != a.seen.asked <==> asks && admissible && c.id in b.entries)
  {
    AdmittedIff(cfg.options, c, s, a.epoch, a.changes, b.now);
  }

  /** Faults are only counted up. */
  ghost predicate FaultsGrow(scenes: seq<Scene>) {
    forall i, j :: 0 <= i < j < |scenes| ==> scenes[i].faults <= scenes[j].faults
  }

  /** Items dealt with without a fault leave nothing open. */
  lemma {:induction false} AllClosed(cfg: Config, items: seq<Item>, signatures: seq<Signature>, scenes: seq<Scene>,
                                     n: nat)
    requires |signatures| == |items| && n <= |items| && |scenes| == |items| + 1 && FaultsGrow(scenes)
    requires forall i :: 0 <= i < |items| ==> ItemTaken(cfg, items[i], signatures[i], scenes[i], scenes[i + 1])
    requires ClosedBut(scenes[0].entries, {}) && scenes[0].faults == scenes[|items|].faults
    ensures ClosedBut(scenes[n].entries, {})
  {
    if n > 0 {
      AllClosed(cfg, items, signatures, scenes, n - 1);
      assert ItemTaken(cfg, items[n - 1], signatures[n - 1], scenes[n - 1], scenes[n - 1 + 1]);
      assert scenes[0].faults <= scenes[n - 1].faults <= scenes[n].faults <= scenes[|items|].faults by {
        assert n - 1 == 0 || scenes[0].faults <= scenes[n - 1].faults;
        assert n == |items| || scenes[n].faults <= scenes[|items|].faults;
      }
      OneMoreTaken(cfg, items[n - 1], signatures[n - 1], scenes[n - 1], scenes[n]);
    }
  }

  lemma OneMoreTaken(cfg: Config, item: Item, s: Signature, a: Scene, b: Scene)
    requires ItemTaken(cfg, item, s, a, b) && a.faults == b.faults && ClosedBut(a.entries, {})
    ensures ClosedBut(b.entries, {})
  {
  }

  /** What carries the commands out. It outlives the process, and only a call extends its list. */
  class Executor {
    ghost var calls: seq<Call>

    constructor ()
      ensures calls == []
    {
      calls := [];
    }

    /** The command is carried out; the outcome may be anything. */
    method Run(c: Command, dryRun: bool) returns (outcome: string, reason: string, detail: string)
      modifies this
      ensures calls == old(calls) + [Call(c, dryRun, outcome, reason, detail)]
    {
      outcome, reason, detail := *, *, *;
      calls := calls + [Call(c, dryRun, outcome, reason, detail)];
    }
  }

  /** The other end. It outlives the process, and only a submission extends its list. */
  class Manager {
    ghost var results: seq<Answer>
    ghost var asked: seq<Asked>

    constructor ()
      ensures results == [] && asked == []
    {
      results, asked := [], [];
    }

    /** A result is submitted; the reply may be anything. */
    method Take(a: Answer) returns (reply: Reply)
      modifies this`results
      ensures results == old(results) + [a]
    {
      results := results + [a];
      reply := *;
    }

    /** The acceptance of a collection. */
    method Accepts(c: Command) returns (yes: bool)
      modifies this`asked
      ensures asked == old(asked) + [Asked(c, yes)]
    {
      yes := *;
      asked := asked + [Asked(c, yes)];
    }
  }

  class CommandChannel {
    const cfg: Config
    const ledger: CommandLedger
    const executor: Executor
    const manager: Manager
    var changes: seq<int>
    var now: int
    ghost var stage: Stage
    ghost var ran: seq<Ran>
    ghost var told: seq<Told>
    ghost var reign: nat
    ghost var reset: int
    ghost var worlds: seq<World>
    ghost var events: seq<Event>
    ghost var faults: nat

    ghost function View(): Scene
      reads this, ledger, executor, manager
    {
      Scene(ledger.entries, manager.results, Outside(), faults, ledger.epoch, changes, now)
    }

    ghost function Outside(): Seen
      reads executor, manager
    {
      Seen(executor.calls, manager.asked)
    }

    ghost function Here(): (w: World)
      reads this, ledger
      ensures w.memory.Up?
    {
      World(ledger.file, Up(ledger.epoch, ledger.entries, ledger.writable, changes, stage), now, ran, told, reign,
          reset)
    }

    /** What holds between an effect and the record of it. */
    ghost predicate Sound()
      reads this, ledger
    {
      && ledger.Valid() && ledger.maximum == cfg.maximum && now <= INT64_MAX - 86400
      && Run(cfg, worlds, events) && faults == Faults(events)
    }

    /** What was done outside is what the machine says was done. */
    ghost predicate InAccord()
      reads this, executor, manager
    {
      Called(executor.calls, ran) && Submitted(manager.results, told)
    }

    /** The history of this object is a run of the machine that ends in its present state. */
    ghost predicate Valid()
      reads this, ledger, executor, manager
    {
      Sound() && InAccord() && worlds[|events|] == Here()
    }

    /** A new process over an opened ledger; `worlds` and `events` are the history that led here. */
    constructor (cfg: Config, ledger: CommandLedger, executor: Executor, manager: Manager, now: int,
                 ghost worlds: seq<World>, ghost events: seq<Event>)
      requires Run(cfg, worlds, events) && ledger.Valid() && ledger.writable && ledger.maximum == cfg.maximum
      requires worlds[|events|].now == now <= INT64_MAX - 86400 && Enabled(cfg, Start(ledger.file), worlds[|events|])
      requires Image(ledger.epoch, ledger.entries) == Opened(worlds[|events|].file, cfg.maximum, now).image
      requires Called(executor.calls, worlds[|events|].ran) && Submitted(manager.results, worlds[|events|].told)
      ensures Valid() && this.cfg == cfg && this.ledger == ledger && stage == Idle && changes == []
      ensures this.executor == executor && this.manager == manager
      ensures this.events == events + [Start(ledger.file)] && this.worlds == worlds + [Here()]
    {
      this.cfg := cfg;
      this.ledger, this.executor, this.manager := ledger, executor, manager;
      ghost var last := worlds[|events|];
      this.changes, this.now, this.stage := [], now, Idle;
      this.ran, this.told, this.reign, this.reset := last.ran, last.told, last.reign, last.reset;
      ghost var started := StartStep(cfg, last, ledger.file);
      ExtendRun(cfg, worlds, events, Start(ledger.file));
      this.events := events + [Start(ledger.file)];
      this.worlds := worlds + [started];
      this.faults := Faults(events + [Start(ledger.file)]);
    }

    /** The event that led from the last recorded world to the present one. */
    ghost method Did(e: Event)
      requires Sound() && InAccord()
      requires Run(cfg, worlds + [Here()], events + [e])
      modifies this`worlds, this`events, this`faults
      ensures Valid() && events == old(events) + [e] && worlds == old(worlds) + [Here()]
      ensures faults == old(faults) + if Faulty(e) then 1 else 0
    {
      FaultsMore(events, e);
      worlds, events, faults := worlds + [Here()], events + [e], Faults(events + [e]);
    }

    /** Time passes. */
    method Wait()
      requires Valid()
      modifies this`now, this`worlds, this`events, this`faults
      ensures Valid() && now >= old(now) && faults == old(faults) && old(events) <= events
    {
      var later: int := *;
      if now <= later <= INT64_MAX - 86400 {
        TickHappens(cfg, worlds, events, later);
        now := later;
        Did(Tick(later));
      }
    }

    /** Readings more than a minute old leave the rate window. */
    method Prune(current: int)
      modifies this`changes
      ensures changes == Recent(old(changes), current)
    {
      while changes != [] && changes[0] <= current - 60
        invariant Recent(changes, current) == Recent(old(changes), current)
        decreases |changes|
      {
        changes := changes[1..];
      }
    }

    /** `mark_done` for an outcome that is known. */
    method RecordAnswer(a: Answer)
      requires Valid() && stage == Recording(a) && Clean(a.detail) == a.detail
      modifies this`stage, this`worlds, this`events, this`faults, ledger`file, ledger`writable, ledger`entries
      ensures Valid() && stage == Answering(a) && old(events) <= events && faults >= old(faults)
      ensures SameBut(ledger.entries, old(ledger.entries), a.id)
      ensures a.id in ledger.entries <==> a.id in old(ledger.entries)
      ensures faults == old(faults) && AnswerTaken(old(ledger.entries), a) ==>
                a.id in ledger.entries && ledger.entries[a.id].phase == Done
    {
      PrintableHasNoSeparator(a.detail);
      ghost var how;
      var made;
      FinishedIs(ledger.entries, a);
      made, how := ledger.MarkDone(a.id, a.outcome, a.reason, a.detail);
      WasRecorded(a, how);
    }

    ghost method WasRecorded(a: Answer, how: CommandMachine.Write)
      requires Sound() && InAccord() && worlds[|events|].memory.Up? && worlds[|events|].memory.stage == Recording(a)
      requires Possible(how, EditText(FinishOf(a)))
      requires RecordStep(worlds[|events|], how) == Here().(memory := Here().memory.(stage := Answering(a)))
      modifies this`stage, this`worlds, this`events, this`faults
      ensures Valid() && stage == Answering(a)
      ensures events == old(events) + [Record(how)] && faults == old(faults) + if how == Synced then 0 else 1
    {
      RecordHappens(cfg, worlds, events, how);
      stage := Answering(a);
      Did(Record(how));
    }

    /** The checks of `handle`, in order; the first that fails is the refusal. */
    method Examine(c: Command, s: Signature, current: int) returns (d: Decision)
      modifies this`changes
      ensures d == Decide(cfg.options, c, s, ledger.epoch, old(changes), current)
      ensures changes == Window(cfg.options, c, s, ledger.epoch, old(changes), current)
    {
      var o := cfg.options;
      var issuer := CheckIssuer(o, c, s);
      if issuer.Some? { return Refusal(issuer.value); }
      var time := CheckTime(o, c, ledger.epoch, current);
      if time.Some? { return Refusal(time.value); }
      if o.policy.mode == Off { return Refusal(ResponseDisabled); }
      if c.action !in o.policy.allowed { return Refusal(ActionNotPermitted); }
      var dry := ChangesHost(c.action) && o.policy.mode != Enforce;
      if ChangesHost(c.action) && !dry {
        Prune(current);
        if |changes| >= o.policy.maximumChanges { return Refusal(RateLimited); }
      }
      return Admission(dry);
    }

    /** The checks are made, nothing is recorded yet. */
    ghost predicate Examined(c: Command, s: Signature, d: Decision)
      reads this, ledger, executor, manager
    {
      Sound() && InAccord() && stage == Idle &&
      CommandOk(c) && c.id in cfg.book && cfg.book[c.id] == c && c.id !in ledger.entries &&
      var last := worlds[|events|];
      last.memory.Up? && d == Decide(cfg.options, c, s, ledger.epoch, last.memory.changes, now) &&
      last == Here().(memory := Here().memory.(changes := last.memory.changes)) &&
      changes == Window(cfg.options, c, s, ledger.epoch, last.memory.changes, now)
    }

    /** `mark_received` and where it leads. */
    method TakeIn(id: string, correlation: string, expires: int, ghost next: Stage, ghost otherwise: Answer)
      returns (made: bool, ghost how: CommandMachine.Write)
      requires ledger.Valid() && ledger.maximum == cfg.maximum && CommandIdOk(id) && CommandIdOk(correlation)
      requires id !in ledger.entries && expires <= INT64_MAX
      modifies this`stage, ledger`file, ledger`writable, ledger`entries
      ensures ledger.Valid() && !how.Died? &&
              (how == Synced || (expires > 0 && Possible(how, EditText(Receive(id, correlation, expires)))))
      ensures Here() == Receiving(cfg, old(Here()), id, correlation, expires, how, next, otherwise)
      ensures made <==> expires > 0 && |old(ledger.entries)| < cfg.maximum && how == Synced
      ensures made ==> stage == next && id in ledger.entries && ledger.entries[id] == Fresh(correlation, expires)
      ensures !made ==> stage == Answering(otherwise) && id !in ledger.entries
      ensures SameBut(ledger.entries, old(ledger.entries), id)
    {
      var failed;
      made, failed, how := ledger.MarkReceived(id, correlation, expires);
      stage := if made then next else Answering(otherwise);
    }

    /** `refuse`: the refusal is remembered, so that a redelivery is answered and not reconsidered. */
    method Refuse(c: Command, s: Signature, why: Why) returns (a: Answer)
      requires Examined(c, s, Refusal(why))
      modifies this`stage, this`worlds, this`events, this`faults, ledger`file, ledger`writable, ledger`entries
      ensures Valid() && stage == Answering(a) && a.id == c.id && old(events) <= events && faults >= old(faults)
      ensures a == RefusalAnswer(cfg, c, why) && SameBut(ledger.entries, old(ledger.entries), c.id)
      ensures faults == old(faults) ==> (c.id in ledger.entries <==> |old(ledger.entries)| < cfg.maximum)
      ensures faults == old(faults) && c.id in ledger.entries ==> ledger.entries[c.id].phase == Done
    {
      a := RefusalAnswer(cfg, c, why);
      ghost var how;
      var made;
      made, how := TakeIn(c.id, c.correlation, AtLeastOne(c.expires), Recording(a), a);
      RefusalHappens(cfg, worlds, events, c, s, how, why);
      Did(Event.Handle(c, s, how));
      if made {
        ghost var begun, entries := events, ledger.entries;
        CodeIsReason(why);
        CleanIsIdempotent(cfg.options.texts.refusal(why));
        RecordAnswer(a);
        PrefixOfPrefix(old(events), begun, events);
        SameButTwice(old(ledger.entries), entries, ledger.entries, c.id);
      }
    }

    /** The intent of an admitted command, on disk before the action begins. */
    method TakeInAdmitted(c: Command, s: Signature, dry: bool) returns (made: bool)
      requires Examined(c, s, Admission(dry))
      modifies this`stage, this`worlds, this`events, this`faults, ledger`file, ledger`writable, ledger`entries
      ensures Valid() && stage == if made then Begun(c, dry, now) else Answering(Unavailable(cfg, c))
      ensures old(events) <= events && faults >= old(faults) && SameBut(ledger.entries, old(ledger.entries), c.id)
      ensures if made then c.id in ledger.entries && ledger.entries[c.id].phase == Received else c.id !in ledger.entries
      ensures faults == old(faults) ==> (made <==> |old(ledger.entries)| < cfg.maximum && c.expires > 0)
    {
      ghost var how;
      made, how := TakeIn(c.id, c.correlation, c.expires, Begun(c, dry, now), Unavailable(cfg, c));
      AdmissionHappens(cfg, worlds, events, c, s, how, dry);
      Did(Event.Handle(c, s, how));
    }

    /** An admitted command: recorded and carried out, or answered that it cannot be recorded. */
    method Admit(c: Command, s: Signature, dry: bool) returns (a: Answer)
      requires Examined(c, s, Admission(dry))
      modifies this`changes, this`stage, this`ran, this`worlds, this`events, this`faults, executor, manager`asked,
               ledger`file, ledger`writable, ledger`entries
      ensures Valid() && stage == Answering(a) && old(events) <= events && faults >= old(faults)
      ensures Dealt(cfg, c, Admission(dry), c.id in ledger.entries, a, old(Outside()), Outside())
      ensures faults == old(faults) ==>
                (c.id in ledger.entries <==> |old(ledger.entries)| < cfg.maximum && c.expires > 0)
      ensures SameBut(ledger.entries, old(ledger.entries), c.id)
      ensures faults == old(faults) && c.id in ledger.entries ==> ledger.entries[c.id].phase == Done
    {
      var made := TakeInAdmitted(c, s, dry);
      a := Unavailable(cfg, c);
      if made {
        ghost var begun, entries := events, ledger.entries;
        a := CarryOut(c, dry, now);
        PrefixOfPrefix(old(events), begun, events);
        SameButTwice(old(ledger.entries), entries, ledger.entries, c.id);
      }
    }

    /** The action of an admitted command, and the record of what came of it. */
    method CarryOut(c: Command, dry: bool, current: int) returns (a: Answer)
      requires Valid() && stage == Begun(c, dry, current)
      requires c.id in ledger.entries && ledger.entries[c.id].phase == Received && CommandIdOk(c.id)
      modifies this`changes, this`stage, this`ran, this`worlds, this`events, this`faults, executor, manager`asked,
               ledger`file, ledger`writable, ledger`entries
      ensures Valid() && stage == Answering(a) && old(events) <= events && faults >= old(faults)
      ensures ActedOn(cfg, c, dry, a, old(Outside()), Outside()) && c.id in ledger.entries
      ensures SameBut(ledger.entries, old(ledger.entries), c.id)
      ensures faults == old(faults) ==> c.id in ledger.entries && ledger.entries[c.id].phase == Done
    {
      a := Act(c, dry, current);
      ghost var begun := events;
      if OutcomeOk(a.outcome) && ReasonOk(a.reason) { assert faults >= old(faults); }
      RecordAnswer(a);
      PrefixOfPrefix(old(events), begun, events);
    }

    /** The executor is called, unless the Manager does not accept a collection. */
    method Act(c: Command, dry: bool, current: int) returns (a: Answer)
      requires Valid() && stage == Begun(c, dry, current)
      modifies this`changes, this`stage, this`ran, this`worlds, this`events, this`faults, executor, manager`asked
      ensures Valid() && stage == Recording(a) && a.id == c.id && old(events) <= events && faults >= old(faults)
      ensures ActedOn(cfg, c, dry, a, old(Outside()), Outside()) && Clean(a.detail) == a.detail
      ensures faults == old(faults) ==> OutcomeOk(a.outcome) && ReasonOk(a.reason)
    {
      if Collects(c.action) && cfg.options.acceptance {
        var yes := manager.Accepts(c);
        if !yes {
          a := NotAccepted(cfg, c);
          DeclineHappens(cfg, worlds, events, c);
          stage := Recording(a);
          Did(Decline);
          CleanIsIdempotent(cfg.options.texts.notAccepted);
          OtherReasons();
          return;
        }
      }
      a := Perform(c, dry, current);
    }

    /** The call of the executor is entered into the history. */
    ghost method Executed(c: Command, dry: bool, current: int, outcome: string, reason: string, detail: string)
      requires Sound() && stage == Begun(c, dry, current) && Submitted(manager.results, told)
      requires Called(executor.calls, ran + [Ran(c, dry, current, ledger.epoch, reign)])
      requires worlds[|events|].memory.Up? && changes == AfterRun(worlds[|events|].memory.changes, c, dry, current)
      requires worlds[|events|] == Here().(memory := Here().memory.(changes := worlds[|events|].memory.changes))
      modifies this`stage, this`ran, this`worlds, this`events, this`faults
      ensures Valid() && stage == Recording(Answer(c.id, c.correlation, outcome, reason, Clean(detail)))
      ensures events == old(events) + [Execute(outcome, reason, detail)]
      ensures faults == old(faults) + if OutcomeOk(outcome) && ReasonOk(reason) then 0 else 1
    {
      ExecuteHappens(cfg, worlds, events, outcome, reason, detail);
      ran := ran + [Ran(c, dry, current, ledger.epoch, reign)];
      stage := Recording(Answer(c.id, c.correlation, outcome, reason, Clean(detail)));
      Did(Execute(outcome, reason, detail));
    }

    /** The call of the executor. */
    method Perform(c: Command, dry: bool, current: int) returns (a: Answer)
      requires Valid() && stage == Begun(c, dry, current)
      modifies this`changes, this`stage, this`ran, this`worlds, this`events, this`faults, executor
      ensures Valid() && stage == Recording(a) && a.id == c.id && old(events) <= events && faults >= old(faults)
      ensures RanOnce(c, dry, a, old(executor.calls), executor.calls) && Clean(a.detail) == a.detail
      ensures faults == old(faults) ==> OutcomeOk(a.outcome) && ReasonOk(a.reason)
    {
      var outcome, reason, detail := executor.Run(c, dry);
      if ChangesHost(c.action) && !dry { changes := changes + [current]; }
      a := Answer(c.id, c.correlation, outcome, reason, Clean(detail));
      Executed(c, dry, current, outcome, reason, detail);
      CleanIsIdempotent(detail);
    }

    /** The decision is carried out. */
    method Decided(c: Command, s: Signature, d: Decision) returns (a: Answer)
      requires Examined(c, s, d)
      modifies this`changes, this`stage, this`ran, this`worlds, this`events, this`faults, executor, manager`asked,
               ledger`file, ledger`writable, ledger`entries
      ensures Valid() && stage == Answering(a) && old(events) <= events && faults >= old(faults)
      ensures a.id == c.id && a.correlation == c.correlation
      ensures Dealt(cfg, c, d, c.id in ledger.entries, a, old(Outside()), Outside())
      ensures faults == old(faults) ==>
                (c.id in ledger.entries <==> |old(ledger.entries)| < cfg.maximum && (d.Admission? ==> c.expires > 0))
      ensures SameBut(ledger.entries, old(ledger.entries), c.id)
      ensures faults == old(faults) && c.id in ledger.entries ==> ledger.entries[c.id].phase == Done
    {
      match d {
        case Refusal(why) => a := Refuse(c, s, why);
        case Admission(dry) => a := Admit(c, s, dry);
      }
      DealtAnswers(cfg, c, d, c.id in ledger.entries, a, old(Outside()), Outside());
    }

    /** `handle` for a command the ledger does not know. */
    method Handle(c: Command, s: Signature) returns (a: Answer, ghost d: Decision)
      requires Valid() && stage == Idle && CommandOk(c) && c.id in cfg.book && cfg.book[c.id] == c &&
               c.id !in ledger.entries
      modifies this`changes, this`stage, this`ran, this`worlds, this`events, this`faults, executor, manager`asked,
               ledger`file, ledger`writable, ledger`entries
      ensures Valid() && stage == Answering(a) && old(events) <= events && faults >= old(faults)
      ensures d == Decide(cfg.options, c, s, ledger.epoch, old(changes), now)
      ensures a.id == c.id && a.correlation == c.correlation
      ensures Dealt(cfg, c, d, c.id in ledger.entries, a, old(Outside()), Outside())
      ensures faults == old(faults) ==>
                (c.id in ledger.entries <==> |old(ledger.entries)| < cfg.maximum && (d.Admission? ==> c.expires > 0))
      ensures SameBut(ledger.entries, old(ledger.entries), c.id)
      ensures faults == old(faults) && c.id in ledger.entries ==> ledger.entries[c.id].phase == Done
    {
      var decision := Examine(c, s, now);
      d := decision;
      a := Decided(c, s, decision);
    }

    /** `resume` for a command that was begun and never finished. */
    method ResumeInterrupted(id: string) returns (a: Answer)
      requires Valid() && stage == Idle && id in ledger.entries && ledger.entries[id].phase == Received
      modifies this`stage, this`worlds, this`events, this`faults, ledger`file, ledger`writable, ledger`entries
      ensures Valid() && stage == Answering(a) && a.id == id && old(events) <= events && faults >= old(faults)
      ensures a == Interrupted(cfg, id, old(ledger.entries)[id]) && SameBut(ledger.entries, old(ledger.entries), id)
      ensures faults == old(faults) ==> id in ledger.entries && ledger.entries[id].phase == Done
    {
      a := Interrupted(cfg, id, ledger.entries[id]);
      ResumeHappens(cfg, worlds, events, id);
      stage := Recording(a);
      Did(Resume(id));
      ghost var begun := events;
      CleanIsIdempotent(cfg.options.texts.interrupted);
      OtherReasons();
      RecordAnswer(a);
      PrefixOfPrefix(old(events), begun, events);
    }

    /** The item is taken into the ledger, if it can be. */
    method TakeInGarbled(id: string, correlation: string, why: string) returns (a: Answer, made: bool)
      requires Valid() && stage == Idle && CommandIdOk(id) && CommandIdOk(correlation) && id !in ledger.entries
      modifies this`stage, this`worlds, this`events, this`faults, ledger`file, ledger`writable, ledger`entries
      ensures Valid() && stage == (if made then Recording(a) else Answering(a)) &&
              a == UnreadableAnswer(id, correlation, why)
      ensures old(events) <= events && faults >= old(faults) && SameBut(ledger.entries, old(ledger.entries), id)
      ensures if made then id in ledger.entries && ledger.entries[id] == Fresh(correlation, now + 86400)
              else id !in ledger.entries
      ensures faults == old(faults) ==> (made <==> |old(ledger.entries)| < cfg.maximum && now + 86400 > 0)
    {
      a := UnreadableAnswer(id, correlation, why);
      ghost var how;
      made, how := TakeIn(id, correlation, now + 86400, Recording(a), a);
      UnreadableHappens(cfg, worlds, events, id, correlation, why, how);
      Did(Unreadable(id, correlation, why, how));
    }

    /** `unreadable` for an addressable command the ledger does not know. */
    method Reject(id: string, correlation: string, why: string) returns (a: Answer)
      requires Valid() && stage == Idle && CommandIdOk(id) && CommandIdOk(correlation) && id !in ledger.entries
      modifies this`stage, this`worlds, this`events, this`faults, ledger`file, ledger`writable, ledger`entries
      ensures Valid() && stage == Answering(a) && a == UnreadableAnswer(id, correlation, why)
      ensures old(events) <= events && faults >= old(faults) && SameBut(ledger.entries, old(ledger.entries), id)
      ensures faults == old(faults) ==>
                (id in ledger.entries <==> |old(ledger.entries)| < cfg.maximum && now + 86400 > 0)
      ensures faults == old(faults) && id in ledger.entries ==> ledger.entries[id].phase == Done
    {
      var made;
      a, made := TakeInGarbled(id, correlation, why);
      if made {
        ghost var begun, entries := events, ledger.entries;
        CleanIsIdempotent(why);
        OtherReasons();
        RecordAnswer(a);
        PrefixOfPrefix(old(events), begun, events);
        SameButTwice(old(ledger.entries), entries, ledger.entries, id);
      }
    }

    /** `report`: the result is submitted, and closed when the Manager took it or never will. */
    method Report(a: Answer)
      requires Valid() && stage == Answering(a)
      modifies this`stage, this`told, this`worlds, this`events, this`faults, manager`results,
               ledger`file, ledger`writable, ledger`entries
      ensures Valid() && stage == Idle && old(events) <= events && faults >= old(faults)
      ensures manager.results == old(manager.results) + [a] && SameBut(ledger.entries, old(ledger.entries), a.id)
      ensures a.id in ledger.entries <==> a.id in old(ledger.entries)
      ensures faults == old(faults) && a.id in old(ledger.entries) && old(ledger.entries)[a.id].phase != Received ==>
                ledger.entries[a.id].phase == Reported
    {
      var reply := Submit(a);
      if reply != Undelivered {
        ghost var begun := events;
        Close(a.id);
        PrefixOfPrefix(old(events), begun, events);
      }
    }

    /** The submission, entered into the history. */
    method Submit(a: Answer) returns (reply: Reply)
      requires Valid() && stage == Answering(a)
      modifies this`stage, this`told, this`worlds, this`events, this`faults, manager`results
      ensures Valid() && stage == (if reply == Undelivered then Idle else Closing(a.id))
      ensures manager.results == old(manager.results) + [a]
      ensures old(events) <= events && faults == old(faults) + if reply == Undelivered then 1 else 0
    {
      reply := manager.Take(a);
      Sent(a, reply, old(manager.results));
    }

    ghost method Sent(a: Answer, reply: Reply, before: seq<Answer>)
      requires Sound() && stage == Answering(a) && Called(executor.calls, ran) && worlds[|events|] == Here()
      requires manager.results == before + [a] && Submitted(before, told)
      modifies this`stage, this`told, this`worlds, this`events, this`faults
      ensures Valid() && stage == (if reply == Undelivered then Idle else Closing(a.id))
      ensures events == old(events) + [Event.Submit(reply)]
      ensures faults == old(faults) + if Faulty(Event.Submit(reply)) then 1 else 0
    {
      SubmitHappens(cfg, worlds, events, reply);
      var t := Told(a, if a.id in ledger.entries then ledger.entries[a.id].expires else 0, now);
      SubmittedMore(before, told, t);
      told := told + [t];
      stage := if reply == Undelivered then Idle else Closing(a.id);
      Did(Event.Submit(reply));
    }

    method Close(id: string)
      requires Valid() && stage == Closing(id)
      modifies this`stage, this`worlds, this`events, this`faults, ledger`file, ledger`writable, ledger`entries
      ensures Valid() && stage == Idle && old(events) <= events && old(faults) <= faults
      ensures SameBut(ledger.entries, old(ledger.entries), id) && (id in ledger.entries <==> id in old(ledger.entries))
      ensures faults == old(faults) && id in old(ledger.entries) && old(ledger.entries)[id].phase != Received ==>
                ledger.entries[id].phase == Reported
    {
      ghost var how;
      var made;
      ClosedIs(ledger.entries, id);
      made, how := ledger.MarkReported(id);
      WasClosed(id, how);
    }

    ghost method WasClosed(id: string, how: CommandMachine.Write)
      requires Sound() && InAccord() && worlds[|events|].memory.Up? && worlds[|events|].memory.stage == Closing(id)
      requires Possible(how, EditText(LedgerFormat.Report(id)))
      requires CloseStep(worlds[|events|], how) == Here().(memory := Here().memory.(stage := Idle))
      modifies this`stage, this`worlds, this`events, this`faults
      ensures Valid() && stage == Idle
      ensures events == old(events) + [Event.Close(how)] && faults == old(faults) + if how == Synced then 0 else 1
    {
      CloseHappens(cfg, worlds, events, how);
      stage := Idle;
      Did(Event.Close(how));
    }

    /** The commands recorded as begun and never finished are answered first. */
    method AnswerInterrupted()
      requires Valid() && stage == Idle
      modifies this`stage, this`told, this`worlds, this`events, this`faults, manager`results,
               ledger`file, ledger`writable, ledger`entries
      ensures Valid() && stage == Idle && old(events) <= events && faults >= old(faults)
      ensures SentAllBut(manager.results, |old(manager.results)|, InterruptedAnswers(cfg, old(ledger.entries)), {})
      ensures faults == old(faults) ==> NoneBegunBut(ledger.entries, {})
    {
      var todo := set id | id in ledger.entries && ledger.entries[id].phase == Received;
      ghost var want := InterruptedAnswers(cfg, ledger.entries);
      assert want.Keys == todo;
      NoneSent(manager.results, want);
      while todo != {}
        invariant Valid() && stage == Idle && old(events) <= events && faults >= old(faults)
        invariant Still(ledger.entries, old(ledger.entries), todo)
        invariant SentAllBut(manager.results, |old(manager.results)|, want, todo)
        invariant faults == old(faults) ==> NoneBegunBut(ledger.entries, todo)
        decreases todo
      {
        var id :| id in todo;
        SettleNext(id, todo, old(events), |old(manager.results)|, old(ledger.entries), old(faults));
        todo := todo - {id};
      }
    }

    /** One of those still to do. */
    method SettleNext(id: string, ghost todo: set<string>, ghost past: seq<Event>, ghost from: nat,
                      ghost was: map<string, Entry>, ghost clean: nat)
      requires Valid() && stage == Idle && id in todo && past <= events && clean <= faults
      requires Still(ledger.entries, was, todo) && SentAllBut(manager.results, from, InterruptedAnswers(cfg, was), todo)
      requires faults == clean ==> NoneBegunBut(ledger.entries, todo)
      modifies this`stage, this`told, this`worlds, this`events, this`faults, manager`results,
               ledger`file, ledger`writable, ledger`entries
      ensures Valid() && stage == Idle && past <= events && clean <= faults
      ensures Still(ledger.entries, was, todo - {id})
      ensures SentAllBut(manager.results, from, InterruptedAnswers(cfg, was), todo - {id})
      ensures faults == clean ==> NoneBegunBut(ledger.entries, todo - {id})
    {
      Settle(id);
      PrefixOfPrefix(past, old(events), events);
      OneMoreSent(old(manager.results), from, InterruptedAnswers(cfg, was), todo, id);
      OneLessToDo(ledger.entries, old(ledger.entries), was, todo, id);
      if faults == clean { OneMoreSettled(old(ledger.entries), ledger.entries, todo, id); }
    }

    /** One interrupted command: resumed and reported. */
    method Settle(id: string)
      requires Valid() && stage == Idle && id in ledger.entries && ledger.entries[id].phase == Received
      modifies this`stage, this`told, this`worlds, this`events, this`faults, manager`results,
               ledger`file, ledger`writable, ledger`entries
      ensures Valid() && stage == Idle && old(events) <= events && faults >= old(faults)
      ensures manager.results == old(manager.results) + [Interrupted(cfg, id, old(ledger.entries)[id])]
      ensures SameBut(ledger.entries, old(ledger.entries), id)
      ensures faults == old(faults) ==> id in ledger.entries && ledger.entries[id].phase == Reported
    {
      var a := ResumeInterrupted(id);
      ghost var begun, entries := events, ledger.entries;
      Report(a);
      PrefixOfPrefix(old(events), begun, events);
      SameButTwice(old(ledger.entries), entries, ledger.entries, id);
    }

    /** Results the Manager never acknowledged are sent again. */
    method TellAgain()
      requires Valid() && stage == Idle
      modifies this`stage, this`told, this`worlds, this`events, this`faults, manager`results,
               ledger`file, ledger`writable, ledger`entries
      ensures Valid() && stage == Idle && old(events) <= events && faults >= old(faults)
      ensures SentAllBut(manager.results, |old(manager.results)|, StoredAnswers(old(ledger.entries)), {})
      ensures faults == old(faults) && NoneBegunBut(old(ledger.entries), {}) ==> ClosedBut(ledger.entries, {})
    {
      var todo := set id | id in ledger.entries && ledger.entries[id].phase == Done;
      ghost var want := StoredAnswers(ledger.entries);
      assert want.Keys == todo;
      NoneSent(manager.results, want);
      ghost var calm := NoneBegunBut(ledger.entries, {});
      while todo != {}
        invariant Valid() && stage == Idle && old(events) <= events && faults >= old(faults)
        invariant Still(ledger.entries, old(ledger.entries), todo)
        invariant SentAllBut(manager.results, |old(manager.results)|, want, todo)
        invariant faults == old(faults) && calm ==> ClosedBut(ledger.entries, todo)
        decreases todo
      {
        var id :| id in todo;
        SendNext(id, todo, old(events), |old(manager.results)|, old(ledger.entries), old(faults), calm);
        todo := todo - {id};
      }
    }

    /** One of those still to do. */
    method SendNext(id: string, ghost todo: set<string>, ghost past: seq<Event>, ghost from: nat,
                    ghost was: map<string, Entry>, ghost clean: nat, ghost calm: bool)
      requires Valid() && stage == Idle && id in todo && past <= events && clean <= faults
      requires Still(ledger.entries, was, todo) && SentAllBut(manager.results, from, StoredAnswers(was), todo)
      requires faults == clean && calm ==> ClosedBut(ledger.entries, todo)
      modifies this`stage, this`told, this`worlds, this`events, this`faults, manager`results,
               ledger`file, ledger`writable, ledger`entries
      ensures Valid() && stage == Idle && past <= events && clean <= faults
      ensures Still(ledger.entries, was, todo - {id}) &&
              SentAllBut(manager.results, from, StoredAnswers(was), todo - {id})
      ensures faults == clean && calm ==> ClosedBut(ledger.entries, todo - {id})
    {
      SendAgain(id);
      PrefixOfPrefix(past, old(events), events);
      OneMoreSent(old(manager.results), from, StoredAnswers(was), todo, id);
      OneLessToDo(ledger.entries, old(ledger.entries), was, todo, id);
      if faults == clean && calm { OneMoreClosed(old(ledger.entries), ledger.entries, todo, id); }
    }

    method SendAgain(id: string)
      requires Valid() && stage == Idle && id in ledger.entries && ledger.entries[id].phase == Done
      modifies this`stage, this`told, this`worlds, this`events, this`faults, manager`results,
               ledger`file, ledger`writable, ledger`entries
      ensures Valid() && stage == Idle && old(events) <= events && faults >= old(faults)
      ensures manager.results == old(manager.results) + [Stored(id, old(ledger.entries)[id])]
      ensures SameBut(ledger.entries, old(ledger.entries), id)
      ensures faults == old(faults) && id in ledger.entries ==> ledger.entries[id].phase == Reported
    {
      var a := Stored(id, ledger.entries[id]);
      RetellHappens(cfg, worlds, events, id);
      stage := Answering(a);
      Did(Retell(id));
      ghost var begun := events;
      Report(a);
      PrefixOfPrefix(old(events), begun, events);
    }

    /** What the parser of the poll reply guarantees of an item, and that an id names one command. */
    ghost predicate ItemOk(item: Item) {
      match item
      case Readable(c) => CommandOk(c) && c.id in cfg.book && cfg.book[c.id] == c
      case Garbled(id, correlation, _) =>
        (id == "" || CommandIdOk(id)) && (correlation == "" || CommandIdOk(correlation))
    }

    /** A command that the ledger does not know. */
    method TakeNew(c: Command, s: Signature)
      requires Valid() && stage == Idle && ItemOk(Readable(c)) && c.id !in ledger.entries
      modifies this, ledger`file, ledger`writable, ledger`entries, executor, manager
      ensures Valid() && stage == Idle && old(events) <= events && faults >= old(faults) && now == old(now)
      ensures SameBut(ledger.entries, old(ledger.entries), c.id) && NewTaken(cfg, c, s, old(View()), View())
    {
      ghost var d;
      var a;
      a, d := Handle(c, s);
      ghost var begun, entries := events, ledger.entries;
      Report(a);
      PrefixOfPrefix(old(events), begun, events);
      SameButTwice(old(ledger.entries), entries, ledger.entries, c.id);
    }

    /** An item that can be answered and is no command. */
    method TakeGarbled(id: string, correlation: string, why: string)
      requires Valid() && stage == Idle && ItemOk(Garbled(id, correlation, why))
      modifies this, ledger`file, ledger`writable, ledger`entries, executor, manager
      ensures Valid() && stage == Idle && old(events) <= events && faults >= old(faults) && now == old(now)
      ensures SameBut(ledger.entries, old(ledger.entries), id)
      ensures GarbledTaken(cfg, id, correlation, why, old(View()), View())
    {
      if id == "" || correlation == "" || id in ledger.entries { return; }
      RejectAndReport(id, correlation, why);
    }

    method RejectAndReport(id: string, correlation: string, why: string)
      requires Valid() && stage == Idle && CommandIdOk(id) && CommandIdOk(correlation) && id !in ledger.entries
      modifies this`stage, this`told, this`worlds, this`events, this`faults, manager`results,
               ledger`file, ledger`writable, ledger`entries
      ensures Valid() && stage == Idle && old(events) <= events && faults >= old(faults)
      ensures manager.results == old(manager.results) + [UnreadableAnswer(id, correlation, why)]
      ensures SameBut(ledger.entries, old(ledger.entries), id)
      ensures faults == old(faults) ==>
                && (id in ledger.entries <==> |old(ledger.entries)| < cfg.maximum && now + 86400 > 0)
                && (id in ledger.entries ==> ledger.entries[id].phase == Reported)
    {
      var a := Reject(id, correlation, why);
      ghost var begun, entries := events, ledger.entries;
      Report(a);
      PrefixOfPrefix(old(events), begun, events);
      SameButTwice(old(ledger.entries), entries, ledger.entries, id);
    }

    /** One item of a poll reply. */
    method TakeItem(item: Item, s: Signature)
      requires Valid() && stage == Idle && ItemOk(item)
      modifies this, ledger`file, ledger`writable, ledger`entries, executor, manager
      ensures Valid() && stage == Idle && old(events) <= events && faults >= old(faults) && now == old(now)
      ensures ItemTaken(cfg, item, s, old(View()), View())
    {
      match item {
        case Garbled(id, correlation, why) => TakeGarbled(id, correlation, why);
        case Readable(c) =>
          if c.id !in ledger.entries {
            TakeNew(c, s);
          } else if ledger.entries[c.id].phase == Received {
            Settle(c.id);
          }
      }
    }

    /** Time passes, and one item is dealt with. */
    method TakeNext(item: Item, s: Signature, ghost past: seq<Event>)
      requires Valid() && stage == Idle && ItemOk(item) && past <= events
      modifies this, ledger`file, ledger`writable, ledger`entries, executor, manager
      ensures Valid() && stage == Idle && past <= events && faults >= old(faults) && now >= old(now)
      ensures ItemTaken(cfg, item, s, old(View()), View())
    {
      Wait();
      PrefixOfPrefix(past, old(events), events);
      ghost var begun := events;
      TakeItem(item, s);
      PrefixOfPrefix(past, begun, events);
    }

    /** Each item is dealt with in turn. */
    ghost predicate EachTaken(items: seq<Item>, signatures: seq<Signature>, scenes: seq<Scene>, n: nat)
      requires |signatures| == |items| && n <= |items|
    {
      |scenes| == n + 1 && forall i :: 0 <= i < n ==> ItemTaken(cfg, items[i], signatures[i], scenes[i], scenes[i + 1])
    }

    method TakeItems(items: seq<Item>, signatures: seq<Signature>) returns (ghost scenes: seq<Scene>)
      requires Valid() && stage == Idle && |signatures| == |items|
      requires forall i :: 0 <= i < |items| ==> ItemOk(items[i])
      modifies this, ledger`file, ledger`writable, ledger`entries, executor, manager
      ensures Valid() && stage == Idle && old(events) <= events && faults >= old(faults)
      ensures EachTaken(items, signatures, scenes, |items|) && scenes[0] == old(View()) && scenes[|items|] == View()
      ensures FaultsGrow(scenes)
    {
      scenes := [View()];
      for i := 0 to |items|
        invariant Valid() && stage == Idle && old(events) <= events && faults >= old(faults)
        invariant EachTaken(items, signatures, scenes, i) && scenes[0] == old(View()) && scenes[i] == View()
        invariant FaultsGrow(scenes)
      {
        TakeNext(items[i], signatures[i], old(events));
        scenes := scenes + [View()];
      }
    }

    /**
     `step`: the interrupted, the unacknowledged, then what the poll brought (nothing when it failed or was not a
     command list). The Manager is given one answer for each of the first, one for each of the second, and for each item
     exactly what the item calls for; the executor is called for nothing else. A step without a fault leaves no command
     begun or unreported.
     */
    method Step(items: seq<Item>, signatures: seq<Signature>) returns (ghost resumed: Scene, ghost scenes: seq<Scene>)
      requires Valid() && stage == Idle && |signatures| == |items|
      requires forall i :: 0 <= i < |items| ==> ItemOk(items[i])
      modifies this, ledger`file, ledger`writable, ledger`entries, executor, manager
      ensures Valid() && stage == Idle && old(events) <= events && faults >= old(faults)
      ensures SentAllBut(resumed.results, |old(manager.results)|, InterruptedAnswers(cfg, old(ledger.entries)), {})
      ensures EachTaken(items, signatures, scenes, |items|) && scenes[|items|] == View()
      ensures SentAllBut(scenes[0].results, |resumed.results|, StoredAnswers(resumed.entries), {})
      ensures old(Outside()) == resumed.seen == scenes[0].seen
      ensures faults == old(faults) ==> ClosedBut(ledger.entries, {})
    {
      AnswerInterrupted();
      resumed := View();
      ghost var begun := events;
      TellAgain();
      PrefixOfPrefix(old(events), begun, events);
      begun := events;
      scenes := TakeItems(items, signatures);
      PrefixOfPrefix(old(events), begun, events);
      if faults == old(faults) { AllClosed(cfg, items, signatures, scenes, |items|); }
    }

    /**
     So the executor is called at most once for each command id, over this process and all before it, unless the ledger
     was lost or set aside.
     */
    lemma ExecutorCalledOnce(i: nat, j: nat)
      requires Valid() && Begins(worlds[0]) && (forall k :: 0 <= k < |events| ==> CommandSafety.KeepsLedger(events[k]))
      requires i < j < |executor.calls|
      ensures executor.calls[i].command.id != executor.calls[j].command.id
    {
      CommandSafety.AtMostOnce(cfg, worlds, events, i, j);
    }

    /** And the submissions for one command id agree, until a day after the expiry recorded with the earlier one. */
    lemma SubmissionsAgree(i: nat, j: nat)
      requires Valid() && Begins(worlds[0]) && Load(worlds[0].file).Some? && worlds[0].now >= 0
      requires forall k :: 0 <= k < |events| ==> CommandAnswers.Smooth(cfg, events[k], worlds[k])
      requires i < j < |manager.results| && manager.results[i].id == manager.results[j].id
      ensures manager.results[i] == manager.results[j] || told[i].expires + KEEP_AFTER_EXPIRY < told[j].at
    {
      CommandAnswers.OneStableAnswer(cfg, worlds, events, i, j);
    }
  }

  /**
   `prepare` with `open_or_recover`: a ledger that cannot be trusted is set aside and a new one begun; one that
   holds more than its bound is an error. Whatever happened before, the new process continues a run of the machine.
   */
  method Prepare(cfg: Config, file: string, executor: Executor, manager: Manager, now: int,
                 ghost worlds: seq<World>, ghost events: seq<Event>)
    returns (channel: CommandChannel?)
    requires Run(cfg, worlds, events) && worlds[|events|].memory.Down?
    requires worlds[|events|].file == file && worlds[|events|].now == now <= INT64_MAX - 86400
    requires Called(executor.calls, worlds[|events|].ran) && Submitted(manager.results, worlds[|events|].told)
    ensures channel == null <==> Opened(file, cfg.maximum, now).TooMany?
    ensures channel != null ==>
              channel.Valid() && channel.cfg == cfg && channel.executor == executor && channel.manager == manager &&
              channel.stage == Idle && worlds <= channel.worlds && events <= channel.events &&
              channel.events[|events|..] ==
              (if Opened(file, cfg.maximum, now).Corrupt? then [SetAside] else []) + [Start(channel.ledger.file)]
  {
    var contents := file;
    ghost var path, done := worlds, events;
    var o, left := OpenFile(contents, cfg.maximum, now);
    if o.TooMany? { return null; }
    if o.Corrupt? {
      path, done := ExtendAside(cfg, worlds, events);
      contents := "";
      NewLedgerOpens(cfg.maximum, now);
      o, left := OpenFile(contents, cfg.maximum, now);
    }
    var ledger := new CommandLedger(contents, cfg.maximum, now, left);
    channel := new CommandChannel(cfg, ledger, executor, manager, now, path, done);
  }

  /** The run goes on with the ledger set aside. */
  lemma ExtendAside(cfg: Config, worlds: seq<World>, events: seq<Event>) returns (path: seq<World>, done: seq<Event>)
    requires Run(cfg, worlds, events) && Enabled(cfg, SetAside, worlds[|events|])
    ensures Run(cfg, path, done) && worlds <= path && done == events + [SetAside]
    ensures var w, after := worlds[|events|], path[|done|];
            after == w.(file := "", reign := w.reign + 1, reset := w.now)
  {
    ExtendRun(cfg, worlds, events, SetAside);
    path, done := worlds + [Next(cfg, SetAside, worlds[|events|])], events + [SetAside];
  }

  /** A file that does not exist opens as a new, empty ledger. */
  lemma NewLedgerOpens(maximum: nat, now: int)
    ensures Opened("", maximum, now) == Ready(Image(NewEpoch(now), map[]), true)
  {
    assert Kept(map[], now) == map[];
  }
}
