/**
 Termination of a process tree against a process table that changes at will. Every answer of the system (a scan, a
 protection check, an identity lookup, the result of a signal, whether a process has exited) is an arbitrary function
 of the moment it is asked for.
 */
module TerminateTree {
  import opened Text
  import opened ProcessTree

  datatype Identity = Identity(pid: Pid, start: nat)
  datatype Signal = Stop | Continue | Kill

  /**
   What the response did: a protection check that passed, an identity check with its result, a signal and its errno.
   */
  datatype Event =
    | Cleared(pid: Pid)
    | Verified(process: Identity)
    | Missed(process: Identity)
    | Sent(process: Identity, signal: Signal, code: nat)

  datatype Lookup = Gone | NoReference | Running(start: nat)

  datatype Status =
    | DryRun | Terminated | Signalled | AlreadyGone
    | RefusedInvalid | RefusedProtected | RefusedMismatch | RefusedLimit | Failed

  datatype Outcome = Outcome(status: Status, affected: seq<Identity>)
  datatype Settings = Settings(dryRun: bool, maximum: nat)

  const NO_SUCH_PROCESS: nat := 3
  const MAXIMUM_ROUNDS: nat := 8

  // ---- what a log says -----------------------------------------------------------------------

  /** No signal without an identity check of that very process and a protection check of its pid before it. */
  ghost predicate Checked(log: seq<Event>) {
    forall k :: 0 <= k < |log| && log[k].Sent? ==>
        Verified(log[k].process) in log[..k] && Cleared(log[k].process.pid) in log[..k]
  }

  ghost predicate Sends(log: seq<Event>, process: Identity, signal: Signal, from: nat) {
    exists k :: from <= k < |log| && log[k].Sent? && log[k].process == process && log[k].signal == signal
  }

  ghost predicate NeverSends(log: seq<Event>, signal: Signal) {
    forall k :: 0 <= k < |log| && log[k].Sent? ==> log[k].signal != signal
  }

  /** Every process that was stopped got this signal later. */
  ghost predicate StoppedThen(log: seq<Event>, signal: Signal) {
    forall k :: 0 <= k < |log| && log[k].Sent? && log[k].signal == Stop && log[k].code == 0 ==>
        Sends(log, log[k].process, signal, k)
  }

  /** Either all that was stopped goes on and nothing is killed, or all of it is killed and nothing goes on. */
  ghost predicate AllOrNothing(log: seq<Event>) {
    || (StoppedThen(log, Continue) && NeverSends(log, Kill))
    || (StoppedThen(log, Kill) && NeverSends(log, Continue))
  }

  function Targets(log: seq<Event>): set<Identity> { set e | e in log && e.Sent? :: e.process }

  /** From there on every signal was taken, or found its process gone. */
  ghost predicate AcceptedFrom(log: seq<Event>, from: nat) {
    forall k :: from <= k < |log| && log[k].Sent? ==> log[k].code == 0 || log[k].code == NO_SUCH_PROCESS
  }

  lemma AcceptedMore(log: seq<Event>, from: nat, e: Event)
    requires from <= |log| && e.Sent?
    ensures AcceptedFrom(log + [e], from) <==> AcceptedFrom(log, from) && (e.code == 0 || e.code == NO_SUCH_PROCESS)
  {
    var more := log + [e];
    assert more[|log|] == e;
    assert forall k :: 0 <= k < |log| ==> more[k] == log[k];
  }

  /** Only `Stop` so far, and only to these. */
  ghost predicate Holding(log: seq<Event>, held: seq<Identity>) {
    Checked(log) && forall k :: 0 <= k < |log| && log[k].Sent? ==> log[k].signal == Stop && log[k].process in held
  }

  /** From `cut` on exactly one signal to each of these, in this order. */
  ghost predicate Answered(log: seq<Event>, cut: nat, held: seq<Identity>, signal: Signal) {
    |log| == cut + |held| && forall k :: cut <= k < |log| ==>
        log[k].Sent? && log[k].process == held[k - cut] && log[k].signal == signal
  }

  lemma AnsweredMore(log: seq<Event>, cut: nat, held: seq<Identity>, signal: Signal, n: nat, e: Event)
    requires n < |held| && Answered(log, cut, held[..n], signal) && e.Sent? && e.process == held[n] &&
             e.signal == signal
    ensures Answered(log + [e], cut, held[..n + 1], signal)
  {
  }

  ghost predicate Settled(log: seq<Event>, cut: nat, held: seq<Identity>, signal: Signal) {
    cut <= |log| && Holding(log[..cut], held) && Answered(log, cut, held, signal) && Checked(log)
  }

  lemma SettledIsAllOrNothing(log: seq<Event>, cut: nat, held: seq<Identity>, signal: Signal)
    requires Settled(log, cut, held, signal) && signal != Stop
    ensures StoppedThen(log, signal) && forall s :: s != Stop && s != signal ==> NeverSends(log, s)
  {
    forall k | 0 <= k < |log| && log[k].Sent? && log[k].signal == Stop
      ensures Sends(log, log[k].process, signal, k)
    {
      assert k < cut && log[..cut][k] == log[k];
      var i :| 0 <= i < |held| && held[i] == log[k].process;
      assert log[cut + i].process == held[i];
    }
    forall k | 0 <= k < |log| && log[k].Sent?
      ensures log[k].signal == Stop || log[k].signal == signal
    {
      if k < cut { assert log[..cut][k] == log[k]; }
    }
  }

  lemma SettledIsBounded(log: seq<Event>, cut: nat, held: seq<Identity>, signal: Signal)
    requires Settled(log, cut, held, signal)
    ensures |Targets(log)| <= |held|
  {
    forall e | e in log && e.Sent?
      ensures e.process in held
    {
      var k :| 0 <= k < |log| && log[k] == e;
      if k < cut { assert log[..cut][k] == e; }
    }
    Few(Targets(log), held);
  }

  lemma {:induction false} Few(s: set<Identity>, held: seq<Identity>)
    requires forall p :: p in s ==> p in held
    ensures |s| <= |held|
    decreases |held|
  {
    if held == [] {
      assert s == {};
    } else {
      Few(s - {held[0]}, held[1..]);
      assert s <= (s - {held[0]}) + {held[0]};
    }
  }

  /** The processes below the root, with the start times of the table. */
  ghost function EntriesOf(table: Table, root: Pid): set<Identity> {
    set pid | pid in table && pid != root && Below(table, root, pid) :: Identity(pid, table[pid].start)
  }

  // ---- the system ----------------------------------------------------------------------------

  class Host {
    const tables: nat -> Option<Table>
    const guarded: (nat, Pid) -> bool
    const lookup: (nat, Pid) -> Lookup
    const reply: (nat, Identity, Signal) -> nat
    const gone: (nat, Identity) -> bool
    var now: nat
    ghost var since: nat         // the moment the response began
    ghost var log: seq<Event>
    ghost var moments: seq<nat>  // when each of these happened
    ghost var seen: Table        // the last complete scan
    ghost var seenAt: nat        // and its moment
    ghost var scans: seq<nat>    // the moments of all scans of the response

    /** What the system answered at that moment bears the event out. */
    ghost predicate Fact(e: Event, at: nat) {
      match e
      case Cleared(pid) => !guarded(at, pid)
      case Verified(process) => lookup(at, process.pid) == Running(process.start)
      case Missed(process) => lookup(at, process.pid) != Running(process.start)
      case Sent(process, signal, code) => code == reply(at, process, signal)
    }

    /** Every event is borne out, and they are in the order of their moments, none before the response began. */
    ghost predicate Honest()
      reads this
    {
      && |moments| == |log| && since <= now &&
           (forall k :: 0 <= k < |log| ==> since <= moments[k] < now && Fact(log[k], moments[k]))
      && (forall k :: 0 < k < |log| ==> moments[k - 1] < moments[k])
      && (seenAt > 0 ==> seenAt <= now && tables(seenAt - 1) == Some(seen))
      && ScansInOrder(scans, since, now)
    }

    ghost predicate ScansInOrder(scans: seq<nat>, from: nat, to: nat) {
      && (forall k :: 0 <= k < |scans| ==> from <= scans[k] < to)
      && (forall k :: 0 < k < |scans| ==> scans[k - 1] < scans[k])
    }

    // What the scans showed.

    ghost predicate ShowsPid(at: nat, root: Pid, pid: Pid) { tables(at).Some? && Below(tables(at).value, root, pid) }

    ghost predicate Shows(at: nat, root: Pid, process: Identity) {
      && ShowsPid(at, root, process.pid) && process.pid in tables(at).value
      && tables(at).value[process.pid].start == process.start
    }

    ghost predicate PidShown(scans: seq<nat>, root: Pid, pid: Pid) {
      exists k :: 0 <= k < |scans| && ShowsPid(scans[k], root, pid)
    }

    ghost predicate Shown(scans: seq<nat>, root: Pid, process: Identity) {
      process.pid != root && exists k :: 0 <= k < |scans| && Shows(scans[k], root, process)
    }

    /** These processes were shown below the root, with these start times. */
    ghost predicate IdsShown(scans: seq<nat>, root: Pid, ids: set<Identity>) {
      forall p :: p in ids ==> Shown(scans, root, p)
    }

    ghost predicate AllShown(scans: seq<nat>, root: Pid, known: set<Pid>) {
      forall pid :: pid in known ==> PidShown(scans, root, pid)
    }

    // Why a response is given up.

    ghost predicate ScanFailed(scans: seq<nat>) { exists k :: 0 <= k < |scans| && tables(scans[k]).None? }

    /** More pids than the bound were shown below the root. */
    ghost predicate TooMany(scans: seq<nat>, root: Pid, maximum: nat) {
      exists pids: set<Pid> :: |pids| > maximum && AllShown(scans, root, pids)
    }

    /** After the first scan, this is the first to show the pid. */
    ghost predicate Fresh(scans: seq<nat>, k: nat, root: Pid, pid: Pid)
      requires k < |scans|
    {
      pid != root && ShowsPid(scans[k], root, pid) && forall i :: 0 < i < k ==> !ShowsPid(scans[i], root, pid)
    }

    ghost predicate Growing(scans: seq<nat>, root: Pid, rounds: nat)
      requires rounds < |scans|
    {
      forall k :: 0 < k <= rounds ==> ShowsFresh(scans, k, root)
    }

    ghost predicate ShowsFresh(scans: seq<nat>, k: nat, root: Pid)
      requires k < |scans|
    {
      exists pid :: Fresh(scans, k, root, pid)
    }

    ghost predicate OverLimit(scans: seq<nat>, root: Pid, maximum: nat) {
      ScanFailed(scans) || TooMany(scans, root, maximum) || (|scans| == 1 + 8 && Growing(scans, root, 8))
    }

    ghost predicate FoundGuarded(scans: seq<nat>, root: Pid, from: nat, to: nat) {
      exists at, pid :: from <= at < to && guarded(at, pid) && (pid == root || PidShown(scans, root, pid))
    }

    /** A scan more: what was shown stays shown, and what it shows is shown. */
    lemma ShownMore(scans: seq<nat>, at: nat, root: Pid, table: Table, ids: set<Identity>, known: set<Pid>,
                    seen: set<Pid>)
      requires IdsShown(scans, root, ids) && AllShown(scans, root, known) && tables(at) == Some(table)
      requires forall pid :: pid in seen ==> pid in known || Below(table, root, pid)
      ensures IdsShown(scans + [at], root, ids + EntriesOf(table, root)) && AllShown(scans + [at], root, seen)
    {
      var more := scans + [at];
      assert more[|scans|] == at;
      forall p | p in ids + EntriesOf(table, root)
        ensures Shown(more, root, p)
      {
        if p in ids {
          var k :| 0 <= k < |scans| && Shows(scans[k], root, p);
          assert more[k] == scans[k];
        } else {
          assert Shows(more[|scans|], root, p);
        }
      }
      forall pid | pid in seen
        ensures PidShown(more, root, pid)
      {
        if pid in known {
          var k :| 0 <= k < |scans| && ShowsPid(scans[k], root, pid);
          assert more[k] == scans[k];
        } else {
          assert ShowsPid(more[|scans|], root, pid);
        }
      }
    }

    lemma GuardedLater(scans: seq<nat>, root: Pid, from: nat, to: nat, later: nat)
      requires to <= later
      ensures FoundGuarded(scans, root, from, to) ==> FoundGuarded(scans, root, from, later)
    {
    }

    ghost predicate GuardedIn(pid: Pid, from: nat, to: nat) { exists at :: from <= at < to && guarded(at, pid) }

    lemma GuardedSince(pid: Pid, from: nat, later: nat, to: nat)
      requires from <= later && GuardedIn(pid, later, to)
      ensures GuardedIn(pid, from, to)
    {
    }

    lemma {:induction false} EarlierFirst(i: nat, k: nat)
      requires Honest() && i < k < |log|
      ensures moments[i] < moments[k]
      decreases k
    {
      if i < k - 1 { EarlierFirst(i, k - 1); }
    }

    /**
     Every signal goes to a process that the system showed to be the one that was named, and to be free of protection,
     at moments of this response before the signal.
     */
    ghost predicate Vouched()
      requires Honest()
      reads this
    {
      forall k :: 0 <= k < |log| && log[k].Sent? ==>
        && (exists at :: since <= at < moments[k] && lookup(at, log[k].process.pid) == Running(log[k].process.start))
        && (exists at :: since <= at < moments[k] && !guarded(at, log[k].process.pid))
    }

    lemma CheckedIsVouched()
      requires Honest() && Checked(log)
      ensures Vouched()
    {
      forall k | 0 <= k < |log| && log[k].Sent?
        ensures exists at :: since <= at < moments[k] && lookup(at, log[k].process.pid) == Running(log[k].process.start)
        ensures exists at :: since <= at < moments[k] && !guarded(at, log[k].process.pid)
      {
        var i :| 0 <= i < k && log[..k][i] == Verified(log[k].process);
        var j :| 0 <= j < k && log[..k][j] == Cleared(log[k].process.pid);
        EarlierFirst(i, k);
        EarlierFirst(j, k);
        assert Fact(log[i], moments[i]) && Fact(log[j], moments[j]);
      }
    }

    constructor (tables: nat -> Option<Table>, guarded: (nat, Pid) -> bool, lookup: (nat, Pid) -> Lookup,
                 reply: (nat, Identity, Signal) -> nat, gone: (nat, Identity) -> bool)
      ensures log == [] && Honest()
    {
      this.tables, this.guarded, this.lookup, this.reply, this.gone := tables, guarded, lookup, reply, gone;
      now, since, log, moments, seen, seenAt, scans := 0, 0, [], [], map[], 0, [];
    }

    method Scan() returns (table: Option<Table>)
      requires Honest()
      modifies this`now, this`seen, this`seenAt, this`scans
      ensures now == old(now) + 1 && scans == old(scans) + [old(now)]
      ensures Honest() && table == tables(old(now)) && (table.Some? ==> seen == table.value && seenAt == old(now) + 1)
    {
      table := tables(now);
      scans, now := scans + [now], now + 1;
      if table.Some? { seen, seenAt := table.value, now; }
    }

    method IsProtected(pid: Pid) returns (yes: bool)
      requires Honest()
      modifies this`now, this`log, this`moments
      ensures now == old(now) + 1
      ensures Honest() && yes == guarded(old(now), pid) && log == old(log) + if yes then [] else [Cleared(pid)]
    {
      yes := guarded(now, pid);
      if !yes { log, moments := log + [Cleared(pid)], moments + [now]; }
      now := now + 1;
    }

    /** `process_handle::open`: the reference is good only for the start time that was expected. */
    method Open(process: Identity) returns (ok: bool, mismatch: bool)
      requires Honest()
      modifies this`now, this`log, this`moments
      ensures now == old(now) + 1
      ensures Honest() && (ok <==> lookup(old(now), process.pid) == Running(process.start))
      ensures mismatch <==> !ok && lookup(old(now), process.pid) != NoReference
      ensures log == old(log) + [if ok then Verified(process) else Missed(process)]
    {
      var found := lookup(now, process.pid);
      ok := found == Running(process.start);
      mismatch := !ok && found != NoReference;
      log, moments := log + [if ok then Verified(process) else Missed(process)], moments + [now];
      now := now + 1;
    }

    method Send(process: Identity, signal: Signal) returns (code: nat)
      requires Honest()
      modifies this`now, this`log, this`moments
      ensures Honest() && now == old(now) + 1 && code == reply(old(now), process, signal) &&
              log == old(log) + [Sent(process, signal, code)]
    {
      code := reply(now, process, signal);
      log, moments := log + [Sent(process, signal, code)], moments + [now];
      now := now + 1;
    }

    method WaitExit(process: Identity) returns (exited: bool)
      requires Honest()
      modifies this`now
      ensures Honest() && exited == gone(old(now), process) && now == old(now) + 1
    {
      exited := gone(now, process);
      now := now + 1;
    }

    /** Found gone, or found still there, at some moment between these. */
    ghost predicate SeenGone(process: Identity, from: nat, to: nat) {
      exists at :: from <= at < to && gone(at, process)
    }
    ghost predicate SeenAlive(process: Identity, from: nat, to: nat) {
      exists at :: from <= at < to && !gone(at, process)
    }

    ghost predicate AllGone(held: seq<Identity>, from: nat, to: nat) {
      forall k :: 0 <= k < |held| ==> SeenGone(held[k], from, to)
    }

    ghost predicate OneAlive(held: seq<Identity>, from: nat, to: nat) {
      exists k :: 0 <= k < |held| && SeenAlive(held[k], from, to)
    }

    /** What was found at some moment was found since an earlier one. */
    lemma Since(held: seq<Identity>, from: nat, later: nat, to: nat)
      requires from <= later
      ensures AllGone(held, later, to) ==> AllGone(held, from, to)
      ensures OneAlive(held, later, to) ==> OneAlive(held, from, to)
    {
      if AllGone(held, later, to) {
        forall k | 0 <= k < |held|
          ensures SeenGone(held[k], from, to)
        {
          assert SeenGone(held[k], later, to);
          var at :| later <= at < to && gone(at, held[k]);
        }
      }
      if OneAlive(held, later, to) {
        var k :| 0 <= k < |held| && SeenAlive(held[k], later, to);
        assert SeenAlive(held[k], from, to);
      }
    }

    /** Waits for each in turn: all are found gone, or one is found still there. */
    method WaitAll(held: seq<Identity>) returns (exited: bool)
      requires Honest()
      modifies this`now
      ensures Honest() && old(now) <= now
      ensures exited ==> AllGone(held, old(now), now)
      ensures !exited ==> OneAlive(held, old(now), now)
    {
      exited := true;
      for i := 0 to |held|
        invariant Honest() && old(now) <= now
        invariant exited ==> forall k :: 0 <= k < i ==> SeenGone(held[k], old(now), now)
        invariant !exited ==> exists k :: 0 <= k < i && SeenAlive(held[k], old(now), now)
      {
        ghost var at := now;
        var one := WaitExit(held[i]);
        assert if one then gone(at, held[i]) else !gone(at, held[i]);
        exited := one && exited;
      }
    }

    /** One signal to each. */
    method SendAll(held: seq<Identity>, signal: Signal) returns (refused: nat)
      requires Honest()
      modifies this`now, this`log, this`moments
      ensures Honest() && old(now) <= now && old(log) <= log && Answered(log, |old(log)|, held, signal)
      ensures refused == 0 <==> AcceptedFrom(log, |old(log)|)
    {
      refused := 0;
      for i := 0 to |held|
        invariant Honest() && old(now) <= now && old(log) <= log && Answered(log, |old(log)|, held[..i], signal)
        invariant refused == 0 <==> AcceptedFrom(log, |old(log)|)
      {
        ghost var was := log;
        var code := Send(held[i], signal);
        AcceptedMore(was, |old(log)|, log[|was|]);
        AnsweredMore(was, |old(log)|, held, signal, i, log[|was|]);
        if code != 0 && code != NO_SUCH_PROCESS { refused := refused + 1; }
      }
      assert held[..|held|] == held;
    }
  }

  // ---- gathering the tree --------------------------------------------------------------------

  ghost predicate Ready(log: seq<Event>, process: Identity) { Verified(process) in log && Cleared(process.pid) in log }

  ghost predicate MissedPid(log: seq<Event>, pid: Pid) {
    exists k :: 0 <= k < |log| && log[k].Missed? && log[k].process.pid == pid
  }

  lemma MissedStays(log: seq<Event>, all: seq<Event>, pid: Pid)
    requires log <= all && MissedPid(log, pid)
    ensures MissedPid(all, pid)
  {
    var k :| 0 <= k < |log| && log[k].Missed? && log[k].process.pid == pid;
    assert all[k] == log[k];
  }

  ghost predicate Handled(log: seq<Event>, held: seq<Identity>, pid: Pid) {
    MissedPid(log, pid) || exists i :: 0 <= i < |held| && held[i].pid == pid
  }

  /** Nothing but `Stop` was sent, to none but these, and these are checked. */
  ghost predicate InHand(log: seq<Event>, held: seq<Identity>) {
    Holding(log, held) && forall i :: 0 <= i < |held| ==> Ready(log, held[i])
  }

  /** The processes held so far are no more than the known pids, and every known pid is held or was missed. */
  ghost predicate Gathered(log: seq<Event>, held: seq<Identity>, known: set<Pid>) {
    && InHand(log, held) && |held| <= |known|
    && (forall pid :: pid in known ==> Handled(log, held, pid))
  }

  lemma CheckedGrows(log: seq<Event>, e: Event)
    requires Checked(log) && (e.Sent? ==> Ready(log, e.process))
    ensures Checked(log + [e])
  {
    var more := log + [e];
    forall k | 0 <= k < |more| && more[k].Sent?
      ensures Verified(more[k].process) in more[..k] && Cleared(more[k].process.pid) in more[..k]
    {
      if k < |log| { assert more[..k] == log[..k]; } else { assert more[..k] == log; }
    }
  }

  lemma GatherMore(log: seq<Event>, held: seq<Identity>, known: set<Pid>, process: Identity, code: nat)
    requires Gathered(log, held, known) && process.pid !in known && Ready(log, process)
    ensures Gathered(log + [Sent(process, Stop, code)], held + [process], known + {process.pid})
  {
    CheckedGrows(log, Sent(process, Stop, code));
    var more, all := held + [process], log + [Sent(process, Stop, code)];
    forall pid | pid in known + {process.pid}
      ensures Handled(all, more, pid)
    {
      if pid == process.pid {
        assert more[|held|].pid == pid;
      } else if MissedPid(log, pid) {
        MissedStays(log, all, pid);
      } else {
        var i :| 0 <= i < |held| && held[i].pid == pid;
        assert more[i].pid == pid;
      }
    }
    assert forall k :: 0 <= k < |log| ==> all[k] == log[k];
  }

  /** A check that fails or passes leaves the held ones as they are. */
  lemma GatherCheck(log: seq<Event>, held: seq<Identity>, known: set<Pid>, e: Event)
    requires Gathered(log, held, known) && !e.Sent?
    ensures Gathered(log + [e], held, known)
  {
    CheckedGrows(log, e);
    var all := log + [e];
    forall pid | pid in known
      ensures Handled(all, held, pid)
    {
      if MissedPid(log, pid) { MissedStays(log, all, pid); }
    }
    assert forall k :: 0 <= k < |log| ==> all[k] == log[k];
  }

  /** Every process that was missed, and every held one but the first, is one of these. */
  ghost predicate From(log: seq<Event>, held: seq<Identity>, ids: set<Identity>) {
    && (forall k :: 0 <= k < |log| && log[k].Missed? ==> log[k].process in ids)
    && (forall i :: 0 < i < |held| ==> held[i] in ids)
  }

  lemma FromMore(log: seq<Event>, held: seq<Identity>, ids: set<Identity>, process: Identity, es: seq<Event>,
                 more: seq<Identity>)
    requires From(log, held, ids) && process in ids && (forall e :: e in es && e.Missed? ==> e.process == process)
    requires more == held || more == held + [process]
    ensures From(log + es, more, ids)
  {
    var all := log + es;
    forall k | 0 <= k < |all| && all[k].Missed?
      ensures all[k].process in ids
    {
      if k >= |log| { assert all[k] == es[k - |log|] && all[k] in es; }
    }
  }

  /** One pid of a scan. A status means that the response is to be given up. */
  method GatherOne(host: Host, table: Table, pid: Pid, settings: Settings, held: seq<Identity>, known: set<Pid>,
                   ghost ids: set<Identity>)
    returns (more: seq<Identity>, seen: set<Pid>, stop: Option<Status>)
    requires Gathered(host.log, held, known) && pid in table && |held| <= settings.maximum
    requires Identity(pid, table[pid].start) in ids && From(host.log, held, ids)
    requires host.Honest()
    modifies host`now, host`log, host`moments
    ensures host.Honest() && old(host.now) <= host.now
    ensures held <= more && known <= seen <= known + {pid} && |more| <= settings.maximum
    ensures InHand(host.log, more) && From(host.log, more, ids)
    ensures stop.None? ==>
              Gathered(host.log, more, seen) && pid in seen && (pid in known ==> seen == known && more == held)
    ensures more == held || (more == held + [Identity(pid, table[pid].start)] && JustStopped(host.log, more[|held|]))
    ensures stop.Some? ==> pid !in known
    ensures stop.Some? ==>
              || (stop.value == RefusedLimit && |seen| > settings.maximum)
              || (stop.value == RefusedProtected && host.GuardedIn(pid, old(host.now), host.now))
  {
    more, seen, stop := held, known, None;
    if pid in known { return; }
    seen := known + {pid};
    if |seen| > settings.maximum {
      stop := Some(RefusedLimit);
      return;
    }
    var guarded := host.IsProtected(pid);
    if guarded {
      assert host.log == old(host.log);
      assert host.guarded(old(host.now), pid);
      stop := Some(RefusedProtected);
      return;
    }
    more := StopOne(host, Identity(pid, table[pid].start), held, known, ids, old(host.log));
  }

  /** The last thing done was to stop the process. */
  ghost predicate JustStopped(log: seq<Event>, process: Identity) {
    log != [] && var e := log[|log| - 1]; e.Sent? && e.process == process && e.signal == Stop
  }

  /** A process that passed its protection check is stopped if it is still the one the scan showed. */
  method StopOne(host: Host, process: Identity, held: seq<Identity>, ghost known: set<Pid>, ghost ids: set<Identity>,
                 ghost log: seq<Event>)
    returns (more: seq<Identity>)
    requires host.log == log + [Cleared(process.pid)] && Gathered(log, held, known) && process.pid !in known
    requires From(log, held, ids) && process in ids
    requires host.Honest()
    modifies host`now, host`log, host`moments
    ensures host.Honest() && old(host.now) <= host.now
    ensures Gathered(host.log, more, known + {process.pid}) && From(host.log, more, ids)
    ensures more == held || (more == held + [process] && JustStopped(host.log, process))
  {
    var ok, _ := host.Open(process);
    if ok {
      var code := host.Send(process, Stop);
      more := held + [process];
      StoppedMore(log, held, known, ids, process, code);
    } else {
      more := held;
      SkippedMore(log, held, known, ids, process);
    }
  }

  lemma StoppedMore(log: seq<Event>, held: seq<Identity>, known: set<Pid>, ids: set<Identity>, process: Identity,
                    code: nat)
    requires Gathered(log, held, known) && process.pid !in known && From(log, held, ids) && process in ids
    ensures var all := log + [Cleared(process.pid)] + [Verified(process)] + [Sent(process, Stop, code)];
            Gathered(all, held + [process], known + {process.pid}) && From(all, held + [process], ids)
  {
    GatherStopped(log, held, known, process, code);
    FromMore(log, held, ids, process, [Cleared(process.pid), Verified(process), Sent(process, Stop, code)],
        held + [process]);
    assert log + [Cleared(process.pid)] + [Verified(process)] + [Sent(process, Stop, code)] ==
           log + [Cleared(process.pid), Verified(process), Sent(process, Stop, code)];
  }

  lemma GatherStopped(log: seq<Event>, held: seq<Identity>, known: set<Pid>, process: Identity, code: nat)
    requires Gathered(log, held, known) && process.pid !in known
    ensures Gathered(log + [Cleared(process.pid)] + [Verified(process)] + [Sent(process, Stop, code)], held + [process],
              known + {process.pid})
  {
    var checks := log + [Cleared(process.pid)] + [Verified(process)];
    GatherCheck(log, held, known, Cleared(process.pid));
    GatherCheck(log + [Cleared(process.pid)], held, known, Verified(process));
    assert checks[|log|] == Cleared(process.pid) && checks[|log| + 1] == Verified(process);
    GatherMore(checks, held, known, process, code);
  }

  lemma SkippedMore(log: seq<Event>, held: seq<Identity>, known: set<Pid>, ids: set<Identity>, process: Identity)
    requires Gathered(log, held, known) && process.pid !in known && From(log, held, ids) && process in ids
    ensures var all := log + [Cleared(process.pid)] + [Missed(process)];
            Gathered(all, held, known + {process.pid}) && From(all, held, ids)
  {
    var all := log + [Cleared(process.pid)] + [Missed(process)];
    GatherCheck(log, held, known, Cleared(process.pid));
    GatherCheck(log + [Cleared(process.pid)], held, known, Missed(process));
    assert all[|log| + 1] == Missed(process);
    assert MissedPid(all, process.pid);
    FromMore(log, held, ids, process, [Cleared(process.pid), Missed(process)], held);
    assert all == log + [Cleared(process.pid), Missed(process)];
  }

  ghost predicate Known(order: seq<Pid>, n: nat, seen: set<Pid>)
    requires n <= |order|
  {
    forall i :: 0 <= i < n ==> order[i] in seen
  }

  lemma KnownMore(order: seq<Pid>, n: nat, before: set<Pid>, seen: set<Pid>)
    requires n < |order| && Known(order, n, before) && before <= seen && order[n] in seen
    ensures Known(order, n + 1, seen)
  {
  }

  /** One round: the new processes of one scan. `stable` says that there were none. */
  method GatherRound(host: Host, table: Table, root: Pid, settings: Settings, held: seq<Identity>, known: set<Pid>,
                     ghost ids: set<Identity>)
    returns (more: seq<Identity>, seen: set<Pid>, stable: bool, stop: Option<Status>)
    requires Gathered(host.log, held, known) && |held| <= settings.maximum && root in known
    requires EntriesOf(table, root) <= ids && From(host.log, held, ids)
    requires host.Honest()
    modifies host`now, host`log, host`moments
    ensures host.Honest() && old(host.now) <= host.now
    ensures held <= more && known <= seen && |more| <= settings.maximum && InHand(host.log, more)
    ensures From(host.log, more, ids)
    ensures forall pid :: pid in seen ==> pid in known || Below(table, root, pid)
    ensures stop.None? ==> Gathered(host.log, more, seen) && forall pid :: Below(table, root, pid) ==> pid in seen
    ensures stop.Some? ==>
              || (stop.value == RefusedLimit && |seen| > settings.maximum)
              || (stop.value == RefusedProtected &&
                  exists pid :: Below(table, root, pid) && host.GuardedIn(pid, old(host.now), host.now))
    ensures stable ==> seen == known && more == held
    ensures stop.None? && !stable ==> exists pid :: Below(table, root, pid) && pid !in known
  {
    var order := DescendantsOf(table, root);
    assert forall i :: 0 <= i < |order| ==> order[i] in order && order[i] == ([root] + order)[i + 1];
    more, seen, stable, stop := GatherListed(host, table, order, settings, held, known, ids);
    if stop.None? { WholeTree(table, root, order, seen); }
  }

  ghost predicate Listable(table: Table, order: seq<Pid>, ids: set<Identity>) {
    forall i :: 0 <= i < |order| ==> order[i] in table && Identity(order[i], table[order[i]].start) in ids
  }

  /** The loop of a round. */
  method GatherListed(host: Host, table: Table, order: seq<Pid>, settings: Settings, held: seq<Identity>,
                      known: set<Pid>, ghost ids: set<Identity>)
    returns (more: seq<Identity>, seen: set<Pid>, stable: bool, stop: Option<Status>)
    requires Gathered(host.log, held, known) && |held| <= settings.maximum
    requires Listable(table, order, ids) && From(host.log, held, ids)
    requires host.Honest()
    modifies host`now, host`log, host`moments
    ensures host.Honest() && old(host.now) <= host.now
    ensures held <= more && known <= seen && |more| <= settings.maximum && InHand(host.log, more)
    ensures From(host.log, more, ids) && forall pid :: pid in seen ==> pid in known || pid in order
    ensures stop.None? ==> Gathered(host.log, more, seen) && Known(order, |order|, seen)
    ensures stop.Some? ==>
              || (stop.value == RefusedLimit && |seen| > settings.maximum)
              || (stop.value == RefusedProtected &&
                  exists pid :: pid in order && host.GuardedIn(pid, old(host.now), host.now))
    ensures stable ==> seen == known && more == held
    ensures stop.None? && !stable ==> exists pid :: pid in order && pid !in known
  {
    more, seen, stable, stop := held, known, true, None;
    for j := 0 to |order|
      invariant host.Honest() && old(host.now) <= host.now
      invariant held <= more && known <= seen && |more| <= settings.maximum && Gathered(host.log, more, seen)
      invariant From(host.log, more, ids) && Known(order, j, seen)
      invariant forall pid :: pid in seen ==> pid in known || pid in order
      invariant stop.None? && (stable ==> seen == known && more == held)
      invariant !stable ==> exists pid :: pid in order && pid !in known
    {
      var pid := order[j];
      if pid !in seen { stable := false; }
      ghost var before, at := seen, host.now;
      more, seen, stop := GatherOne(host, table, pid, settings, more, seen, ids);
      if stop.Some? {
        if stop.value == RefusedProtected { host.GuardedSince(pid, old(host.now), at, host.now); }
        return;
      }
      KnownMore(order, j, before, seen);
    }
  }

  lemma WholeTree(table: Table, root: Pid, order: seq<Pid>, seen: set<Pid>)
    requires root in seen && Known(order, |order|, seen)
    requires forall pid :: pid in order <==> pid != root && Below(table, root, pid)
    ensures forall pid :: Below(table, root, pid) ==> pid in seen
  {
    forall pid | Below(table, root, pid) && pid != root
      ensures pid in seen
    {
      var i :| 0 <= i < |order| && order[i] == pid;
    }
  }

  // ---- the response --------------------------------------------------------------------------

  lemma Settles(log: seq<Event>, held: seq<Identity>, ps: seq<Identity>, all: seq<Event>, signal: Signal)
    requires InHand(log, held) && (forall p :: p in ps <==> p in held) && log <= all && Answered(all, |log|, ps, signal)
    ensures Settled(all, |log|, ps, signal)
  {
    assert all[..|log|] == log;
    forall k | 0 <= k < |all| && all[k].Sent?
      ensures Verified(all[k].process) in all[..k] && Cleared(all[k].process.pid) in all[..k]
    {
      if k < |log| {
        assert all[..k] == log[..k];
      } else {
        assert all[k].process in held;
        assert log <= all[..k];
      }
    }
  }

  /** What a response leaves behind whatever happens. */
  ghost predicate Orderly(log: seq<Event>, settings: Settings) {
    Checked(log) && AllOrNothing(log) && |Targets(log)| <= settings.maximum
  }

  lemma OrderlyWhenSettled(log: seq<Event>, cut: nat, ps: seq<Identity>, signal: Signal, settings: Settings)
    requires Settled(log, cut, ps, signal) && signal != Stop && |ps| <= settings.maximum
    ensures Orderly(log, settings) && (signal == Continue ==> NeverSends(log, Kill))
  {
    SettledIsAllOrNothing(log, cut, ps, signal);
    SettledIsBounded(log, cut, ps, signal);
  }

  method Release(host: Host, held: seq<Identity>, settings: Settings)
    requires InHand(host.log, held) && |held| <= settings.maximum
    requires host.Honest()
    modifies host`now, host`log, host`moments
    ensures host.Honest() && old(host.now) <= host.now
    ensures Orderly(host.log, settings) && NeverSends(host.log, Kill)
  {
    var _ := host.SendAll(held, Continue);
    Settles(old(host.log), held, held, host.log, Continue);
    OrderlyWhenSettled(host.log, |old(host.log)|, held, Continue, settings);
  }

  /** These identities: the target, and then each of the pids with the start time of the scan. */
  ghost predicate Listing(affected: seq<Identity>, target: Identity, table: Table, first: seq<Pid>) {
    && |affected| == |first| + 1 && affected[0] == target
    && forall k :: 0 <= k < |first| ==>
         first[k] in table && affected[k + 1] == Identity(first[k], table[first[k]].start)
  }

  /** The checks so far: no signal, no process missed, the target free to be signalled. */
  ghost predicate Cleanly(log: seq<Event>, target: Identity) {
    (forall e :: e in log ==> !e.Sent? && !e.Missed?) && Ready(log, target)
  }

  /** Every process of the tree must be free of protection; the identities are those of the scan. */
  method ClearAll(host: Host, target: Identity, table: Table, first: seq<Pid>)
    returns (ok: bool, affected: seq<Identity>)
    requires (forall i :: 0 <= i < |first| ==> first[i] in table) && Cleanly(host.log, target)
    requires host.Honest()
    modifies host`now, host`log, host`moments
    ensures host.Honest() && old(host.now) <= host.now && Cleanly(host.log, target)
    ensures ok ==> Listing(affected, target, table, first)
    ensures !ok ==> exists at, i :: old(host.now) <= at < host.now && 0 <= i < |first| && host.guarded(at, first[i])
  {
    affected := [target];
    for i := 0 to |first|
      invariant host.Honest() && old(host.now) <= host.now && Cleanly(host.log, target)
      invariant Listing(affected, target, table, first[..i])
    {
      ghost var at := host.now;
      var guarded := host.IsProtected(first[i]);
      if guarded {
        assert host.guarded(at, first[i]);
        return false, [];
      }
      affected := affected + [Identity(first[i], table[first[i]].start)];
    }
    assert first[..|first|] == first;
    ok := true;
  }

  predicate Invalid(target: Identity, settings: Settings) {
    target.pid == 0 || target.start == 0 || settings.maximum == 0
  }

  /** What a dry run lists: the target, then all that a scan showed below it, once each and parents first. */
  ghost predicate Preview(host: Host, target: Identity, affected: seq<Identity>)
    reads host
  {
    |host.scans| == 1 && host.tables(host.scans[0]).Some? &&
    var table := host.tables(host.scans[0]).value;
    exists first ::
      Listing(affected, target, table, first) && Walked(table, target.pid, first)
  }

  ghost predicate Differs(host: Host, at: nat, target: Identity) {
    host.lookup(at, target.pid) != Running(target.start) && host.lookup(at, target.pid) != NoReference
  }

  /** Why nothing was stopped. */
  ghost predicate Declined(host: Host, target: Identity, settings: Settings, status: Status, affected: seq<Identity>)
    reads host
  {
    match status
    case RefusedInvalid => Invalid(target, settings) && affected == []
    case RefusedProtected => host.FoundGuarded(host.scans, target.pid, host.since, host.now) && affected == []
    case RefusedMismatch => affected == [] && (exists at :: host.since <= at < host.now && Differs(host, at, target))
    case RefusedLimit => host.OverLimit(host.scans, target.pid, settings.maximum) && affected == []
    case Failed => affected == [] &&
        (exists at :: host.since <= at < host.now && host.lookup(at, target.pid).NoReference?)
    case DryRun => settings.dryRun && Preview(host, target, affected)
    case _ => false
  }

  /** The checks before anything is stopped. */
  method Preflight(host: Host, target: Identity, settings: Settings)
    returns (refusal: Option<Status>, affected: seq<Identity>)
    requires host.log == [] && host.scans == [] && host.since == host.now
    requires host.Honest()
    modifies host`now, host`log, host`moments, host`seen, host`seenAt, host`scans
    ensures host.Honest()
    ensures forall e :: e in host.log ==> !e.Sent?
    ensures Invalid(target, settings) ==> refusal == Some(RefusedInvalid)
    ensures refusal.None? ==> Cleanly(host.log, target) && !Invalid(target, settings) && !settings.dryRun
    ensures refusal.None? ==> |host.scans| == 1 && host.tables(host.scans[0]).Some?
    ensures refusal.Some? ==> Declined(host, target, settings, refusal.value, affected)
  {
    affected := [];
    if Invalid(target, settings) {
      refusal := Some(RefusedInvalid);
    } else {
      var guarded := host.IsProtected(target.pid);
      if guarded {
        assert host.guarded(host.since, target.pid);
        refusal := Some(RefusedProtected);
      } else {
        refusal, affected := PreflightRoot(host, target, settings);
      }
    }
  }

  /** The root must be the process that was named. */
  method PreflightRoot(host: Host, target: Identity, settings: Settings)
    returns (refusal: Option<Status>, affected: seq<Identity>)
    requires host.log == [Cleared(target.pid)] && host.scans == []
    requires host.Honest()
    modifies host`now, host`log, host`moments, host`seen, host`seenAt, host`scans
    ensures host.Honest() && forall e :: e in host.log ==> !e.Sent?
    ensures refusal.None? ==> Cleanly(host.log, target) && !settings.dryRun
    ensures refusal.None? ==> |host.scans| == 1 && host.tables(host.scans[0]).Some?
    ensures refusal.Some? ==>
              refusal.value != RefusedInvalid && Declined(host, target, settings, refusal.value, affected)
  {
    ghost var at := host.now;
    var ok, mismatch := host.Open(target);
    if !ok {
      assert host.since <= at < host.now && (mismatch ==> Differs(host, at, target));
      refusal, affected := Some(if mismatch then RefusedMismatch else Failed), [];
    } else {
      assert host.log == [Cleared(target.pid), Verified(target)];
      refusal, affected := PreflightScan(host, target, settings);
    }
  }

  /** The tree must be within the bound and free of protection. */
  method PreflightScan(host: Host, target: Identity, settings: Settings)
    returns (refusal: Option<Status>, affected: seq<Identity>)
    requires Cleanly(host.log, target) && host.scans == []
    requires host.Honest()
    modifies host`now, host`log, host`moments, host`seen, host`seenAt, host`scans
    ensures host.Honest() && Cleanly(host.log, target)
    ensures refusal.None? ==> !settings.dryRun && |host.scans| == 1 && host.tables(host.scans[0]).Some?
    ensures refusal.Some? ==>
              refusal.value != RefusedInvalid && Declined(host, target, settings, refusal.value, affected)
  {
    var scanned := host.Scan();
    refusal, affected := Some(RefusedLimit), [];
    if scanned.None? {
      assert host.tables(host.scans[0]).None?;
    } else {
      var first := DescendantsOf(scanned.value, target.pid);
      if |first| + 1 > settings.maximum {
        TreeShown(host, target.pid, scanned.value, first, settings.maximum);
      } else {
        refusal, affected := PreflightTree(host, target, settings, scanned.value, first);
      }
    }
  }

  /** The pids below the root, once each and parents first. */
  ghost predicate Walked(table: Table, root: Pid, first: seq<Pid>) {
    && NoRepeat([root] + first) && ParentsFirst(table, [root] + first)
    && forall pid :: pid in first <==> pid != root && Below(table, root, pid)
  }

  method PreflightTree(host: Host, target: Identity, settings: Settings, table: Table, first: seq<Pid>)
    returns (refusal: Option<Status>, affected: seq<Identity>)
    requires Cleanly(host.log, target) && |host.scans| == 1 && host.tables(host.scans[0]) == Some(table)
    requires Walked(table, target.pid, first)
    requires host.Honest()
    modifies host`now, host`log, host`moments
    ensures host.Honest() && Cleanly(host.log, target)
    ensures refusal.None? ==> !settings.dryRun
    ensures refusal.Some? ==>
              refusal.value != RefusedInvalid && Declined(host, target, settings, refusal.value, affected)
  {
    WalkedInTable(table, target.pid, first);
    var ok;
    ok, affected := ClearAll(host, target, table, first);
    if !ok {
      OneGuarded(host, target.pid, table, first);
      refusal, affected := Some(RefusedProtected), [];
    } else {
      PreviewOf(host, target, affected, table, first);
      refusal := if settings.dryRun then Some(DryRun) else None;
    }
  }

  lemma WalkedInTable(table: Table, root: Pid, first: seq<Pid>)
    requires Walked(table, root, first)
    ensures forall i :: 0 <= i < |first| ==> first[i] in table && Below(table, root, first[i])
  {
    forall i | 0 <= i < |first|
      ensures first[i] in table && Below(table, root, first[i])
    {
      assert first[i] in first && first[i] == ([root] + first)[i + 1];
    }
  }

  lemma OneGuarded(host: Host, root: Pid, table: Table, first: seq<Pid>)
    requires |host.scans| == 1 && host.tables(host.scans[0]) == Some(table)
    requires forall i :: 0 <= i < |first| ==> Below(table, root, first[i])
    requires exists at, i :: host.since <= at < host.now && 0 <= i < |first| && host.guarded(at, first[i])
    ensures host.FoundGuarded(host.scans, root, host.since, host.now)
  {
    var at, i :| host.since <= at < host.now && 0 <= i < |first| && host.guarded(at, first[i]);
    assert host.ShowsPid(host.scans[0], root, first[i]);
    assert host.PidShown(host.scans, root, first[i]);
  }

  lemma PreviewOf(host: Host, target: Identity, affected: seq<Identity>, table: Table, first: seq<Pid>)
    requires |host.scans| == 1 && host.tables(host.scans[0]) == Some(table) && Listing(affected, target, table, first)
    requires Walked(table, target.pid, first)
    ensures Preview(host, target, affected)
  {
  }

  /** A tree over the bound is a set of more pids than the bound, all of them shown. */
  lemma TreeShown(host: Host, root: Pid, table: Table, first: seq<Pid>, maximum: nat)
    requires host.scans != [] && host.tables(host.scans[0]) == Some(table) && |first| + 1 > maximum
    requires NoRepeat([root] + first) && forall pid :: pid in first <==> pid != root && Below(table, root, pid)
    ensures host.TooMany(host.scans, root, maximum)
  {
    var pids := PidsIn([root] + first);
    RootIsBelow(table, root);
    forall pid | pid in pids
      ensures host.PidShown(host.scans, root, pid)
    {
      assert host.ShowsPid(host.scans[0], root, pid);
    }
    AsMany([root] + first);
    assert host.AllShown(host.scans, root, pids);
  }

  function PidsIn(s: seq<Pid>): set<Pid> { set pid | pid in s }

  lemma {:induction false} AsMany(s: seq<Pid>)
    requires NoRepeat(s)
    ensures |PidsIn(s)| == |s|
  {
    if s == [] {
      assert PidsIn(s) == {};
    } else {
      var rest := s[1..];
      assert forall i :: 0 <= i < |rest| ==> rest[i] == s[i + 1] && rest[i] != s[0];
      AsMany(rest);
      FirstAndRest(s);
      assert PidsIn(s) == {s[0]} + PidsIn(rest);
    }
  }

  lemma FirstAndRest(s: seq<Pid>)
    requires s != []
    ensures forall pid :: pid in s <==> pid == s[0] || pid in s[1..]
  {
    assert s == [s[0]] + s[1..];
  }

  /** Stops the root and gathers its tree; gives up by letting everything go on. */
  method Gather(host: Host, target: Identity, settings: Settings) returns (held: seq<Identity>, refusal: Option<Status>)
    requires Cleanly(host.log, target) && settings.maximum > 0
    requires |host.scans| == 1 && host.tables(host.scans[0]).Some?
    requires host.Honest()
    modifies host`now, host`log, host`moments, host`seen, host`seenAt, host`scans
    ensures host.Honest()
    ensures refusal.None? ==> InHand(host.log, held) && |held| <= settings.maximum && held != [] && held[0] == target
    ensures refusal.None? ==> Named(host, target.pid, held)
    ensures refusal.None? ==> host.seenAt > host.since && forall pid :: Below(host.seen, target.pid, pid) ==>
              Handled(host.log, held, pid)
    ensures refusal.Some? ==> Orderly(host.log, settings) && NeverSends(host.log, Kill)
    ensures refusal.Some? ==>
              StopRefused(host, target, refusal.value) ||
              GivenUp(host, target.pid, settings, host.since, refusal.value)
  {
    held := [target];
    ghost var at := host.now;
    var code := host.Send(target, Stop);
    RootStopped(old(host.log), target, code);
    if code != 0 {
      StopFailed(host.log, target, settings);
      assert host.reply(at, target, Stop) == code;
      return held, Some(if code == NO_SUCH_PROCESS then AlreadyGone else Failed);
    }
    RootIsShown(host, target, old(host.log));
    held, refusal := GatherTree(host, target, settings);
    if refusal.Some? { LetGo(host, target.pid, held, settings, refusal.value); }
  }

  /** The root could not be stopped. */
  ghost predicate StopRefused(host: Host, target: Identity, status: Status)
    reads host
  {
    exists at :: host.since <= at < host.now &&
      var code := host.reply(at, target, Stop);
      code != 0 && status == if code == NO_SUCH_PROCESS then AlreadyGone else Failed
  }

  lemma RootIsShown(host: Host, target: Identity, log: seq<Event>)
    requires |host.scans| == 1 && host.tables(host.scans[0]).Some?
    requires Cleanly(log, target) && log <= host.log && |host.log| == |log| + 1 && host.log[|log|].Sent?
    ensures From(host.log, [target], {}) && host.AllShown(host.scans, target.pid, {target.pid})
  {
    RootIsBelow(host.tables(host.scans[0]).value, target.pid);
    assert host.ShowsPid(host.scans[0], target.pid, target.pid);
    forall k | 0 <= k < |host.log|
      ensures !host.log[k].Missed?
    {
      if k < |log| { assert host.log[k] == log[k] && log[k] in log; }
    }
  }

  /** Every process named to the system is one that a scan showed below the root, with the start time it showed. */
  ghost predicate Named(host: Host, root: Pid, held: seq<Identity>)
    reads host
  {
    exists ids :: host.IdsShown(host.scans, root, ids) && From(host.log, held, ids)
  }

  /** Why the gathering was given up. */
  ghost predicate GivenUp(host: Host, root: Pid, settings: Settings, from: nat, status: Status)
    reads host
  {
    || (status == RefusedLimit && host.OverLimit(host.scans, root, settings.maximum))
    || (status == RefusedProtected && host.FoundGuarded(host.scans, root, from, host.now))
  }

  method LetGo(host: Host, root: Pid, held: seq<Identity>, settings: Settings, ghost status: Status)
    requires InHand(host.log, held) && |held| <= settings.maximum
    requires host.Honest() && GivenUp(host, root, settings, host.since, status)
    modifies host`now, host`log, host`moments
    ensures host.Honest() && Orderly(host.log, settings) && NeverSends(host.log, Kill)
    ensures GivenUp(host, root, settings, host.since, status)
  {
    ghost var before := host.now;
    Release(host, held, settings);
    host.GuardedLater(host.scans, root, host.since, before, host.now);
  }

  /** The last scan's tree is known, and so is every tree that a scan after the first showed. */
  ghost predicate AllKnown(host: Host, root: Pid, known: set<Pid>)
    reads host
  {
    forall k, pid :: 0 < k < |host.scans| && host.ShowsPid(host.scans[k], root, pid) ==> pid in known
  }

  /** Rescans until a scan shows nothing new, eight times at most. */
  method GatherTree(host: Host, target: Identity, settings: Settings)
    returns (held: seq<Identity>, refusal: Option<Status>)
    requires Gathered(host.log, [target], {target.pid}) && settings.maximum > 0 && From(host.log, [target], {})
    requires |host.scans| == 1 && host.AllShown(host.scans, target.pid, {target.pid})
    requires host.Honest()
    modifies host`now, host`log, host`moments, host`seen, host`seenAt, host`scans
    ensures host.Honest()
    ensures InHand(host.log, held) && |held| <= settings.maximum && held != [] && held[0] == target
    ensures refusal.None? ==> Named(host, target.pid, held)
    ensures refusal.None? ==> host.seenAt > host.since && forall pid :: Below(host.seen, target.pid, pid) ==>
              Handled(host.log, held, pid)
    ensures refusal.Some? ==> GivenUp(host, target.pid, settings, host.since, refusal.value)
  {
    held := [target];
    var known, stable, round := {target.pid}, false, 0;
    ghost var ids: set<Identity> := {};
    refusal := None;
    while round < MAXIMUM_ROUNDS && !stable
      invariant host.Honest() && Gathered(host.log, held, known) && |held| <= settings.maximum
      invariant held != [] && held[0] == target && From(host.log, held, ids) && refusal.None?
      invariant |host.scans| == round + 1 && Tracked(host, target.pid, ids, known)
      invariant !stable ==> host.Growing(host.scans, target.pid, round)
      invariant stable ==> host.seenAt > host.since && forall pid :: Below(host.seen, target.pid, pid) ==> pid in known
      invariant round <= MAXIMUM_ROUNDS
      decreases MAXIMUM_ROUNDS - round
    {
      held, known, stable, refusal, ids := Rescan(host, target, settings, held, known, ids);
      if refusal.Some? { return; }
      round := round + 1;
    }
    if !stable {
      assert |host.scans| == 1 + 8 && host.Growing(host.scans, target.pid, 8);
      refusal := Some(RefusedLimit);
    }
  }

  /** What is known, and what was named, was shown; and what was shown after the first scan is known. */
  ghost predicate Tracked(host: Host, root: Pid, ids: set<Identity>, known: set<Pid>)
    reads host
  {
    && root in known && host.AllShown(host.scans, root, known) && host.IdsShown(host.scans, root, ids)
    && AllKnown(host, root, known)
  }

  /** One scan and its round. */
  method Rescan(host: Host, target: Identity, settings: Settings, held: seq<Identity>, known: set<Pid>,
                ghost ids: set<Identity>)
    returns (more: seq<Identity>, seen: set<Pid>, stable: bool, stop: Option<Status>, ghost names: set<Identity>)
    requires Gathered(host.log, held, known) && |held| <= settings.maximum && From(host.log, held, ids)
    requires host.scans != [] && Tracked(host, target.pid, ids, known)
    requires host.Growing(host.scans, target.pid, |host.scans| - 1)
    requires host.Honest()
    modifies host`now, host`log, host`moments, host`seen, host`seenAt, host`scans
    ensures host.Honest() && |host.scans| == |old(host.scans)| + 1
    ensures held <= more && |more| <= settings.maximum && InHand(host.log, more)
    ensures stop.None? ==> Gathered(host.log, more, seen) && From(host.log, more, names)
    ensures stop.None? ==> Tracked(host, target.pid, names, seen)
    ensures stop.None? && !stable ==> host.Growing(host.scans, target.pid, |host.scans| - 1)
    ensures stop.None? && stable ==> host.seenAt > host.since && forall pid :: Below(host.seen, target.pid, pid) ==>
              pid in seen
    ensures stop.Some? ==> GivenUp(host, target.pid, settings, host.since, stop.value)
  {
    ghost var before, at := host.scans, host.now;
    more, seen, stable, names := held, known, false, ids;
    var scanned := host.Scan();
    if scanned.None? {
      assert host.tables(host.scans[|before|]).None?;
      stop := Some(RefusedLimit);
      return;
    }
    names := ids + EntriesOf(scanned.value, target.pid);
    more, seen, stable, stop := GatherRound(host, scanned.value, target.pid, settings, held, known, names);
    host.ShownMore(before, at, target.pid, scanned.value, ids, known, seen);
    if stop.None? {
      ScansKnown(host, before, target.pid, scanned.value, known, seen, stable);
    } else {
      RoundGivenUp(host, target.pid, settings, scanned.value, at, seen, stop.value);
    }
  }

  lemma RoundGivenUp(host: Host, root: Pid, settings: Settings, table: Table, at: nat, seen: set<Pid>, status: Status)
    requires host.Honest() && host.scans != [] && host.scans[|host.scans| - 1] == at && host.tables(at) == Some(table)
    requires host.AllShown(host.scans, root, seen)
    requires || (status == RefusedLimit && |seen| > settings.maximum)
             || (status == RefusedProtected &&
                 exists pid :: Below(table, root, pid) && host.GuardedIn(pid, at + 1, host.now))
    ensures GivenUp(host, root, settings, host.since, status)
  {
    if status == RefusedProtected { GuardedShown(host, root, table, at); }
  }

  lemma GuardedShown(host: Host, root: Pid, table: Table, at: nat)
    requires host.Honest() && host.scans != [] && host.scans[|host.scans| - 1] == at && host.tables(at) == Some(table)
    requires exists pid :: Below(table, root, pid) && host.GuardedIn(pid, at + 1, host.now)
    ensures host.FoundGuarded(host.scans, root, host.since, host.now)
  {
    var pid :| Below(table, root, pid) && host.GuardedIn(pid, at + 1, host.now);
    var when :| at + 1 <= when < host.now && host.guarded(when, pid);
    assert host.ShowsPid(host.scans[|host.scans| - 1], root, pid);
    assert host.PidShown(host.scans, root, pid);
  }

  lemma ScansKnown(host: Host, before: seq<nat>, root: Pid, table: Table, known: set<Pid>, seen: set<Pid>,
                   stable: bool)
    requires before != [] && before <= host.scans && |host.scans| == |before| + 1
    requires host.tables(host.scans[|before|]) == Some(table) && known <= seen && root in known
    requires forall k, pid :: 0 < k < |before| && host.ShowsPid(before[k], root, pid) ==> pid in known
    requires host.Growing(before, root, |before| - 1)
    requires forall pid :: Below(table, root, pid) ==> pid in seen
    requires !stable ==> exists pid :: Below(table, root, pid) && pid !in known
    ensures AllKnown(host, root, seen)
    ensures !stable ==> host.Growing(host.scans, root, |before|)
  {
    forall k, pid | 0 < k < |host.scans| && host.ShowsPid(host.scans[k], root, pid)
      ensures pid in seen
    {
      if k < |before| { assert host.scans[k] == before[k]; }
    }
    if !stable {
      forall k | 0 < k <= |before|
        ensures host.ShowsFresh(host.scans, k, root)
      {
        if k < |before| {
          assert host.ShowsFresh(before, k, root);
          var pid :| host.Fresh(before, k, root, pid);
          assert host.Fresh(host.scans, k, root, pid);
        } else {
          var pid :| Below(table, root, pid) && pid !in known;
          assert forall i :: 0 < i < k ==> host.scans[i] == before[i];
          assert host.Fresh(host.scans, k, root, pid);
        }
      }
    }
  }

  lemma RootStopped(log: seq<Event>, target: Identity, code: nat)
    requires (forall e :: e in log ==> !e.Sent?) && Ready(log, target)
    ensures Gathered(log + [Sent(target, Stop, code)], [target], {target.pid})
  {
    CheckedGrows(log, Sent(target, Stop, code));
    assert [target][0].pid == target.pid;
    assert forall k :: 0 <= k < |log| ==> (log + [Sent(target, Stop, code)])[k] == log[k];
  }

  lemma StopFailed(log: seq<Event>, target: Identity, settings: Settings)
    requires InHand(log, [target]) && settings.maximum > 0
    requires forall k :: 0 <= k < |log| && log[k].Sent? ==> log[k].code != 0
    ensures Orderly(log, settings) && NeverSends(log, Kill)
  {
    Few(Targets(log), [target]);
  }

  /**
   Every process in the last scan that is below the root was sent `Kill` under its pid, or failed its identity check.
   */
  ghost predicate Complete(log: seq<Event>, table: Table, root: Pid, affected: seq<Identity>) {
    && (forall i :: 0 <= i < |affected| ==> Sends(log, affected[i], Kill, 0))
    && (forall pid :: Below(table, root, pid) ==> Handled(log, affected, pid))
  }

  ghost predicate Accepted(log: seq<Event>) {
    forall k :: 0 <= k < |log| && log[k].Sent? && log[k].signal == Kill ==>
        log[k].code == 0 || log[k].code == NO_SUCH_PROCESS
  }

  /** Kills what is held, the root last, and waits for it. */
  method Finish(host: Host, held: seq<Identity>, root: Pid, settings: Settings, ghost ids: set<Identity>)
    returns (status: Status)
    requires InHand(host.log, held) && 0 < |held| <= settings.maximum && From(host.log, held, ids)
    requires forall pid :: Below(host.seen, root, pid) ==> Handled(host.log, held, pid)
    requires host.Honest()
    modifies host`now, host`log, host`moments
    ensures host.Honest() && old(host.now) <= host.now && From(host.log, held, ids)
    ensures Orderly(host.log, settings) && Complete(host.log, host.seen, root, held) && KilledLast(host.log, held[0])
    ensures status in {Terminated, Signalled, Failed} && (status != Failed <==> Accepted(host.log))
    ensures status == Terminated ==> host.AllGone(held, old(host.now), host.now)
    ensures status == Signalled ==> host.OneAlive(held, old(host.now), host.now)
  {
    var refused := KillAll(host, held, root, settings, ids);
    var exited := AwaitAll(host, held);
    status := if refused then Failed else if exited then Terminated else Signalled;
  }

  ghost predicate KilledLast(log: seq<Event>, process: Identity) {
    log != [] && var e := log[|log| - 1]; e.Sent? && e.process == process && e.signal == Kill
  }

  /** One `Kill` to each that is held, the root last. */
  method KillAll(host: Host, held: seq<Identity>, root: Pid, settings: Settings, ghost ids: set<Identity>)
    returns (refused: bool)
    requires InHand(host.log, held) && 0 < |held| <= settings.maximum && From(host.log, held, ids)
    requires forall pid :: Below(host.seen, root, pid) ==> Handled(host.log, held, pid)
    requires host.Honest()
    modifies host`now, host`log, host`moments
    ensures host.Honest() && old(host.now) <= host.now && From(host.log, held, ids)
    ensures Orderly(host.log, settings) && Complete(host.log, host.seen, root, held) && KilledLast(host.log, held[0])
    ensures refused <==> !Accepted(host.log)
  {
    var ps := held[1..] + [held[0]];
    var count := host.SendAll(ps, Kill);
    KillsAll(old(host.log), held, ps, host.log, settings);
    KillsBelow(old(host.log), held, host.log, host.seen, root);
    KillsAccepted(old(host.log), host.log, held, ps);
    KillsFrom(old(host.log), host.log, held, ps, ids);
    refused := count != 0;
  }

  /** Waits for what is held, the root last. */
  method AwaitAll(host: Host, held: seq<Identity>) returns (exited: bool)
    requires host.Honest() && held != []
    modifies host`now
    ensures host.Honest() && old(host.now) <= host.now
    ensures exited ==> host.AllGone(held, old(host.now), host.now)
    ensures !exited ==> host.OneAlive(held, old(host.now), host.now)
  {
    var ps := held[1..] + [held[0]];
    exited := host.WaitAll(ps);
    assert forall i :: 0 <= i < |held| ==> held[i] == ps[if i == 0 then |held| - 1 else i - 1];
    assert forall k :: 0 <= k < |ps| ==> ps[k] == held[if k == |held| - 1 then 0 else k + 1];
  }

  lemma KillsFrom(log: seq<Event>, all: seq<Event>, held: seq<Identity>, ps: seq<Identity>, ids: set<Identity>)
    requires From(log, held, ids) && log <= all && Answered(all, |log|, ps, Kill)
    ensures From(all, held, ids)
  {
    forall k | 0 <= k < |all| && all[k].Missed?
      ensures all[k].process in ids
    {
      assert k < |log| && all[k] == log[k];
    }
  }

  lemma KillsAccepted(log: seq<Event>, all: seq<Event>, held: seq<Identity>, ps: seq<Identity>)
    requires InHand(log, held) && log <= all && Answered(all, |log|, ps, Kill)
    ensures Accepted(all) <==> AcceptedFrom(all, |log|)
  {
    assert forall k :: 0 <= k < |log| ==> all[k] == log[k];
  }

  lemma KillsAll(log: seq<Event>, held: seq<Identity>, ps: seq<Identity>, all: seq<Event>, settings: Settings)
    requires InHand(log, held) && 0 < |held| <= settings.maximum && ps == held[1..] + [held[0]]
    requires log <= all && Answered(all, |log|, ps, Kill)
    ensures Orderly(all, settings) && forall i :: 0 <= i < |held| ==> Sends(all, held[i], Kill, 0)
  {
    assert held == [held[0]] + held[1..];
    Settles(log, held, ps, all, Kill);
    OrderlyWhenSettled(all, |log|, ps, Kill, settings);
    forall i | 0 <= i < |held|
      ensures Sends(all, held[i], Kill, 0)
    {
      var k := |log| + if i == 0 then |held| - 1 else i - 1;
      assert all[k].process == ps[k - |log|] == held[i];
    }
  }

  lemma KillsBelow(log: seq<Event>, held: seq<Identity>, all: seq<Event>, table: Table, root: Pid)
    requires log <= all && forall pid :: Below(table, root, pid) ==> Handled(log, held, pid)
    ensures forall pid :: Below(table, root, pid) ==> Handled(all, held, pid)
  {
    forall pid | Below(table, root, pid)
      ensures Handled(all, held, pid)
    {
      if MissedPid(log, pid) { MissedStays(log, all, pid); }
    }
  }

  /** The tree of the last scan was killed, and the status says how it went. */
  ghost predicate Killed(host: Host, target: Identity, outcome: Outcome)
    reads host
  {
    && outcome.status in {Terminated, Signalled, Failed} && (outcome.status != Failed <==> Accepted(host.log))
    && outcome.affected != [] && outcome.affected[0] == target && host.seenAt > host.since
    && Complete(host.log, host.seen, target.pid, outcome.affected) && Named(host, target.pid, outcome.affected)
    && (outcome.status == Terminated ==> host.AllGone(outcome.affected, host.since, host.now))
    && (outcome.status == Signalled ==> host.OneAlive(outcome.affected, host.since, host.now))
  }

  /** After the checks: the root was not stopped, or the gathering was given up, or the tree was killed. */
  ghost predicate Explained(host: Host, target: Identity, settings: Settings, outcome: Outcome)
    reads host
  {
    || (StopRefused(host, target, outcome.status) && outcome.affected == [target])
    || (GivenUp(host, target.pid, settings, host.since, outcome.status) && outcome.affected == [])
    || Killed(host, target, outcome)
  }

  /** What a response and its status say about what was done, and why. */
  ghost predicate Told(host: Host, target: Identity, settings: Settings, outcome: Outcome)
    reads host
  {
    && Orderly(host.log, settings)
    && (!NeverSends(host.log, Kill) ==> Killed(host, target, outcome))
    && (Invalid(target, settings) <==> outcome.status == RefusedInvalid)
    && (Declined(host, target, settings, outcome.status, outcome.affected) ||
        (!settings.dryRun && Explained(host, target, settings, outcome)))
  }

  /**
   `respond_terminate_tree`, against every behaviour of the process table: what it stopped goes on, all of it, or is
   killed, all of it; nobody is signalled unchecked; no more than the bound are signalled; when it kills, the tree of
   the last scan is covered; and when it does not, the system gave it a reason. A tree that stays as it is is killed.
   */
  method Terminate(host: Host, target: Identity, settings: Settings) returns (outcome: Outcome)
    requires host.log == []
    requires host.Honest()
    modifies host`now, host`since, host`log, host`moments, host`seen, host`seenAt, host`scans
    ensures host.Honest() && host.since == old(host.now) && host.Vouched()
    ensures Told(host, target, settings, outcome)
    ensures outcome.status == DryRun ==> forall e :: e in host.log ==> !e.Sent?
    ensures forall table :: Steady(host, table, target, settings, old(host.now)) ==>
              outcome.status in {Terminated, Signalled, Failed} && AllKilled(host.log, table, target)
  {
    host.since, host.scans := host.now, [];
    var refusal, affected := Preflight(host, target, settings);
    if refusal.Some? {
      NoSignal(host.log, settings);
      outcome := Outcome(refusal.value, affected);
    } else {
      outcome := TakeDown(host, target, settings);
    }
    host.CheckedIsVouched();
    forall table | Steady(host, table, target, settings, old(host.now))
      ensures outcome.status in {Terminated, Signalled, Failed} && AllKilled(host.log, table, target)
    {
      SteadyIsKilled(host, table, target, settings, outcome);
    }
  }

  /** The part after the checks. */
  method TakeDown(host: Host, target: Identity, settings: Settings) returns (outcome: Outcome)
    requires Cleanly(host.log, target) && settings.maximum > 0
    requires |host.scans| == 1 && host.tables(host.scans[0]).Some?
    requires host.Honest()
    modifies host`now, host`log, host`moments, host`seen, host`seenAt, host`scans
    ensures host.Honest() && Orderly(host.log, settings) &&
            (!NeverSends(host.log, Kill) ==> Killed(host, target, outcome))
    ensures Explained(host, target, settings, outcome) && outcome.status !in {DryRun, RefusedInvalid}
  {
    var held, refusal := Gather(host, target, settings);
    if refusal.Some? {
      return Outcome(refusal.value, if refusal.value in {AlreadyGone, Failed} then [target] else []);
    }
    outcome := KillTree(host, target, held, settings);
  }

  method KillTree(host: Host, target: Identity, held: seq<Identity>, settings: Settings) returns (outcome: Outcome)
    requires InHand(host.log, held) && |held| <= settings.maximum && held != [] && held[0] == target
    requires Named(host, target.pid, held) && host.seenAt > host.since
    requires forall pid :: Below(host.seen, target.pid, pid) ==> Handled(host.log, held, pid)
    requires host.Honest()
    modifies host`now, host`log, host`moments
    ensures host.Honest() && Orderly(host.log, settings) && Killed(host, target, outcome)
  {
    ghost var gathered := host.now;
    ghost var ids :| host.IdsShown(host.scans, target.pid, ids) && From(host.log, held, ids);
    var status := Finish(host, held, target.pid, settings, ids);
    host.Since(held, host.since, gathered, host.now);
    outcome := Outcome(status, held);
  }

  // ---- against a system that stays as it is ----------------------------------------------------

  /** At this moment the system shows this table, agrees with it, protects none of the tree and stops the root. */
  ghost predicate SteadyAt(host: Host, at: nat, table: Table, target: Identity) {
    && host.tables(at) == Some(table)
    && host.lookup(at, target.pid) == Running(target.start) && host.reply(at, target, Stop) == 0
    && (forall pid :: Below(table, target.pid, pid) ==> !host.guarded(at, pid))
    && (forall p :: p in EntriesOf(table, target.pid) ==> host.lookup(at, p.pid) == Running(p.start))
  }

  /** From this moment on the system stays so, and the tree is within the bound. */
  ghost predicate Steady(host: Host, table: Table, target: Identity, settings: Settings, from: nat) {
    && target.pid != 0 && target.start != 0 && settings.maximum > 0 && !settings.dryRun
    && |EntriesOf(table, target.pid)| + 1 <= settings.maximum
    && forall at :: from <= at ==> SteadyAt(host, at, table, target)
  }

  /** The target and every process below it was sent `Kill`. */
  ghost predicate AllKilled(log: seq<Event>, table: Table, target: Identity) {
    Sends(log, target, Kill, 0) && forall p :: p in EntriesOf(table, target.pid) ==> Sends(log, p, Kill, 0)
  }

  lemma SteadyIsKilled(host: Host, table: Table, target: Identity, settings: Settings, outcome: Outcome)
    requires host.Honest() && Told(host, target, settings, outcome)
    requires Steady(host, table, target, settings, host.since)
    ensures outcome.status in {Terminated, Signalled, Failed} && AllKilled(host.log, table, target)
  {
    SteadyHasNoExcuse(host, table, target, settings);
    assert !Declined(host, target, settings, outcome.status, outcome.affected);
    assert Killed(host, target, outcome);
    SteadyKills(host, table, target, outcome);
  }

  /** None of the reasons to give up can arise. */
  lemma SteadyHasNoExcuse(host: Host, table: Table, target: Identity, settings: Settings)
    requires host.Honest() && Steady(host, table, target, settings, host.since)
    ensures !host.FoundGuarded(host.scans, target.pid, host.since, host.now)
    ensures !host.OverLimit(host.scans, target.pid, settings.maximum)
    ensures forall status :: !StopRefused(host, target, status)
    ensures forall at :: host.since <= at ==> host.lookup(at, target.pid) == Running(target.start)
  {
    RootIsBelow(table, target.pid);
    SteadyScans(host, table, target, settings);
    forall at | host.since <= at
      ensures host.lookup(at, target.pid) == Running(target.start) && host.reply(at, target, Stop) == 0
    {
      assert SteadyAt(host, at, table, target);
    }
    forall at, pid | host.since <= at && Below(table, target.pid, pid)
      ensures !host.guarded(at, pid)
    {
      assert SteadyAt(host, at, table, target);
    }
  }

  lemma SteadyScans(host: Host, table: Table, target: Identity, settings: Settings)
    requires host.Honest() && Steady(host, table, target, settings, host.since)
    ensures !host.OverLimit(host.scans, target.pid, settings.maximum)
    ensures forall pid :: host.PidShown(host.scans, target.pid, pid) ==> Below(table, target.pid, pid)
  {
    var root, scans := target.pid, host.scans;
    forall k | 0 <= k < |scans|
      ensures host.tables(scans[k]) == Some(table)
    {
      assert SteadyAt(host, scans[k], table, target);
    }
    forall pids: set<Pid> | host.AllShown(scans, root, pids)
      ensures |pids| <= settings.maximum
    {
      FewBelow(table, root, pids);
    }
    assert |scans| == 1 + 8 && host.Growing(scans, root, 8) ==> host.ShowsFresh(scans, 2, root);
    assert |scans| == 1 + 8 ==> forall pid :: host.ShowsPid(scans[1], root, pid) <==>
        host.ShowsPid(scans[2], root, pid);
  }

  /** The pids below the root are those of the entries and the root. */
  lemma FewBelow(table: Table, root: Pid, pids: set<Pid>)
    requires forall pid :: pid in pids ==> Below(table, root, pid)
    ensures |pids| <= |EntriesOf(table, root)| + 1
  {
    var ids := EntriesOf(table, root);
    var below := pids - {root};
    forall pid | pid in below
      ensures pid in table && Identity(pid, table[pid].start) in ids
    {
      var path :| Leads(table, path, root, pid);
      assert ChildOf(table, path[|path| - 1], path[|path| - 2]);
    }
    Injected(below, table, ids);
    SmallerSubset(pids, below + {root});
  }

  lemma {:induction false} Injected(pids: set<Pid>, table: Table, ids: set<Identity>)
    requires forall pid :: pid in pids ==> pid in table && Identity(pid, table[pid].start) in ids
    ensures |pids| <= |ids|
    decreases |pids|
  {
    if pids != {} {
      var pid :| pid in pids;
      Injected(pids - {pid}, table, ids - {Identity(pid, table[pid].start)});
    }
  }

  lemma SteadyKills(host: Host, table: Table, target: Identity, outcome: Outcome)
    requires host.Honest() && Killed(host, target, outcome)
    requires forall at :: host.since <= at ==> SteadyAt(host, at, table, target)
    ensures AllKilled(host.log, table, target)
  {
    var ids :| host.IdsShown(host.scans, target.pid, ids) && From(host.log, outcome.affected, ids);
    assert SteadyAt(host, host.seenAt - 1, table, target);
    assert Sends(host.log, outcome.affected[0], Kill, 0);
    SteadyNotMissed(host, table, target, ids, outcome.affected);
    SteadyIds(host, table, target, ids);
    forall p | p in EntriesOf(table, target.pid)
      ensures Sends(host.log, p, Kill, 0)
    {
      HandledIsKilled(host.log, outcome.affected, table, target, ids, p);
    }
  }

  lemma HandledIsKilled(log: seq<Event>, affected: seq<Identity>, table: Table, target: Identity, ids: set<Identity>,
                        p: Identity)
    requires p in EntriesOf(table, target.pid) && ids <= EntriesOf(table, target.pid) && From(log, affected, ids)
    requires affected != [] && affected[0] == target && Handled(log, affected, p.pid)
    requires forall k :: 0 <= k < |log| ==> !log[k].Missed?
    requires forall i :: 0 <= i < |affected| ==> Sends(log, affected[i], Kill, 0)
    ensures Sends(log, p, Kill, 0)
  {
    var i :| 0 <= i < |affected| && affected[i].pid == p.pid;
    assert affected[i] in EntriesOf(table, target.pid);
  }

  lemma SteadyIds(host: Host, table: Table, target: Identity, ids: set<Identity>)
    requires host.Honest() && host.IdsShown(host.scans, target.pid, ids)
    requires forall at :: host.since <= at ==> SteadyAt(host, at, table, target)
    ensures ids <= EntriesOf(table, target.pid)
  {
    forall p | p in ids
      ensures p in EntriesOf(table, target.pid)
    {
      var k :| 0 <= k < |host.scans| && host.Shows(host.scans[k], target.pid, p);
      assert SteadyAt(host, host.scans[k], table, target);
      assert p == Identity(p.pid, table[p.pid].start);
    }
  }

  lemma SteadyNotMissed(host: Host, table: Table, target: Identity, ids: set<Identity>, held: seq<Identity>)
    requires host.Honest() && host.IdsShown(host.scans, target.pid, ids) && From(host.log, held, ids)
    requires forall at :: host.since <= at ==> SteadyAt(host, at, table, target)
    ensures forall k :: 0 <= k < |host.log| ==> !host.log[k].Missed?
  {
    SteadyIds(host, table, target, ids);
    forall k | 0 <= k < |host.log|
      ensures !host.log[k].Missed?
    {
      assert host.Fact(host.log[k], host.moments[k]) && SteadyAt(host, host.moments[k], table, target);
    }
  }

  lemma NoSignal(log: seq<Event>, settings: Settings)
    requires forall e :: e in log ==> !e.Sent?
    ensures Orderly(log, settings) && NeverSends(log, Kill)
  {
    assert Targets(log) == {};
  }
}
