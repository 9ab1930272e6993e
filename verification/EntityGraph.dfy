/**
 The sensor's picture of the processes: one index from pid to the current instance, one from entity id to every instance
 still remembered, exited ones included. What procfs answers is a parameter of each operation.
 */
module EntityGraph {
  import opened Text

  type Pid = nat

  /** The digest that names an instance is taken to be one-to-one on what goes into it. */
  datatype Id = Id(pid: Pid, start: nat)

  datatype Entity = Entity(id: Id, parent: Option<Id>, parentPid: Pid, generation: nat, firstSeen: nat,
                           exited: Option<nat>, info: string)

  /** What a read of one process gives. */
  datatype Proc = Proc(start: nat, parentPid: Pid, info: string)

  /** What is known of a process that called exec: the live instance it continues, its start time, parent and image. */
  datatype Seen = Seen(prior: Option<Entity>, start: nat, parentPid: Pid, info: string)

  function ExecSeen(prior: Option<Entity>, proc: Option<Proc>, kernelStart: Option<nat>, guess: nat): Seen {
    var seen :=
      if proc.Some? then
        Seen(if prior.Some? && prior.value.id.start != proc.value.start then None
            else prior, proc.value.start, proc.value.parentPid, proc.value.info)
      else if prior.Some? then Seen(prior, prior.value.id.start, prior.value.parentPid, prior.value.info)
      else Seen(None, guess, 0, "");
    if kernelStart.Some? then seen.(start := kernelStart.value) else seen
  }

  datatype Options = Options(grace: nat, maximum: nat)

  type ByPid = map<Pid, Entity>
  type ById = map<Id, Entity>

  predicate Live(e: Entity) { e.exited.None? }

  /**
   A slot holds an instance of its own pid, and it is the one found under its id; an instance is filed under its own
   id; an instance that is live is the one in its pid's slot.
   */
  predicate Agree(byPid: ByPid, byId: ById) {
    && (forall pid :: pid in byPid ==>
         byPid[pid].id.pid == pid && byPid[pid].id in byId && byId[byPid[pid].id] == byPid[pid])
    && (forall id :: id in byId ==> byId[id].id == id)
    && (forall id :: id in byId && Live(byId[id]) ==> id.pid in byPid && byPid[id.pid].id == id)
  }

  /** At most one live instance for a pid. */
  lemma OneLivePerPid(byPid: ByPid, byId: ById, a: Id, b: Id)
    requires Agree(byPid, byId) && a in byId && b in byId && Live(byId[a]) && Live(byId[b]) && a.pid == b.pid
    ensures a == b
  {
  }

  /** What becomes of an instance when another is stored. */
  function Displaced(was: Entity, e: Entity): Entity {
    if was.id.pid == e.id.pid && Live(was) then was.(exited := Some(e.firstSeen)) else was
  }

  /** The slots of all other pids are as they were. */
  ghost predicate SameButFor(after: ByPid, before: ByPid, pids: set<Pid>) {
    forall pid :: pid !in pids ==> (pid in after <==> pid in before) && (pid in after ==> after[pid] == before[pid])
  }

  /** The id index after an instance is stored: a live instance it pushes out of its slot is filed as ended. */
  function Filed(byPid: ByPid, byId: ById, e: Entity): ById {
    var pushed := e.id.pid in byPid && byPid[e.id.pid].id != e.id && Live(byPid[e.id.pid]);
    (if pushed then byId[byPid[e.id.pid].id := byPid[e.id.pid].(exited := Some(e.firstSeen))] else byId)[e.id := e]
  }

  lemma FiledIs(byPid: ByPid, byId: ById, e: Entity)
    requires Agree(byPid, byId)
    ensures Filed(byPid, byId, e).Keys == byId.Keys + {e.id} && Filed(byPid, byId, e)[e.id] == e
    ensures forall id :: id in byId && id != e.id ==> Filed(byPid, byId, e)[id] == Displaced(byId[id], e)
  {
  }

  lemma FiledAgrees(byPid: ByPid, byId: ById, e: Entity)
    requires Agree(byPid, byId)
    ensures Agree(byPid[e.id.pid := e], Filed(byPid, byId, e))
    ensures Filed(byPid, byId, e).Keys == byId.Keys + {e.id}
    ensures forall id :: id in byId && id != e.id ==> Filed(byPid, byId, e)[id] == Displaced(byId[id], e)
  {
    FiledIs(byPid, byId, e);
  }

  /** The same instances in the same slots, but for their parents. */
  predicate Relinked(after: ByPid, before: ByPid) {
    after.Keys == before.Keys && forall pid :: pid in after ==> after[pid] == before[pid].(parent := after[pid].parent)
  }

  /** The parent an instance should have: the one it has, or the live instance of its parent's pid if not younger. */
  function ParentOf(byPid: ByPid, pid: Pid): Option<Id>
    requires pid in byPid
  {
    var e := byPid[pid];
    if e.parent.None? && Live(e) && e.parentPid in byPid && Live(byPid[e.parentPid]) &&
       byPid[e.parentPid].id.start <= e.id.start then Some(byPid[e.parentPid].id)
    else e.parent
  }

  /** So far these have the parents they should have, and the others are as they were. */
  ghost predicate LinkedBut(after: ByPid, before: ByPid, todo: set<Pid>)
    requires Relinked(after, before)
  {
    forall pid :: pid in after ==>
        after[pid].parent == if pid in todo then before[pid].parent else ParentOf(before, pid)
  }

  lemma RelinkedOne(after: ByPid, between: ByPid, before: ByPid, pid: Pid, todo: set<Pid>)
    requires Relinked(between, before) && pid in between && pid in after && pid in todo &&
             LinkedBut(between, before, todo)
    requires after == between[pid := between[pid].(parent := ParentOf(between, pid))]
    ensures Relinked(after, before) && LinkedBut(after, before, todo - {pid})
  {
  }

  /**
   The slot of a listed pid after a scan. A process that could be read is there and live: as the instance that was
   read, or as the live one that was there before, whose start time agrees or could not be read.
   */
  ghost predicate TakenIn(after: ByPid, before: ByPid, pid: Pid, ticks: Option<nat>, proc: Option<Proc>) {
    if proc.None? then SameInstance(after, before, pid)
    else
      && pid in after && Live(after[pid])
      && (after[pid].id == Id(pid, proc.value.start) || KeptAs(after, before, pid, ticks))
  }

  ghost function Listed(pids: seq<Pid>): set<Pid> { set pid | pid in pids }

  /** A pid that is listed twice is found as it was left. */
  lemma TakenInMore(after: ByPid, between: ByPid, before: ByPid, pids: seq<Pid>, i: nat, ticks: Pid -> Option<nat>,
                    proc: Pid -> Option<Proc>)
    requires i < |pids| && SameButFor(after, between, {pids[i]})
    requires SameButFor(between, before, Listed(pids[..i]))
    requires forall pid :: pid in pids[..i] ==> TakenIn(between, before, pid, ticks(pid), proc(pid))
    requires TakenIn(after, between, pids[i], ticks(pids[i]), proc(pids[i]))
    ensures forall pid :: pid in pids[..i + 1] ==> TakenIn(after, before, pid, ticks(pid), proc(pid))
    ensures SameButFor(after, before, Listed(pids[..i + 1]))
  {
    assert pids[..i + 1] == pids[..i] + [pids[i]];
  }

  /** The slot holds the instance it held, live if it was. */
  ghost predicate SameInstance(after: ByPid, before: ByPid, pid: Pid) {
    && (pid in after <==> pid in before)
    && (pid in after ==> after[pid].id == before[pid].id && (Live(after[pid]) <==> Live(before[pid])))
  }

  ghost predicate KeptAs(after: ByPid, before: ByPid, pid: Pid, ticks: Option<nat>)
    requires pid in after
  {
    && pid in before && Live(before[pid]) && after[pid].id == before[pid].id
    && (ticks.None? || ticks.value == before[pid].id.start)
  }

  ghost function LiveIds(byId: ById): set<Id> { set id | id in byId && Live(byId[id]) }

  /** The instance a pid stands for when it is needed: the live one in its slot, or the one that can be read. */
  function Instance(byPid: ByPid, pid: Pid, proc: Option<Proc>): Option<Id> {
    if pid == 0 then None
    else if pid in byPid && Live(byPid[pid]) then Some(byPid[pid].id)
    else if proc.Some? then Some(Id(pid, proc.value.start)) else None
  }

  class Graph {
    const options: Options
    var byPid: ByPid
    var byId: ById
    var missing: set<Pid>

    predicate Valid() reads this { Agree(byPid, byId) }

    constructor (options: Options)
      ensures Valid() && byPid == map[] && byId == map[] && missing == {} && this.options == options
    {
      this.options := options;
      byPid, byId, missing := map[], map[], {};
    }

    function Find(pid: Pid): Option<Entity> reads this { if pid in byPid then Some(byPid[pid]) else None }

    /** `store`: the instance takes its pid's slot; a live instance it pushes out is filed as ended. */
    method Store(e: Entity)
      requires Valid()
      modifies this`byPid, this`byId
      ensures Valid() && byPid == old(byPid)[e.id.pid := e] && e.id in byId && byId[e.id] == e
      ensures byId.Keys == old(byId).Keys + {e.id}
      ensures forall id :: id in old(byId) && id != e.id ==> byId[id] == Displaced(old(byId)[id], e)
    {
      FiledAgrees(byPid, byId, e);
      if e.id.pid in byPid {
        var slot := byPid[e.id.pid];
        if slot.id != e.id && Live(slot) {
          byId := byId[slot.id := slot.(exited := Some(e.firstSeen))];
        }
      }
      byPid := byPid[e.id.pid := e];
      byId := byId[e.id := e];
    }

    /** `load`: the instance procfs shows now, linked to a parent that is live and not younger. */
    function Load(pid: Pid, proc: Option<Proc>, now: nat): (e: Option<Entity>)
      reads this
      ensures e.Some? <==> proc.Some?
      ensures e.Some? ==> e.value.id == Id(pid, proc.value.start) && Live(e.value) && e.value.info == proc.value.info
    {
      if proc.None? then None
      else
        var parent := Find(proc.value.parentPid);
        var linked := if parent.Some? && Live(parent.value) && parent.value.id.start <= proc.value.start
            then Some(parent.value.id) else None;
        Some(Entity(Id(pid, proc.value.start), linked, proc.value.parentPid, 0, now, None, proc.value.info))
    }

    method LookupOrLoad(pid: Pid, proc: Option<Proc>, now: nat) returns (e: Option<Entity>)
      requires Valid()
      modifies this`byPid, this`byId
      ensures Valid()
      ensures e.Some? ==> byPid == old(byPid)[pid := e.value] && Live(e.value) && e.value.id.pid == pid
      ensures pid != 0 && pid in old(byPid) && Live(old(byPid)[pid]) ==> e == Some(old(byPid)[pid]) && byId == old(byId)
      ensures e.Some? && !(pid in old(byPid) && Live(old(byPid)[pid])) ==>
                proc.Some? && e.value.id == Id(pid, proc.value.start) && e.value.info == proc.value.info
      ensures (if e.Some? then Some(e.value.id) else None) == Instance(old(byPid), pid, proc)
      ensures old(byId).Keys <= byId.Keys
      ensures e.None? ==>
                byPid == old(byPid) && byId == old(byId) &&
                    (pid == 0 || (proc.None? && (pid in byPid ==> !Live(byPid[pid]))))
    {
      if pid == 0 { return None; }
      if pid in byPid && Live(byPid[pid]) { return Some(byPid[pid]); }
      e := Load(pid, proc, now);
      if e.Some? { Store(e.value); }
    }

    /** `on_fork`: the child is a copy of its parent under its own identity. */
    method OnFork(parentPid: Pid, child: Pid, start: nat, parentProc: Option<Proc>, now: nat)
      requires Valid()
      modifies this`byPid, this`byId
      ensures Valid() && child in byPid && byPid[child].id == Id(child, start) && Live(byPid[child])
      ensures SameButFor(byPid, old(byPid), {child, parentPid}) && old(byId).Keys <= byId.Keys
      ensures parentPid != 0 && parentPid in old(byPid) && Live(old(byPid)[parentPid]) ==>
                byPid[child].info == old(byPid)[parentPid].info
      ensures byPid[child].parent == Instance(old(byPid), parentPid, parentProc) && byPid[child].parentPid == parentPid
      ensures byPid[child].generation == 0 && byPid[child].firstSeen == now
    {
      var parent := LookupOrLoad(parentPid, parentProc, now);
      var e := if parent.Some?
               then Entity(Id(child, start), Some(parent.value.id), parentPid, 0, now, None, parent.value.info)
               else Entity(Id(child, start), None, parentPid, 0, now, None, "");
      Store(e);
    }

    /** The parent of a process that called exec: that of the instance it continues, or the one that is found now. */
    method ExecParent(pid: Pid, seen: Seen, parentProc: Option<Proc>, now: nat) returns (parent: Option<Id>)
      requires Valid()
      modifies this`byPid, this`byId
      ensures Valid() && SameButFor(byPid, old(byPid), {seen.parentPid}) && old(byId).Keys <= byId.Keys
      ensures parent == if seen.prior.Some? && seen.prior.value.id == Id(pid, seen.start) then seen.prior.value.parent
                        else Instance(old(byPid), seen.parentPid, parentProc)
    {
      if seen.prior.Some? && seen.prior.value.id == Id(pid, seen.start) { return seen.prior.value.parent; }
      var found := LookupOrLoad(seen.parentPid, parentProc, now);
      parent := if found.Some? then Some(found.value.id) else None;
    }

    /**
     `on_exec`: a new image of the same instance, or a first sight of it. `kernelStart` is the start time the record may
     carry.
     */
    method OnExec(pid: Pid, proc: Option<Proc>, kernelStart: Option<nat>, guess: nat, parentProc: Option<Proc>,
                  now: nat)
      requires Valid()
      modifies this`byPid, this`byId
      ensures Valid() && pid in byPid && byPid[pid].id.pid == pid && Live(byPid[pid]) && old(byId).Keys <= byId.Keys
      ensures SameButFor(byPid, old(byPid), {pid, byPid[pid].parentPid})
      ensures byPid[pid].id.start == if kernelStart.Some? then kernelStart.value
                                     else if proc.Some? then proc.value.start
                                     else if pid in old(byPid) && Live(old(byPid)[pid]) then old(byPid)[pid].id.start
                                         else guess
      ensures pid in old(byPid) && Live(old(byPid)[pid]) && old(byPid)[pid].id == byPid[pid].id &&
              (proc.Some? ==> proc.value.start == byPid[pid].id.start) ==>
                byPid[pid].generation == old(byPid)[pid].generation + 1 && byPid[pid].parent == old(byPid)[pid].parent
      ensures !(pid in old(byPid) && Live(old(byPid)[pid])) || old(byPid)[pid].id != byPid[pid].id ==>
                byPid[pid].parent == Instance(old(byPid), byPid[pid].parentPid, parentProc)
      ensures proc.Some? ==> byPid[pid].info == proc.value.info && byPid[pid].parentPid == proc.value.parentPid
      ensures proc.None? && pid in old(byPid) && Live(old(byPid)[pid]) ==>
                byPid[pid].info == old(byPid)[pid].info && byPid[pid].parentPid == old(byPid)[pid].parentPid
      ensures !(pid in old(byPid) && Live(old(byPid)[pid])) ==>
                byPid[pid].generation == 1 && byPid[pid].firstSeen == now
    {
      var prior := if pid in byPid && Live(byPid[pid]) then Some(byPid[pid]) else None;
      var seen := ExecSeen(prior, proc, kernelStart, guess);
      var parent := ExecParent(pid, seen, parentProc, now);
      Store(Entity(Id(pid, seen.start), parent, seen.parentPid, if seen.prior.Some?
          then seen.prior.value.generation + 1 else 1,
                   if prior.Some? then prior.value.firstSeen else now, None, seen.info));
    }

    /** `on_exit`: the instance ends and keeps its slot. */
    method OnExit(pid: Pid, now: nat)
      requires Valid()
      modifies this`byPid, this`byId
      ensures Valid() && byId.Keys == old(byId).Keys
      ensures byPid == if pid in old(byPid) && Live(old(byPid)[pid])
              then old(byPid)[pid := old(byPid)[pid].(exited := Some(now))] else old(byPid)
    {
      if pid in byPid && Live(byPid[pid]) {
        Store(byPid[pid].(exited := Some(now)));
      }
    }

    /** A change of credentials, name, namespaces or session: the same instance with new attributes. */
    method OnChange(pid: Pid, proc: Option<Proc>, info: string, now: nat)
      requires Valid()
      modifies this`byPid, this`byId
      ensures Valid() && (pid in byPid && Live(byPid[pid]) && pid != 0 ==> byPid[pid].info == info)
      ensures pid != 0 && pid in old(byPid) && Live(old(byPid)[pid]) ==>
                byPid == old(byPid)[pid := old(byPid)[pid].(info := info)]
      ensures SameButFor(byPid, old(byPid), {pid}) && old(byId).Keys <= byId.Keys
    {
      var prior := LookupOrLoad(pid, proc, now);
      if prior.Some? { Store(prior.value.(info := info)); }
    }

    // ---- reconciliation with procfs --------------------------------------------------------

    /** One listed pid: a process that is not known, or not this instance of it, is taken in. */
    method DiscoverOne(pid: Pid, ticks: Option<nat>, proc: Option<Proc>, now: nat) returns (found: Option<Entity>)
      requires Valid()
      modifies this`byPid, this`byId
      ensures Valid() && byPid.Keys == old(byPid).Keys + if found.Some? then {pid} else {}
      ensures found.Some? ==> found.value.id.pid == pid && byPid == old(byPid)[pid := found.value] && Live(found.value)
      ensures found.None? ==> byPid == old(byPid) && byId == old(byId)
      ensures found.Some? ==> proc.Some? && found.value.id == Id(pid, proc.value.start)
      ensures TakenIn(byPid, old(byPid), pid, ticks, proc)
    {
      var known := pid in byPid && Live(byPid[pid]);
      if known && (ticks.None? || ticks.value == byPid[pid].id.start) { return None; }
      found := Load(pid, proc, now);
      if found.None? || (known && byPid[pid].id == found.value.id) { return None; }
      Store(found.value);
    }

    method Discover(pids: seq<Pid>, ticks: Pid -> Option<nat>, proc: Pid -> Option<Proc>, now: nat)
      returns (discovered: seq<Entity>)
      requires Valid()
      modifies this`byPid, this`byId
      ensures Valid() && forall pid :: pid in byPid && pid !in pids ==>
                pid in old(byPid) && byPid[pid] == old(byPid)[pid]
      ensures old(byPid).Keys <= byPid.Keys && forall i :: 0 <= i < |discovered| ==>
                discovered[i].id.pid in pids && Live(discovered[i])
      ensures forall pid :: pid in pids ==> TakenIn(byPid, old(byPid), pid, ticks(pid), proc(pid))
      ensures forall pid :: !Among(discovered, pid) ==> SameInstance(byPid, old(byPid), pid)
    {
      discovered := [];
      for i := 0 to |pids|
        invariant Valid() && forall pid :: pid in byPid && pid !in pids ==>
                    pid in old(byPid) && byPid[pid] == old(byPid)[pid]
        invariant old(byPid).Keys <= byPid.Keys && forall k :: 0 <= k < |discovered| ==>
                    discovered[k].id.pid in pids && Live(discovered[k])
        invariant forall pid :: pid in pids[..i] ==> TakenIn(byPid, old(byPid), pid, ticks(pid), proc(pid))
        invariant SameButFor(byPid, old(byPid), Listed(pids[..i]))
        invariant forall pid :: !Among(discovered, pid) ==> SameInstance(byPid, old(byPid), pid)
      {
        ghost var before := byPid;
        var found := DiscoverOne(pids[i], ticks(pids[i]), proc(pids[i]), now);
        TakenInMore(byPid, before, old(byPid), pids, i, ticks, proc);
        if found.Some? {
          ghost var was := discovered;
          discovered := discovered + [found.value];
          AmongNext(was, found.value);
        }
      }
      assert pids[..|pids|] == pids;
    }

    /** One process that may get its parent link. */
    method LinkOne(pid: Pid)
      requires Valid() && pid in byPid
      modifies this`byPid, this`byId
      ensures Valid() && byId.Keys == old(byId).Keys && pid in byPid &&
              byPid == old(byPid)[pid := old(byPid)[pid].(parent := ParentOf(old(byPid), pid))]
    {
      var e := byPid[pid];
      if e.parent.None? && Live(e) && e.parentPid in byPid && Live(byPid[e.parentPid]) &&
          byPid[e.parentPid].id.start <= e.id.start {
        var linked := e.(parent := Some(byPid[e.parentPid].id));
        byPid, byId := byPid[pid := linked], byId[e.id := linked];
      }
    }

    /** Parent links for processes that were loaded before their parents. */
    method LinkParents()
      requires Valid()
      modifies this`byPid, this`byId
      ensures Valid() && byId.Keys == old(byId).Keys && Relinked(byPid, old(byPid))
      ensures forall pid :: pid in byPid ==> byPid[pid].parent == ParentOf(old(byPid), pid)
    {
      var todo := byPid.Keys;
      while todo != {}
        invariant Valid() && todo <= byPid.Keys && byId.Keys == old(byId).Keys && Relinked(byPid, old(byPid))
        invariant LinkedBut(byPid, old(byPid), todo)
        decreases |todo|
      {
        var pid :| pid in todo;
        ghost var before := byPid;
        LinkOne(pid);
        RelinkedOne(byPid, before, old(byPid), pid, todo);
        todo := todo - {pid};
      }
    }

    /** The live processes that are not listed: those missed before have ended, the others are noted. */
    method FindMissing(pids: seq<Pid>, now: nat) returns (ended: seq<Entity>, noted: set<Pid>)
      requires Valid()
      ensures forall i :: 0 <= i < |ended| ==>
                ended[i].id.pid in byPid && ended[i] == byPid[ended[i].id.pid].(exited := Some(now))
      ensures forall pid :: Among(ended, pid) <==> pid in byPid && Live(byPid[pid]) && pid !in pids && pid in missing
      ensures forall pid :: pid in noted <==> pid in byPid && Live(byPid[pid]) && pid !in pids && pid !in missing
    {
      ended, noted := [], {};
      var todo := byPid.Keys;
      while todo != {}
        invariant todo <= byPid.Keys
        invariant forall i :: 0 <= i < |ended| ==>
                    ended[i].id.pid in byPid && ended[i] == byPid[ended[i].id.pid].(exited := Some(now))
        invariant forall pid :: Among(ended, pid) <==>
                    pid in byPid && pid !in todo && Live(byPid[pid]) && pid !in pids && pid in missing
        invariant forall pid :: pid in noted <==>
                    pid in byPid && pid !in todo && Live(byPid[pid]) && pid !in pids && pid !in missing
        decreases todo
      {
        var pid :| pid in todo;
        todo := todo - {pid};
        if Live(byPid[pid]) && pid !in pids {
          if pid in missing {
            ghost var was := ended;
            ended := ended + [byPid[pid].(exited := Some(now))];
            AmongMore(ended, |was|);
            assert ended[..|was| + 1] == ended && ended[..|was|] == was;
          } else {
            noted := noted + {pid};
          }
        }
      }
    }

    /** Files the instances that have ended. */
    method StoreAll(ended: seq<Entity>)
      requires Valid() && forall i :: 0 <= i < |ended| ==>
                 ended[i].id.pid in byPid && ended[i].id == byPid[ended[i].id.pid].id && !Live(ended[i])
      modifies this`byPid, this`byId
      ensures Valid() && byPid.Keys == old(byPid).Keys
      ensures forall pid :: pid in byPid ==>
                byPid[pid].id == old(byPid)[pid].id &&
                    (Live(byPid[pid]) <==> Live(old(byPid)[pid]) && !Among(ended, pid))
    {
      for k := 0 to |ended|
        invariant Valid() && byPid.Keys == old(byPid).Keys
        invariant forall pid :: pid in byPid ==>
                    byPid[pid].id == old(byPid)[pid].id &&
                        (Live(byPid[pid]) <==> Live(old(byPid)[pid]) && !Among(ended[..k], pid))
      {
        AmongMore(ended, k);
        Store(ended[k]);
      }
      assert ended[..|ended|] == ended;
    }

    /** A live process that is not listed ends if its pid was missed by the scan before, and is noted if not. */
    method EndMissing(pids: seq<Pid>, now: nat) returns (ended: seq<Entity>)
      requires Valid()
      modifies this`byPid, this`byId, this`missing
      ensures Valid() && byPid.Keys == old(byPid).Keys
      ensures forall pid :: pid in byPid ==>
                byPid[pid].id == old(byPid)[pid].id &&
                    (Live(byPid[pid]) <==> Live(old(byPid)[pid]) && (pid in pids || pid !in old(missing)))
      ensures forall pid :: pid in missing <==>
                pid in byPid && Live(old(byPid)[pid]) && pid !in pids && pid !in old(missing)
      ensures forall pid :: Among(ended, pid) <==>
                pid in old(byPid) && Live(old(byPid)[pid]) && pid !in pids && pid in old(missing)
    {
      var noted;
      ended, noted := FindMissing(pids, now);
      StoreAll(ended);
      missing := noted;
    }

    /**
     `reconcile`: unknown processes are taken in; a live process that is not listed ends when its pid was missed by the
     scan before, and is only noted otherwise. After it every live process is listed or noted.
     */
    method Reconcile(pids: seq<Pid>, ticks: Pid -> Option<nat>, proc: Pid -> Option<Proc>, now: nat)
      returns (discovered: seq<Entity>, ended: seq<Entity>)
      requires Valid()
      modifies this`byPid, this`byId, this`missing
      ensures Valid()
      ensures forall i :: 0 <= i < |discovered| ==> discovered[i].id.pid in pids && Live(discovered[i])
      ensures forall pid :: pid in byPid && Live(byPid[pid]) ==> pid in pids || pid in missing
      ensures missing !! old(missing) && forall pid :: pid in missing ==>
                pid in byPid && Live(byPid[pid]) && pid !in pids
      ensures forall pid :: pid in pids ==> TakenIn(byPid, old(byPid), pid, ticks(pid), proc(pid))
      ensures forall pid :: pid in old(byPid) && pid !in pids ==>
                pid in byPid && byPid[pid].id == old(byPid)[pid].id &&
                    (Live(byPid[pid]) <==> Live(old(byPid)[pid]) && pid !in old(missing))
      ensures forall pid :: Among(ended, pid) <==>
                pid in old(byPid) && Live(old(byPid)[pid]) && pid !in pids && pid in old(missing)
      ensures forall pid :: pid in pids && !Among(discovered, pid) ==> SameInstance(byPid, old(byPid), pid)
    {
      discovered := TakeIn(pids, ticks, proc, now);
      ended := EndMissing(pids, now);
    }

    /** Takes in what is new and links it to its parents. */
    method TakeIn(pids: seq<Pid>, ticks: Pid -> Option<nat>, proc: Pid -> Option<Proc>, now: nat)
      returns (discovered: seq<Entity>)
      requires Valid()
      modifies this`byPid, this`byId
      ensures Valid() && forall pid :: pid !in pids || !Among(discovered, pid) ==> SameInstance(byPid, old(byPid), pid)
      ensures forall i :: 0 <= i < |discovered| ==> discovered[i].id.pid in pids && Live(discovered[i])
      ensures forall pid :: pid in pids ==> TakenIn(byPid, old(byPid), pid, ticks(pid), proc(pid))
    {
      discovered := Discover(pids, ticks, proc, now);
      LinkParents();
    }

    // ---- forgetting ------------------------------------------------------------------------

    method DropExpired(now: nat)
      requires Valid()
      modifies this`byPid, this`byId
      ensures Valid() && byId == Unexpired(old(byId), options.grace, now)
    {
      byPid := map pid | pid in byPid && !Expired(byPid[pid], options.grace, now) :: byPid[pid];
      byId := Unexpired(byId, options.grace, now);
    }

    method EvictOne(id: Id)
      requires Valid() && id in byId && !Live(byId[id])
      modifies this`byPid, this`byId
      ensures Valid() && byId == old(byId) - {id} && |byId| == |old(byId)| - 1
    {
      if id.pid in byPid && byPid[id.pid] == byId[id] { byPid := byPid - {id.pid}; }
      OneLess(byId, id);
      byId := byId - {id};
    }

    method EvictFirst(order: seq<Id>, excess: nat) returns (index: nat)
      requires Valid() && NoRepeat(order) && forall id :: id in order <==> id in byId && !Live(byId[id])
      modifies this`byPid, this`byId
      ensures Valid() && index <= |order| && Rest(old(byId), byId, order, index) && |byId| + index == |old(byId)|
      ensures index == excess || (index == |order| && index < excess)
    {
      index := 0;
      while index < excess && index < |order|
        invariant index <= excess && index <= |order| && Valid()
        invariant Rest(old(byId), byId, order, index) && |byId| + index == |old(byId)|
      {
        NextToGo(old(byId), byId, order, index);
        EvictOne(order[index]);
        index := index + 1;
      }
    }

    /** The oldest exited instances go until the bound is met or none is left. */
    method EvictOldest()
      requires Valid()
      modifies this`byPid, this`byId
      ensures Valid() && Submap(byId, old(byId)) && LiveIds(byId) == LiveIds(old(byId))
      ensures |byId| <= options.maximum || |byId| <= |LiveIds(byId)|
      ensures |old(byId)| <= options.maximum ==> byId == old(byId)
      ensures forall id, kept :: id in old(byId) && id !in byId && kept in byId && !Live(byId[kept]) ==>
                Age(old(byId), id) <= Age(old(byId), kept)
    {
      if |byId| <= options.maximum { return; }
      var order := ByAge(byId);
      var excess := |byId| - options.maximum;
      var index := EvictFirst(order, excess);
      Evicted(old(byId), byId, order, index);
    }

    /** `purge`: the expired go; then, over the bound, the oldest exited ones. No live instance is forgotten. */
    method Purge(now: nat)
      requires Valid()
      modifies this`byPid, this`byId
      ensures Valid() && Submap(byId, old(byId)) && LiveIds(byId) == LiveIds(old(byId))
      ensures |byId| <= options.maximum || |byId| <= |LiveIds(byId)|
      ensures forall id :: id in byId ==> !Expired(byId[id], options.grace, now)
      ensures |Unexpired(old(byId), options.grace, now)| <= options.maximum ==>
                byId == Unexpired(old(byId), options.grace, now)
      ensures forall id, kept :: id in old(byId) && id !in byId && kept in byId && !Live(byId[kept]) ==>
                Expired(old(byId)[id], options.grace, now) || Age(old(byId), id) <= Age(old(byId), kept)
    {
      ghost var before := byId;
      DropExpired(now);
      EvictOldest();
      assert forall id :: id in before && Live(before[id]) ==> !Expired(before[id], options.grace, now);
      assert LiveIds(Unexpired(before, options.grace, now)) == LiveIds(before);
    }
  }

  predicate Expired(e: Entity, grace: nat, now: nat) { e.exited.Some? && e.exited.value + grace <= now }

  function Unexpired(byId: ById, grace: nat, now: nat): ById {
    map id | id in byId && !Expired(byId[id], grace, now) :: byId[id]
  }

  ghost predicate Submap(a: ById, b: ById) { forall id :: id in a ==> id in b && a[id] == b[id] }

  /** When an instance exited; 0 for one that has not. */
  function Age(byId: ById, id: Id): nat { if id in byId && !Live(byId[id]) then byId[id].exited.value else 0 }

  /** What is left once the first `n` are gone. */
  ghost predicate Rest(before: ById, after: ById, order: seq<Id>, n: nat) {
    && Submap(after, before) && n <= |order|
    && (forall i :: 0 <= i < n ==> order[i] !in after)
    && (forall id :: id in before ==> id in after || id in order[..n])
  }

  ghost predicate OldestFirst(byId: ById, order: seq<Id>) {
    forall i, j :: 0 <= i < j < |order| ==> Age(byId, order[i]) <= Age(byId, order[j])
  }

  lemma NextToGo(before: ById, after: ById, order: seq<Id>, n: nat)
    requires n < |order| && NoRepeat(order) && (forall id :: id in order <==> id in before && !Live(before[id])) &&
             Rest(before, after, order, n)
    ensures order[n] in after && !Live(after[order[n]])
    ensures Rest(before, after - {order[n]}, order, n + 1)
  {
    assert order[n] in order;
    assert order[..n + 1] == order[..n] + [order[n]];
  }

  lemma Evicted(before: ById, after: ById, order: seq<Id>, n: nat)
    requires OldestFirst(before, order) && Rest(before, after, order, n)
    requires forall id :: id in order <==> id in before && !Live(before[id])
    ensures LiveIds(after) == LiveIds(before)
    ensures n == |order| ==> |after| <= |LiveIds(after)|
    ensures forall id, kept :: id in before && id !in after && kept in after && !Live(after[kept]) ==>
              Age(before, id) <= Age(before, kept)
  {
    forall id | id in before && Live(before[id])
      ensures id in after
    {
      assert id !in order;
    }
    forall id, kept | id in before && id !in after && kept in after && !Live(after[kept])
      ensures Age(before, id) <= Age(before, kept)
    {
      var i :| 0 <= i < n && order[..n][i] == id;
      assert kept in order;
      var j :| 0 <= j < |order| && order[j] == kept;
      assert j >= n && order[i] == id;
    }
    if n == |order| {
      assert forall id :: id in after ==> id !in order;
      assert after.Keys == LiveIds(after);
      assert |after| == |after.Keys|;
    }
  }

  lemma OneLess(byId: ById, id: Id)
    requires id in byId
    ensures |byId - {id}| == |byId| - 1
  {
    assert (byId - {id}).Keys == byId.Keys - {id};
    assert |byId| == |byId.Keys| && |byId - {id}| == |(byId - {id}).Keys|;
  }

  /** The exited instances, oldest first. */
  method ByAge(byId: ById) returns (order: seq<Id>)
    ensures OldestFirst(byId, order) && NoRepeat(order) && forall id :: id in order <==> id in byId && !Live(byId[id])
  {
    order := [];
    var todo := set id | id in byId && !Live(byId[id]);
    while todo != {}
      invariant forall id :: id in todo ==> id in byId && !Live(byId[id])
      invariant OldestFirst(byId, order) && NoRepeat(order)
      invariant forall id :: id in byId && !Live(byId[id]) <==> id in todo || id in order
      invariant forall i, id :: 0 <= i < |order| && id in todo ==>
                  order[i] != id && Age(byId, order[i]) <= Age(byId, id)
      decreases |todo|
    {
      var oldest := Oldest(byId, todo);
      order, todo := order + [oldest], todo - {oldest};
    }
  }

  method Oldest(byId: ById, ids: set<Id>) returns (oldest: Id)
    requires ids != {}
    ensures oldest in ids && forall id :: id in ids ==> Age(byId, oldest) <= Age(byId, id)
  {
    oldest :| oldest in ids;
    var todo := ids - {oldest};
    while todo != {}
      invariant todo <= ids && oldest in ids && forall id :: id in ids && id !in todo ==>
                  Age(byId, oldest) <= Age(byId, id)
      decreases |todo|
    {
      var id :| id in todo;
      if Age(byId, id) < Age(byId, oldest) { oldest := id; }
      todo := todo - {id};
    }
  }

  predicate Among(ended: seq<Entity>, pid: Pid) { exists i :: 0 <= i < |ended| && ended[i].id.pid == pid }

  lemma AmongNext(was: seq<Entity>, e: Entity)
    ensures forall pid :: Among(was + [e], pid) <==> Among(was, pid) || e.id.pid == pid
  {
    var more := was + [e];
    assert more[|was|] == e;
    forall pid | Among(was, pid)
      ensures Among(more, pid)
    {
      var i :| 0 <= i < |was| && was[i].id.pid == pid;
      assert more[i] == was[i];
    }
  }

  lemma AmongMore(ended: seq<Entity>, k: nat)
    requires k < |ended|
    ensures forall pid :: Among(ended[..k + 1], pid) <==> Among(ended[..k], pid) || ended[k].id.pid == pid
  {
    var more, less := ended[..k + 1], ended[..k];
    forall pid | Among(more, pid) && ended[k].id.pid != pid
      ensures Among(less, pid)
    {
      var i :| 0 <= i < |more| && more[i].id.pid == pid;
      assert less[i] == more[i];
    }
    forall pid | Among(less, pid) || ended[k].id.pid == pid
      ensures Among(more, pid)
    {
      if ended[k].id.pid == pid {
        assert more[k].id.pid == pid;
      } else {
        var i :| 0 <= i < |less| && less[i].id.pid == pid;
        assert more[i] == less[i];
      }
    }
  }

  /** A process that two scans in a row do not list has ended by then. */
  method TwoScans(g: Graph, pid: Pid, first: seq<Pid>, second: seq<Pid>, ticks: Pid -> Option<nat>,
                  proc: Pid -> Option<Proc>, now: nat)
    requires g.Valid() && pid in g.byPid && pid !in first && pid !in second
    modifies g
    ensures g.Valid() && pid in g.byPid && g.byPid[pid].id == old(g.byPid)[pid].id && !Live(g.byPid[pid])
  {
    var _, _ := g.Reconcile(first, ticks, proc, now);
    var _, _ := g.Reconcile(second, ticks, proc, now);
  }

  /** One scan can be enough when the pid is reused in between: what is remembered of the scan before is the pid. */
  method EndedAfterOneScan(earlier: Id, later: Id, now: nat) returns (g: Graph, before: Entity)
    requires earlier.pid == later.pid && earlier.pid != 0 && earlier.start != later.start
    ensures g.Valid() && before.id == later && Live(before) && later.pid in g.byPid &&
            g.byPid[later.pid].id == later && !Live(g.byPid[later.pid])
  {
    g := new Graph(Options(0, 0));
    g.OnFork(1, earlier.pid, earlier.start, None, now);
    var _, _ := g.Reconcile([], _ => None, _ => None, now);
    g.OnExit(earlier.pid, now);
    g.OnFork(1, later.pid, later.start, None, now);
    before := g.byPid[later.pid];
    var _, _ := g.Reconcile([], _ => None, _ => None, now);
  }
}
