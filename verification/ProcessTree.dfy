/**
 The processes below a process: the breadth-first walk over one snapshot of the process table.
 */
module ProcessTree {
  import opened Text

  type Pid = nat
  datatype Scanned = Scanned(parent: Pid, start: nat)
  type Table = map<Pid, Scanned>

  predicate ChildOf(table: Table, child: Pid, parent: Pid) { child in table && table[child].parent == parent }

  /** Each process after the first is a child of the one before it. */
  ghost predicate Chain(table: Table, pids: seq<Pid>) {
    |pids| >= 1 && forall i :: 0 < i < |pids| ==> ChildOf(table, pids[i], pids[i - 1])
  }

  ghost predicate Leads(table: Table, pids: seq<Pid>, root: Pid, pid: Pid) {
    Chain(table, pids) && pids[0] == root && pids[|pids| - 1] == pid
  }

  /** The process is the root or can be reached from it from parent to child. */
  ghost predicate Below(table: Table, root: Pid, pid: Pid) { exists pids :: Leads(table, pids, root, pid) }

  lemma RootIsBelow(table: Table, root: Pid)
    ensures Below(table, root, root)
  {
    assert Leads(table, [root], root, root);
  }

  lemma ChildIsBelow(table: Table, root: Pid, parent: Pid, child: Pid)
    requires Below(table, root, parent) && ChildOf(table, child, parent)
    ensures Below(table, root, child)
  {
    var pids :| Leads(table, pids, root, parent);
    assert Leads(table, pids + [child], root, child);
  }

  ghost predicate Closed(table: Table, seen: set<Pid>) {
    forall child :: child in table && table[child].parent in seen ==> child in seen
  }

  lemma {:induction false} ChainStaysInside(table: Table, seen: set<Pid>, pids: seq<Pid>)
    requires Chain(table, pids) && pids[0] in seen && Closed(table, seen)
    ensures pids[|pids| - 1] in seen
    decreases |pids|
  {
    if |pids| > 1 {
      var shorter := pids[..|pids| - 1];
      ChainStaysInside(table, seen, shorter);
      assert ChildOf(table, pids[|pids| - 1], pids[|pids| - 2]);
    }
  }

  /** The children of every parent, listed once each. */
  ghost predicate Listed(table: Table, pids: set<Pid>, children: map<Pid, seq<Pid>>) {
    && (forall pid :: pid in pids ==>
         pid in table && table[pid].parent in children && pid in children[table[pid].parent])
    && (forall parent, i :: parent in children && 0 <= i < |children[parent]| ==>
         children[parent][i] in pids && ChildOf(table, children[parent][i], parent))
  }

  method ListChildren(table: Table) returns (children: map<Pid, seq<Pid>>)
    ensures Listed(table, table.Keys, children)
  {
    children := map[];
    var todo := table.Keys;
    while todo != {}
      invariant todo <= table.Keys && Listed(table, table.Keys - todo, children)
      decreases |todo|
    {
      var pid :| pid in todo;
      var parent := table[pid].parent;
      var others := if parent in children then children[parent] else [];
      children := children[parent := others + [pid]];
      todo := todo - {pid};
    }
  }

  /** Every process but the first has its parent before it. */
  predicate ParentsFirst(table: Table, queue: seq<Pid>) {
    forall k :: 0 < k < |queue| ==> queue[k] in table && table[queue[k]].parent in queue[..k]
  }

  /** The walk so far: what is queued is what was seen, once each, and all of it is below the root. */
  ghost predicate Walk(table: Table, root: Pid, queue: seq<Pid>, seen: set<Pid>) {
    && |queue| >= 1 && queue[0] == root && NoRepeat(queue) && ParentsFirst(table, queue)
    && |seen| == |queue| && (forall pid :: pid in seen <==> pid in queue)
    && (forall pid :: pid in seen ==> Below(table, root, pid))
  }

  /** The children of the first processes of the queue are seen. */
  ghost predicate Expanded(table: Table, queue: seq<Pid>, index: nat, seen: set<Pid>) {
    forall i, child :: 0 <= i < index && i < |queue| && ChildOf(table, child, queue[i]) ==> child in seen
  }

  lemma OneMore(table: Table, root: Pid, queue: seq<Pid>, seen: set<Pid>, parent: Pid, child: Pid)
    requires Walk(table, root, queue, seen) && parent in seen && ChildOf(table, child, parent) && child !in seen
    ensures Walk(table, root, queue + [child], seen + {child})
  {
    ChildIsBelow(table, root, parent, child);
    var more := queue + [child];
    forall k | 0 < k < |more|
      ensures more[k] in table && table[more[k]].parent in more[..k]
    {
      if k < |queue| {
        assert more[..k] == queue[..k];
      } else {
        assert more[..k] == queue;
      }
    }
  }

  lemma QueueIsBounded(table: Table, root: Pid, queue: seq<Pid>, seen: set<Pid>)
    requires Walk(table, root, queue, seen)
    ensures |queue| <= |table.Keys + {root}|
  {
    forall pid | pid in seen
      ensures pid in table.Keys + {root}
    {
      var k :| 0 <= k < |queue| && queue[k] == pid;
    }
    SmallerSubset(seen, table.Keys + {root});
  }

  /** The walk that has expanded its whole queue has seen exactly what is below the root. */
  lemma Finished(table: Table, root: Pid, queue: seq<Pid>, seen: set<Pid>)
    requires Walk(table, root, queue, seen) && Expanded(table, queue, |queue|, seen)
    ensures forall pid :: pid in queue <==> Below(table, root, pid)
  {
    forall child | child in table && table[child].parent in seen
      ensures child in seen
    {
      var i :| 0 <= i < |queue| && queue[i] == table[child].parent;
      assert ChildOf(table, child, queue[i]);
    }
    forall pid | Below(table, root, pid)
      ensures pid in seen
    {
      var pids :| Leads(table, pids, root, pid);
      ChainStaysInside(table, seen, pids);
    }
  }

  lemma WithoutRoot(root: Pid, queue: seq<Pid>)
    requires |queue| >= 1 && queue[0] == root && NoRepeat(queue)
    ensures [root] + queue[1..] == queue
    ensures forall pid :: pid in queue[1..] <==> pid in queue && pid != root
  {
    forall pid | pid in queue && pid != root
      ensures pid in queue[1..]
    {
      var k :| 0 <= k < |queue| && queue[k] == pid;
      assert queue[1..][k - 1] == pid;
    }
  }

  /**
   `descendants_of`: exactly the processes below the root, once each, parents first, whatever cycles the table holds.
   */
  method DescendantsOf(table: Table, root: Pid) returns (order: seq<Pid>)
    ensures NoRepeat([root] + order) && ParentsFirst(table, [root] + order)
    ensures forall pid :: pid in order <==> pid != root && Below(table, root, pid)
  {
    var children := ListChildren(table);
    var queue, seen := [root], {root};
    RootIsBelow(table, root);
    var index := 0;
    while index < |queue|
      invariant Walk(table, root, queue, seen)
      invariant index <= |queue| && Expanded(table, queue, index, seen)
      decreases |table.Keys + {root}| - index
    {
      QueueIsBounded(table, root, queue, seen);
      var parent := queue[index];
      ghost var was, before := queue, seen;
      if parent in children {
        queue, seen := VisitAll(table, root, parent, children[parent], queue, seen);
      }
      ExpandedOne(table, was, index, before, queue, seen);
      index := index + 1;
    }
    Finished(table, root, queue, seen);
    WithoutRoot(root, queue);
    order := queue[1..];
  }

  lemma ExpandedOne(table: Table, was: seq<Pid>, index: nat, before: set<Pid>, queue: seq<Pid>, seen: set<Pid>)
    requires Expanded(table, was, index, before) && index < |was| && was <= queue && before <= seen
    requires forall child :: ChildOf(table, child, was[index]) ==> child in seen
    ensures Expanded(table, queue, index + 1, seen)
  {
    forall i, child | 0 <= i < index + 1 && i < |queue| && ChildOf(table, child, queue[i])
      ensures child in seen
    {
      assert queue[i] == was[i];
    }
  }

  ghost predicate FirstSeen(found: seq<Pid>, n: nat, seen: set<Pid>) {
    forall i :: 0 <= i < n && i < |found| ==> found[i] in seen
  }

  lemma SeenMore(found: seq<Pid>, n: nat, seen: set<Pid>)
    requires n < |found| && FirstSeen(found, n, seen)
    ensures FirstSeen(found, n + 1, seen + {found[n]}) && (found[n] in seen ==> FirstSeen(found, n + 1, seen))
  {
  }

  /** The inner loop: the children of one process that were not seen yet. */
  method VisitAll(table: Table, root: Pid, parent: Pid, found: seq<Pid>, queue0: seq<Pid>, seen0: set<Pid>)
    returns (queue: seq<Pid>, seen: set<Pid>)
    requires Walk(table, root, queue0, seen0) && parent in seen0
    requires forall i :: 0 <= i < |found| ==> ChildOf(table, found[i], parent)
    ensures Walk(table, root, queue, seen) && queue0 <= queue && seen0 <= seen
    ensures FirstSeen(found, |found|, seen)
  {
    queue, seen := queue0, seen0;
    for j := 0 to |found|
      invariant Walk(table, root, queue, seen) && queue0 <= queue && seen0 <= seen
      invariant FirstSeen(found, j, seen)
    {
      var child := found[j];
      SeenMore(found, j, seen);
      if child !in seen {
        OneMore(table, root, queue, seen, parent, child);
        queue, seen := queue + [child], seen + {child};
      }
    }
  }
}
