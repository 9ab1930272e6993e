/**
 The monitor: a baseline, and rescans of the disk against it. What a scan could not observe says nothing.
 */
module FimMonitors {
  import opened Text
  import opened Fim

  type Baseline = map<string, Item>

  function Get(m: Baseline, path: string): Option<Item> { if path in m then Some(m[path]) else None }

  /** The sorted listing of a baseline, as `std::map` iterates. */
  ghost predicate Lists(es: seq<Entry>, m: Baseline) { Sorted(es) && forall path :: Lookup(es, path) == Get(m, path) }

  method Least(paths: set<string>) returns (least: string)
    requires paths != {}
    ensures least in paths && forall p :: p in paths && p != least ==> Less(least, p)
  {
    least :| least in paths;
    var todo := paths - {least};
    while todo != {}
      invariant todo <= paths && least in paths && forall p :: p in paths && p !in todo && p != least ==> Less(least, p)
      decreases |todo|
    {
      var p :| p in todo;
      todo := todo - {p};
      if Less(p, least) {
        SmallerIsLeast(p, least, paths - todo);
        least := p;
      } else {
        LessIsTotal(p, least);
      }
    }
  }

  lemma SmallerIsLeast(p: string, least: string, seen: set<string>)
    requires Less(p, least) && forall q :: q in seen && q != least && q != p ==> Less(least, q)
    ensures forall q :: q in seen && q != p ==> Less(p, q)
  {
    forall q | q in seen && q != p && q != least
      ensures Less(p, q)
    {
      LessIsTransitive(p, least, q);
    }
  }

  lemma {:induction false} LookupMore(es: seq<Entry>, e: Entry, path: string)
    ensures Lookup(es + [e], path) == if Lookup(es, path).Some? then Lookup(es, path) else if e.path == path
            then Some(e.item) else None
  {
    var all := es + [e];
    if es == [] {
      assert all[1..] == [];
    } else {
      assert all[1..] == es[1..] + [e];
      LookupMore(es[1..], e, path);
    }
  }

  method Listing(m: Baseline) returns (es: seq<Entry>)
    ensures Lists(es, m)
  {
    es := [];
    var todo := m.Keys;
    while todo != {}
      invariant todo <= m.Keys && Sorted(es)
      invariant forall i, p :: 0 <= i < |es| && p in todo ==> Less(es[i].path, p)
      invariant forall path :: Lookup(es, path) == if path in m && path !in todo then Some(m[path]) else None
      decreases |todo|
    {
      var p := Least(todo);
      forall path
        ensures Lookup(es + [Entry(p, m[p])], path) == if path in m && path !in todo - {p} then Some(m[path]) else None
      {
        LookupMore(es, Entry(p, m[p]), path);
      }
      es, todo := es + [Entry(p, m[p])], todo - {p};
    }
  }

  /** Exactly the changes of the path by path comparison, one for each path, in the order of the paths. */
  ghost predicate Reports(changes: seq<Change>, before: Baseline, after: Baseline) {
    && (forall i, j :: 0 <= i < j < |changes| ==> Less(changes[i].path, changes[j].path))
    && (forall c :: c in changes <==> Compare(c.path, Get(before, c.path), Get(after, c.path)) == Some(c))
  }

  method DiffBaselines(before: Baseline, after: Baseline) returns (changes: seq<Change>)
    ensures Reports(changes, before, after)
  {
    var left := Listing(before);
    var right := Listing(after);
    changes := Diff(left, right);
    MergeIsPerPath(left, right);
  }

  lemma Reported(changes: seq<Change>, before: Baseline, after: Baseline, path: string)
    requires Reports(changes, before, after)
    ensures Compare(path, Get(before, path), Get(after, path)).Some? ==> changes != []
  {
    var c := Compare(path, Get(before, path), Get(after, path));
    if c.Some? { assert c.value in changes; }
  }

  /** Nothing is reported exactly when both have the same paths and every item is the same in all that is compared. */
  lemma SilentIffSame(changes: seq<Change>, before: Baseline, after: Baseline)
    requires Reports(changes, before, after)
    ensures changes == [] <==> before.Keys == after.Keys && forall path :: path in before && path in after ==>
              Same(before[path], after[path])
  {
    if changes == [] {
      forall path
        ensures Compare(path, Get(before, path), Get(after, path)).None?
      {
        Reported(changes, before, after, path);
      }
      forall path | path in before && path in after
        ensures Same(before[path], after[path])
      {
        SameIsNoChange(path, before[path], after[path]);
      }
      forall path
        ensures path in before <==> path in after
      {
        assert Compare(path, Get(before, path), Get(after, path)).None?;
      }
    } else {
      var c := changes[0];
      assert c in changes;
      if c.path in before && c.path in after { SameIsNoChange(c.path, before[c.path], after[c.path]); }
    }
  }

  // ---- rescans -------------------------------------------------------------------------------

  datatype Scan = Scan(items: Baseline, truncated: bool, holes: seq<string>)

  predicate Under(path: string, directory: string) {
    |path| > |directory| + 1 && path[..|directory|] == directory && path[|directory|] == '/'
  }

  /** The scan stopped early, or could not enter a directory above the path. */
  predicate Unobserved(scan: Scan, path: string) {
    || scan.truncated
    || exists i ::
         0 <= i < |scan.holes| && scan.holes[i] != "" && scan.holes[i][0] == '/' && Under(path, scan.holes[i])
  }

  /** What the disk looks like as far as it was seen; what was not seen is as it was. */
  function Current(baseline: Baseline, scan: Scan): Baseline {
    map path | path in baseline.Keys + scan.items.Keys && (path in scan.items || Unobserved(scan, path)) ::
      if path in scan.items then scan.items[path] else baseline[path]
  }

  class Monitor {
    var baseline: Baseline

    constructor (baseline: Baseline)
      ensures this.baseline == baseline
    {
      this.baseline := baseline;
    }

    /** The entries that the scan did not reach keep their place. */
    method KeepUnobserved(scan: Scan) returns (current: Baseline)
      ensures current == Current(baseline, scan)
    {
      current := scan.items;
      var todo := baseline.Keys;
      while todo != {}
        invariant todo <= baseline.Keys
        invariant forall path :: path in current <==>
                    path in scan.items || (path in baseline && path !in todo && Unobserved(scan, path))
        invariant forall path :: path in current ==>
                    current[path] == if path in scan.items then scan.items[path] else baseline[path]
        decreases |todo|
      {
        var path :| path in todo;
        todo := todo - {path};
        if path !in scan.items && Unobserved(scan, path) { current := current[path := baseline[path]]; }
      }
    }

    /** `rescan`. */
    method Rescan(scan: Scan) returns (changes: seq<Change>)
      modifies this
      ensures Reports(changes, old(baseline), Current(old(baseline), scan))
      ensures baseline == if changes == [] then old(baseline) else Current(old(baseline), scan)
      ensures forall c :: c in changes && c.kind == Removed ==> c.path !in scan.items && !Unobserved(scan, c.path)
    {
      var current := KeepUnobserved(scan);
      changes := DiffBaselines(baseline, current);
      if changes != [] { baseline := current; }
    }
  }

  /** A second rescan of an unchanged disk reports nothing and changes nothing. */
  method RescanTwice(m: Monitor, scan: Scan) returns (first: seq<Change>, second: seq<Change>)
    modifies m
    ensures second == []
    ensures m.baseline == if first == [] then old(m.baseline) else Current(old(m.baseline), scan)
  {
    first := m.Rescan(scan);
    ghost var between := m.baseline;
    second := m.Rescan(scan);
    if first == [] {
      SilentIffSame(first, between, Current(between, scan));
      SilentIffSame(second, between, Current(between, scan));
    } else {
      assert Current(between, scan) == between;
      SilentIffSame(second, between, between);
    }
  }
}
