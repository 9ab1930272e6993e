/**
 File integrity: the comparison of two baselines by a merge of two sorted lists, and the monitor that rescans the disk
 against its baseline.
 */
module Fim {
  import opened Text

  /**
   What is known of one path. `facts` stands for what is extracted from the content; it takes no part in comparisons.
   */
  datatype Item = Item(category: string, kind: string, uid: nat, gid: nat, mode: nat, size: nat, mtime: nat,
                       sha256: string, hashStatus: string, target: string, facts: string)

  datatype Kind = Added | Removed | Modified
  datatype Change = Change(path: string, kind: Kind, category: string, before: Option<Item>, after: Option<Item>,
                           fields: seq<string>)

  // ---- one path ------------------------------------------------------------------------------

  predicate ContentDiffers(a: Item, b: Item) {
    a.hashStatus != b.hashStatus || a.sha256 != b.sha256 ||
        (a.hashStatus == "too_large" && (a.size != b.size || a.mtime != b.mtime))
  }

  function When(differs: bool, field: string): seq<string> { if differs then [field] else [] }

  function ChangedFields(a: Item, b: Item): seq<string> {
    When(a.kind != b.kind, "kind") + When(ContentDiffers(a, b), "content") + When(a.mode != b.mode, "mode") +
    When(a.uid != b.uid, "uid") + When(a.gid != b.gid, "gid") + When(a.target != b.target, "target")
  }

  /** `fim_compare`. */
  function Compare(path: string, before: Option<Item>, after: Option<Item>): (c: Option<Change>)
    ensures c.Some? ==> c.value.path == path && (before.Some? || after.Some?)
  {
    if before.None? && after.None? then None
    else if before.None? then Some(Change(path, Added, after.value.category, before, after, []))
    else if after.None? then Some(Change(path, Removed, before.value.category, before, after, []))
    else
      var fields := ChangedFields(before.value, after.value);
      if fields == [] then None else Some(Change(path, Modified, after.value.category, before, after, fields))
  }

  /** Two items that agree in everything that is compared. */
  predicate Same(a: Item, b: Item) {
    a.kind == b.kind && a.mode == b.mode && a.uid == b.uid && a.gid == b.gid && a.target == b.target &&
        !ContentDiffers(a, b)
  }

  lemma SameIsNoChange(path: string, a: Item, b: Item)
    ensures Compare(path, Some(a), Some(b)).None? <==> Same(a, b)
  {
  }

  // ---- order ---------------------------------------------------------------------------------

  /** Lexicographic order of byte strings. */
  predicate Less(a: string, b: string) {
    b != [] && (a == [] || a[0] < b[0] || (a[0] == b[0] && Less(a[1..], b[1..])))
  }

  lemma {:induction false} NotLessItself(a: string)
    ensures !Less(a, a)
  {
    if a != [] { NotLessItself(a[1..]); }
  }

  lemma {:induction false} LessIsTransitive(a: string, b: string, c: string)
    requires Less(a, b) && Less(b, c)
    ensures Less(a, c)
  {
    if a != [] && a[0] == b[0] && b[0] == c[0] { LessIsTransitive(a[1..], b[1..], c[1..]); }
  }

  lemma {:induction false} LessIsTotal(a: string, b: string)
    ensures Less(a, b) || a == b || Less(b, a)
  {
    if a != [] && b != [] && a[0] == b[0] {
      LessIsTotal(a[1..], b[1..]);
      assert a == [a[0]] + a[1..] && b == [b[0]] + b[1..];
    }
  }

  // ---- sorted lists --------------------------------------------------------------------------

  datatype Entry = Entry(path: string, item: Item)

  ghost predicate Sorted(es: seq<Entry>) { forall i, j :: 0 <= i < j < |es| ==> Less(es[i].path, es[j].path) }

  ghost predicate Above(path: string, es: seq<Entry>) { forall i :: 0 <= i < |es| ==> Less(path, es[i].path) }

  function Lookup(es: seq<Entry>, path: string): (r: Option<Item>) {
    if es == [] then None else if es[0].path == path then Some(es[0].item) else Lookup(es[1..], path)
  }

  lemma {:induction false} LookupFinds(es: seq<Entry>, path: string)
    requires Lookup(es, path).Some?
    ensures exists i :: 0 <= i < |es| && es[i].path == path
  {
    if es[0].path != path {
      LookupFinds(es[1..], path);
      var i :| 0 <= i < |es[1..]| && es[1..][i].path == path;
      assert es[i + 1].path == path;
    }
  }

  /** A path below all of a list is not in it. */
  lemma AboveHasNot(path: string, es: seq<Entry>)
    requires Above(path, es)
    ensures Lookup(es, path).None?
  {
    if Lookup(es, path).Some? {
      LookupFinds(es, path);
      NotLessItself(path);
    }
  }

  /** What is found in a list above a path is above it. */
  lemma FoundIsAbove(path: string, es: seq<Entry>, q: string)
    requires Above(path, es) && Lookup(es, q).Some?
    ensures Less(path, q)
  {
    LookupFinds(es, q);
  }

  lemma TailIsAbove(es: seq<Entry>)
    requires Sorted(es) && es != []
    ensures Sorted(es[1..]) && Above(es[0].path, es[1..])
  {
  }

  lemma AboveBoth(p: string, q: string, es: seq<Entry>)
    requires Less(p, q) && Above(q, es)
    ensures Above(p, es)
  {
    forall i | 0 <= i < |es|
      ensures Less(p, es[i].path)
    {
      LessIsTransitive(p, q, es[i].path);
    }
  }

  // ---- the merge -----------------------------------------------------------------------------

  function Cons(c: Option<Change>, rest: seq<Change>): seq<Change> { if c.Some? then [c.value] + rest else rest }

  /** `fim_diff` from two places on. */
  function Merge(left: seq<Entry>, right: seq<Entry>): seq<Change>
    decreases |left| + |right|
  {
    if left == [] && right == [] then []
    else if right == [] || (left != [] && Less(left[0].path, right[0].path)) then
      Cons(Compare(left[0].path, Some(left[0].item), None), Merge(left[1..], right))
    else if left == [] || Less(right[0].path, left[0].path) then
      Cons(Compare(right[0].path, None, Some(right[0].item)), Merge(left, right[1..]))
    else
      Cons(Compare(left[0].path, Some(left[0].item), Some(right[0].item)), Merge(left[1..], right[1..]))
  }

  /** One step of the merge, from two places on. */
  lemma MergeFrom(before: seq<Entry>, after: seq<Entry>, l: nat, r: nat)
    requires l <= |before| && r <= |after| && (l < |before| || r < |after|)
    ensures Merge(before[l..], after[r..]) ==
            if r == |after| || (l < |before| && Less(before[l].path, after[r].path)) then
              Cons(Compare(before[l].path, Some(before[l].item), None), Merge(before[l + 1..], after[r..]))
            else if l == |before| || Less(after[r].path, before[l].path) then
              Cons(Compare(after[r].path, None, Some(after[r].item)), Merge(before[l..], after[r + 1..]))
            else
              Cons(Compare(before[l].path, Some(before[l].item), Some(after[r].item)),
                  Merge(before[l + 1..], after[r + 1..]))
  {
    if l < |before| { assert before[l..][0] == before[l] && before[l..][1..] == before[l + 1..]; }
    if r < |after| { assert after[r..][0] == after[r] && after[r..][1..] == after[r + 1..]; }
  }

  /** The loop. */
  method Diff(before: seq<Entry>, after: seq<Entry>) returns (changes: seq<Change>)
    ensures changes == Merge(before, after)
  {
    changes := [];
    var left, right := 0, 0;
    assert before[0..] == before && after[0..] == after;
    while left < |before| || right < |after|
      invariant left <= |before| && right <= |after| &&
                changes + Merge(before[left..], after[right..]) == Merge(before, after)
      decreases |before| - left + |after| - right
    {
      MergeFrom(before, after, left, right);
      ghost var whole := Merge(before[left..], after[right..]);
      var change: Option<Change>;
      if right == |after| || (left < |before| && Less(before[left].path, after[right].path)) {
        change := Compare(before[left].path, Some(before[left].item), None);
        left := left + 1;
      } else if left == |before| || Less(after[right].path, before[left].path) {
        change := Compare(after[right].path, None, Some(after[right].item));
        right := right + 1;
      } else {
        change := Compare(before[left].path, Some(before[left].item), Some(after[right].item));
        left, right := left + 1, right + 1;
      }
      assert whole == Cons(change, Merge(before[left..], after[right..]));
      if change.Some? {
        Associative(changes, [change.value], Merge(before[left..], after[right..]));
        changes := changes + [change.value];
      }
    }
    assert changes + [] == changes;
  }

  /** What a path by path comparison would report. */
  function ChangeAt(left: seq<Entry>, right: seq<Entry>, path: string): Option<Change> {
    Compare(path, Lookup(left, path), Lookup(right, path))
  }

  /** Exactly the changes of the path by path comparison, one for each path, in the order of the paths. */
  ghost predicate PerPath(changes: seq<Change>, left: seq<Entry>, right: seq<Entry>) {
    && (forall i, j :: 0 <= i < j < |changes| ==> Less(changes[i].path, changes[j].path))
    && (forall c :: c in changes <==> ChangeAt(left, right, c.path) == Some(c))
  }

  lemma {:induction false} MergeIsPerPath(left: seq<Entry>, right: seq<Entry>)
    requires Sorted(left) && Sorted(right)
    ensures PerPath(Merge(left, right), left, right)
    decreases |left| + |right|
  {
    if left == [] && right == [] {
    } else if right == [] || (left != [] && Less(left[0].path, right[0].path)) {
      var p, l := left[0].path, left[1..];
      TailIsAbove(left);
      if right != [] {
        TailIsAbove(right);
        AboveBoth(p, right[0].path, right[1..]);
      }
      assert Above(p, right) by { assert right == [] || right == [right[0]] + right[1..]; }
      MergeIsPerPath(l, right);
      AboveHasNot(p, right);
      OneMore(p, Compare(p, Some(left[0].item), None), l, right, left, right);
    } else if left == [] || Less(right[0].path, left[0].path) {
      var p, r := right[0].path, right[1..];
      TailIsAbove(right);
      if left != [] {
        TailIsAbove(left);
        AboveBoth(p, left[0].path, left[1..]);
      }
      assert Above(p, left) by { assert left == [] || left == [left[0]] + left[1..]; }
      MergeIsPerPath(left, r);
      AboveHasNot(p, left);
      OneMore(p, Compare(p, None, Some(right[0].item)), left, r, left, right);
    } else {
      var p, l, r := left[0].path, left[1..], right[1..];
      LessIsTotal(p, right[0].path);
      TailIsAbove(left);
      TailIsAbove(right);
      MergeIsPerPath(l, r);
      OneMore(p, Compare(p, Some(left[0].item), Some(right[0].item)), l, r, left, right);
    }
  }

  /** A path below all others is compared first. */
  lemma OneMore(p: string, c: Option<Change>, l: seq<Entry>, r: seq<Entry>, left: seq<Entry>, right: seq<Entry>)
    requires Above(p, l) && Above(p, r) && PerPath(Merge(l, r), l, r)
    requires ChangeAt(left, right, p) == c
    requires forall q :: q != p ==> Lookup(left, q) == Lookup(l, q) && Lookup(right, q) == Lookup(r, q)
    ensures PerPath(Cons(c, Merge(l, r)), left, right)
  {
    var rest, all := Merge(l, r), Cons(c, Merge(l, r));
    forall d | d in rest
      ensures Less(p, d.path) && d.path != p
    {
      if Lookup(l, d.path).Some? { FoundIsAbove(p, l, d.path); } else { FoundIsAbove(p, r, d.path); }
      NotLessItself(p);
    }
    AboveHasNot(p, l);
    AboveHasNot(p, r);
    forall d
      ensures d in all <==> ChangeAt(left, right, d.path) == Some(d)
    {
      if d.path == p { assert d !in rest; }
    }
    forall i, j | 0 <= i < j < |all|
      ensures Less(all[i].path, all[j].path)
    {
      if c.Some? && i == 0 { assert all[j] == rest[j - 1]; assert rest[j - 1] in rest; }
    }
  }
}
