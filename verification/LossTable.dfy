/**
 What the loss accounting of the pipeline computes with: reports and their sums, ranges of lost records, the table of
 loss records that were written, and the books kept beside it, which say for each loss record in the log whether it is
 tracked, carried forward or let go.
 */
module LossTable {
  import opened Text

  const MAXIMUM_TRACKED := 8192
  const MAXIMUM_PENDING := 64

  datatype Report = Report(stage: string, count: nat)

  /** A range of records the log no longer has; `last` is 0 for the open-ended loss of a torn tail. */
  datatype WalLoss = WalLoss(first: nat, last: nat, records: nat)

  datatype Entry = Entry(number: nat, report: Report)

  /** What the log holds under a number. */
  datatype Record = Data | Loss(report: Report)

  // ---- sums ----------------------------------------------------------------------------------

  /** The stages a sum is about: one, several or all of them. */
  ghost function Weight(counted: iset<string>, r: Report): nat { if r.stage in counted then r.count else 0 }

  ghost function Total(counted: iset<string>, reports: seq<Report>): nat {
    if reports == [] then 0 else Total(counted, reports[..|reports| - 1]) + Weight(counted, reports[|reports| - 1])
  }

  /** The weight of the loss records with these sequence numbers. */
  ghost function Sum(weights: map<nat, nat>, s: set<nat>): nat
    requires s <= weights.Keys
  {
    if s == {} then 0 else var q :| q in s; weights[q] + Sum(weights, s - {q})
  }

  /** The loss records of a log, each with its weight. */
  ghost function WeightsOf(counted: iset<string>, contents: map<nat, Record>): map<nat, nat> {
    map q | q in contents && contents[q].Loss? :: Weight(counted, contents[q].report)
  }

  lemma WeightsMore(counted: iset<string>, contents: map<nat, Record>, q: nat, record: Record)
    requires q !in contents
    ensures WeightsOf(counted, contents[q := record]) ==
            if record.Loss? then WeightsOf(counted, contents)[q := Weight(counted, record.report)]
                else WeightsOf(counted, contents)
  {
  }

  lemma {:induction false} SumOut(weights: map<nat, nat>, s: set<nat>, x: nat)
    requires s <= weights.Keys && x in s
    ensures Sum(weights, s) == weights[x] + Sum(weights, s - {x})
    decreases s
  {
    var q :| q in s && Sum(weights, s) == weights[q] + Sum(weights, s - {q});
    if q != x {
      SumOut(weights, s - {q}, x);
      SumOut(weights, s - {x}, q);
      assert s - {q} - {x} == s - {x} - {q};
    }
  }

  lemma {:induction false} SumUnion(weights: map<nat, nat>, a: set<nat>, b: set<nat>)
    requires a <= weights.Keys && b <= weights.Keys && a !! b
    ensures Sum(weights, a + b) == Sum(weights, a) + Sum(weights, b)
    decreases a
  {
    if a == {} {
      assert a + b == b;
    } else {
      var x :| x in a;
      SumOut(weights, a, x);
      SumOut(weights, a + b, x);
      assert a + b - {x} == (a - {x}) + b;
      SumUnion(weights, a - {x}, b);
    }
  }

  lemma {:induction false} SumSame(w1: map<nat, nat>, w2: map<nat, nat>, s: set<nat>)
    requires s <= w1.Keys && s <= w2.Keys && forall q :: q in s ==> w1[q] == w2[q]
    ensures Sum(w1, s) == Sum(w2, s)
    decreases s
  {
    if s != {} {
      var x :| x in s;
      SumOut(w1, s, x);
      SumOut(w2, s, x);
      SumSame(w1, w2, s - {x});
    }
  }

  /** A new record adds its weight to any sum that leaves out only older ones. */
  lemma SumNew(weights: map<nat, nat>, q: nat, w: nat, without: set<nat>)
    requires q !in weights && q !in without
    ensures var after := weights[q := w]; Sum(after, after.Keys - without) == Sum(weights, weights.Keys - without) + w
  {
    var after := weights[q := w];
    SumOut(after, after.Keys - without, q);
    assert after.Keys - without - {q} == weights.Keys - without;
    SumSame(after, weights, weights.Keys - without);
  }

  lemma SumCarried(weights: map<nat, nat>, carried: set<nat>, group: set<nat>)
    requires group <= weights.Keys && group !! carried
    ensures Sum(weights, weights.Keys - carried) == Sum(weights, weights.Keys - (carried + group)) + Sum(weights, group)
  {
    assert weights.Keys - carried == (weights.Keys - (carried + group)) + group;
    SumUnion(weights, weights.Keys - (carried + group), group);
  }

  lemma {:induction false} TotalAppend(counted: iset<string>, a: seq<Report>, r: Report)
    ensures Total(counted, a + [r]) == Total(counted, a) + Weight(counted, r)
  {
    assert (a + [r])[..|a + [r]| - 1] == a;
  }

  lemma {:induction false} TotalUpdate(counted: iset<string>, reports: seq<Report>, i: nat, r: Report)
    requires i < |reports|
    ensures Total(counted, reports[i := r]) + Weight(counted, reports[i]) == Total(counted, reports) +
            Weight(counted, r)
  {
    var n := |reports| - 1;
    if i == n {
      assert reports[i := r][..n] == reports[..n];
    } else {
      TotalUpdate(counted, reports[..n], i, r);
      assert reports[i := r][..n] == reports[..n][i := r];
    }
  }

  lemma {:induction false} TotalFront(counted: iset<string>, reports: seq<Report>)
    requires reports != []
    ensures Total(counted, reports) == Weight(counted, reports[0]) + Total(counted, reports[1..])
  {
    var n := |reports| - 1;
    if n > 0 {
      TotalFront(counted, reports[..n]);
      assert reports[..n][1..] == reports[1..][..n - 1];
    }
  }

  /**
   What is counted and what exists. For any set of dropped records and any set of carried ones, what the surviving
   loss records say, plus the dropped ones not said again, equals what the records not carried say, plus what was
   said again although its record survives.
   */
  lemma Reconciled(weights: map<nat, nat>, dropped: set<nat>, carried: set<nat>)
    ensures Sum(weights, weights.Keys - dropped) + Sum(weights, weights.Keys * dropped - carried) ==
            Sum(weights, weights.Keys - carried) + Sum(weights, weights.Keys * carried - dropped)
  {
    var k := weights.Keys;
    SumUnion(weights, k - dropped - carried, k * carried - dropped);
    assert (k - dropped - carried) + (k * carried - dropped) == k - dropped;
    SumUnion(weights, k - dropped - carried, k * dropped - carried);
    assert (k - dropped - carried) + (k * dropped - carried) == k - carried;
  }

  // ---- the log -------------------------------------------------------------------------------

  predicate Covers(l: WalLoss, q: nat) { l.last != 0 && l.first <= q <= l.last }

  predicate CoveredBy(losses: seq<WalLoss>, q: nat) { exists i :: 0 <= i < |losses| && Covers(losses[i], q) }

  /** The number of records in the losses with a known end. */
  function Records(losses: seq<WalLoss>): nat {
    if losses == [] then 0
    else Records(losses[..|losses| - 1]) + if losses[|losses| - 1].last != 0 then losses[|losses| - 1].records else 0
  }

  /** The number of records in the open-ended losses, found when the log was recovered. */
  function Recovered(losses: seq<WalLoss>): nat {
    if losses == [] then 0
    else Recovered(losses[..|losses| - 1]) + if losses[|losses| - 1].last == 0 then losses[|losses| - 1].records else 0
  }

  predicate Within(first: nat, last: nat, q: nat) { first <= q <= last }

  function Range(first: nat, last: nat): set<nat> { set q | first <= q <= last && Within(first, last, q) }

  lemma {:induction false} RangeSize(first: nat, last: nat)
    requires first <= last
    ensures |Range(first, last)| == last - first + 1
    decreases last - first
  {
    if first == last {
      assert Range(first, last) == {first};
    } else {
      RangeSize(first, last - 1);
      assert Range(first, last) == Range(first, last - 1) + {last};
    }
  }

  lemma CoveredByOneMore(losses: seq<WalLoss>, l: WalLoss, q: nat)
    ensures CoveredBy(losses + [l], q) <==> CoveredBy(losses, q) || Covers(l, q)
  {
    if CoveredBy(losses, q) {
      var i :| 0 <= i < |losses| && Covers(losses[i], q);
      assert Covers((losses + [l])[i], q);
    }
    if Covers(l, q) { assert Covers((losses + [l])[|losses|], q); }
  }

  lemma {:induction false} OpenEnded(losses: seq<WalLoss>)
    requires forall i :: 0 <= i < |losses| ==> losses[i].last == 0
    ensures Records(losses) == 0
  {
    if losses != [] { OpenEnded(losses[..|losses| - 1]); }
  }

  // ---- groups ------------------------------------------------------------------------------

  /** The tracked entry at `i` stands for the records in its group. */
  ghost predicate GroupOk(counted: iset<string>, weights: map<nat, nat>, carried: set<nat>, e: Entry, group: set<nat>) {
    e.number in group && group <= weights.Keys && group !! carried && Sum(weights, group) == Weight(counted, e.report)
  }

  ghost predicate GroupsOk(counted: iset<string>, weights: map<nat, nat>, carried: set<nat>, written: seq<Entry>,
                           groups: seq<set<nat>>) {
    |groups| == |written| &&
    (forall i :: 0 <= i < |written| ==> GroupOk(counted, weights, carried, written[i], groups[i])) &&
    (forall i, j :: 0 <= i < j < |groups| ==> groups[i] !! groups[j])
  }

  /** A new loss record is tracked by itself. */
  lemma GroupsGrow(counted: iset<string>, weights: map<nat, nat>, carried: set<nat>, written: seq<Entry>,
                   groups: seq<set<nat>>, q: nat, r: Report)
    requires GroupsOk(counted, weights, carried, written, groups) && q !in weights && q !in carried
    ensures GroupsOk(counted, weights[q := Weight(counted, r)], carried, written + [Entry(q, r)], groups + [{q}])
  {
    var after := weights[q := Weight(counted, r)];
    var ws, gs := written + [Entry(q, r)], groups + [{q}];
    SumOut(after, {q}, q);
    assert {q} - {q} == {};
    forall i | 0 <= i < |ws| ensures GroupOk(counted, after, carried, ws[i], gs[i]) {
      if i < |written| {
        assert GroupOk(counted, weights, carried, written[i], groups[i]);
        SumSame(after, weights, groups[i]);
      }
    }
    forall i, j | 0 <= i < j < |gs| ensures gs[i] !! gs[j] {
      assert GroupOk(counted, weights, carried, written[i], groups[i]);
    }
  }

  function Without<T>(s: seq<T>, i: nat): seq<T>
    requires i < |s|
  {
    s[..i] + s[i + 1..]
  }

  /** Forgetting an entry keeps the others as they are. */
  lemma GroupsShrink(counted: iset<string>, weights: map<nat, nat>, carried: set<nat>, written: seq<Entry>,
                     groups: seq<set<nat>>, i: nat)
    requires GroupsOk(counted, weights, carried, written, groups) && i < |written|
    ensures GroupsOk(counted, weights, carried, Without(written, i), Without(groups, i))
    ensures GroupsOk(counted, weights, carried + groups[i], Without(written, i), Without(groups, i))
  {
    var ws, gs := Without(written, i), Without(groups, i);
    forall k | 0 <= k < |ws|
      ensures GroupOk(counted, weights, carried, ws[k], gs[k]) &&
              GroupOk(counted, weights, carried + groups[i], ws[k], gs[k])
    {
      var at := if k < i then k else k + 1;
      assert ws[k] == written[at] && gs[k] == groups[at];
      assert GroupOk(counted, weights, carried, written[at], groups[at]);
    }
    forall j, k | 0 <= j < k < |gs| ensures gs[j] !! gs[k] {
      assert gs[j] == groups[if j < i then j else j + 1] && gs[k] == groups[if k < i then k else k + 1];
    }
  }

  /** The oldest entry absorbs a later one of its stage. */
  lemma GroupsFold(counted: iset<string>, weights: map<nat, nat>, carried: set<nat>, written: seq<Entry>,
                   groups: seq<set<nat>>, i: nat)
    requires GroupsOk(counted, weights, carried, written, groups) && 0 < i < |written| &&
             written[i].report.stage == written[0].report.stage
    ensures var merged := Entry(written[0].number,
              Report(written[0].report.stage, written[0].report.count + written[i].report.count));
            GroupsOk(counted, weights, carried, Without(written[0 := merged], i),
                Without(groups[0 := groups[0] + groups[i]], i))
  {
    var merged := Entry(written[0].number,
        Report(written[0].report.stage, written[0].report.count + written[i].report.count));
    var ws, gs := Without(written[0 := merged], i), Without(groups[0 := groups[0] + groups[i]], i);
    assert GroupOk(counted, weights, carried, written[0], groups[0]) &&
        GroupOk(counted, weights, carried, written[i], groups[i]);
    SumUnion(weights, groups[0], groups[i]);
    forall k | 0 <= k < |ws| ensures GroupOk(counted, weights, carried, ws[k], gs[k]) {
      if k > 0 {
        var at := if k < i then k else k + 1;
        assert ws[k] == written[at] && gs[k] == groups[at];
        assert GroupOk(counted, weights, carried, written[at], groups[at]);
      }
    }
    forall j, k | 0 <= j < k < |gs| ensures gs[j] !! gs[k] {
      assert gs[k] == groups[if k < i then k else k + 1];
      if j > 0 { assert gs[j] == groups[if j < i then j else j + 1]; }
    }
  }

  ghost predicate InTable(groups: seq<set<nat>>, q: nat) { exists i :: 0 <= i < |groups| && q in groups[i] }

  ghost predicate Singletons(written: seq<Entry>, groups: seq<set<nat>>) {
    |groups| == |written| && forall i :: 0 <= i < |written| ==> groups[i] == {written[i].number}
  }

  lemma InTableGrows(groups: seq<set<nat>>, g: set<nat>, q: nat)
    ensures InTable(groups + [g], q) <==> InTable(groups, q) || q in g
  {
    if InTable(groups, q) {
      var i :| 0 <= i < |groups| && q in groups[i];
      assert q in (groups + [g])[i];
    }
    if q in g { assert q in (groups + [g])[|groups|]; }
  }

  /** The waiting reports with one more; past the bound it is added to the last one. */
  function Deferred(pending: seq<Report>, r: Report): seq<Report> {
    if |pending| < MAXIMUM_PENDING then pending + [r]
    else pending[|pending| - 1 := pending[|pending| - 1].(count := pending[|pending| - 1].count + r.count)]
  }

  /** Adding to the last one puts the count under that one's stage. */
  ghost predicate Mixes(counted: iset<string>, pending: seq<Report>, r: Report) {
    |pending| >= MAXIMUM_PENDING && !(pending[|pending| - 1].stage in counted <==> r.stage in counted)
  }

  /** What a report that waits moves between the stages that are counted and the others. */
  ghost function Shift(counted: iset<string>, pending: seq<Report>, r: Report): int {
    if |pending| < MAXIMUM_PENDING then 0
    else (if pending[|pending| - 1].stage in counted then r.count else 0) - Weight(counted, r)
  }

  /**
   Waiting changes the count of every set of stages by the report and the shift; there is none exactly unless the last
   report is counted otherwise.
   */
  lemma DeferredTotal(counted: iset<string>, pending: seq<Report>, r: Report)
    ensures Total(counted, Deferred(pending, r)) == Total(counted, pending) + Weight(counted, r) +
            Shift(counted, pending, r)
    ensures Shift(counted, pending, r) == 0 <==> !Mixes(counted, pending, r) || r.count == 0
  {
    if |pending| < MAXIMUM_PENDING {
      TotalAppend(counted, pending, r);
    } else {
      var n := |pending| - 1;
      TotalUpdate(counted, pending, n, pending[n].(count := pending[n].count + r.count));
    }
  }

  ghost predicate OncePerStage(bundle: seq<Report>) {
    forall i, j :: 0 <= i < j < |bundle| ==> bundle[i].stage != bundle[j].stage
  }

  /** The place of a stage in a bundle from some place on, or the length. */
  function StageAt(bundle: seq<Report>, stage: string, from: nat): (k: nat)
    requires from <= |bundle|
    ensures from <= k <= |bundle| && (k < |bundle| ==> bundle[k].stage == stage)
    ensures forall i :: from <= i < k ==> bundle[i].stage != stage
    decreases |bundle| - from
  {
    if from == |bundle| || bundle[from].stage == stage then from else StageAt(bundle, stage, from + 1)
  }

  /** A report joins the one of its stage, or is added to the bundle. */
  function Added(bundle: seq<Report>, r: Report): seq<Report> {
    var k := StageAt(bundle, r.stage, 0);
    if k < |bundle| then bundle[k := bundle[k].(count := bundle[k].count + r.count)] else bundle + [r]
  }

  method Bundle(bundle: seq<Report>, r: Report) returns (after: seq<Report>)
    ensures after == Added(bundle, r)
  {
    var i := 0;
    while i < |bundle| && bundle[i].stage != r.stage
      invariant 0 <= i <= |bundle| && StageAt(bundle, r.stage, i) == StageAt(bundle, r.stage, 0)
    {
      i := i + 1;
    }
    if i < |bundle| { return bundle[i := bundle[i].(count := bundle[i].count + r.count)]; }
    return bundle + [r];
  }

  /** That keeps one report for each stage, and adds the weight whatever is counted. */
  lemma AddedIs(counted: iset<string>, bundle: seq<Report>, r: Report)
    ensures Total(counted, Added(bundle, r)) == Total(counted, bundle) + Weight(counted, r)
    ensures OncePerStage(bundle) ==> OncePerStage(Added(bundle, r))
  {
    var k := StageAt(bundle, r.stage, 0);
    if k < |bundle| {
      TotalUpdate(counted, bundle, k, bundle[k].(count := bundle[k].count + r.count));
    } else {
      TotalAppend(counted, bundle, r);
    }
  }

  // ---- the table -----------------------------------------------------------------------------

  /** What the tracked entries say. */
  ghost function EntriesTotal(counted: iset<string>, es: seq<Entry>): nat {
    if es == [] then 0 else EntriesTotal(counted, es[..|es| - 1]) + Weight(counted, es[|es| - 1].report)
  }

  lemma {:induction false} EntriesTotalWithout(counted: iset<string>, es: seq<Entry>, k: nat)
    requires k < |es|
    ensures EntriesTotal(counted, Without(es, k)) + Weight(counted, es[k].report) == EntriesTotal(counted, es)
    decreases |es|
  {
    var n := |es| - 1;
    if k == n {
      assert Without(es, k) == es[..n];
    } else {
      EntriesTotalWithout(counted, es[..n], k);
      assert Without(es, k)[..n - 1] == Without(es[..n], k);
    }
  }

  lemma {:induction false} EntriesTotalUpdate(counted: iset<string>, es: seq<Entry>, k: nat, e: Entry)
    requires k < |es|
    ensures EntriesTotal(counted, es[k := e]) + Weight(counted, es[k].report) == EntriesTotal(counted, es) +
            Weight(counted, e.report)
    decreases |es|
  {
    var n := |es| - 1;
    if k == n {
      assert es[k := e][..n] == es[..n];
    } else {
      EntriesTotalUpdate(counted, es[..n], k, e);
      assert es[k := e][..n] == es[..n][k := e];
    }
  }

  /** The first entry of a stage from some place on, or the length. */
  function NextOfStage(es: seq<Entry>, stage: string, from: nat): (k: nat)
    requires from <= |es|
    ensures from <= k <= |es|
    decreases |es| - from
  {
    if from == |es| || es[from].report.stage == stage then from else NextOfStage(es, stage, from + 1)
  }

  function Merged(a: Entry, b: Entry): Entry {
    Entry(a.number, Report(a.report.stage, a.report.count + b.report.count))
  }

  /** The table that overflowed: its oldest entry absorbs the next of its stage, or goes when there is none. */
  function FoldedTable(es: seq<Entry>): (after: seq<Entry>)
    requires es != []
    ensures |after| == |es| - 1
  {
    var k := NextOfStage(es, es[0].report.stage, 1);
    if k < |es| then Without(es[0 := Merged(es[0], es[k])], k) else Without(es, 0)
  }

  lemma {:induction false} NextIsFirst(es: seq<Entry>, stage: string, from: nat)
    requires from <= |es|
    ensures var k := NextOfStage(es, stage, from);
            (k < |es| ==> es[k].report.stage == stage) && forall i :: from <= i < k ==> es[i].report.stage != stage
    decreases |es| - from
  {
    if from < |es| && es[from].report.stage != stage { NextIsFirst(es, stage, from + 1); }
  }

  /**
   Folding keeps what the table says, for every set of stages, if and only if a later entry has the stage of the oldest
   one, or the oldest one says nothing that is counted. Otherwise exactly what the oldest one said is forgotten.
   */
  lemma FoldKeepsTotal(counted: iset<string>, es: seq<Entry>)
    requires es != []
    ensures var more := exists i :: 0 < i < |es| && es[i].report.stage == es[0].report.stage;
            && EntriesTotal(counted, FoldedTable(es)) ==
                 EntriesTotal(counted, es) - (if more then 0 else Weight(counted, es[0].report))
            && (EntriesTotal(counted, FoldedTable(es)) == EntriesTotal(counted, es) <==>
                 more || Weight(counted, es[0].report) == 0)
  {
    var k := NextOfStage(es, es[0].report.stage, 1);
    NextIsFirst(es, es[0].report.stage, 1);
    if k < |es| {
      var merged := Merged(es[0], es[k]);
      EntriesTotalUpdate(counted, es, 0, merged);
      EntriesTotalWithout(counted, es[0 := merged], k);
    } else {
      EntriesTotalWithout(counted, es, 0);
    }
  }

  /** Every entry is for a record that was tracked before, or for one at or after `next`. */
  ghost predicate NumbersFrom(now: seq<Entry>, was: seq<Entry>, next: nat) {
    forall i :: 0 <= i < |now| ==> now[i].number >= next || HasNumber(was, now[i].number)
  }

  ghost predicate HasNumber(es: seq<Entry>, number: nat) { exists i :: 0 <= i < |es| && es[i].number == number }

  lemma TrackedNumbers(now: seq<Entry>, was: seq<Entry>, next: nat, e: Entry)
    requires NumbersFrom(now, was, next) && e.number >= next
    ensures NumbersFrom(now + [e], was, next) && NumbersFrom(FoldedTable(now + [e]), was, next)
  {
    var es := now + [e];
    assert NumbersFrom(es, was, next);
    var after, k := FoldedTable(es), NextOfStage(es, es[0].report.stage, 1);
    forall i | 0 <= i < |after|
      ensures after[i].number >= next || HasNumber(was, after[i].number)
    {
      var j := if k < |es| then (if i < k then i else i + 1) else i + 1;
      assert after[i].number == es[j].number;
    }
  }

  /** The entries whose records are in none of these losses. */
  function Outside(es: seq<Entry>, losses: seq<WalLoss>): seq<Entry> {
    if es == [] then []
    else Outside(es[..|es| - 1], losses) + if CoveredBy(losses, es[|es| - 1].number) then [] else [es[|es| - 1]]
  }

  /** The others. */
  function Inside(es: seq<Entry>, losses: seq<WalLoss>): seq<Entry> {
    if es == [] then []
    else Inside(es[..|es| - 1], losses) + if CoveredBy(losses, es[|es| - 1].number) then [es[|es| - 1]] else []
  }

  /** The reports of these entries join the bundle. */
  function AddedAll(bundle: seq<Report>, es: seq<Entry>): seq<Report> {
    if es == [] then bundle else Added(AddedAll(bundle, es[..|es| - 1]), es[|es| - 1].report)
  }

  lemma {:induction false} AddedAllIs(counted: iset<string>, bundle: seq<Report>, es: seq<Entry>)
    ensures Total(counted, AddedAll(bundle, es)) == Total(counted, bundle) + EntriesTotal(counted, es)
    ensures OncePerStage(bundle) ==> OncePerStage(AddedAll(bundle, es))
    decreases |es|
  {
    if es != [] {
      AddedAllIs(counted, bundle, es[..|es| - 1]);
      AddedIs(counted, AddedAll(bundle, es[..|es| - 1]), es[|es| - 1].report);
    }
  }

  /** One more loss takes its entries out of what the others left. */
  lemma {:induction false} OneMoreLossLeaves(es: seq<Entry>, losses: seq<WalLoss>, l: WalLoss)
    ensures Outside(es, losses + [l]) == Outside(Outside(es, losses), [l])
    decreases |es|
  {
    if es != [] {
      var e, out := es[|es| - 1], Outside(es[..|es| - 1], losses);
      OneMoreLossLeaves(es[..|es| - 1], losses, l);
      CoveredByOneMore(losses, l, e.number);
      CoveredByOneMore([], l, e.number);
      assert [] + [l] == [l];
      if CoveredBy(losses, e.number) {
        assert out + [] == out;
      } else {
        assert (out + [e])[..|out|] == out;
      }
    }
  }

  /** Each entry is on one side. */
  lemma {:induction false} BothSides(counted: iset<string>, es: seq<Entry>, losses: seq<WalLoss>)
    ensures EntriesTotal(counted, Inside(es, losses)) + EntriesTotal(counted, Outside(es, losses)) ==
            EntriesTotal(counted, es)
    decreases |es|
  {
    if es != [] {
      var e, rest := es[|es| - 1], es[..|es| - 1];
      var i, o := Inside(rest, losses), Outside(rest, losses);
      BothSides(counted, rest, losses);
      EntriesTotalMore(counted, i, e);
      EntriesTotalMore(counted, o, e);
      assert i + [] == i && o + [] == o;
    }
  }

  lemma OneMoreLossTakes(counted: iset<string>, es: seq<Entry>, losses: seq<WalLoss>, l: WalLoss)
    ensures EntriesTotal(counted, Inside(es, losses + [l])) ==
            EntriesTotal(counted, Inside(es, losses)) + EntriesTotal(counted, Inside(Outside(es, losses), [l]))
  {
    OneMoreLossLeaves(es, losses, l);
    BothSides(counted, es, losses + [l]);
    BothSides(counted, es, losses);
    BothSides(counted, Outside(es, losses), [l]);
  }

  lemma EntriesTotalMore(counted: iset<string>, es: seq<Entry>, e: Entry)
    ensures EntriesTotal(counted, es + [e]) == EntriesTotal(counted, es) + Weight(counted, e.report)
  {
    assert (es + [e])[..|es|] == es;
  }

  lemma {:induction false} NoLosses(es: seq<Entry>)
    ensures Outside(es, []) == es && Inside(es, []) == []
  {
    if es != [] {
      NoLosses(es[..|es| - 1]);
      assert es == es[..|es| - 1] + [es[|es| - 1]];
    }
  }

  lemma {:induction false} OutsideIsClear(es: seq<Entry>, losses: seq<WalLoss>)
    ensures forall e :: e in Outside(es, losses) ==> e in es && !CoveredBy(losses, e.number)
  {
    if es != [] { OutsideIsClear(es[..|es| - 1], losses); }
  }

  /** The entries whose records are not yet delivered. */
  function Undelivered(es: seq<Entry>, acknowledged: nat): seq<Entry> {
    if es == [] then []
    else Undelivered(es[..|es| - 1], acknowledged) + if es[|es| - 1].number <= acknowledged then [] else [es[|es| - 1]]
  }

  lemma InTableShrinks(groups: seq<set<nat>>, i: nat, q: nat)
    requires i < |groups| && InTable(groups, q) && q !in groups[i]
    ensures InTable(Without(groups, i), q)
  {
    var k :| 0 <= k < |groups| && q in groups[k];
    assert q in Without(groups, i)[if k < i then k else k - 1];
  }

  lemma NoneCoveredLeft(written: seq<Entry>, groups: seq<set<nat>>, losses: seq<WalLoss>, q: nat)
    requires Singletons(written, groups) && InTable(groups, q)
    requires forall e :: e in written ==> !CoveredBy(losses, e.number)
    ensures !CoveredBy(losses, q)
  {
    var k :| 0 <= k < |groups| && q in groups[k];
    assert written[k] in written && q == written[k].number;
  }

  lemma LessInTable(groups: seq<set<nat>>, k: nat)
    requires k < |groups|
    ensures forall q :: InTable(Without(groups, k), q) ==> InTable(groups, q)
  {
    var less := Without(groups, k);
    forall q | InTable(less, q)
      ensures InTable(groups, q)
    {
      var i :| 0 <= i < |less| && q in less[i];
      assert q in groups[if i < k then i else i + 1];
    }
  }

  lemma GoneFromTable(groups: seq<set<nat>>, k: nat, q: nat)
    requires k < |groups| && q in groups[k] && forall i, j :: 0 <= i < j < |groups| ==> groups[i] !! groups[j]
    ensures !InTable(Without(groups, k), q) && forall x :: InTable(Without(groups, k), x) ==> InTable(groups, x)
  {
    LessInTable(groups, k);
    var less := Without(groups, k);
    forall i | 0 <= i < |less|
      ensures q !in less[i]
    {
      assert less[i] == groups[if i < k then i else i + 1];
    }
  }

  lemma MergedInTable(groups: seq<set<nat>>, k: nat)
    requires 0 < k < |groups|
    ensures forall q :: InTable(Without(groups[0 := groups[0] + groups[k]], k), q) ==> InTable(groups, q)
  {
    var merged := groups[0 := groups[0] + groups[k]];
    LessInTable(merged, k);
    forall q | InTable(merged, q)
      ensures InTable(groups, q)
    {
      var i :| 0 <= i < |merged| && q in merged[i];
      assert q in groups[i] || q in groups[k];
    }
  }

  /** Where a scan stands that has dealt with the first `i` entries: what is left, the place in it, and the bundle. */
  ghost function ScanAt(was: seq<Entry>, i: nat, loss: WalLoss, bundle: seq<Report>): (seq<Entry>, nat, seq<Report>)
    requires i <= |was|
  {
    var kept := Outside(was[..i], [loss]);
    (kept + was[i..], |kept|, AddedAll(bundle, Inside(was[..i], [loss])))
  }

  /** What dealing with one entry does. */
  function Scan(now: seq<Entry>, k: nat, loss: WalLoss, bundle: seq<Report>): (seq<Entry>, nat, seq<Report>)
    requires k < |now|
  {
    if Covers(loss, now[k].number) then (Without(now, k), k, Added(bundle, now[k].report)) else (now, k + 1, bundle)
  }

  lemma ScanStep(now: seq<Entry>, was: seq<Entry>, i: nat, k: nat, loss: WalLoss, before: seq<Report>,
                 bundle: seq<Report>)
    requires i <= |was| && (now, k, before) == ScanAt(was, i, loss, bundle) && k < |now|
    ensures i < |was| && Scan(now, k, loss, before) == ScanAt(was, i + 1, loss, bundle)
  {
    var kept, taken, e := Outside(was[..i], [loss]), Inside(was[..i], [loss]), was[i];
    assert was[..i + 1][..i] == was[..i];
    CoveredByOneMore([], loss, e.number);
    assert [] + [loss] == [loss];
    assert was[i..] == [e] + was[i + 1..];
    assert Without(now, k) == kept + was[i + 1..];
    assert kept + [e] + was[i + 1..] == now;
    assert kept + [] == kept && taken + [] == taken && (taken + [e])[..|taken|] == taken;
  }

  lemma ScanBegins(was: seq<Entry>, bundle: seq<Report>, loss: WalLoss)
    ensures ScanAt(was, 0, loss, bundle) == (was, 0, bundle)
  {
    assert was[..0] == [] && was[0..] == was && [] + was == was;
  }

  lemma ScanEnds(was: seq<Entry>, i: nat, loss: WalLoss, bundle: seq<Report>)
    requires i <= |was| && ScanAt(was, i, loss, bundle).1 == |ScanAt(was, i, loss, bundle).0|
    ensures ScanAt(was, i, loss, bundle).0 == Outside(was, [loss])
    ensures ScanAt(was, i, loss, bundle).2 == AddedAll(bundle, Inside(was, [loss]))
  {
    assert was[i..] == [] && was[..i] == was;
  }

  /** The entries in these losses are taken out and bundled. */
  ghost predicate Gathered(now: seq<Entry>, bundle: seq<Report>, was: seq<Entry>, losses: seq<WalLoss>) {
    now == Outside(was, losses) && forall c: iset<string> :: Total(c, bundle) == EntriesTotal(c, Inside(was, losses))
  }

  lemma GatheredMore(was: seq<Entry>, losses: seq<WalLoss>, i: nat)
    requires i < |losses|
    ensures Outside(was, losses[..i + 1]) == Outside(Outside(was, losses[..i]), [losses[i]])
    ensures forall c: iset<string> :: EntriesTotal(c, Inside(was, losses[..i + 1])) ==
              EntriesTotal(c, Inside(was, losses[..i])) +
                  EntriesTotal(c, Inside(Outside(was, losses[..i]), [losses[i]]))
  {
    assert losses[..i + 1] == losses[..i] + [losses[i]];
    OneMoreLossLeaves(was, losses[..i], losses[i]);
    forall c: iset<string> ensures EntriesTotal(c, Inside(was, losses[..i + 1])) ==
        EntriesTotal(c, Inside(was, losses[..i])) + EntriesTotal(c, Inside(Outside(was, losses[..i]), [losses[i]])) {
      OneMoreLossTakes(c, was, losses[..i], losses[i]);
    }
  }

  /** None of the entries lies in the losses. */
  ghost predicate Clear(es: seq<Entry>, losses: seq<WalLoss>) {
    forall i :: 0 <= i < |es| ==> !CoveredBy(losses, es[i].number)
  }

  lemma {:induction false} ClearStays(es: seq<Entry>, losses: seq<WalLoss>)
    requires Clear(es, losses)
    ensures Outside(es, losses) == es
    decreases |es|
  {
    if es != [] {
      ClearStays(es[..|es| - 1], losses);
      assert es == es[..|es| - 1] + [es[|es| - 1]];
    }
  }

  lemma StillClear(now: seq<Entry>, was: seq<Entry>, next: nat, losses: seq<WalLoss>)
    requires NumbersFrom(now, was, next) && Clear(was, losses) && forall q: nat :: CoveredBy(losses, q) ==> q < next
    ensures Clear(now, losses)
  {
    forall i | 0 <= i < |now|
      ensures !CoveredBy(losses, now[i].number)
    {
      if now[i].number < next { var j :| 0 <= j < |was| && was[j].number == now[i].number; }
    }
  }

  ghost function ForgetAt(was: seq<Entry>, i: nat, acknowledged: nat): (seq<Entry>, nat)
    requires i <= |was|
  {
    (Undelivered(was[..i], acknowledged) + was[i..], |Undelivered(was[..i], acknowledged)|)
  }

  ghost predicate Forgetting(now: seq<Entry>, was: seq<Entry>, i: nat, k: nat, acknowledged: nat) {
    i <= |was| && (now, k) == ForgetAt(was, i, acknowledged)
  }

  lemma ForgetStep(now: seq<Entry>, was: seq<Entry>, i: nat, k: nat, acknowledged: nat)
    requires Forgetting(now, was, i, k, acknowledged) && k < |now|
    ensures i < |was|
    ensures if now[k].number <= acknowledged then Forgetting(Without(now, k), was, i + 1, k, acknowledged)
            else Forgetting(now, was, i + 1, k + 1, acknowledged)
  {
    var kept := Undelivered(was[..i], acknowledged);
    assert was[..i + 1][..i] == was[..i];
    assert was[i..] == [was[i]] + was[i + 1..];
    assert Without(now, k) == kept + was[i + 1..];
    assert kept + [was[i]] + was[i + 1..] == now;
    assert kept + [] == kept;
  }

  lemma ForgetBegins(was: seq<Entry>, acknowledged: nat)
    ensures Forgetting(was, was, 0, 0, acknowledged)
  {
    assert was[..0] == [] && was[0..] == was && [] + was == was;
  }

  lemma ForgetEnds(now: seq<Entry>, was: seq<Entry>, i: nat, k: nat, acknowledged: nat)
    requires Forgetting(now, was, i, k, acknowledged) && k == |now|
    ensures now == Undelivered(was, acknowledged)
  {
    assert was[i..] == [] && was[..i] == was;
  }

  lemma {:induction false} OpenEndedTakesNothing(es: seq<Entry>, l: WalLoss)
    requires l.last == 0
    ensures Outside(es, [l]) == es && Inside(es, [l]) == []
  {
    if es != [] {
      OpenEndedTakesNothing(es[..|es| - 1], l);
      assert !CoveredBy([l], es[|es| - 1].number);
      assert es == es[..|es| - 1] + [es[|es| - 1]];
    }
  }

  lemma {:induction false} OutsideIsShorter(es: seq<Entry>, losses: seq<WalLoss>)
    ensures |Outside(es, losses)| <= |es|
  {
    if es != [] { OutsideIsShorter(es[..|es| - 1], losses); }
  }

  // ---- attempts ------------------------------------------------------------------------------

  /** One record given to the log, the number that was free then, and whether the log took it. */
  datatype Attempt = Attempt(record: Record, number: nat, ok: bool)

  function Used(t: Attempt): nat { if t.ok then t.number + 1 else t.number }

  /** What the log took it holds, under the numbers of the attempts, which go up with every record it took. */
  ghost predicate HistoryOk(history: seq<Attempt>, contents: map<nat, Record>, next: nat) {
    && (forall i :: 0 <= i < |history| && history[i].ok ==>
          history[i].number in contents && contents[history[i].number] == history[i].record)
    && (forall i :: 0 <= i < |history| ==> Used(history[i]) <= next)
    && (forall i, j :: 0 <= i < j < |history| ==> Used(history[i]) <= history[j].number)
  }

  lemma HistoryMore(history: seq<Attempt>, contents: map<nat, Record>, next: nat, record: Record, ok: bool)
    requires HistoryOk(history, contents, next) && next !in contents
    ensures HistoryOk(history + [Attempt(record, next, ok)], if ok then contents[next := record] else contents,
                      if ok then next + 1 else next)
  {
  }

  /** Every attempt after the first `from` was taken. */
  ghost predicate AllTaken(history: seq<Attempt>, from: nat) {
    forall i :: from <= i < |history| ==> history[i].ok
  }

  /** The attempts after the first ones begin with these reports, in order. */
  ghost predicate Attempted(before: seq<Attempt>, after: seq<Attempt>, reports: seq<Report>) {
    && before <= after && |before| + |reports| <= |after|
    && forall i :: |before| <= i < |before| + |reports| ==> after[i].record == Loss(reports[i - |before|])
  }

  lemma AttemptedMore(before: seq<Attempt>, after: seq<Attempt>, reports: seq<Report>, r: Report, t: Attempt)
    requires Attempted(before, after, reports) && |after| == |before| + |reports| && t.record == Loss(r)
    ensures Attempted(before, after + [t], reports + [r])
  {
  }

  // ---- the books -----------------------------------------------------------------------------

  /**
   Kept beside the table: the records each tracked entry stands for, the weight of every loss record in the log, those
   whose report was carried forward, the dropped records whose loss was taken and whose reports are not yet carried, and
   the greatest size the table has had before any folding.
   */
  datatype Books = Books(groups: seq<set<nat>>, weights: map<nat, nat>, carried: set<nat>, owed: set<nat>,
                         mostTracked: nat)

  /**
   What the log shows: the next number, the delivery cursor, the dropped records, those of them whose loss was taken,
   and those the cursor passed before that.
   */
  datatype Log = Log(next: nat, acknowledged: nat, dropped: set<nat>, gone: set<nat>, skipped: set<nat>)

  /** A loss record whose report was not carried and that is no longer tracked. */
  ghost predicate Untracked(b: Books, q: nat) { q in b.weights && q !in b.carried && !InTable(b.groups, q) }

  /** What the loss records not carried say. */
  ghost function Standing(b: Books): nat { Sum(b.weights, b.weights.Keys - b.carried) }

  /**
   Where the loss record `q` is: its report was carried; or it is tracked, and if the loss of `q` was already taken
   it is still owed; or it was delivered.
   */
  ghost predicate Located(q: nat, b: Books, l: Log) {
    || q in b.carried
    || (InTable(b.groups, q) && (q in l.gone ==> q in b.owed))
    || (q <= l.acknowledged && q !in l.dropped)
  }

  ghost predicate AllLocated(b: Books, l: Log) { forall q :: q in b.weights ==> Located(q, b, l) }

  /** The table never overflowed, and the cursor passed no loss record that was dropped before its loss was taken. */
  ghost predicate Tidy(b: Books, l: Log) { b.mostTracked <= MAXIMUM_TRACKED && l.skipped !! b.weights.Keys }

  ghost predicate TableOk(counted: iset<string>, written: seq<Entry>, b: Books, l: Log) {
    match b
    case Books(groups, weights, carried, owed, mostTracked) =>
      && GroupsOk(counted, weights, carried, written, groups)
      && carried <= weights.Keys && owed <= l.gone && |written| <= mostTracked
      && (forall q :: q in weights ==> q < l.next)
      && (mostTracked <= MAXIMUM_TRACKED ==> Singletons(written, groups) && carried <= l.dropped)
      && (Tidy(b, l) ==> AllLocated(b, l))
  }

  /** What the books have let go of they do not take up again. */
  ghost predicate Keeps(b: Books, after: Books) {
    forall q :: Untracked(b, q) ==> Untracked(after, q) && after.weights[q] == b.weights[q]
  }

  ghost function Overtaken(l: Log): set<nat> { set q | q in l.dropped && q !in l.gone && q <= l.acknowledged }

  /** What the log may do by itself: take records, drop some that are not delivered, deliver. */
  ghost predicate Moves(l: Log, after: Log) {
    && l.next <= after.next && l.acknowledged <= after.acknowledged && l.dropped <= after.dropped &&
         l.gone == after.gone
    && (forall q :: q in after.dropped && q !in l.dropped ==> q > l.acknowledged)
    && after.skipped == l.skipped + Overtaken(after)
  }

  lemma LogMoves(counted: iset<string>, written: seq<Entry>, b: Books, l: Log, after: Log)
    requires TableOk(counted, written, b, l) && Moves(l, after)
    ensures TableOk(counted, written, b, after)
  {
    if Tidy(b, after) {
      assert Tidy(b, l);
      forall q | q in b.weights
        ensures Located(q, b, after)
      {
        assert Located(q, b, l);
      }
    }
  }

  // ---- one more record -----------------------------------------------------------------------

  /** The books with one more record, tracked by itself. */
  ghost function Entered(b: Books, q: nat, weight: nat): Books {
    b.(groups := b.groups + [{q}], weights := b.weights[q := weight], mostTracked := Max(b.mostTracked, |b.groups| + 1))
  }

  lemma EnteredOk(counted: iset<string>, written: seq<Entry>, b: Books, l: Log, q: nat, r: Report)
    requires TableOk(counted, written, b, l) && q < l.next && q !in b.weights && q !in l.gone
    ensures var after := Entered(b, q, Weight(counted, r));
            TableOk(counted, written + [Entry(q, r)], after, l) &&
                Standing(after) == Standing(b) + Weight(counted, r) &&
            Keeps(b, after)
  {
    var after := Entered(b, q, Weight(counted, r));
    GroupsGrow(counted, b.weights, b.carried, written, b.groups, q, r);
    SumNew(b.weights, q, Weight(counted, r), b.carried);
    EnteredKeeps(b, q, Weight(counted, r));
    if Tidy(after, l) {
      assert Tidy(b, l);
      EnteredLocated(b, l, q, Weight(counted, r));
    }
  }

  lemma EnteredKeeps(b: Books, q: nat, weight: nat)
    requires q !in b.weights
    ensures Keeps(b, Entered(b, q, weight))
  {
    forall x | Untracked(b, x)
      ensures Untracked(Entered(b, q, weight), x)
    {
      InTableGrows(b.groups, {q}, x);
    }
  }

  lemma EnteredLocated(b: Books, l: Log, q: nat, weight: nat)
    requires AllLocated(b, l) && q !in l.gone
    ensures AllLocated(Entered(b, q, weight), l)
  {
    var after := Entered(b, q, weight);
    forall x | x in after.weights
      ensures Located(x, after, l)
    {
      InTableGrows(b.groups, {q}, x);
      if x != q { assert Located(x, b, l); }
    }
  }

  // ---- folding -------------------------------------------------------------------------------

  /** The groups when the table is folded. */
  ghost function FoldedGroups(written: seq<Entry>, groups: seq<set<nat>>): seq<set<nat>>
    requires written != [] && |groups| == |written|
  {
    var k := NextOfStage(written, written[0].report.stage, 1);
    if k < |written| then Without(groups[0 := groups[0] + groups[k]], k) else Without(groups, 0)
  }

  lemma MergedOk(counted: iset<string>, written: seq<Entry>, b: Books, k: nat)
    requires GroupsOk(counted, b.weights, b.carried, written, b.groups)
    requires written != [] && k == NextOfStage(written, written[0].report.stage, 1) < |written|
    ensures var after := FoldedGroups(written, b.groups);
            GroupsOk(counted, b.weights, b.carried, FoldedTable(written), after) && Keeps(b, b.(groups := after))
  {
    NextIsFirst(written, written[0].report.stage, 1);
    GroupsFold(counted, b.weights, b.carried, written, b.groups, k);
    MergedInTable(b.groups, k);
  }

  lemma ForgottenOk(counted: iset<string>, written: seq<Entry>, b: Books)
    requires GroupsOk(counted, b.weights, b.carried, written, b.groups)
    requires written != [] && NextOfStage(written, written[0].report.stage, 1) == |written|
    ensures var after := FoldedGroups(written, b.groups);
            GroupsOk(counted, b.weights, b.carried, FoldedTable(written), after) && Keeps(b, b.(groups := after))
  {
    GroupsShrink(counted, b.weights, b.carried, written, b.groups, 0);
    LessInTable(b.groups, 0);
  }

  lemma FoldedOk(counted: iset<string>, written: seq<Entry>, b: Books, l: Log)
    requires TableOk(counted, written, b, l) && |written| == MAXIMUM_TRACKED + 1
    ensures var after := b.(groups := FoldedGroups(written, b.groups));
            TableOk(counted, FoldedTable(written), after, l) && Keeps(b, after)
  {
    var k := NextOfStage(written, written[0].report.stage, 1);
    if k < |written| { MergedOk(counted, written, b, k); } else { ForgottenOk(counted, written, b); }
  }

  /** An oldest entry that is alone in its stage is tracked no more. */
  lemma AloneIsLetGo(counted: iset<string>, written: seq<Entry>, b: Books, l: Log)
    requires TableOk(counted, written, b, l) && written != [] &&
             NextOfStage(written, written[0].report.stage, 1) == |written|
    ensures Untracked(b.(groups := FoldedGroups(written, b.groups)), written[0].number)
  {
    assert GroupOk(counted, b.weights, b.carried, written[0], b.groups[0]);
    GoneFromTable(b.groups, 0, written[0].number);
  }

  /** The table with one more record, folded if it overflows. */
  function Tracked(es: seq<Entry>, e: Entry): seq<Entry> {
    if |es| < MAXIMUM_TRACKED then es + [e] else FoldedTable(es + [e])
  }

  ghost function TrackedBooks(written: seq<Entry>, b: Books, e: Entry, weight: nat): Books
    requires |b.groups| == |written|
  {
    var more := Entered(b, e.number, weight);
    if |written| < MAXIMUM_TRACKED then more else more.(groups := FoldedGroups(written + [e], more.groups))
  }

  lemma TrackedOk(counted: iset<string>, written: seq<Entry>, b: Books, l: Log, q: nat, r: Report)
    requires TableOk(counted, written, b, l) && |written| <= MAXIMUM_TRACKED
    requires q < l.next && q !in b.weights && q !in l.gone
    ensures var after := TrackedBooks(written, b, Entry(q, r), Weight(counted, r));
            TableOk(counted, Tracked(written, Entry(q, r)), after, l) && Keeps(b, after) &&
            Standing(after) == Standing(b) + Weight(counted, r)
  {
    EnteredOk(counted, written, b, l, q, r);
    if |written| == MAXIMUM_TRACKED {
      FoldedOk(counted, written + [Entry(q, r)], Entered(b, q, Weight(counted, r)), l);
    }
  }

  /** A full table whose oldest entry is alone in its stage lets it go. */
  lemma FullLetsGo(counted: iset<string>, written: seq<Entry>, b: Books, l: Log, q: nat, r: Report)
    requires TableOk(counted, written, b, l) && |written| == MAXIMUM_TRACKED
    requires q < l.next && q !in b.weights && q !in l.gone
    requires NextOfStage(written + [Entry(q, r)], written[0].report.stage, 1) == MAXIMUM_TRACKED + 1
    ensures Untracked(TrackedBooks(written, b, Entry(q, r), Weight(counted, r)), written[0].number)
  {
    EnteredOk(counted, written, b, l, q, r);
    AloneIsLetGo(counted, written + [Entry(q, r)], Entered(b, q, Weight(counted, r)), l);
  }

  // ---- leaving the table ---------------------------------------------------------------------

  /** The books when the report of the entry at `k` is carried. */
  ghost function CarriedAt(b: Books, k: nat): Books
    requires k < |b.groups|
  {
    b.(groups := Without(b.groups, k), carried := b.carried + b.groups[k])
  }

  lemma CarriedKeeps(b: Books, k: nat)
    requires k < |b.groups|
    ensures Keeps(b, CarriedAt(b, k)) && Keeps(b, b.(groups := Without(b.groups, k)))
  {
    LessInTable(b.groups, k);
    forall q | Untracked(b, q)
      ensures q !in b.groups[k]
    {
      assert !InTable(b.groups, q);
    }
  }

  lemma CarriedOk(counted: iset<string>, written: seq<Entry>, b: Books, l: Log, k: nat)
    requires TableOk(counted, written, b, l) && k < |written|
    requires b.mostTracked <= MAXIMUM_TRACKED ==> written[k].number in l.dropped
    ensures var after := CarriedAt(b, k);
            TableOk(counted, Without(written, k), after, l) && Keeps(b, after) &&
            Standing(after) + Weight(counted, written[k].report) == Standing(b)
  {
    var after := CarriedAt(b, k);
    assert GroupOk(counted, b.weights, b.carried, written[k], b.groups[k]);
    GroupsShrink(counted, b.weights, b.carried, written, b.groups, k);
    SumCarried(b.weights, b.carried, b.groups[k]);
    CarriedKeeps(b, k);
    if Tidy(after, l) {
      forall q | q in b.weights
        ensures Located(q, after, l)
      {
        assert Located(q, b, l);
        if InTable(b.groups, q) && q !in b.groups[k] { InTableShrinks(b.groups, k, q); }
      }
    }
  }

  /** A delivered record leaves the table without a trace. */
  lemma DeliveredOk(counted: iset<string>, written: seq<Entry>, b: Books, l: Log, k: nat)
    requires TableOk(counted, written, b, l) && k < |written| && written[k].number <= l.acknowledged && b.owed == {}
    requires Overtaken(l) <= l.skipped
    ensures var after := b.(groups := Without(b.groups, k));
            TableOk(counted, Without(written, k), after, l) && Keeps(b, after)
  {
    var after, number := b.(groups := Without(b.groups, k)), written[k].number;
    GroupsShrink(counted, b.weights, b.carried, written, b.groups, k);
    CarriedKeeps(b, k);
    if Tidy(after, l) {
      assert GroupOk(counted, b.weights, b.carried, written[k], b.groups[k]);
      assert number in b.weights.Keys && number !in Overtaken(l);
      forall q | q in b.weights
        ensures Located(q, after, l)
      {
        assert Located(q, b, l);
        if InTable(b.groups, q) && q !in b.groups[k] { InTableShrinks(b.groups, k, q); }
      }
    }
  }

  /** The losses are taken: every record in them is owed until its report is carried. */
  lemma TakenOk(counted: iset<string>, written: seq<Entry>, b: Books, l: Log)
    requires TableOk(counted, written, b, l) && b.owed == {} && l.gone <= l.dropped
    ensures TableOk(counted, written, b.(owed := l.dropped - l.gone), l.(gone := l.dropped))
  {
    var after, taken := b.(owed := l.dropped - l.gone), l.(gone := l.dropped);
    if Tidy(after, taken) {
      forall q | q in b.weights
        ensures Located(q, after, taken)
      {
        assert Located(q, b, l);
      }
    }
  }

  /** Nothing is owed once no tracked record lies in the losses. */
  lemma SettledOk(counted: iset<string>, written: seq<Entry>, b: Books, l: Log, losses: seq<WalLoss>)
    requires TableOk(counted, written, b, l) && (forall q :: q in b.owed ==> CoveredBy(losses, q))
    requires forall e :: e in written ==> !CoveredBy(losses, e.number)
    ensures TableOk(counted, written, b.(owed := {}), l)
  {
    var after := b.(owed := {});
    if Tidy(after, l) {
      forall q | q in b.weights
        ensures Located(q, after, l)
      {
        assert Located(q, b, l);
        if InTable(b.groups, q) { NoneCoveredLeft(written, b.groups, losses, q); }
      }
    }
  }
}
