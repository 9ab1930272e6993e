/**
 Loss accounting of the pipeline. A loss record is itself a record in the log it reports on, so it can be refused
 or dropped like any other; what it said must then be said again. The sums are over the loss records that the log holds
 or held, by their numbers.
 */
module LossAccounting {
  import opened Text
  import opened LossTable

  // ---- the log -------------------------------------------------------------------------------

  ghost predicate SinkOk(l: Log, untaken: seq<WalLoss>, contents: map<nat, Record>, open: nat, history: seq<Attempt>) {
    match l
    case Log(next, acknowledged, dropped, gone, skipped) =>
      && acknowledged < next && gone <= dropped && (forall q :: q in dropped ==> q < next)
      && (forall i :: 0 <= i < |untaken| && untaken[i].last != 0 ==> 0 < untaken[i].first <= untaken[i].last < next)
      && (forall q :: CoveredBy(untaken, q) <==> q in dropped - gone)
      && |dropped| == |gone| + Records(untaken) && open == Recovered(untaken)
      && (forall q :: q in contents ==> q < next) && HistoryOk(history, contents, next)
      && skipped <= dropped && Overtaken(l) <= skipped
  }

  /** The log as its user sees it: contiguous appends, refusals, dropped ranges and a delivery cursor. */
  class RecordSink {
    var next: nat
    var acknowledged: nat
    var untaken: seq<WalLoss>
    var dropped: set<nat>                 // every record dropped so far
    var gone: set<nat>                    // those of them whose loss was taken
    ghost var skipped: set<nat>           // those the delivery cursor passed before their loss was taken
    ghost var contents: map<nat, Record>  // every record taken so far
    ghost var data: nat                   // the number of data records among them
    ghost var open: nat                   // records in open-ended losses not yet handed out
    ghost var history: seq<Attempt>       // every record given to the log so far

    ghost function View(): Log
      reads this
    {
      Log(next, acknowledged, dropped, gone, skipped)
    }

    ghost predicate Valid()
      reads this
    {
      SinkOk(View(), untaken, contents, open, history)
    }

    /** A log opened at a sequence number, possibly with losses found at recovery. */
    constructor (start: nat, recovered: seq<WalLoss>)
      requires start >= 1 && forall i :: 0 <= i < |recovered| ==> recovered[i].last == 0
      ensures Valid() && View() == Log(start, 0, {}, {}, {}) && untaken == recovered && contents == map[] && data == 0
      ensures history == []
    {
      next, acknowledged, untaken, dropped, gone, skipped := start, 0, recovered, {}, {}, {};
      contents, data, open, history := map[], 0, Recovered(recovered), [];
      OpenEnded(recovered);
    }

    /** The quota or a vanished segment takes unacknowledged records that still exist. */
    method DropRange(first: nat, last: nat)
      requires Valid() && acknowledged < first <= last < next && Range(first, last) !! dropped
      modifies this`untaken, this`dropped
      ensures Valid() && dropped == old(dropped) + Range(first, last)
      ensures untaken == old(untaken) + [WalLoss(first, last, last - first + 1)]
    {
      DropOk(View(), untaken, contents, open, history, first, last);
      untaken := untaken + [WalLoss(first, last, last - first + 1)];
      dropped := dropped + Range(first, last);
    }

    /** The delivery cursor moves. */
    method Acknowledge(cursor: nat)
      requires Valid() && acknowledged <= cursor < next
      modifies this`acknowledged, this`skipped
      ensures Valid() && acknowledged == cursor && skipped == old(skipped) + Overtaken(View())
    {
      acknowledged := cursor;
      skipped := skipped + Overtaken(View());
    }

    /** What other threads and the log itself may do at any time: drop a range, move the delivery cursor. */
    method Interfere()
      requires Valid()
      modifies this`untaken, this`dropped, this`acknowledged, this`skipped
      ensures Valid() && Moves(old(View()), View())
    {
      var first: nat, last: nat, drop: bool := *, *, *;
      if drop && acknowledged < first <= last < next && Range(first, last) !! dropped { DropRange(first, last); }
      var cursor: nat := *;
      if acknowledged <= cursor < next { Acknowledge(cursor); }
      assert skipped == skipped + Overtaken(View());
    }

    /** The record takes the next number. */
    method Accept(ghost record: Record) returns (number: nat)
      requires Valid()
      modifies this`next, this`contents, this`data, this`history
      ensures history == old(history) + [Attempt(record, number, true)]
      ensures Valid() && number == old(next) && next == old(next) + 1 && number !in dropped && number !in old(contents)
      ensures contents == old(contents)[number := record] && data == old(data) + if record.Data? then 1 else 0
    {
      number := next;
      HistoryMore(history, contents, next, record, true);
      next := next + 1;
      contents := contents[number := record];
      history := history + [Attempt(record, number, true)];
      data := data + if record.Data? then 1 else 0;
    }

    /** The record is refused. */
    ghost method Refuse(record: Record)
      requires Valid()
      modifies this`history
      ensures Valid() && history == old(history) + [Attempt(record, next, false)]
    {
      HistoryMore(history, contents, next, record, false);
      history := history + [Attempt(record, next, false)];
    }

    /** `append`: the record takes the next number, or is refused and takes none. */
    method Append(ghost record: Record) returns (ok: bool, number: nat)
      requires Valid()
      modifies this`next, this`untaken, this`dropped, this`acknowledged, this`skipped, this`contents, this`data
      modifies this`history
      ensures history == old(history) + [Attempt(record, number, ok)]
      ensures Valid() && Moves(old(View()), View()) && number !in dropped
      ensures number == old(next) && next == if ok then old(next) + 1 else old(next)
      ensures number !in old(contents) && contents == if ok then old(contents)[number := record] else old(contents)
      ensures data == old(data) + if ok && record.Data? then 1 else 0
    {
      Interfere();
      ok, number := *, next;
      if ok { number := Accept(record); } else { Refuse(record); }
    }

    /** `take_losses`: every loss is handed out once. */
    method TakeLosses() returns (losses: seq<WalLoss>)
      requires Valid()
      modifies this`untaken, this`gone, this`open
      ensures Valid() && losses == old(untaken) && untaken == [] && gone == dropped && gone >= old(gone)
      ensures forall q :: CoveredBy(losses, q) <==> q in dropped - old(gone)
      ensures |gone| == |old(gone)| + Records(losses) && Recovered(losses) == old(open) && open == 0
    {
      losses := untaken;
      untaken, open := [], 0;
      gone := dropped;
    }
  }

  lemma DropOk(l: Log, untaken: seq<WalLoss>, contents: map<nat, Record>, open: nat, history: seq<Attempt>, first: nat,
               last: nat)
    requires SinkOk(l, untaken, contents, open, history) && l.acknowledged < first <= last < l.next
    requires Range(first, last) !! l.dropped
    ensures var after, loss := l.(dropped := l.dropped + Range(first, last)), WalLoss(first, last, last - first + 1);
            SinkOk(after, untaken + [loss], contents, open, history)
  {
    var loss, after := WalLoss(first, last, last - first + 1), l.(dropped := l.dropped + Range(first, last));
    RangeSize(first, last);
    OneMoreLoss(untaken, loss);
    forall q ensures CoveredBy(untaken + [loss], q) <==> q in after.dropped - after.gone {
      CoveredByOneMore(untaken, loss, q);
    }
    assert Overtaken(after) <= Overtaken(l);
  }

  lemma OneMoreLoss(losses: seq<WalLoss>, l: WalLoss)
    ensures Records(losses + [l]) == Records(losses) + if l.last != 0 then l.records else 0
    ensures Recovered(losses + [l]) == Recovered(losses) + if l.last == 0 then l.records else 0
  {
    assert (losses + [l])[..|losses|] == losses;
  }

  /** The log only goes on: its cursor passes only dropped records that are behind it and were not taken before. */
  ghost predicate GoesOn(l: Log, after: Log) {
    && l.dropped <= after.dropped && l.gone <= after.gone && l.next <= after.next &&
         l.acknowledged <= after.acknowledged
    && forall q :: q in after.skipped && q !in l.skipped ==>
         q in after.dropped && q !in l.gone && q <= after.acknowledged
  }

  // ---- steps ---------------------------------------------------------------------------------

  /** What the log, the books and the waiting list are at one time; `size` is that of the table. */
  datatype Snap = Snap(log: Log, open: nat, data: nat, books: Books, size: nat, pending: seq<Report>, shifted: int,
                       history: seq<Attempt>, failed: bool)

  /**
   Only attempts are added, under the numbers free from then on; if all are taken, the last did not fail unless it had.
   */
  ghost predicate Tried(a: Snap, b: Snap) {
    && a.history <= b.history
    && (forall i :: |a.history| <= i < |b.history| ==> b.history[i].number >= a.log.next)
    && (AllTaken(b.history, |a.history|) && b.failed ==> a.failed)
  }

  lemma TakenTwice(a: seq<Attempt>, b: seq<Attempt>, c: seq<Attempt>)
    requires a <= b && b <= c
    ensures AllTaken(c, |a|) <==> AllTaken(b, |a|) && AllTaken(c, |b|)
  {
    assert forall i :: 0 <= i < |b| ==> c[i] == b[i];
  }

  /** What the loss records not carried say, and what the waiting reports say. */
  ghost function Balance(counted: iset<string>, s: Snap): nat { Standing(s.books) + Total(counted, s.pending) }

  /**
   What every step keeps: the log goes on, the table grows by no more than the records appended meanwhile, its greatest
   size likewise, and what it has let go of it does not take up again.
   */
  ghost predicate Onward(a: Snap, b: Snap) {
    match b
    case Snap(log, _, _, books, size, _, _, _, _) =>
      && Tried(a, b)
      && GoesOn(a.log, log) && Keeps(a.books, books) && a.books.mostTracked <= books.mostTracked
      && size <= a.size + (log.next - a.log.next)
      && books.mostTracked <= Max(a.books.mostTracked, a.size + (log.next - a.log.next))
  }

  /** No loss was taken from the log, and no data record written to it. */
  ghost predicate Untouched(a: Snap, b: Snap) { a.log.gone == b.log.gone && a.open == b.open && a.data == b.data }

  /** A count changes its stage only with the waiting list full. */
  ghost predicate ShiftsWhenFull(a: Snap, b: Snap) { a.shifted != b.shifted ==> |b.pending| == MAXIMUM_PENDING }

  /** Reports wait only when the log refuses them. */
  ghost predicate WaitsIfRefused(a: Snap, b: Snap) { AllTaken(b.history, |a.history|) ==> b.pending == a.pending }

  /** Reports of this weight were written or wait, and nothing was taken from the log. */
  ghost predicate Said(counted: iset<string>, a: Snap, b: Snap, amount: nat) {
    && Onward(a, b) && Untouched(a, b) && |a.pending| <= |b.pending| <= MAXIMUM_PENDING && ShiftsWhenFull(a, b)
    && WaitsIfRefused(a, b)
    && Balance(counted, b) == Balance(counted, a) + amount + (b.shifted - a.shifted)
  }

  /**
   If the waiting reports were due they were given to the log, first and in order; and if the log took everything, none
   waits, or, if they were not due, those that waited before.
   */
  ghost predicate Retried(due: bool, a: Snap, b: Snap) {
    && (due ==> Attempted(a.history, b.history, a.pending))
    && (AllTaken(b.history, |a.history|) ==> b.pending == if due then [] else a.pending)
  }

  lemma RetriedStays(due: bool, a: Snap, b: Snap, c: Snap)
    requires Retried(due, a, b) && a.history <= b.history && b.history <= c.history && WaitsIfRefused(b, c)
    ensures Retried(due, a, c)
  {
    TakenTwice(a.history, b.history, c.history);
    assert forall i :: 0 <= i < |b.history| ==> c.history[i] == b.history[i];
  }

  /**
   Each of these reports was given to the log, in order, from that attempt on; and if the log took it, it is there as a
   loss record, under a number from that one on which goes up with each.
   */
  ghost predicate WrittenOrRefused(contents: map<nat, Record>, history: seq<Attempt>, from: nat, next: nat,
                                   reports: seq<Report>) {
    && from + |reports| <= |history|
    && (forall i :: from <= i < from + |reports| ==>
          && history[i].record == Loss(reports[i - from]) && history[i].number >= next
          && (history[i].ok ==>
               history[i].number in contents && contents[history[i].number] == Loss(reports[i - from])))
    && forall i, j :: from <= i < j < from + |reports| ==> Used(history[i]) <= history[j].number
  }

  ghost predicate SameDebts(a: Books, b: Books) { a.owed == b.owed && a.carried == b.carried }

  lemma OnwardTwice(a: Snap, b: Snap, c: Snap)
    requires Onward(a, b) && Onward(b, c)
    ensures Onward(a, c)
  {
    forall q | q in c.log.skipped && q !in a.log.skipped
      ensures q in c.log.dropped && q !in a.log.gone && q <= c.log.acknowledged
    {
      assert q in b.log.skipped || q !in b.log.skipped;
    }
    assert forall q :: Untracked(a.books, q) ==> Untracked(b.books, q);
    TakenTwice(a.history, b.history, c.history);
    assert forall i :: 0 <= i < |b.history| ==> c.history[i] == b.history[i];
  }

  /** A report that was written and entered. */
  lemma EnteredIsSaid(counted: iset<string>, a: Snap, b: Snap, weight: nat, t: Attempt)
    requires b.history == a.history + [t] && t.number == a.log.next && !b.failed
    requires GoesOn(a.log, b.log) && b.log.next == a.log.next + 1 && Untouched(a, b) && Keeps(a.books, b.books)
    requires b.size <= a.size + 1 && b.books.mostTracked == Max(a.books.mostTracked, a.size + 1)
    requires b.pending == a.pending && |a.pending| <= MAXIMUM_PENDING && b.shifted == a.shifted
    requires Standing(b.books) == Standing(a.books) + weight
    ensures Said(counted, a, b, weight)
  {
  }

  /** A report that waits. */
  lemma DeferredIsSaid(counted: iset<string>, a: Snap, b: Snap, weight: nat, t: Attempt)
    requires b.history == a.history + [t] && t.number == a.log.next && !t.ok
    requires GoesOn(a.log, b.log) && b.log.next == a.log.next && Untouched(a, b) && b.books == a.books &&
             b.size == a.size
    requires |a.pending| <= |b.pending| <= MAXIMUM_PENDING && ShiftsWhenFull(a, b) && a.size <= a.books.mostTracked
    requires Total(counted, b.pending) == Total(counted, a.pending) + weight + (b.shifted - a.shifted)
    ensures Said(counted, a, b, weight)
  {
    assert b.history[|a.history|] == t;
  }

  /** A data record that was written or refused. */
  lemma EmittedIsOnward(a: Snap, b: Snap, t: Attempt)
    requires b.history == a.history + [t] && t.number == a.log.next && b.failed == !t.ok && GoesOn(a.log, b.log)
    requires b.books == a.books && b.size == a.size <= a.books.mostTracked
    ensures Onward(a, b)
  {
    assert b.history[|a.history|] == t;
  }

  lemma SaidTwice(counted: iset<string>, a: Snap, b: Snap, c: Snap, first: nat, second: nat)
    requires Said(counted, a, b, first) && Said(counted, b, c, second)
    ensures Said(counted, a, c, first + second)
  {
    OnwardTwice(a, b, c);
    TakenTwice(a.history, b.history, c.history);
  }

  /** What was taken out of the books and said again. */
  lemma CarriedIsSaid(counted: iset<string>, a: Snap, b: Snap, c: Snap, amount: nat)
    requires b == a.(books := b.books, size := b.size) && b.size <= a.size && Keeps(a.books, b.books)
    requires a.books.mostTracked == b.books.mostTracked && Standing(b.books) + amount == Standing(a.books)
    requires Said(counted, b, c, amount)
    ensures Said(counted, a, c, 0)
  {
    assert Onward(a, b);
    OnwardTwice(a, b, c);
  }

  /** The books and the size of the table at one time. */
  datatype Page = Page(books: Books, size: nat)

  /** What gathering keeps; that the bundle has what the books have not; and that an entry leaves with every change. */
  ghost predicate Gathering(counted: iset<string>, a: Page, b: Page, after: seq<Report>, before: seq<Report>) {
    match b
    case Page(books, size) =>
      && Keeps(a.books, books)
      && books.owed == a.books.owed && books.mostTracked == a.books.mostTracked
      && Standing(books) + Total(counted, after) == Standing(a.books) + Total(counted, before)
      && size <= a.size && (size == a.size ==> books == a.books)
  }

  lemma GatheringTwice(counted: iset<string>, a: Page, b: Page, c: Page, after: seq<Report>, before: seq<Report>,
                       first: seq<Report>)
    requires Gathering(counted, a, b, before, first) && Gathering(counted, b, c, after, before)
    ensures Gathering(counted, a, c, after, first)
  {
    assert forall q :: Untracked(a.books, q) ==> Untracked(b.books, q);
  }

  /** The books are right for the table and the log, and about exactly the loss records in it. */
  ghost predicate Agree(counted: iset<string>, written: seq<Entry>, b: Books, l: Log, contents: map<nat, Record>) {
    TableOk(counted, written, b, l) && |written| <= MAXIMUM_TRACKED && b.weights == WeightsOf(counted, contents)
  }

  // ---- the pipeline --------------------------------------------------------------------------

  class Pipeline {
    const sink: RecordSink
    ghost const counted: iset<string>
    var pending: seq<Report>
    var written: seq<Entry>
    var recordsUnwritten: nat
    var unwrittenReported: nat
    var writeFailed: bool
    ghost var books: Books     // kept beside the table
    ghost var reported: nat    // the weight of every loss ever reported
    ghost var others: nat      // that part of it the queue and the providers reported
    ghost var recovered: nat   // records in open-ended losses, found when the log was recovered
    ghost var refused: nat     // the data records the log refused
    ghost var shifted: int     // what full waiting lists moved into the counted stages, less what they moved out

    ghost predicate AllCounted() { forall stage: string :: stage in counted }

    /** Table, books and log agree; the books are about exactly the loss records in the log. */
    ghost predicate Kept()
      reads this, sink
    {
      sink.Valid() && Agree(counted, written, books, sink.View(), sink.contents)
    }

    ghost predicate Core()
      reads this, sink
    {
      && Kept() && |pending| <= MAXIMUM_PENDING && recordsUnwritten == refused && unwrittenReported <= recordsUnwritten
      && (AllCounted() ==> shifted == 0)
    }

    ghost predicate Valid()
      reads this, sink
    {
      && Core() && books.owed == {} && Balance(counted, Now()) == reported + shifted
      && reported == others + if "wal" in counted then unwrittenReported + |sink.gone| + recovered else 0
    }

    ghost function Totals(): Sums
      reads this, sink
    {
      Sums(others, refused, sink.data, recovered, sink.open)
    }

    ghost function Here(): Page
      reads this
    {
      Page(books, |written|)
    }

    ghost function Now(): Snap
      reads this, sink
    {
      Snap(sink.View(), sink.open, sink.data, books, |written|, pending, shifted, sink.history, writeFailed)
    }

    constructor (sink: RecordSink, ghost counted: iset<string>)
      requires sink.Valid() && sink.gone == {} && sink.contents == map[]
      ensures Valid() && this.sink == sink && this.counted == counted && pending == [] && written == []
      ensures books == Books([], map[], {}, {}, 0)
      ensures reported == 0 && shifted == 0 && refused == 0 && unwrittenReported == 0 && others == 0 && recovered == 0
    {
      this.sink, this.counted := sink, counted;
      pending, written, recordsUnwritten, unwrittenReported, writeFailed := [], [], 0, 0, false;
      books := Books([], map[], {}, {}, 0);
      reported, others, recovered, refused, shifted := 0, 0, 0, 0, 0;
    }

    /** The log takes the next record or refuses it, and does whatever else it does meanwhile. */
    method Append(ghost record: Record) returns (ok: bool, number: nat)
      requires Kept()
      modifies sink
      ensures sink.Valid() && TableOk(counted, written, books, sink.View()) && GoesOn(old(sink.View()), sink.View())
      ensures sink.gone == old(sink.gone) && sink.open == old(sink.open)
      ensures sink.history == old(sink.history) + [Attempt(record, number, ok)]
      ensures sink.data == old(sink.data) + if ok && record.Data? then 1 else 0
      ensures number == old(sink.next) && sink.next == old(sink.next) + (if ok then 1 else 0)
      ensures number !in sink.dropped && number !in books.weights
      ensures sink.contents == if ok then old(sink.contents)[number := record] else old(sink.contents)
      ensures WeightsOf(counted, sink.contents) ==
              if ok && record.Loss? then books.weights[number := Weight(counted, record.report)] else books.weights
    {
      ghost var log, before := sink.View(), sink.contents;
      ok, number := sink.Append(record);
      LogMoves(counted, written, books, log, sink.View());
      WeightsMore(counted, before, number, record);
    }

    /** `emit`: one data record takes the next number, or is counted as unwritten. */
    method Emit() returns (ok: bool)
      requires Valid()
      modifies this`recordsUnwritten, this`writeFailed, this`refused, sink
      ensures Valid() && Onward(old(Now()), Now()) && sink.gone == old(sink.gone) && sink.open == old(sink.open) &&
              writeFailed == !ok
      ensures sink.data == old(sink.data) + (if ok then 1 else 0) && refused == old(refused) + (if ok then 0 else 1)
      ensures sink.next == old(sink.next) + (if ok then 1 else 0)
      ensures sink.history == old(sink.history) + [Attempt(Data, old(sink.next), ok)] && pending == old(pending)
      ensures sink.contents == if ok then old(sink.contents)[old(sink.next) := Data] else old(sink.contents)
    {
      var number;
      ok, number := Append(Data);
      writeFailed := !ok;
      if !ok { recordsUnwritten := recordsUnwritten + 1; }
      refused := recordsUnwritten;
      EmittedIsOnward(old(Now()), Now(), Attempt(Data, number, ok));
    }

    /** The oldest entry absorbs the next of its stage, or is forgotten when it is alone in its stage. */
    method Fold()
      requires |written| == MAXIMUM_TRACKED + 1 && |books.groups| == |written|
      modifies this`written, this`books
      ensures written == FoldedTable(old(written))
      ensures books == old(books).(groups := FoldedGroups(old(written), old(books.groups)))
    {
      var next := 1;
      while next < |written| && written[next].report.stage != written[0].report.stage
        invariant 1 <= next <= |written|
        invariant NextOfStage(written, written[0].report.stage, next) ==
                  NextOfStage(written, written[0].report.stage, 1)
      {
        next := next + 1;
      }
      books := books.(groups := FoldedGroups(written, books.groups));
      if next < |written| {
        written := Without(written[0 := Merged(written[0], written[next])], next);
      } else {
        written := Without(written, 0);
      }
    }

    /** The bookkeeping of a loss record the log accepted. */
    method Track(number: nat, report: Report)
      requires |written| <= MAXIMUM_TRACKED && |books.groups| == |written|
      modifies this`written, this`books
      ensures written == Tracked(old(written), Entry(number, report))
      ensures books == TrackedBooks(old(written), old(books), Entry(number, report), Weight(counted, report))
    {
      written := written + [Entry(number, report)];
      books := Entered(books, number, Weight(counted, report));
      if |written| > MAXIMUM_TRACKED { Fold(); }
    }

    /** A full table whose oldest entry is alone in its stage. */
    ghost predicate Overflows(e: Entry)
      reads this
    {
      |written| == MAXIMUM_TRACKED && NextOfStage(written + [e], written[0].report.stage, 1) == MAXIMUM_TRACKED + 1
    }

    /** What the bookkeeping keeps. */
    method Note(number: nat, report: Report)
      requires TableOk(counted, written, books, sink.View()) && |written| <= MAXIMUM_TRACKED
      requires number < sink.next && number !in sink.gone && number !in books.weights
      modifies this`written, this`books
      ensures TableOk(counted, written, books, sink.View()) && |written| <= MAXIMUM_TRACKED &&
              |written| <= |old(written)| + 1
      ensures written == Tracked(old(written), Entry(number, report)) && SameDebts(old(books), books)
      ensures books.weights == old(books.weights)[number := Weight(counted, report)]
      ensures books.mostTracked == Max(old(books.mostTracked), |old(written)| + 1)
      ensures Keeps(old(books), books) && Standing(books) == Standing(old(books)) + Weight(counted, report)
      ensures old(Overflows(Entry(number, report))) ==> Untracked(books, old(written)[0].number)
    {
      TrackedOk(counted, written, books, sink.View(), number, report);
      if Overflows(Entry(number, report)) { FullLetsGo(counted, written, books, sink.View(), number, report); }
      Track(number, report);
    }

    /** A report the log refused waits; past the bound it is added to the last one waiting. */
    method Defer(report: Report)
      requires |pending| <= MAXIMUM_PENDING
      modifies this`pending, this`shifted
      ensures pending == Deferred(old(pending), report) && |old(pending)| <= |pending| <= MAXIMUM_PENDING
      ensures shifted == old(shifted) + Shift(counted, old(pending), report) &&
              (AllCounted() ==> shifted == old(shifted))
      ensures Total(counted, pending) == Total(counted, old(pending)) + Weight(counted, report) +
              (shifted - old(shifted))
      ensures shifted != old(shifted) ==> |pending| == MAXIMUM_PENDING
    {
      DeferredTotal(counted, pending, report);
      shifted := shifted + Shift(counted, pending, report);
      pending := Deferred(pending, report);
    }

    /** `emit_loss`: the report is written and tracked, or waits until the log takes records again. */
    method EmitLoss(report: Report) returns (ok: bool)
      requires Core()
      modifies this`pending, this`written, this`writeFailed, this`books, this`shifted, sink
      ensures Core() && Said(counted, old(Now()), Now(), Weight(counted, report)) && writeFailed == !ok
      ensures SameDebts(old(books), books)
      ensures sink.next == old(sink.next) + (if ok then 1 else 0)
      ensures sink.history == old(sink.history) + [Attempt(Loss(report), old(sink.next), ok)]
      ensures sink.contents == if ok then old(sink.contents)[old(sink.next) := Loss(report)] else old(sink.contents)
      ensures written == if ok then Tracked(old(written), Entry(old(sink.next), report)) else old(written)
      ensures pending == if ok then old(pending) else Deferred(old(pending), report)
      ensures shifted == old(shifted) + if ok then 0 else Shift(counted, old(pending), report)
    {
      ok := WriteLoss(report);
      if ok {
        EnteredIsSaid(counted, old(Now()), Now(), Weight(counted, report), Attempt(Loss(report), old(sink.next), true));
      } else {
        LetWait(report, old(Now()));
      }
    }

    /** The report was refused and waits. */
    method LetWait(report: Report, ghost a: Snap)
      requires Core() && pending == a.pending && shifted == a.shifted && writeFailed && books == a.books &&
               |written| == a.size
      requires GoesOn(a.log, sink.View()) && sink.next == a.log.next && Untouched(a, Now())
      requires sink.history == a.history + [Attempt(Loss(report), a.log.next, false)]
      modifies this`pending, this`shifted
      ensures Core() && Said(counted, a, Now(), Weight(counted, report))
      ensures pending == Deferred(a.pending, report) && shifted == a.shifted + Shift(counted, a.pending, report)
    {
      Defer(report);
      DeferredIsSaid(counted, a, Now(), Weight(counted, report), Attempt(Loss(report), a.log.next, false));
    }

    /** The part of it that the log and the table take. */
    method WriteLoss(report: Report) returns (ok: bool)
      requires Kept()
      modifies this`written, this`books, this`writeFailed, sink
      ensures Kept() && GoesOn(old(sink.View()), sink.View()) && Untouched(old(Now()), Now()) && writeFailed == !ok
      ensures SameDebts(old(books), books) && Keeps(old(books), books) && (!ok ==> books == old(books))
      ensures sink.next == old(sink.next) + (if ok then 1 else 0)
      ensures sink.history == old(sink.history) + [Attempt(Loss(report), old(sink.next), ok)]
      ensures sink.contents == if ok then old(sink.contents)[old(sink.next) := Loss(report)] else old(sink.contents)
      ensures written == if ok then Tracked(old(written), Entry(old(sink.next), report)) else old(written)
      ensures ok ==>
                books.mostTracked == Max(old(books.mostTracked), |old(written)| + 1) && |written| <= |old(written)| + 1
      ensures Standing(books) == Standing(old(books)) + if ok then Weight(counted, report) else 0
    {
      var number;
      ok, number := Append(Loss(report));
      writeFailed := !ok;
      if ok { Note(number, report); }
    }

    /** The same; no entry is for a record older than those tracked before. */
    method Say(report: Report, ghost was: seq<Entry>, ghost next: nat)
      requires Core() && NumbersFrom(written, was, next) && next <= sink.next
      modifies this`pending, this`written, this`writeFailed, this`books, this`shifted, sink
      ensures Core() && Said(counted, old(Now()), Now(), Weight(counted, report)) && SameDebts(old(books), books)
      ensures NumbersFrom(written, was, next) && next <= sink.next
    {
      TrackedNumbers(written, was, next, Entry(sink.next, report));
      var ok := EmitLoss(report);
    }

    /** The first `i` reports of a list were written or wait. */
    ghost predicate SaidUpTo(reports: seq<Report>, i: nat, a: Snap)
      requires i <= |reports|
      reads this, sink
    {
      && Said(counted, a, Now(), Total(counted, reports[..i])) && SameDebts(a.books, books)
      && Attempted(a.history, sink.history, reports[..i]) && |sink.history| == |a.history| + i
    }

    /** Writes each report of a list, or lets it wait. */
    method EmitAll(reports: seq<Report>)
      requires Core()
      modifies this`pending, this`written, this`writeFailed, this`books, this`shifted, sink
      ensures Core() && Said(counted, old(Now()), Now(), Total(counted, reports)) && SameDebts(old(books), books)
      ensures Attempted(old(sink.history), sink.history, reports)
    {
      for i := 0 to |reports|
        invariant Core() && SaidUpTo(reports, i, old(Now()))
      {
        EmitNext(reports, i, old(Now()));
      }
      assert reports[..|reports|] == reports;
    }

    /** What those who emit a loss rely on. */
    method EmitOne(report: Report) returns (ok: bool)
      requires Core()
      modifies this`pending, this`written, this`writeFailed, this`books, this`shifted, sink
      ensures Core() && Said(counted, old(Now()), Now(), Weight(counted, report)) && SameDebts(old(books), books)
      ensures sink.history == old(sink.history) + [Attempt(Loss(report), old(sink.next), ok)]
    {
      ok := EmitLoss(report);
    }

    method EmitNext(reports: seq<Report>, i: nat, ghost a: Snap)
      requires Core() && i < |reports| && SaidUpTo(reports, i, a)
      modifies this`pending, this`written, this`writeFailed, this`books, this`shifted, sink
      ensures Core() && SaidUpTo(reports, i + 1, a)
    {
      ghost var number := sink.next;
      var ok := EmitOne(reports[i]);
      assert reports[..i + 1] == reports[..i] + [reports[i]];
      TotalAppend(counted, reports[..i], reports[i]);
      SaidTwice(counted, a, old(Now()), Now(), Total(counted, reports[..i]), Weight(counted, reports[i]));
      AttemptedMore(a.history, old(sink.history), reports[..i], reports[i], Attempt(Loss(reports[i]), number, ok));
    }

    // ---- carrying dropped reports ----

    /** The entry at `k` leaves the table; its report is carried. */
    method TakeOut(k: nat) returns (report: Report)
      requires Kept() && k < |written| && (books.mostTracked <= MAXIMUM_TRACKED ==> written[k].number in sink.dropped)
      modifies this`written, this`books
      ensures Kept() && report == old(written)[k].report && written == Without(old(written), k)
      ensures books == CarriedAt(old(books), k) && Keeps(old(books), books)
      ensures Standing(books) + Weight(counted, report) == Standing(old(books))
    {
      report := written[k].report;
      CarriedOk(counted, written, books, sink.View(), k);
      written := Without(written, k);
      books := CarriedAt(books, k);
    }

    /** The inner loop of `carry_dropped_loss_reports`: the entries of one dropped range leave, summed by stage. */
    method GatherRange(loss: WalLoss, bundle: seq<Report>) returns (after: seq<Report>)
      requires Kept() && loss.last != 0 && forall q :: Covers(loss, q) ==> q in sink.dropped
      modifies this`written, this`books
      ensures Kept() && Gathering(counted, old(Here()), Here(), after, bundle)
      ensures written == Outside(old(written), [loss]) && after == AddedAll(bundle, Inside(old(written), [loss]))
    {
      after := bundle;
      var k := 0;
      ghost var i, was := 0, written;
      ScanBegins(was, bundle, loss);
      while k < |written|
        invariant 0 <= i <= |was| && 0 <= k <= |written| && (written, k, after) == ScanAt(was, i, loss, bundle)
        invariant Kept() && Gathering(counted, old(Here()), Here(), after, bundle)
        decreases |written| - k
      {
        ghost var here, before := Here(), after;
        ScanStep(written, was, i, k, loss, after, bundle);
        k, after := GatherEntry(loss, after, k);
        GatheringTwice(counted, old(Here()), here, Here(), after, before, bundle);
        i := i + 1;
      }
      ScanEnds(was, i, loss, bundle);
    }

    /** One entry: it is taken out and bundled if its record lies in the range, and passed over if not. */
    method GatherEntry(loss: WalLoss, before: seq<Report>, k: nat) returns (next: nat, after: seq<Report>)
      requires Kept() && loss.last != 0 && k < |written| && forall q :: Covers(loss, q) ==> q in sink.dropped
      modifies this`written, this`books
      ensures Kept() && Gathering(counted, old(Here()), Here(), after, before)
      ensures (written, next, after) == Scan(old(written), k, loss, before)
      ensures next <= |written| && |written| - next < |old(written)| - k
    {
      next, after := k, before;
      if loss.first <= written[k].number <= loss.last {
        var report := TakeOut(k);
        after := Bundle(before, report);
        AddedIs(counted, before, report);
      } else {
        next := k + 1;
      }
    }

    /** One of the losses. */
    method GatherLoss(losses: seq<WalLoss>, i: nat, before: seq<Report>, ghost was: seq<Entry>)
      returns (bundle: seq<Report>)
      requires Kept() && OncePerStage(before) && i < |losses| && Gathered(written, before, was, losses[..i])
      requires forall q :: CoveredBy(losses, q) ==> q in sink.dropped
      modifies this`written, this`books
      ensures Kept() && Gathering(counted, old(Here()), Here(), bundle, before) && OncePerStage(bundle)
      ensures Gathered(written, bundle, was, losses[..i + 1])
    {
      bundle := before;
      GatheredMore(was, losses, i);
      if losses[i].last != 0 {
        assert forall q :: Covers(losses[i], q) ==> CoveredBy(losses, q);
        ghost var taken := Inside(written, [losses[i]]);
        bundle := GatherRange(losses[i], before);
        forall c: iset<string> ensures Total(c, bundle) == Total(c, before) + EntriesTotal(c, taken) {
          AddedAllIs(c, before, taken);
        }
        AddedAllIs(counted, before, taken);
      } else {
        OpenEndedTakesNothing(Outside(was, losses[..i]), losses[i]);
      }
    }

    /** The outer loop: every dropped range with a known end. */
    method GatherAll(losses: seq<WalLoss>) returns (bundle: seq<Report>)
      requires Kept() && forall q :: CoveredBy(losses, q) ==> q in sink.dropped
      modifies this`written, this`books
      ensures Kept() && Gathering(counted, old(Here()), Here(), bundle, []) && OncePerStage(bundle)
      ensures Gathered(written, bundle, old(written), losses)
    {
      bundle := [];
      ghost var was := written;
      NoLosses(was);
      assert losses[..0] == [];
      for i := 0 to |losses|
        invariant Kept() && Gathering(counted, old(Here()), Here(), bundle, []) && OncePerStage(bundle)
        invariant Gathered(written, bundle, was, losses[..i])
      {
        ghost var before, here := bundle, Here();
        bundle := GatherLoss(losses, i, bundle, was);
        GatheringTwice(counted, old(Here()), here, Here(), bundle, before, []);
      }
      assert losses[..|losses|] == losses;
    }

    /** All of it: exactly the entries in the losses leave, and nothing is owed any more. */
    method Gather(losses: seq<WalLoss>) returns (bundle: seq<Report>)
      requires Kept() && forall q :: CoveredBy(losses, q) ==> q in sink.dropped
      requires forall q :: q in books.owed ==> CoveredBy(losses, q)
      modifies this`written, this`books
      ensures Kept() && books.owed == {} && books.mostTracked == old(books.mostTracked) && Keeps(old(books), books)
      ensures Standing(books) + Total(counted, bundle) == Standing(old(books))
      ensures written == Outside(old(written), losses) && OncePerStage(bundle)
      ensures forall c: iset<string> :: Total(c, bundle) == EntriesTotal(c, Inside(old(written), losses))
      ensures |written| == |old(written)| ==> books.carried == old(books.carried)
    {
      bundle := GatherAll(losses);
      OutsideIsClear(old(written), losses);
      SettledOk(counted, written, books, sink.View(), losses);
      books := books.(owed := {});
    }

    /** `carry_dropped_loss_reports`: what the dropped loss records said is written again, one record per stage. */
    method CarryDropped(losses: seq<WalLoss>)
      requires Core() && forall q :: CoveredBy(losses, q) ==> q in sink.dropped
      requires forall q :: q in books.owed ==> CoveredBy(losses, q)
      modifies this`pending, this`written, this`writeFailed, this`books, this`shifted, sink
      ensures Core() && books.owed == {} && Said(counted, old(Now()), Now(), 0)
      ensures Clear(old(written), losses) ==> books.carried == old(books.carried)
    {
      OutsideIsShorter(written, losses);
      if Clear(written, losses) { ClearStays(written, losses); }
      var bundle := Gather(losses);
      ghost var here := Now();
      EmitAll(bundle);
      CarriedIsSaid(counted, old(Now()), here, Now(), Total(counted, bundle));
    }

    // ---- collecting ----

    /** Delivered loss records leave the table, and no others. */
    method ForgetDelivered()
      requires Kept() && books.owed == {}
      modifies this`written, this`books
      ensures Kept() && written == Undelivered(old(written), sink.acknowledged) && Keeps(old(books), books)
      ensures books == old(books).(groups := books.groups)
    {
      var k := 0;
      ghost var i, was := 0, written;
      ForgetBegins(was, sink.acknowledged);
      while k < |written|
        invariant 0 <= i && 0 <= k <= |written| && Forgetting(written, was, i, k, sink.acknowledged) && Kept()
        invariant Keeps(old(books), books) && books == old(books).(groups := books.groups)
        decreases |written| - k
      {
        k := ForgetNext(k, was, i);
        i := i + 1;
      }
      ForgetEnds(written, was, i, k, sink.acknowledged);
    }

    /** One entry: it goes if its record is delivered, and is passed over if not. */
    method ForgetNext(k: nat, ghost was: seq<Entry>, ghost i: nat) returns (next: nat)
      requires Kept() && books.owed == {} && k < |written| && Forgetting(written, was, i, k, sink.acknowledged)
      modifies this`written, this`books
      ensures Kept() && Keeps(old(books), books) && books == old(books).(groups := books.groups)
      ensures Forgetting(written, was, i + 1, next, sink.acknowledged)
      ensures next <= |written| && |written| - next < |old(written)| - k
    {
      ForgetStep(written, was, i, k, sink.acknowledged);
      if written[k].number <= sink.acknowledged {
        DeliveredOk(counted, written, books, sink.View(), k);
        written := Without(written, k);
        books := books.(groups := Without(books.groups, k));
        return k;
      }
      return k + 1;
    }

    /** The reports that waited are tried again. */
    method RetryWaiting()
      requires Valid()
      modifies this`pending, this`written, this`writeFailed, this`books, this`shifted, sink
      ensures Valid() && Onward(old(Now()), Now()) && Untouched(old(Now()), Now()) && ShiftsWhenFull(old(Now()), Now())
      ensures Attempted(old(sink.history), sink.history, old(pending))
      ensures AllTaken(sink.history, |old(sink.history)|) ==> pending == []
    {
      var deferred := pending;
      pending := [];
      EmitAll(deferred);
    }

    /** The records refused since the last report of them. */
    method ReportUnwritten()
      requires Valid()
      modifies this`pending, this`written, this`writeFailed, this`books, this`shifted, this`unwrittenReported,
               this`reported, sink
      ensures Valid() && Onward(old(Now()), Now()) && Untouched(old(Now()), Now()) && |old(pending)| <= |pending| &&
              ShiftsWhenFull(old(Now()), Now())
      ensures WaitsIfRefused(old(Now()), Now())
      ensures unwrittenReported == recordsUnwritten == refused
    {
      if recordsUnwritten > unwrittenReported {
        var report := Report("wal", recordsUnwritten - unwrittenReported);
        var ok := EmitLoss(report);
        unwrittenReported := recordsUnwritten;
        reported := reported + Weight(counted, report);
      }
    }

    /** The losses of the queue and of the providers. */
    method ReportFound(found: seq<Report>)
      requires Valid()
      modifies this`pending, this`written, this`writeFailed, this`books, this`shifted, this`reported, this`others, sink
      ensures Valid() && Onward(old(Now()), Now()) && Untouched(old(Now()), Now()) && |old(pending)| <= |pending| &&
              ShiftsWhenFull(old(Now()), Now())
      ensures WaitsIfRefused(old(Now()), Now())
      ensures others == old(others) + Total(counted, found)
    {
      EmitAll(found);
      reported := reported + Total(counted, found);
      others := others + Total(counted, found);
    }

    /** `take_losses`: every record in the taken ranges is owed until its report is carried. */
    method TakeDropped() returns (losses: seq<WalLoss>)
      requires Kept() && books.owed == {}
      modifies this`books, sink
      ensures Kept() && books == old(books).(owed := books.owed) &&
              sink.View() == old(sink.View()).(gone := sink.dropped)
      ensures sink.history == old(sink.history)
      ensures losses == old(sink.untaken) && old(sink.gone) <= sink.gone
      ensures forall q: nat :: CoveredBy(losses, q) ==> q in sink.dropped && q < sink.next
      ensures forall q :: q in books.owed ==> CoveredBy(losses, q)
      ensures |sink.gone| == |old(sink.gone)| + Records(losses)
      ensures Recovered(losses) == old(sink.open) && sink.open == 0 && sink.data == old(sink.data)
    {
      TakenOk(counted, written, books, sink.View());
      losses := sink.TakeLosses();
      books := books.(owed := sink.dropped - old(sink.gone));
    }

    /** The weight of the losses of the log itself. */
    ghost function OfLosses(losses: seq<WalLoss>): nat {
      if "wal" in counted then Records(losses) + Recovered(losses) else 0
    }

    /** One record for each loss of the log. */
    method EmitWal(losses: seq<WalLoss>)
      requires Core()
      modifies this`pending, this`written, this`writeFailed, this`books, this`shifted, sink
      ensures Core() && Said(counted, old(Now()), Now(), OfLosses(losses)) && SameDebts(old(books), books)
      ensures NumbersFrom(written, old(written), old(sink.next))
    {
      for i := 0 to |losses|
        invariant Core() && Said(counted, old(Now()), Now(), OfLosses(losses[..i])) && SameDebts(old(books), books)
        invariant NumbersFrom(written, old(written), old(sink.next))
      {
        assert losses[..i + 1][..i] == losses[..i];
        var report := Report("wal", losses[i].records);
        ghost var here := Now();
        Say(report, old(written), old(sink.next));
        SaidTwice(counted, old(Now()), here, Now(), OfLosses(losses[..i]), Weight(counted, report));
      }
      assert losses[..|losses|] == losses;
    }

    /** One record for each loss of the log, then what the lost loss records said. */
    method SayAgain(losses: seq<WalLoss>)
      requires Core() && forall q: nat :: CoveredBy(losses, q) ==> q in sink.dropped && q < sink.next
      requires forall q :: q in books.owed ==> CoveredBy(losses, q)
      modifies this`pending, this`written, this`writeFailed, this`books, this`shifted, sink
      ensures Core() && books.owed == {} && Said(counted, old(Now()), Now(), OfLosses(losses))
      ensures Clear(old(written), losses) ==> books.carried == old(books.carried)
    {
      ghost var was, next := written, sink.next;
      EmitWal(losses);
      ghost var here := Now();
      if Clear(was, losses) { StillClear(written, was, next, losses); }
      CarryDropped(losses);
      SaidTwice(counted, old(Now()), here, Now(), OfLosses(losses), 0);
    }

    /** The losses of the log are taken, reported, and what was lost with them is said again. */
    method TakeAndSay() returns (losses: seq<WalLoss>)
      requires Core() && books.owed == {}
      modifies this`pending, this`written, this`writeFailed, this`books, this`shifted, sink
      ensures Core() && books.owed == {} && Onward(old(Now()), Now()) && ShiftsWhenFull(old(Now()), Now())
      ensures WaitsIfRefused(old(Now()), Now())
      ensures |old(pending)| <= |pending| && losses == old(sink.untaken) && sink.gone == old(sink.dropped) &&
              sink.data == old(sink.data)
      ensures |sink.gone| == |old(sink.gone)| + Records(losses) && Recovered(losses) == old(sink.open) && sink.open == 0
      ensures Clear(old(written), losses) ==> books.carried == old(books.carried)
      ensures Balance(counted, Now()) == Balance(counted, old(Now())) + OfLosses(losses) + (shifted - old(shifted))
    {
      losses := TakeDropped();
      ghost var here := Now();
      SayAgain(losses);
      TakenIsOnward(old(Now()), here);
      OnwardTwice(old(Now()), here, Now());
    }

    /** The losses of the log itself, and what was lost with them. */
    method ReportDropped()
      requires Valid()
      modifies this`pending, this`written, this`writeFailed, this`books, this`shifted, this`reported,
               this`recovered, sink
      ensures Valid() && Onward(old(Now()), Now()) && ShiftsWhenFull(old(Now()), Now())
      ensures WaitsIfRefused(old(Now()), Now())
      ensures |old(pending)| <= |pending| && sink.gone == old(sink.dropped) && sink.data == old(sink.data)
      ensures recovered == old(recovered) + old(sink.open) && sink.open == 0
      ensures Clear(old(written), old(sink.untaken)) ==> books.carried == old(books.carried)
    {
      ghost var losses := TakeAndSay();
      recovered := recovered + Recovered(losses);
      reported := reported + OfLosses(losses);
    }

    /** Other threads move the delivery cursor and the log drops ranges between any two steps. */
    method Meanwhile()
      requires Valid()
      modifies sink
      ensures Valid() && Onward(old(Now()), Now()) && Untouched(old(Now()), Now()) && sink.next == old(sink.next)
      ensures sink.history == old(sink.history)
    {
      ghost var log := sink.View();
      sink.Interfere();
      LogMoves(counted, written, books, log, sink.View());
    }

    /** The delivered ones leave the table while time goes on. */
    method ForgetThenWait()
      requires Valid()
      modifies this`written, this`books, sink
      ensures Valid() && Onward(old(Now()), Now()) && Untouched(old(Now()), Now())
      ensures sink.history == old(sink.history)
    {
      UndeliveredIsShorter(written, sink.acknowledged);
      ForgetDelivered();
      ghost var here := Now();
      ForgottenIsOnward(old(Now()), here);
      Meanwhile();
      OnwardTwice(old(Now()), here, Now());
    }

    method ForgetAndReport()
      requires Valid()
      modifies this`pending, this`written, this`writeFailed, this`books, this`shifted, this`reported,
               this`recovered, sink
      ensures Valid() && Onward(old(Now()), Now()) && ShiftsWhenFull(old(Now()), Now())
      ensures WaitsIfRefused(old(Now()), Now())
      ensures |old(pending)| <= |pending| && old(sink.dropped) <= sink.gone && sink.data == old(sink.data)
      ensures recovered == old(recovered) + old(sink.open) && sink.open == 0
    {
      ForgetThenWait();
      ghost var here := Now();
      ReportDropped();
      OnwardTwice(old(Now()), here, Now());
    }

    /** The waiting reports are tried when the log took the last record, or when a retry is due. */
    method RetryWhenDue(retryDue: bool)
      requires Valid()
      modifies this`pending, this`written, this`writeFailed, this`books, this`shifted, this`unwrittenReported,
               this`reported, sink
      ensures Valid() && Onward(old(Now()), Now()) && Untouched(old(Now()), Now()) && ShiftsWhenFull(old(Now()), Now())
      ensures retryDue || !old(writeFailed) ==> unwrittenReported == refused
      ensures Retried(retryDue || !old(writeFailed), old(Now()), Now())
    {
      if !writeFailed || retryDue {
        RetryWaiting();
        ghost var here := Now();
        ReportUnwritten();
        OnwardTwice(old(Now()), here, Now());
        RetriedStays(true, old(Now()), here, Now());
      }
    }

    method RetryAndReport(retryDue: bool, found: seq<Report>)
      requires Valid()
      modifies this`pending, this`written, this`writeFailed, this`books, this`shifted, this`unwrittenReported,
               this`reported, this`others, sink
      ensures Valid() && Onward(old(Now()), Now()) && Untouched(old(Now()), Now()) && ShiftsWhenFull(old(Now()), Now())
      ensures retryDue || !old(writeFailed) ==> unwrittenReported == refused
      ensures Retried(retryDue || !old(writeFailed), old(Now()), Now())
      ensures others == old(others) + Total(counted, found)
    {
      RetryWhenDue(retryDue);
      ghost var here := Now();
      ReportFound(found);
      OnwardTwice(old(Now()), here, Now());
      RetriedStays(retryDue || !old(writeFailed), old(Now()), here, Now());
    }

    /** `collect_losses`: all losses known are reported, and everything the log had dropped by then is taken. */
    method CollectLosses(retryDue: bool, found: seq<Report>)
      requires Valid() && forall i :: 0 <= i < |found| ==> found[i].stage != "wal"
      modifies this`pending, this`written, this`writeFailed, this`books, this`shifted, this`unwrittenReported,
               this`reported, this`others, this`recovered, sink
      ensures Valid() && Onward(old(Now()), Now()) && ShiftsWhenFull(old(Now()), Now())
      ensures retryDue || !old(writeFailed) ==> unwrittenReported == refused
      ensures Retried(retryDue || !old(writeFailed), old(Now()), Now())
      ensures retryDue || !old(writeFailed) ==>
                WrittenOrRefused(sink.contents, sink.history, |old(sink.history)|, old(sink.next), old(pending))
      ensures others == old(others) + Total(counted, found) && sink.data == old(sink.data)
      ensures recovered == old(recovered) + old(sink.open) && sink.open == 0 && old(sink.dropped) <= sink.gone
    {
      RetryAndReport(retryDue, found);
      ghost var here := Now();
      ForgetAndReport();
      OnwardTwice(old(Now()), here, Now());
      RetriedStays(retryDue || !old(writeFailed), old(Now()), here, Now());
    }

    // ---- what it comes to ----

    /**
     Loss conservation, in every state between two calls, whatever happened. What the loss records in the log that still
     exist or were delivered say, what the dropped ones not said again said, and what waits, together equal every loss
     ever reported, plus what full waiting lists moved into the counted stages, plus what was said again although its
     record survives; and the "wal" part of it counts each refused record that was reported and each dropped record that
     was taken exactly once. With all stages counted nothing is moved.
     */
    lemma Conservation()
      requires Valid()
      ensures var weights := WeightsOf(counted, sink.contents);
              Sum(weights, weights.Keys - sink.dropped) + Sum(weights, weights.Keys * sink.dropped - books.carried) +
              Total(counted, pending) ==
              reported + shifted + Sum(weights, weights.Keys * books.carried - sink.dropped)
      ensures reported == others + (if "wal" in counted then unwrittenReported + |sink.gone| + recovered else 0)
      ensures AllCounted() ==> shifted == 0
    {
      Reconciled(books.weights, sink.dropped, books.carried);
    }

    /**
     While the table has kept within its bound nothing is said twice; and unless the delivery cursor passed a dropped
     loss record, the only reports missing are those of records dropped since the last collection, which are still
     tracked.
     */
    lemma NothingForgotten()
      requires Valid() && books.mostTracked <= MAXIMUM_TRACKED
      ensures var weights := WeightsOf(counted, sink.contents);
              && Sum(weights, weights.Keys * books.carried - sink.dropped) == 0
              && (sink.skipped !! weights.Keys ==>
                    forall q :: q in weights.Keys * sink.dropped - books.carried ==>
                      q in sink.dropped - sink.gone && InTable(books.groups, q))
    {
      assert books.weights.Keys * books.carried - sink.dropped == {};
      if Tidy(books, sink.View()) {
        forall q | q in books.weights.Keys * sink.dropped - books.carried
          ensures q in sink.dropped - sink.gone && InTable(books.groups, q)
        {
          assert Located(q, books, sink.View());
        }
      }
    }

    /** So once every loss is taken, the surviving records and the waiting reports tell the whole story. */
    lemma WholeStory()
      requires Valid() && books.mostTracked <= MAXIMUM_TRACKED && sink.gone == sink.dropped
      requires sink.skipped !! WeightsOf(counted, sink.contents).Keys
      ensures var weights := WeightsOf(counted, sink.contents);
              Sum(weights, weights.Keys - sink.dropped) + Total(counted, pending) == reported + shifted
    {
      Conservation();
      NothingForgotten();
      assert books.weights.Keys * sink.dropped - books.carried == {};
    }

    /** A loss record that is dropped and taken, and no longer tracked, makes the rest say less than was reported. */
    lemma UntrackedIsMissing(q: nat)
      requires Valid() && Untracked(books, q) && q in sink.gone
      ensures var weights := WeightsOf(counted, sink.contents);
              q in weights &&
              Sum(weights, weights.Keys - sink.gone) + Total(counted, pending) + weights[q] <=
              reported + shifted + Sum(weights, weights.Keys * books.carried - sink.gone)
    {
      Reconciled(books.weights, sink.gone, books.carried);
      SumOut(books.weights, books.weights.Keys * sink.gone - books.carried, q);
    }
  }

  lemma ForgottenIsOnward(a: Snap, b: Snap)
    requires b == a.(books := b.books, size := b.size) && b.size <= a.size && Keeps(a.books, b.books)
    requires a.books.mostTracked == b.books.mostTracked
    ensures Onward(a, b)
  {
  }

  lemma TakenIsOnward(a: Snap, b: Snap)
    requires b.log == a.log.(gone := a.log.dropped) && a.log.gone <= a.log.dropped
    requires b.books == a.books.(owed := b.books.owed) && b.size == a.size <= a.books.mostTracked
    requires b.history == a.history && b.failed == a.failed
    ensures Onward(a, b)
  {
  }

  lemma {:induction false} UndeliveredIsShorter(es: seq<Entry>, acknowledged: nat)
    ensures |Undelivered(es, acknowledged)| <= |es|
  {
    if es != [] { UndeliveredIsShorter(es[..|es| - 1], acknowledged); }
  }

  // ---- every run -----------------------------------------------------------------------------

  /** What can happen to a pipeline: a record is emitted, losses are collected, or the log and its reader move on. */
  datatype Action = EmitRecord | Collect(retryDue: bool, found: seq<Report>) | Elsewhere

  function Emits(a: Action): nat { if a.EmitRecord? then 1 else 0 }

  /** The data records that a run emits. */
  function Emitted(actions: seq<Action>): nat {
    if actions == [] then 0 else Emitted(actions[..|actions| - 1]) + Emits(actions[|actions| - 1])
  }

  ghost function Finds(counted: iset<string>, a: Action): nat { if a.Collect? then Total(counted, a.found) else 0 }

  /** The losses that the queue and the providers report in a run. */
  ghost function AllFound(counted: iset<string>, actions: seq<Action>): nat {
    if actions == [] then 0
    else AllFound(counted, actions[..|actions| - 1]) + Finds(counted, actions[|actions| - 1])
  }

  predicate Collects(actions: seq<Action>) { exists i :: 0 <= i < |actions| && actions[i].Collect? }

  predicate ActionOk(a: Action) { a.Collect? ==> forall j :: 0 <= j < |a.found| ==> a.found[j].stage != "wal" }

  method Act(p: Pipeline, action: Action)
    requires p.Valid() && ActionOk(action)
    modifies p, p.sink
    ensures p.Valid() && Onward(old(p.Now()), p.Now()) && ShiftsWhenFull(old(p.Now()), p.Now())
    ensures Adds(p.counted, action, old(p.Totals()), p.Totals())
    ensures if action.Collect? then Retried(action.retryDue || !old(p.writeFailed), old(p.Now()), p.Now())
            else p.pending == old(p.pending)
  {
    match action
    case EmitRecord => var ok := p.Emit();
    case Collect(retryDue, found) => p.CollectLosses(retryDue, found);
    case Elsewhere => p.Meanwhile();
  }

  /** A collection at which the waiting reports are due, whether or not the last attempt before the run failed. */
  predicate Due(actions: seq<Action>, failed: bool) {
    exists i :: 0 <= i < |actions| && actions[i].Collect? && (actions[i].retryDue || !failed)
  }

  lemma DueMore(actions: seq<Action>, i: nat, failed: bool)
    requires i < |actions|
    ensures Due(actions[..i + 1], failed) <==>
            Due(actions[..i], failed) || (actions[i].Collect? && (actions[i].retryDue || !failed))
  {
    var more := actions[..i + 1];
    assert forall j :: 0 <= j < i ==> more[j] == actions[..i][j];
    assert more[i] == actions[i];
  }

  /** With a log that has refused nothing since, no attempt has failed since, and what was due does not wait. */
  ghost predicate NothingWaits(due: bool, a: Snap, b: Snap) {
    a.history <= b.history &&
        (AllTaken(b.history, |a.history|) ==> (b.failed ==> a.failed) && (due ==> b.pending == []))
  }

  lemma NothingWaitsMore(due: bool, now: bool, a: Snap, b: Snap, c: Snap)
    requires NothingWaits(due, a, b) && Onward(b, c)
    requires Retried(now, b, c) || (c.pending == b.pending && !now)
    ensures NothingWaits(due || now, a, c)
  {
    TakenTwice(a.history, b.history, c.history);
  }

  /** The sums a run adds to: losses others reported, records refused and taken, records lost at recovery. */
  datatype Sums = Sums(others: nat, refused: nat, data: nat, recovered: nat, open: nat)

  /**
   The losses others reported are those of the actions; each record emitted was taken or refused; the records lost at
   recovery are counted by the first collection.
   */
  ghost predicate Accounts(counted: iset<string>, actions: seq<Action>, a: Sums, b: Sums) {
    && b.others == a.others + AllFound(counted, actions)
    && b.refused + b.data == a.refused + a.data + Emitted(actions)
    && b.recovered + b.open == a.recovered + a.open && b.open == if Collects(actions) then 0 else a.open
  }

  /** What one action adds. */
  ghost predicate Adds(counted: iset<string>, action: Action, a: Sums, b: Sums) {
    && b.others == a.others + Finds(counted, action)
    && b.refused + b.data == a.refused + a.data + Emits(action)
    && b.recovered + b.open == a.recovered + a.open && b.open == if action.Collect? then 0 else a.open
  }

  lemma MoreAccounts(counted: iset<string>, actions: seq<Action>, i: nat, a: Sums, b: Sums, c: Sums)
    requires i < |actions| && Accounts(counted, actions[..i], a, b) && Adds(counted, actions[i], b, c)
    ensures Accounts(counted, actions[..i + 1], a, c)
  {
    var more := actions[..i + 1];
    assert more[..i] == actions[..i] && more[i] == actions[i];
    if Collects(actions[..i]) {
      var j :| 0 <= j < i && actions[..i][j].Collect?;
      assert more[j].Collect?;
    }
    assert forall j :: 0 <= j < i ==> more[j] == actions[..i][j];
  }

  lemma StillNothingWaits(actions: seq<Action>, i: nat, a: Snap, b: Snap, c: Snap)
    requires i < |actions| && NothingWaits(Due(actions[..i], a.failed), a, b) && Onward(b, c)
    requires if actions[i].Collect? then Retried(actions[i].retryDue || !b.failed, b, c) else c.pending == b.pending
    ensures NothingWaits(Due(actions[..i + 1], a.failed), a, c)
  {
    DueMore(actions, i, a.failed);
    NothingWaitsMore(Due(actions[..i], a.failed), actions[i].Collect? && (actions[i].retryDue || !b.failed), a, b, c);
    TakenTwice(a.history, b.history, c.history);
  }

  /**
   Every run, over any log and any choice of stages. The losses reported by others are those of its actions; each record
   emitted is in the log or counted as refused; the records lost at recovery are counted by the first collection. If the
   log refuses nothing during the run, nothing waits after a collection at which it was due.
   `waited` is the greatest number of reports found waiting after an action, `tracked` the greatest of the table's size
   before an action with the records appended by it. While fewer than 64 wait, or when all stages are counted, no count
   changes its stage; while no more than 8192 are tracked and the delivery cursor passes no dropped loss record, what
   exists, what waits and what was dropped since the last collection and is still tracked add up to every loss reported.
   */
  method AnyRun(p: Pipeline, actions: seq<Action>) returns (waited: nat, tracked: nat)
    requires p.Valid() && forall i :: 0 <= i < |actions| ==> ActionOk(actions[i])
    modifies p, p.sink
    ensures p.Valid() && Accounts(p.counted, actions, old(p.Totals()), p.Totals())
    ensures NothingWaits(Due(actions, old(p.writeFailed)), old(p.Now()), p.Now())
    ensures waited < MAXIMUM_PENDING || p.AllCounted() ==> p.shifted == old(p.shifted)
    ensures p.books.mostTracked <= Max(old(p.books.mostTracked), tracked)
    ensures old(p.books.mostTracked) <= MAXIMUM_TRACKED && tracked <= MAXIMUM_TRACKED ==> AddsUp(p)
  {
    waited, tracked := 0, 0;
    for i := 0 to |actions|
      invariant p.Valid() && Accounts(p.counted, actions[..i], old(p.Totals()), p.Totals())
      invariant NothingWaits(Due(actions[..i], old(p.writeFailed)), old(p.Now()), p.Now())
      invariant waited < MAXIMUM_PENDING || p.AllCounted() ==> p.shifted == old(p.shifted)
      invariant p.books.mostTracked <= Max(old(p.books.mostTracked), tracked)
    {
      var size, next := |p.written|, p.sink.next;
      ghost var here, sums := p.Now(), p.Totals();
      Act(p, actions[i]);
      StillNothingWaits(actions, i, old(p.Now()), here, p.Now());
      MoreAccounts(p.counted, actions, i, old(p.Totals()), sums, p.Totals());
      waited := Max(waited, |p.pending|);
      tracked := Max(tracked, size + (p.sink.next - next));
    }
    assert actions[..|actions|] == actions;
    if p.books.mostTracked <= MAXIMUM_TRACKED { ItAddsUp(p); }
  }

  /**
   Unless the cursor passed a dropped loss record, what exists, what waits and what is still tracked is everything.
   */
  ghost predicate AddsUp(p: Pipeline)
    reads p, p.sink
  {
    var weights := WeightsOf(p.counted, p.sink.contents);
    var missing := weights.Keys * p.sink.dropped - p.books.carried;
    p.sink.skipped !! weights.Keys ==>
      && Sum(weights, weights.Keys - p.sink.dropped) + Sum(weights, missing) + Total(p.counted, p.pending) ==
         p.reported + p.shifted
      && forall q :: q in missing ==> q in p.sink.dropped - p.sink.gone && InTable(p.books.groups, q)
  }

  lemma ItAddsUp(p: Pipeline)
    requires p.Valid() && p.books.mostTracked <= MAXIMUM_TRACKED
    ensures AddsUp(p)
  {
    p.Conservation();
    p.NothingForgotten();
  }

  // ---- the table can forget ------------------------------------------------------------------

  /** A table of one entry of one stage and others of another. */
  ghost predicate OneThenOthers(es: seq<Entry>, first: string, rest: string) {
    forall i :: 0 <= i < |es| ==> es[i] == Entry(i + 1, Report(if i == 0 then first else rest, 1))
  }

  lemma OneIsAlone(es: seq<Entry>, first: string, rest: string)
    requires first != rest && es != [] && OneThenOthers(es, first, rest)
    ensures NextOfStage(es, first, 1) == |es|
  {
    NextIsFirst(es, first, 1);
  }

  ghost function AllStages(): iset<string> { iset s: string | |s| >= 0 }

  /** So many reports are written and tracked, with nothing dropped, delivered or waiting. */
  ghost predicate Filled(p: Pipeline, first: string, rest: string, n: nat)
    reads p, p.sink
  {
    && p.Valid() && p.AllCounted() && |p.written| == n && OneThenOthers(p.written, first, rest) && p.pending == []
    && p.books.carried == {} && (n > 0 ==> 1 in p.books.weights && p.books.weights[1] == 1)
    && p.sink.View() == Log(n + 1, 0, {}, {}, {}) && p.sink.untaken == []
  }

  /** A report of the queue or of a provider that the log takes, with nothing else going on. */
  method TakeReport(p: Pipeline, report: Report)
    requires p.Valid()
    modifies p`written, p`books, p`reported, p`others, p.sink`next, p.sink`contents, p.sink`data, p.sink`history
    ensures p.Valid() && p.sink.View() == old(p.sink.View()).(next := old(p.sink.next) + 1)
    ensures p.written == Tracked(old(p.written), Entry(old(p.sink.next), report)) &&
            p.books.carried == old(p.books.carried)
    ensures p.books.weights == old(p.books.weights)[old(p.sink.next) := Weight(p.counted, report)]
    ensures old(p.Overflows(Entry(p.sink.next, report))) ==> Untracked(p.books, old(p.written)[0].number)
  {
    EnterNext(p, report);
    p.reported := p.reported + Weight(p.counted, report);
    p.others := p.others + Weight(p.counted, report);
  }

  method EnterNext(p: Pipeline, report: Report)
    requires p.Core()
    modifies p`written, p`books, p.sink`next, p.sink`contents, p.sink`data, p.sink`history
    ensures p.Core() && p.sink.View() == old(p.sink.View()).(next := old(p.sink.next) + 1)
    ensures p.written == Tracked(old(p.written), Entry(old(p.sink.next), report)) && SameDebts(old(p.books), p.books)
    ensures p.books.weights == old(p.books.weights)[old(p.sink.next) := Weight(p.counted, report)]
    ensures Standing(p.books) == Standing(old(p.books)) + Weight(p.counted, report)
    ensures old(p.Overflows(Entry(p.sink.next, report))) ==> Untracked(p.books, old(p.written)[0].number)
  {
    ghost var before, log := p.sink.contents, p.sink.View();
    var number := p.sink.Accept(Loss(report));
    WeightsMore(p.counted, before, number, Loss(report));
    LongerLog(p.counted, p.written, p.books, log);
    p.Note(number, report);
  }

  lemma LongerLog(counted: iset<string>, written: seq<Entry>, b: Books, l: Log)
    requires TableOk(counted, written, b, l)
    ensures TableOk(counted, written, b, l.(next := l.next + 1))
  {
    assert forall q :: Located(q, b, l) <==> Located(q, b, l.(next := l.next + 1));
  }

  method FillOne(p: Pipeline, first: string, rest: string, n: nat)
    requires n < MAXIMUM_TRACKED && Filled(p, first, rest, n)
    modifies p`written, p`books, p`reported, p`others, p.sink`next, p.sink`contents, p.sink`data, p.sink`history
    ensures Filled(p, first, rest, n + 1)
  {
    TakeReport(p, Report(if n == 0 then first else rest, 1));
  }

  /** The table as full as it may be. */
  method FullTable(first: string, rest: string) returns (p: Pipeline)
    ensures fresh(p) && fresh(p.sink) && Filled(p, first, rest, MAXIMUM_TRACKED)
  {
    var sink := new RecordSink(1, []);
    p := new Pipeline(sink, AllStages());
    for n := 0 to MAXIMUM_TRACKED
      invariant fresh(p) && fresh(p.sink) && Filled(p, first, rest, n)
    {
      FillOne(p, first, rest, n);
    }
  }

  /** The first record is not tracked any more, and nothing else happened to it. */
  ghost predicate LetGo(p: Pipeline)
    reads p, p.sink
  {
    p.Valid() && p.AllCounted() && Untracked(p.books, 1) && p.books.weights[1] == 1 && p.books.carried == {}
  }

  /** One more report: the oldest entry is alone in its stage and goes. */
  method OneMore(p: Pipeline, first: string, rest: string)
    requires first != rest && Filled(p, first, rest, MAXIMUM_TRACKED)
    modifies p`written, p`books, p`reported, p`others, p.sink`next, p.sink`contents, p.sink`data, p.sink`history
    ensures LetGo(p) && p.sink.View() == Log(MAXIMUM_TRACKED + 2, 0, {}, {}, {}) && p.sink.untaken == []
    ensures forall i :: 0 <= i < |p.written| ==> p.written[i].number != 1
  {
    var report := Report(rest, 1);
    ghost var es := p.written + [Entry(p.sink.next, report)];
    OneIsAlone(es, first, rest);
    TakeReport(p, report);
    assert p.written == Without(es, 0);
  }

  /** The log drops the first record. */
  method LoseFirst(p: Pipeline)
    requires LetGo(p) && p.sink.next > 2 && p.sink.View() == Log(p.sink.next, 0, {}, {}, {}) && p.sink.untaken == []
    modifies p.sink`untaken, p.sink`dropped
    ensures LetGo(p) && p.sink.dropped == {1} && p.sink.untaken == [WalLoss(1, 1, 1)]
  {
    ghost var log := p.sink.View();
    assert Range(1, 1) == {1};
    p.sink.DropRange(1, 1);
    assert Overtaken(p.sink.View()) == {};
    LogMoves(p.counted, p.written, p.books, log, p.sink.View());
  }

  /** The loss of it is taken and reported. */
  method DropFirst(p: Pipeline)
    requires LetGo(p) && p.sink.next > 2 && p.sink.View() == Log(p.sink.next, 0, {}, {}, {}) && p.sink.untaken == []
    requires forall i :: 0 <= i < |p.written| ==> p.written[i].number != 1
    modifies p, p.sink
    ensures LetGo(p) && p.sink.gone == {1}
  {
    LoseFirst(p);
    OneRange(p.written, p.sink.untaken);
    p.ReportDropped();
  }

  lemma OneRange(es: seq<Entry>, losses: seq<WalLoss>)
    requires |losses| == 1 && losses[0].first == losses[0].last == 1 && forall i :: 0 <= i < |es| ==> es[i].number != 1
    ensures Clear(es, losses)
  {
  }

  /**
   The table can forget: one loss of a stage is reported, then as many of another as the table holds, all of them
   written; the log then drops the first of these records and nothing else, and the delivery cursor stands still. When
   every loss is taken, the surviving records and the waiting reports say less than was reported, over all stages.
   */
  method TableForgets(first: string, rest: string) returns (p: Pipeline)
    requires first != rest
    ensures p.Valid() && p.AllCounted() && p.sink.gone == {1}
    ensures var weights := WeightsOf(p.counted, p.sink.contents);
            Sum(weights, weights.Keys - p.sink.gone) + Total(p.counted, p.pending) < p.reported
  {
    p := FullTable(first, rest);
    OneMore(p, first, rest);
    DropFirst(p);
    p.UntrackedIsMissing(1);
  }
}
