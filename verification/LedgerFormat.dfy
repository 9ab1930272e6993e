/**
 The file format of the command replay ledger: an optional epoch line, then one line per change of
 one command (received, done, reported). The file is only ever appended to, except for the compact
 rewrite at open.
 */
module LedgerFormat {
  import opened Text

  const MAXIMUM_COMMAND_ID_BYTES := 120
  const MAXIMUM_DETAIL_BYTES := 400
  const KEEP_AFTER_EXPIRY := 86400
  const SIGNED_LIMIT := 10_000_000_000_000_000_000

  predicate IdentifierChar(c: char) {
    'a' <= c <= 'z' || 'A' <= c <= 'Z' || '0' <= c <= '9' || c == '-' || c == '_' || c == '.'
  }

  predicate CommandIdOk(s: string) {
    1 <= |s| <= MAXIMUM_COMMAND_ID_BYTES && forall i :: 0 <= i < |s| ==> IdentifierChar(s[i])
  }

  predicate ReasonOk(s: string) {
    1 <= |s| <= 48 && forall i :: 0 <= i < |s| ==> 'a' <= s[i] <= 'z' || s[i] == '_'
  }

  predicate OutcomeOk(s: string) {
    s == "succeeded" || s == "failed" || s == "rejected" || s == "indeterminate"
  }

  predicate Printable(c: char) { ' ' <= c < 0x7F as char }

  /** Bounded printable ASCII: what a stored detail is allowed to hold. */
  function Clean(text: string, maximum: nat := MAXIMUM_DETAIL_BYTES): (kept: string)
    ensures |kept| <= maximum && |kept| <= |text|
    ensures forall i :: 0 <= i < |kept| ==> Printable(kept[i])
  {
    seq(if |text| <= maximum then |text| else maximum,
        i requires 0 <= i < |text| => if Printable(text[i]) then text[i] else '?')
  }

  /** Cleaning a stored detail again does not change it, so a repeat sends what was stored. */
  lemma CleanIsIdempotent(text: string)
    ensures Clean(Clean(text)) == Clean(text)
  {
  }

  lemma PrintableHasNoSeparator(s: string)
    requires forall i :: 0 <= i < |s| ==> Printable(s[i])
    ensures '\t' !in s && '\n' !in s
  {
  }

  datatype Phase = Received | Done | Reported

  datatype Entry = Entry(phase: Phase, expires: int, correlation: string,
                         outcome: string, reason: string, detail: string)

  /** What a ledger file says: when the ledger began (0: before epochs existed) and its commands. */
  datatype Image = Image(epoch: int, entries: map<string, Entry>)

  const EMPTY := Image(0, map[])

  function Fresh(correlation: string, expires: int): Entry {
    Entry(Received, expires, correlation, "", "", "")
  }

  // ---- reading ------------------------------------------------------------------------------

  function ParseSigned(text: string): (n: Option<nat>)
    ensures n.Some? ==> AllDigits(text) && n.value == DigitsValue(text) && n.value < SIGNED_LIMIT
  {
    if text == [] || |text| > 19 || !AllDigits(text) then None
    else
      DigitsValueBound(text);
      Some(DigitsValue(text))
  }

  lemma {:induction false} DigitsValueBelowPower(s: string)
    requires AllDigits(s)
    ensures DigitsValue(s) < Pow10(|s|)
  {
    if s != [] { DigitsValueBelowPower(s[..|s| - 1]); }
  }

  lemma {:induction false} Pow10Monotone(a: nat, b: nat)
    requires a <= b
    ensures Pow10(a) <= Pow10(b)
    decreases b - a
  {
    if a < b { Pow10Monotone(a + 1, b); }
  }

  lemma DigitsValueBound(s: string)
    requires AllDigits(s) && |s| <= 19
    ensures DigitsValue(s) < SIGNED_LIMIT
  {
    DigitsValueBelowPower(s);
    Pow10Monotone(|s|, 19);
    Pow10Bounds();
  }

  function ApplyReceived(img: Image, parts: seq<string>): Option<Image>
    requires |parts| >= 2
  {
    if |parts| != 4 then None
    else
      var expires := ParseSigned(parts[3]);
      if expires.None? || !CommandIdOk(parts[2]) then None
      else Some(img.(entries := img.entries[parts[1] := Fresh(parts[2], expires.value)]))
  }

  function ApplyDone(img: Image, parts: seq<string>): Option<Image>
    requires |parts| >= 2
  {
    if (|parts| != 4 && |parts| != 5) || parts[1] !in img.entries || !ReasonOk(parts[3]) || !OutcomeOk(parts[2])
        then None
    else
      var old_ := img.entries[parts[1]];
      var made := old_.(phase := Done, outcome := parts[2], reason := parts[3],
                        detail := if |parts| == 5 then parts[4] else old_.detail);
      Some(img.(entries := img.entries[parts[1] := made]))
  }

  function ApplyReported(img: Image, parts: seq<string>): Option<Image>
    requires |parts| >= 2
  {
    if |parts| != 2 || parts[1] !in img.entries || img.entries[parts[1]].phase != Done then None
    else Some(img.(entries := img.entries[parts[1] := img.entries[parts[1]].(phase := Reported)]))
  }

  /** One line of the file; `None` is corruption. */
  function ApplyLine(img: Image, line: string, first: bool): Option<Image> {
    ApplyParts(img, Fields(line, '\t'), first)
  }

  function ApplyParts(img: Image, parts: seq<string>, first: bool): Option<Image> {
    if first && |parts| == 2 && parts[0] == "E" then
      var epoch := ParseSigned(parts[1]);
      if epoch.None? || epoch.value == 0 then None else Some(img.(epoch := epoch.value))
    else if |parts| < 2 || |parts[0]| != 1 || !CommandIdOk(parts[1]) then None
    else if parts[0][0] == 'R' then ApplyReceived(img, parts)
    else if parts[0][0] == 'D' then ApplyDone(img, parts)
    else if parts[0][0] == 'S' then ApplyReported(img, parts)
    else None
  }

  function LoadLines(lines: seq<string>): Option<Image> {
    if lines == [] then Some(EMPTY)
    else
      var n := |lines| - 1;
      var before := LoadLines(lines[..n]);
      if before.None? then None else ApplyLine(before.value, lines[n], n == 0)
  }

  /** What a file says once an unterminated final line is dropped. */
  function Load(contents: string): Option<Image> { LoadLines(Lines(WholeLines(contents))) }

  lemma LoadNextLine(lines: seq<string>, k: nat, img: Image)
    requires k < |lines| && LoadLines(lines[..k]) == Some(img)
    ensures LoadLines(lines[..k + 1]) == ApplyLine(img, lines[k], k == 0)
  {
    assert lines[..k + 1][..k] == lines[..k];
  }

  /** A corrupt beginning is not repaired by what follows. */
  lemma {:induction false} CorruptStaysCorrupt(lines: seq<string>, k: nat)
    requires k <= |lines| && LoadLines(lines[..k]).None?
    ensures LoadLines(lines).None?
    decreases |lines|
  {
    if k == |lines| {
      assert lines[..k] == lines;
    } else {
      assert lines[..|lines| - 1][..k] == lines[..k];
      CorruptStaysCorrupt(lines[..|lines| - 1], k);
    }
  }

  // ---- writing ------------------------------------------------------------------------------

  /** One append of the ledger. */
  datatype Edit =
    | Receive(id: string, correlation: string, expires: nat)
    | Finish(id: string, outcome: string, reason: string, detail: string)
    | Report(id: string)

  predicate Storable(n: int) { 0 <= n < SIGNED_LIMIT }

  /** What the writers check before a line is appended. */
  predicate Wellformed(e: Edit) {
    CommandIdOk(e.id) &&
    match e
    case Receive(_, correlation, expires) => CommandIdOk(correlation) && Storable(expires)
    case Finish(_, outcome, reason, detail) => OutcomeOk(outcome) && ReasonOk(reason) && '\t' !in detail &&
        '\n' !in detail
    case Report(_) => true
  }

  /**
   The change the edit makes in memory; `None` when it does not fit: the id must be new to be
   received, begun to be done, and done to be reported.
   */
  function Edited(e: Edit, img: Image): Option<Image> {
    if !Wellformed(e) then None
    else
      match e
      case Receive(id, correlation, expires) =>
        if id in img.entries then None
        else Some(img.(entries := img.entries[id := Fresh(correlation, expires)]))
      case Finish(id, outcome, reason, detail) =>
        if id !in img.entries || img.entries[id].phase != Received then None
        else Some(img.(entries := img.entries[id := img.entries[id].(phase := Done, outcome := outcome,
            reason := reason, detail := detail)]))
      case Report(id) =>
        if id !in img.entries || img.entries[id].phase != Done then None
        else Some(img.(entries := img.entries[id := img.entries[id].(phase := Reported)]))
  }

  /** The tab-separated fields of the edit's line; an empty detail has no field. */
  function PartsOf(e: Edit): (parts: seq<string>)
    ensures |parts| >= 2
  {
    match e
    case Receive(id, correlation, expires) => ["R", id, correlation, Decimal(expires)]
    case Finish(id, outcome, reason, detail) => ["D", id, outcome, reason] + (if detail == [] then [] else [detail])
    case Report(id) => ["S", id]
  }

  /** The line of the edit, without its newline. */
  function LineOf(e: Edit): string { Join(PartsOf(e), '\t') }

  /** The bytes one append writes. */
  function EditText(e: Edit): string { LineOf(e) + "\n" }

  // ---- a line says what its edit did --------------------------------------------------------

  lemma IdHasNoSeparator(s: string)
    requires CommandIdOk(s) || ReasonOk(s) || OutcomeOk(s) || AllDigits(s)
    ensures '\t' !in s && '\n' !in s
  {
  }

  lemma ParseSignedDecimal(n: nat)
    requires Storable(n)
    ensures ParseSigned(Decimal(n)) == Some(n)
  {
    Pow10Bounds();
    DecimalLength(n, 19);
    DecimalValue(n);
  }

  lemma PartsHaveNoSeparator(e: Edit)
    requires Wellformed(e)
    ensures forall p :: p in PartsOf(e) ==> '\t' !in p && '\n' !in p
  {
    IdHasNoSeparator(e.id);
    match e
    case Receive(_, correlation, expires) => IdHasNoSeparator(correlation); IdHasNoSeparator(Decimal(expires));
    case Finish(_, outcome, reason, detail) => IdHasNoSeparator(outcome); IdHasNoSeparator(reason);
    case Report(_) =>
  }

  /** The line splits back into the fields it was made of and holds no newline. */
  lemma LineOfFields(e: Edit)
    requires Wellformed(e)
    ensures Fields(LineOf(e), '\t') == PartsOf(e)
    ensures '\n' !in LineOf(e)
  {
    PartsHaveNoSeparator(e);
    FieldsOfJoin(PartsOf(e), '\t');
    JoinLacks(PartsOf(e), '\t', '\n');
  }

  /**
   What reading the edit's line does to any image, fitting or not: a second received line starts the
   entry again, a second done line keeps an old detail when it brings none, and a reported line for
   anything but a done command is corruption.
   */
  function ReadBack(e: Edit, img: Image): Option<Image> {
    match e
    case Receive(id, correlation, expires) => Some(img.(entries := img.entries[id := Fresh(correlation, expires)]))
    case Finish(id, outcome, reason, detail) =>
      if id !in img.entries then None
      else
        var old_ := img.entries[id];
        Some(img.(entries := img.entries[id := old_.(phase := Done, outcome := outcome, reason := reason,
                                                      detail := if detail == [] then old_.detail else detail)]))
    case Report(id) =>
      if id !in img.entries || img.entries[id].phase != Done then None
      else Some(img.(entries := img.entries[id := img.entries[id].(phase := Reported)]))
  }

  lemma LineReadsBack(e: Edit, img: Image, first: bool)
    requires Wellformed(e)
    ensures ApplyLine(img, LineOf(e), first) == ReadBack(e, img)
  {
    LineOfFields(e);
    if e.Receive? { ParseSignedDecimal(e.expires); }
  }

  /** Reading the line of a fitting edit makes exactly the edit's change. */
  lemma LineMeansEdit(e: Edit, img: Image, first: bool)
    requires Edited(e, img).Some?
    requires e.Finish? ==> img.entries[e.id].detail == ""
    ensures ApplyLine(img, LineOf(e), first) == Edited(e, img)
  {
    LineReadsBack(e, img, first);
  }

  // ---- what a file can hold -----------------------------------------------------------------

  predicate EntryOk(e: Entry) {
    CommandIdOk(e.correlation) && Storable(e.expires) &&
    if e.phase == Received then e.outcome == "" && e.reason == "" && e.detail == ""
    else OutcomeOk(e.outcome) && ReasonOk(e.reason) && '\t' !in e.detail && '\n' !in e.detail
  }

  predicate ImageOk(img: Image) {
    Storable(img.epoch) && forall id :: id in img.entries ==> CommandIdOk(id) && EntryOk(img.entries[id])
  }

  lemma ApplyLineKeepsOk(img: Image, line: string, first: bool)
    requires ImageOk(img) && '\n' !in line
    requires ApplyLine(img, line, first).Some?
    ensures ImageOk(ApplyLine(img, line, first).value)
  {
    FieldsLack(line, '\t', '\t');
    FieldsLack(line, '\t', '\n');
  }

  /** Whatever loads is something the ledger could have written. */
  lemma {:induction false} LoadLinesOk(lines: seq<string>)
    requires forall l :: l in lines ==> '\n' !in l
    requires LoadLines(lines).Some?
    ensures ImageOk(LoadLines(lines).value)
  {
    if lines != [] {
      var n := |lines| - 1;
      LoadLinesOk(lines[..n]);
      ApplyLineKeepsOk(LoadLines(lines[..n]).value, lines[n], n == 0);
    }
  }

  lemma LoadOk(contents: string)
    requires Load(contents).Some?
    ensures ImageOk(Load(contents).value)
  {
    LinesLackNewline(WholeLines(contents));
    LoadLinesOk(Lines(WholeLines(contents)));
  }

  lemma EditedKeepsOk(e: Edit, img: Image)
    requires ImageOk(img) && Edited(e, img).Some?
    ensures ImageOk(Edited(e, img).value)
  {
  }

  // ---- appending and tearing ----------------------------------------------------------------

  /** A whole line appended to whole lines is read after them. */
  lemma AppendLine(contents: string, line: string)
    requires Terminated(contents) && '\n' !in line
    ensures Terminated(contents + line + "\n")
    ensures Load(contents + line + "\n") ==
            if Load(contents).None? then None else ApplyLine(Load(contents).value, line, contents == [])
  {
    LinesAppend(contents, line);
    var lines := Lines(contents) + [line];
    assert lines[..|lines| - 1] == Lines(contents);
  }

  /** A complete append makes the edit's change and nothing else. */
  lemma AppendIsEdit(contents: string, e: Edit, img: Image)
    requires Terminated(contents) && Load(contents) == Some(img) && Edited(e, img).Some?
    ensures Terminated(contents + EditText(e))
    ensures Load(contents + EditText(e)) == Edited(e, img)
  {
    LoadOk(contents);
    LineOfFields(e);
    AppendLine(contents, LineOf(e));
    LineMeansEdit(e, img, contents == []);
    assert contents + EditText(e) == contents + LineOf(e) + "\n";
  }

  /** A complete append is read back, whether or not the file still fits it. */
  lemma AppendReadsBack(contents: string, e: Edit)
    requires Terminated(contents) && Wellformed(e)
    ensures Terminated(contents + EditText(e))
    ensures Load(contents + EditText(e)) == if Load(contents).None? then None else ReadBack(e, Load(contents).value)
  {
    LineOfFields(e);
    AppendLine(contents, LineOf(e));
    if Load(contents).Some? { LineReadsBack(e, Load(contents).value, contents == []); }
    assert contents + EditText(e) == contents + LineOf(e) + "\n";
  }

  /** A crash inside the line leaves what was there before it. */
  lemma TornAppend(contents: string, e: Edit, k: nat)
    requires Terminated(contents) && Wellformed(e) && k < |EditText(e)|
    ensures WholeLines(contents + EditText(e)[..k]) == contents
    ensures Load(contents + EditText(e)[..k]) == Load(contents)
  {
    LineOfFields(e);
    assert EditText(e)[..k] == LineOf(e)[..k];
    WholeLinesDropsTail(contents, LineOf(e)[..k]);
    assert WholeLines(contents) == contents;
  }

  // ---- the compact form ---------------------------------------------------------------------

  /** The edits that write one entry again: received, then done, then reported, as far as it got. */
  function EntryEdits(id: string, e: Entry): seq<Edit>
    requires e.expires >= 0
  {
    [Receive(id, e.correlation, e.expires)] +
    (if e.phase == Received then [] else [Finish(id, e.outcome, e.reason, e.detail)]) +
    (if e.phase == Reported then [Report(id)] else [])
  }

  function EditsText(edits: seq<Edit>): string {
    if edits == [] then [] else EditText(edits[0]) + EditsText(edits[1..])
  }

  function EpochText(epoch: int): string
    requires Storable(epoch)
  {
    if epoch > 0 then Join(["E", Decimal(epoch)], '\t') + "\n" else ""
  }

  /** The file `open` rewrites: the epoch, then the entries in some order. */
  function Render(img: Image, order: seq<string>): string
    requires ImageOk(img) && forall id :: id in order ==> id in img.entries
  {
    if order == [] then EpochText(img.epoch)
    else
      var id := order[|order| - 1];
      Render(img, order[..|order| - 1]) + EditsText(EntryEdits(id, img.entries[id]))
  }

  predicate Enumerates(order: seq<string>, entries: map<string, Entry>) {
    (forall i, j :: 0 <= i < j < |order| ==> order[i] != order[j]) &&
    (forall id :: id in order ==> id in entries) && (forall id :: id in entries ==> id in order)
  }

  lemma EpochTextLoads(epoch: int)
    requires Storable(epoch)
    ensures Terminated(EpochText(epoch)) && Load(EpochText(epoch)) == Some(Image(epoch, map[]))
  {
    if epoch > 0 {
      var parts := ["E", Decimal(epoch)];
      IdHasNoSeparator(Decimal(epoch));
      FieldsOfJoin(parts, '\t');
      JoinLacks(parts, '\t', '\n');
      AppendLine("", Join(parts, '\t'));
      assert "" + Join(parts, '\t') + "\n" == EpochText(epoch);
      ParseSignedDecimal(epoch);
    }
  }

  /** The edits applied in turn; `None` when one does not fit what the ones before it made. */
  function EditedAll(edits: seq<Edit>, img: Image): Option<Image> {
    if edits == [] then Some(img)
    else
      var next := Edited(edits[0], img);
      if next.None? then None else EditedAll(edits[1..], next.value)
  }

  /** A file followed by the lines of fitting edits reads as the edits applied in turn. */
  lemma {:induction false} AppendAll(contents: string, edits: seq<Edit>, img: Image)
    requires Terminated(contents) && Load(contents) == Some(img) && EditedAll(edits, img).Some?
    ensures Terminated(contents + EditsText(edits))
    ensures Load(contents + EditsText(edits)) == EditedAll(edits, img)
    decreases |edits|
  {
    if edits == [] {
      assert contents + EditsText(edits) == contents;
    } else {
      var next := contents + EditText(edits[0]);
      AppendIsEdit(contents, edits[0], img);
      AppendAll(next, edits[1..], Edited(edits[0], img).value);
      Associative(contents, EditText(edits[0]), EditsText(edits[1..]));
    }
  }

  /** Writing an entry again from nothing rebuilds exactly that entry. */
  lemma EntryEditsRebuild(id: string, e: Entry, img: Image)
    requires CommandIdOk(id) && EntryOk(e) && id !in img.entries
    ensures EditedAll(EntryEdits(id, e), img) == Some(img.(entries := img.entries[id := e]))
  {
    var edits := EntryEdits(id, e);
    var one := Edited(edits[0], img).value;
    if e.phase == Received {
      assert edits[1..] == [];
    } else {
      var two := Edited(edits[1], one).value;
      assert two.entries == img.entries[id := e.(phase := Done)];
      if e.phase == Reported {
        assert edits[1..][1..] == [Report(id)];
        assert Edited(Report(id), two).value.entries == img.entries[id := e];
        assert EditedAll([Report(id)], two) == Some(img.(entries := img.entries[id := e]));
        assert EditedAll(edits[1..], one) == EditedAll([Report(id)], two);
      } else {
        assert edits[1..][1..] == [];
        assert EditedAll(edits[1..], one) == Some(two);
        assert two.entries == img.entries[id := e];
      }
    }
  }

  function Restrict(entries: map<string, Entry>, order: seq<string>): map<string, Entry> {
    map id | id in entries && id in order :: entries[id]
  }

  lemma RestrictLast(entries: map<string, Entry>, order: seq<string>)
    requires |order| > 0 && order[|order| - 1] in entries
    ensures Restrict(entries, order) ==
            Restrict(entries, order[..|order| - 1])[order[|order| - 1] := entries[order[|order| - 1]]]
  {
    assert order == order[..|order| - 1] + [order[|order| - 1]];
  }

  /** The compact form reads back as the image it was made from, whatever order its entries are in. */
  lemma {:induction false} RenderPrefix(img: Image, order: seq<string>)
    requires ImageOk(img)
    requires forall i, j :: 0 <= i < j < |order| ==> order[i] != order[j]
    requires forall id :: id in order ==> id in img.entries
    ensures Terminated(Render(img, order))
    ensures Load(Render(img, order)) == Some(Image(img.epoch, Restrict(img.entries, order)))
    decreases |order|
  {
    if order == [] {
      EpochTextLoads(img.epoch);
      assert Restrict(img.entries, order) == map[];
    } else {
      var before, id := order[..|order| - 1], order[|order| - 1];
      RenderPrefix(img, before);
      var part := Image(img.epoch, Restrict(img.entries, before));
      assert id !in before;
      EntryEditsRebuild(id, img.entries[id], part);
      AppendAll(Render(img, before), EntryEdits(id, img.entries[id]), part);
      RestrictLast(img.entries, order);
    }
  }

  lemma RenderLoads(img: Image, order: seq<string>)
    requires ImageOk(img) && Enumerates(order, img.entries)
    ensures Terminated(Render(img, order)) && Load(Render(img, order)) == Some(img)
  {
    RenderPrefix(img, order);
    assert Restrict(img.entries, order) == img.entries;
  }

  // ---- opening ------------------------------------------------------------------------------

  datatype Opening =
    | Corrupt
    | TooMany
    | Ready(image: Image, rewrite: bool)

  /** A reported command is forgotten a day after it expired. */
  predicate Forgettable(e: Entry, now: int) { e.phase == Reported && e.expires + KEEP_AFTER_EXPIRY < now }

  function Kept(entries: map<string, Entry>, now: int): map<string, Entry> {
    map id | id in entries && !Forgettable(entries[id], now) :: entries[id]
  }

  function NewEpoch(now: int): (epoch: int)
    ensures epoch >= 1 && epoch >= now
  {
    if now > 0 then now else 1
  }

  /** What `open` makes of a file: a file without a whole line is a new ledger and begins now. */
  function Opened(contents: string, maximum: nat, now: int): Opening {
    var whole := WholeLines(contents);
    var loaded := LoadLines(Lines(whole));
    if loaded.None? then Corrupt
    else
      var epoch := if whole == [] then NewEpoch(now) else loaded.value.epoch;
      var entries := Kept(loaded.value.entries, now);
      if |entries| > maximum then TooMany
      else Ready(Image(epoch, entries), |entries| != |loaded.value.entries| || whole != contents || whole == [])
  }

  /** The file `open` leaves behind, with the entries of a rewrite in some order. */
  ghost predicate LeftBehind(file: string, contents: string, o: Opening)
    requires o.Ready? && ImageOk(o.image)
  {
    if o.rewrite then
      exists order :: Enumerates(order, o.image.entries) && file == Render(o.image, order)
    else file == contents
  }

  lemma SubsetOfSameSize<T>(a: set<T>, b: set<T>)
    requires a <= b && |a| == |b|
    ensures a == b
  {
    if x :| x in b && x !in a {
      assert a <= b - {x};
      SmallerSubset(a, b - {x});
      assert false;
    }
  }

  lemma KeptAll(entries: map<string, Entry>, now: int)
    requires |Kept(entries, now)| == |entries|
    ensures Kept(entries, now) == entries
  {
    var kept := Kept(entries, now);
    SubsetOfSameSize(kept.Keys, entries.Keys);
    assert forall id :: id in entries ==> id in kept.Keys;
  }

  lemma OpenedOk(contents: string, maximum: nat, now: int)
    requires now < SIGNED_LIMIT && Opened(contents, maximum, now).Ready?
    ensures ImageOk(Opened(contents, maximum, now).image)
  {
    LoadOk(contents);
  }

  /** The file after `open` holds whole lines only and says exactly what memory holds. */
  lemma OpenLeavesItsImage(contents: string, maximum: nat, now: int, file: string)
    requires now < SIGNED_LIMIT && Opened(contents, maximum, now).Ready?
    requires ImageOk(Opened(contents, maximum, now).image)
    requires LeftBehind(file, contents, Opened(contents, maximum, now))
    ensures Terminated(file) && Load(file) == Some(Opened(contents, maximum, now).image)
  {
    var o := Opened(contents, maximum, now);
    if o.rewrite {
      var order :| Enumerates(order, o.image.entries) && file == Render(o.image, order);
      RenderLoads(o.image, order);
    } else {
      KeptAll(Load(contents).value.entries, now);
    }
  }

  /**
   Ledger refinement. From any file of whole lines, append any run of edits and crash at any byte of
   the last one: opening never finds corruption, and what it finds is the image before that append
   or, when its last byte was written, the image after it, less the commands that may be forgotten.
   */
  lemma CrashDuringAppend(contents: string, edits: seq<Edit>, last: Edit, cut: nat, img: Image, before: Image,
                          after: Image,
                          maximum: nat, now: int)
    requires Terminated(contents) && Load(contents) == Some(img)
    requires EditedAll(edits, img) == Some(before) && Edited(last, before) == Some(after)
    requires cut <= |EditText(last)|
    ensures var found := if cut == |EditText(last)| then after else before;
            var whole := contents + EditsText(edits) + (if cut == |EditText(last)| then EditText(last) else "");
            match Opened(contents + EditsText(edits) + EditText(last)[..cut], maximum, now)
            case Corrupt => false
            case TooMany => |Kept(found.entries, now)| > maximum
            case Ready(image, _) =>
              image.entries == Kept(found.entries, now) &&
              image.epoch == if whole == [] then NewEpoch(now) else found.epoch
  {
    AppendAll(contents, edits, img);
    var base := contents + EditsText(edits);
    if cut < |EditText(last)| {
      TornAppend(base, last, cut);
      assert base + "" == base;
    } else {
      assert EditText(last)[..cut] == EditText(last);
      AppendIsEdit(base, last, before);
    }
  }

  /** Nothing but reported commands more than a day past their expiry is forgotten. */
  lemma OpenForgetsOnlyTheExpired(contents: string, maximum: nat, now: int, id: string)
    requires Opened(contents, maximum, now).Ready? && id in Load(contents).value.entries
    ensures var e := Load(contents).value.entries[id];
            var kept := Opened(contents, maximum, now).image.entries;
            if e.phase == Reported && e.expires + 86400 < now then id !in kept
            else id in kept && kept[id] == e
  {
  }

  /**
   Opening again at the same time changes nothing, except for one kind of ledger: a ledger from before
   epochs whose last entry was forgotten is rewritten as an empty file, and the next open takes it for
   a new ledger.
   */
  lemma ReopenKeepsTheEpoch(contents: string, maximum: nat, now: int, file: string)
    requires now < SIGNED_LIMIT && Opened(contents, maximum, now).Ready?
    requires ImageOk(Opened(contents, maximum, now).image)
    requires LeftBehind(file, contents, Opened(contents, maximum, now))
    ensures var image := Opened(contents, maximum, now).image;
            Opened(file, maximum, now) == Ready(image, false) <==> image != Image(0, map[])
  {
    var o := Opened(contents, maximum, now);
    OpenLeavesItsImage(contents, maximum, now, file);
    assert Kept(o.image.entries, now) == o.image.entries;
    if file != [] { NonemptyLoadIsNotEmpty(Lines(file)); }
  }

  /**
   Such a ledger: any one command without an epoch line, reported and a day past its expiry. It opens empty and without
   an epoch, its rewrite is the empty file, and the next opening takes that for a new ledger that begins now.
   */
  lemma EpochCanChange(id: string, e: Entry, maximum: nat, now: int)
    requires CommandIdOk(id) && EntryOk(e) && Forgettable(e, now) && 0 < now < SIGNED_LIMIT
    ensures var contents := EditsText(EntryEdits(id, e));
            && Opened(contents, maximum, now) == Ready(Image(0, map[]), true)
            && LeftBehind("", contents, Opened(contents, maximum, now))
            && Opened("", maximum, now) == Ready(Image(now, map[]), true)
  {
    var contents := EditsText(EntryEdits(id, e));
    OneCommandLoads(id, e);
    assert Kept(map[id := e], now) == map[] && |map[id := e]| == 1;
    assert Enumerates([], map[]) && Render(Image(0, map[]), []) == "";
    assert Kept(map[], now) == map[];
  }

  lemma OneCommandLoads(id: string, e: Entry)
    requires CommandIdOk(id) && EntryOk(e)
    ensures var contents := EditsText(EntryEdits(id, e));
            contents != [] && WholeLines(contents) == contents && Load(contents) == Some(Image(0, map[id := e]))
  {
    var edits := EntryEdits(id, e);
    EntryEditsRebuild(id, e, EMPTY);
    assert Load("") == Some(EMPTY);
    AppendAll("", edits, EMPTY);
    assert "" + EditsText(edits) == EditsText(edits);
    assert |EditText(edits[0])| > 0;
  }

  lemma ApplyLineNotEmpty(img: Image, line: string, first: bool)
    requires ApplyLine(img, line, first).Some?
    ensures ApplyLine(img, line, first).value != EMPTY
  {
    var parts := Fields(line, '\t');
    var after := ApplyLine(img, line, first).value;
    if !(first && |parts| == 2 && parts[0] == "E") {
      assert parts[1] in after.entries;
    }
  }

  lemma NonemptyLoadIsNotEmpty(lines: seq<string>)
    requires lines != [] && LoadLines(lines).Some?
    ensures LoadLines(lines).value != EMPTY
  {
    var n := |lines| - 1;
    ApplyLineNotEmpty(LoadLines(lines[..n]).value, lines[n], n == 0);
  }
}
