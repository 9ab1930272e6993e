/**
 The stored baseline: a header with the number of entries and one line of eleven fields for each. What was stored is
 read back but for the facts that take no part in comparisons, and nothing shorter is ever accepted.
 */
module FimFormat {
  import opened Text
  import opened Fim
  import opened FimMonitors
  import JsonStrings

  // ---- hexadecimal ---------------------------------------------------------------------------

  function Nibble(c: char): int {
    if '0' <= c <= '9' then c as int - '0' as int else if 'a' <= c <= 'f' then c as int - 'a' as int + 10 else -1
  }

  predicate Bytes(s: string) { forall i :: 0 <= i < |s| ==> s[i] as int < 256 }

  function HexEncode(s: string): (h: string)
    requires Bytes(s)
  {
    if s == "" then ""
        else [JsonStrings.HexDigit(s[0] as int / 16), JsonStrings.HexDigit(s[0] as int % 16)] + HexEncode(s[1..])
  }

  function HexDecode(h: string): (s: Option<string>) {
    if h == "" then Some("")
    else if |h| == 1 || Nibble(h[0]) < 0 || Nibble(h[1]) < 0 then None
    else
      var rest := HexDecode(h[2..]);
      if rest.None? then None else Some([(Nibble(h[0]) * 16 + Nibble(h[1])) as char] + rest.value)
  }

  /** Characters that cannot be mistaken for a separator or for the dash of an empty field. */
  predicate Safe(s: string) { ' ' !in s && '\n' !in s }

  lemma HexPair(c: char)
    requires c as int < 256
    ensures var h, l := JsonStrings.HexDigit(c as int / 16), JsonStrings.HexDigit(c as int % 16);
            Nibble(h) == c as int / 16 && Nibble(l) == c as int % 16
  {
  }

  lemma {:induction false} HexRoundTrip(s: string)
    requires Bytes(s)
    ensures HexDecode(HexEncode(s)) == Some(s) && |HexEncode(s)| == 2 * |s|
  {
    if s != "" {
      var h := HexEncode(s);
      HexRoundTrip(s[1..]);
      HexPair(s[0]);
      assert h[2..] == HexEncode(s[1..]);
      assert s == [s[0]] + s[1..];
    }
  }

  // ---- one line ------------------------------------------------------------------------------

  predicate ValidCategory(s: string) {
    1 <= |s| <= 32 && forall i :: 0 <= i < |s| ==> 'a' <= s[i] <= 'z' || s[i] == '_'
  }

  predicate ValidHashStatus(s: string) {
    s == "computed" || s == "too_large" || s == "unreadable" || s == "not_applicable"
  }

  predicate ValidKind(s: string) { s == "file" || s == "symlink" || s == "other" }

  const MAX_32: nat := 0xFFFF_FFFF
  const MAX_64: nat := 0xFFFF_FFFF_FFFF_FFFF

  /** `parse_number` for an unsigned number with this greatest value. */
  function ParseNumber(s: string, greatest: nat): Option<nat> {
    if s == "" || !AllDigits(s) || DigitsValue(s) > greatest then None else Some(DigitsValue(s))
  }

  /** The parts of a line that are numbers. */
  datatype Numbers = Numbers(uid: nat, gid: nat, mode: nat, size: nat, mtime: nat)

  predicate WellFormed(e: Entry) {
    && e.path != "" && e.path[0] == '/' && Bytes(e.path) && ValidCategory(e.item.category) && ValidKind(e.item.kind)
    && e.item.uid <= MAX_32 && e.item.gid <= MAX_32 && e.item.mode <= MAX_32 && e.item.size <= MAX_64 &&
         e.item.mtime <= MAX_64
    && ValidHashStatus(e.item.hashStatus) && Bytes(e.item.target)
    && (e.item.sha256 == "" || (|e.item.sha256| == 64 && HexDecode(e.item.sha256).Some?))
  }

  /** An item as the file keeps it. */
  function Stored(item: Item): Item { item.(facts := "") }

  function Dashed(s: string): string { if s == "" then "-" else s }

  function FieldsOf(e: Entry): (f: seq<string>)
    requires WellFormed(e)
    ensures |f| == 11
  {
    [HexEncode(e.path), e.item.category, e.item.kind, Decimal(e.item.uid), Decimal(e.item.gid), Decimal(e.item.mode),
     Decimal(e.item.size), Decimal(e.item.mtime), e.item.hashStatus, Dashed(e.item.sha256),
         Dashed(HexEncode(e.item.target))]
  }

  function LineOf(e: Entry): string
    requires WellFormed(e)
  {
    Join(FieldsOf(e), ' ')
  }

  function ParseNumbers(f: seq<string>): Option<Numbers>
    requires |f| == 11
  {
    var uid, gid, mode, size, mtime := ParseNumber(f[3], MAX_32), ParseNumber(f[4], MAX_32), ParseNumber(f[5], MAX_32),
        ParseNumber(f[6], MAX_64), ParseNumber(f[7], MAX_64);
    if uid.None? || gid.None? || mode.None? || size.None? || mtime.None? then None
    else Some(Numbers(uid.value, gid.value, mode.value, size.value, mtime.value))
  }

  /** The digest field: a dash, or 64 hexadecimal digits. */
  function ParseDigest(s: string): Option<string> {
    if s == "-" then Some("") else if |s| != 64 || HexDecode(s).None? then None else Some(s)
  }

  function ParseTarget(s: string): Option<string> { if s == "-" then Some("") else HexDecode(s) }

  function ParseFields(f: seq<string>): (e: Option<Entry>)
    requires |f| == 11
  {
    var path, numbers, digest, target := HexDecode(f[0]), ParseNumbers(f), ParseDigest(f[9]), ParseTarget(f[10]);
    if path.None? || path.value == "" || path.value[0] != '/' || !ValidCategory(f[1]) || !ValidHashStatus(f[8]) ||
        !ValidKind(f[2]) then None
    else if numbers.None? || digest.None? || target.None? then None
    else
      var n := numbers.value;
      Some(Entry(path.value,
          Item(f[1], f[2], n.uid, n.gid, n.mode, n.size, n.mtime, digest.value, f[8], target.value, "")))
  }

  function ParseLine(line: string): Option<Entry> {
    var f := Fields(line, ' ');
    if |f| != 11 then None else ParseFields(f)
  }

  lemma DecimalParses(n: nat, greatest: nat)
    requires n <= greatest
    ensures ParseNumber(Decimal(n), greatest) == Some(n)
  {
    DecimalValue(n);
  }

  lemma DecimalIsSafe(n: nat)
    ensures Safe(Decimal(n))
  {
    var d := Decimal(n);
    forall i | 0 <= i < |d|
      ensures d[i] != ' ' && d[i] != '\n'
    {
      assert IsDigit(d[i]);
    }
  }

  lemma {:induction false} HexIsSafe(h: string)
    requires HexDecode(h).Some?
    ensures Safe(h) && (h != "" ==> h != "-")
    decreases |h|
  {
    if h != "" {
      HexIsSafe(h[2..]);
      assert h == [h[0], h[1]] + h[2..];
    }
  }

  lemma NumbersParse(f: seq<string>, n: Numbers)
    requires |f| == 11 && n.uid <= MAX_32 && n.gid <= MAX_32 && n.mode <= MAX_32 && n.size <= MAX_64 &&
             n.mtime <= MAX_64
    requires f[3..8] == [Decimal(n.uid), Decimal(n.gid), Decimal(n.mode), Decimal(n.size), Decimal(n.mtime)]
    ensures ParseNumbers(f) == Some(n)
  {
    assert f[3] == f[3..8][0] && f[4] == f[3..8][1] && f[5] == f[3..8][2] && f[6] == f[3..8][3] && f[7] == f[3..8][4];
    DecimalParses(n.uid, MAX_32);
    DecimalParses(n.gid, MAX_32);
    DecimalParses(n.mode, MAX_32);
    DecimalParses(n.size, MAX_64);
    DecimalParses(n.mtime, MAX_64);
  }

  lemma DigestParses(digest: string)
    requires digest == "" || (|digest| == 64 && HexDecode(digest).Some?)
    ensures ParseDigest(Dashed(digest)) == Some(digest)
  {
  }

  lemma TargetParses(target: string)
    requires Bytes(target)
    ensures ParseTarget(Dashed(HexEncode(target))) == Some(target)
  {
    HexRoundTrip(target);
    if target != "" { HexIsSafe(HexEncode(target)); }
  }

  lemma FieldsParse(e: Entry)
    requires WellFormed(e)
    ensures ParseFields(FieldsOf(e)) == Some(Entry(e.path, Stored(e.item)))
  {
    var item, f := e.item, FieldsOf(e);
    var n := Numbers(item.uid, item.gid, item.mode, item.size, item.mtime);
    HexRoundTrip(e.path);
    assert f[3..8] == [Decimal(n.uid), Decimal(n.gid), Decimal(n.mode), Decimal(n.size), Decimal(n.mtime)];
    NumbersParse(f, n);
    DigestParses(item.sha256);
    TargetParses(item.target);
  }

  lemma StatusIsSafe(s: string)
    requires ValidHashStatus(s)
    ensures Safe(s)
  {
  }

  lemma KindIsSafe(s: string)
    requires ValidKind(s)
    ensures Safe(s)
  {
  }

  lemma CategoryIsSafe(s: string)
    requires ValidCategory(s)
    ensures Safe(s)
  {
  }

  lemma DashedIsSafe(h: string)
    requires HexDecode(h).Some?
    ensures Safe(Dashed(h))
  {
    HexIsSafe(h);
  }

  lemma FieldsAreSafe(e: Entry)
    requires WellFormed(e)
    ensures forall i :: 0 <= i < 11 ==> Safe(FieldsOf(e)[i])
  {
    var f := FieldsOf(e);
    HexRoundTrip(e.path);
    HexIsSafe(f[0]);
    CategoryIsSafe(f[1]);
    KindIsSafe(f[2]);
    DecimalIsSafe(e.item.uid);
    DecimalIsSafe(e.item.gid);
    DecimalIsSafe(e.item.mode);
    DecimalIsSafe(e.item.size);
    DecimalIsSafe(e.item.mtime);
    StatusIsSafe(f[8]);
    DashedIsSafe(e.item.sha256);
    HexRoundTrip(e.item.target);
    DashedIsSafe(HexEncode(e.item.target));
  }

  /** A line is read as its entry, and has no line break in it. */
  lemma LineParses(e: Entry)
    requires WellFormed(e)
    ensures ParseLine(LineOf(e)) == Some(Entry(e.path, Stored(e.item))) && '\n' !in LineOf(e)
  {
    FieldsAreSafe(e);
    assert forall s :: s in FieldsOf(e) ==> Safe(s);
    FieldsOfJoin(FieldsOf(e), ' ');
    JoinLacks(FieldsOf(e), ' ', '\n');
    FieldsParse(e);
  }

  // ---- the file ------------------------------------------------------------------------------

  const HEADER: string := "PANOPTICON-FIM 1 "

  ghost predicate AllWellFormed(es: seq<Entry>) { forall i :: 0 <= i < |es| ==> WellFormed(es[i]) }

  function LinesOf(es: seq<Entry>): string
    requires forall i :: 0 <= i < |es| ==> WellFormed(es[i])
  {
    if es == [] then "" else LineOf(es[0]) + ("\n" + LinesOf(es[1..]))
  }

  /** `fim_serialise`. */
  function Serialise(es: seq<Entry>): string
    requires forall i :: 0 <= i < |es| ==> WellFormed(es[i])
  {
    HEADER + (Decimal(|es|) + ("\n" + LinesOf(es)))
  }

  /** The lines after the header: whole ones only, no path twice, as many as declared. */
  function ParseLines(t: string, declared: nat, read: Baseline): (r: Option<Baseline>)
    decreases |t|
  {
    if t == "" then if |read| == declared then Some(read) else None
    else
      var end := IndexOf(t, '\n');
      if end == |t| then None
      else
        var e := ParseLine(t[..end]);
        if e.None? || e.value.path in read || |read| + 1 > declared then None
        else ParseLines(t[end + 1..], declared, read[e.value.path := e.value.item])
  }

  /** `fim_parse`. */
  function Parse(text: string, maximum: nat): Option<Baseline> {
    if HEADER <= text then ParseCounted(text[|HEADER|..], maximum) else None
  }

  /** The count, and the lines after it. */
  function ParseCounted(t: string, maximum: nat): Option<Baseline> {
    var end := IndexOf(t, '\n');
    if end == |t| then None
    else
      ParseDeclared(ParseNumber(t[..end], MAX_64), t[end + 1..], maximum)
  }

  function ParseDeclared(declared: Option<nat>, rest: string, maximum: nat): Option<Baseline> {
    if declared.None? || declared.value > maximum then None else ParseLines(rest, declared.value, map[])
  }

  /** The loop of the reader. */
  method ReadBaseline(text: string, maximum: nat) returns (r: Option<Baseline>)
    ensures r == Parse(text, maximum)
  {
    if !(HEADER <= text) { return None; }
    var t := text[|HEADER|..];
    var end := IndexOf(t, '\n');
    if end == |t| { return None; }
    var declared := ParseNumber(t[..end], MAX_64);
    if declared.None? || declared.value > maximum { return None; }
    var rest, read := t[end + 1..], map[];
    while rest != ""
      invariant ParseLines(rest, declared.value, read) == Parse(text, maximum)
      decreases |rest|
    {
      var stop := IndexOf(rest, '\n');
      if stop == |rest| { return None; }
      var e := ParseLine(rest[..stop]);
      if e.None? || e.value.path in read || |read| + 1 > declared.value { return None; }
      rest, read := rest[stop + 1..], read[e.value.path := e.value.item];
    }
    return if |read| == declared.value then Some(read) else None;
  }

  /** What reading a listing line by line collects. */
  function Collected(es: seq<Entry>, read: Baseline): Baseline {
    if es == [] then read else Collected(es[1..], read[es[0].path := Stored(es[0].item)])
  }

  lemma LineEnds(line: string, rest: string)
    requires '\n' !in line
    ensures var t := line + ("\n" + rest); IndexOf(t, '\n') == |line| && t[..|line|] == line && t[|line| + 1..] == rest
  {
    var t := line + ("\n" + rest);
    assert t[|line|] == '\n';
    assert forall j :: 0 <= j < |line| ==> t[j] == line[j] && line[j] in line;
  }

  ghost predicate Fresh(es: seq<Entry>, read: Baseline) { forall i :: 0 <= i < |es| ==> es[i].path !in read }

  lemma NextFresh(es: seq<Entry>, read: Baseline)
    requires Sorted(es) && es != [] && Fresh(es, read)
    ensures Sorted(es[1..]) && Fresh(es[1..], read[es[0].path := Stored(es[0].item)])
    ensures |read[es[0].path := Stored(es[0].item)]| == |read| + 1
  {
    var more := read[es[0].path := Stored(es[0].item)];
    forall i | 0 <= i < |es[1..]|
      ensures es[1..][i].path !in more
    {
      assert Less(es[0].path, es[i + 1].path);
      NotLessItself(es[0].path);
    }
    assert more.Keys == read.Keys + {es[0].path};
    assert |more| == |more.Keys| && |read| == |read.Keys|;
  }

  /** One whole line is read, and the rest is left. */
  lemma EntryStep(e: Entry, rest: string, declared: nat, read: Baseline)
    requires WellFormed(e) && e.path !in read && |read| + 1 <= declared
    ensures ParseLines(LineOf(e) + ("\n" + rest), declared, read) ==
            ParseLines(rest, declared, read[e.path := Stored(e.item)])
    ensures '\n' !in LineOf(e)
  {
    LineParses(e);
    LineEnds(LineOf(e), rest);
  }

  lemma {:induction false} LinesParse(es: seq<Entry>, declared: nat, read: Baseline)
    requires AllWellFormed(es) && Sorted(es) && Fresh(es, read) && |read| + |es| == declared
    ensures ParseLines(LinesOf(es), declared, read) == Some(Collected(es, read))
    decreases |es|
  {
    if es != [] {
      EntryStep(es[0], LinesOf(es[1..]), declared, read);
      NextFresh(es, read);
      LinesParse(es[1..], declared, read[es[0].path := Stored(es[0].item)]);
    }
  }

  /** Whatever is cut off the end of the lines, the rest is not accepted. */
  lemma {:induction false} CutLinesFail(es: seq<Entry>, declared: nat, read: Baseline, t: string)
    requires AllWellFormed(es) && Sorted(es) && Fresh(es, read) && |read| + |es| == declared
    requires t <= LinesOf(es) && |t| < |LinesOf(es)|
    ensures ParseLines(t, declared, read).None?
    decreases |es|
  {
    if t != "" {
      var line, rest := LineOf(es[0]), LinesOf(es[1..]);
      EntryStep(es[0], rest, declared, read);
      if |t| <= |line| {
        CutLine(t, line, "\n" + rest);
      } else {
        CutAfterLine(t, line, rest);
        var shorter := t[|line| + 1..];
        EntryStep(es[0], shorter, declared, read);
        NextFresh(es, read);
        CutLinesFail(es[1..], declared, read[es[0].path := Stored(es[0].item)], shorter);
      }
    }
  }

  lemma CutLine(t: string, line: string, more: string)
    requires t <= line + more && |t| <= |line| && '\n' !in line
    ensures IndexOf(t, '\n') == |t|
  {
    assert forall j :: 0 <= j < |t| ==> t[j] == line[j] && line[j] in line;
  }

  lemma CutAfterLine(t: string, line: string, rest: string)
    requires t <= line + ("\n" + rest) && |line| < |t| < |line| + 1 + |rest|
    ensures var shorter := t[|line| + 1..]; t == line + ("\n" + shorter) && shorter <= rest && |shorter| < |rest|
  {
    var all := line + ("\n" + rest);
    assert t == all[..|t|];
    assert all[|line| + 1..] == rest;
  }

  /** The header is read, and the lines are left. */
  lemma CountStep(n: nat, rest: string, maximum: nat)
    requires n <= MAX_64
    ensures ParseCounted(Decimal(n) + ("\n" + rest), maximum) == if n <= maximum then ParseLines(rest, n, map[])
            else None
  {
    DecimalIsSafe(n);
    DecimalParses(n, MAX_64);
    CountEnds(Decimal(n), rest, maximum);
  }

  lemma CountEnds(line: string, rest: string, maximum: nat)
    requires '\n' !in line
    ensures ParseCounted(line + ("\n" + rest), maximum) == ParseDeclared(ParseNumber(line, MAX_64), rest, maximum)
  {
    LineEnds(line, rest);
  }

  lemma Headed(t: string, maximum: nat)
    ensures Parse(HEADER + t, maximum) == ParseCounted(t, maximum)
  {
    assert (HEADER + t)[|HEADER|..] == t;
  }

  lemma HeadStep(n: nat, rest: string, maximum: nat)
    requires n <= MAX_64
    ensures Parse(HEADER + (Decimal(n) + ("\n" + rest)), maximum) == if n <= maximum then ParseLines(rest, n, map[])
            else None
  {
    Headed(Decimal(n) + ("\n" + rest), maximum);
    CountStep(n, rest, maximum);
  }

  /** A stored baseline is read back within the limit, as it was but for the facts; over the limit it is refused. */
  lemma StoredIsRead(es: seq<Entry>, maximum: nat)
    requires AllWellFormed(es) && Sorted(es) && |es| <= MAX_64
    ensures Parse(Serialise(es), maximum) == if |es| <= maximum then Some(Collected(es, map[])) else None
  {
    HeadStep(|es|, LinesOf(es), maximum);
    if |es| <= maximum { LinesParse(es, |es|, map[]); }
  }

  lemma {:induction false} CollectedIs(es: seq<Entry>, read: Baseline, path: string)
    requires Sorted(es) && Fresh(es, read)
    ensures Get(Collected(es, read), path) == if Lookup(es, path).Some? then Some(Stored(Lookup(es, path).value))
            else Get(read, path)
    decreases |es|
  {
    if es != [] {
      NextFresh(es, read);
      TailIsAbove(es);
      AboveHasNot(es[0].path, es[1..]);
      CollectedIs(es[1..], read[es[0].path := Stored(es[0].item)], path);
    }
  }

  /** Restart silence: a baseline that was stored and read back differs in nothing that is compared. */
  lemma StoredIsSilent(es: seq<Entry>, m: Baseline, maximum: nat, changes: seq<Change>)
    requires AllWellFormed(es) && Lists(es, m) && |es| <= MAX_64 && |es| <= maximum
    ensures Parse(Serialise(es), maximum).Some?
    ensures Reports(changes, m, Parse(Serialise(es), maximum).value) ==> changes == []
  {
    StoredIsRead(es, maximum);
    var back := Collected(es, map[]);
    forall path
      ensures Get(back, path) == if path in m then Some(Stored(m[path])) else None
    {
      CollectedIs(es, map[], path);
      assert Lookup(es, path) == Get(m, path);
    }
    if Reports(changes, m, back) {
      KeysAgree(m, back);
      SilentIffSame(changes, m, back);
    }
  }

  lemma KeysAgree(m: Baseline, back: Baseline)
    requires forall path :: Get(back, path) == if path in m then Some(Stored(m[path])) else None
    ensures m.Keys == back.Keys && forall path :: path in m && path in back ==> Same(m[path], back[path])
  {
    forall path
      ensures path in m <==> path in back
    {
      assert Get(back, path) == if path in m then Some(Stored(m[path])) else None;
    }
    forall path | path in m && path in back
      ensures Same(m[path], back[path])
    {
      assert Get(back, path) == Some(Stored(m[path]));
    }
  }

  /** A file that lost any part of its end is never accepted. */
  lemma CutIsRefused(es: seq<Entry>, maximum: nat, text: string)
    requires AllWellFormed(es) && Sorted(es) && |es| <= MAX_64
    requires text <= Serialise(es) && |text| < |Serialise(es)|
    ensures Parse(text, maximum).None?
  {
    if HEADER <= text {
      var t, count, lines := text[|HEADER|..], Decimal(|es|), LinesOf(es);
      assert text == HEADER + t;
      assert Serialise(es)[|HEADER|..] == count + ("\n" + lines);
      assert t <= count + ("\n" + lines);
      if |t| <= |count| {
        DecimalIsSafe(|es|);
        CutHead(t, count, "\n" + lines, maximum);
      } else {
        CutAfterLine(t, count, lines);
        var shorter := t[|count| + 1..];
        HeadStep(|es|, shorter, maximum);
        if |es| <= maximum { CutLinesFail(es, |es|, map[], shorter); }
      }
    }
  }

  lemma CutHead(t: string, count: string, more: string, maximum: nat)
    requires t <= count + more && |t| <= |count| && '\n' !in count
    ensures Parse(HEADER + t, maximum).None?
  {
    CutLine(t, count, more);
    assert (HEADER + t)[|HEADER|..] == t;
  }
}
