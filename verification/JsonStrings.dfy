/**
 Strings of the JSON documents the sensor writes and reads: the escaping loop of the writer with its fast path, the
 unescaping loop of the reader, and the replacement of bytes that are not UTF-8 by U+FFFD.
 */
module JsonStrings {
  import opened Text
  import opened Utf8

  // ---- what the writer means -----------------------------------------------------------------

  predicate Plain(c: char) { 0x20 <= c as int < 0x7F && c != '"' && c != '\\' }

  function Replacement(): string { Encode(0xFFFD) }

  /** How many bytes the writer takes at once: a whole sequence, or one byte that starts none. */
  function Taken(s: string): (n: nat)
    requires s != []
    ensures 1 <= n <= |s|
  {
    var n := WriterLength(s, 0);
    if n == 0 then 1 else n
  }

  function CleanPiece(s: string): string
    requires s != []
  {
    if WriterLength(s, 0) == 0 then Replacement() else s[..Taken(s)]
  }

  /** The text with every byte that belongs to no UTF-8 sequence replaced. */
  function Clean(s: string): string
    decreases |s|
  {
    if s == [] then [] else CleanPiece(s) + Clean(s[Taken(s)..])
  }

  function HexDigit(d: nat): (c: char)
    requires d < 16
  {
    if d < 10 then ('0' as int + d) as char else ('a' as int + d - 10) as char
  }

  function Escape(c: char): (e: string)
    requires c as int < 0x80
  {
    if c == '"' then "\\\""
    else if c == '\\' then "\\\\"
    else if c == '\n' then "\\n"
    else if c == '\r' then "\\r"
    else if c == '\t' then "\\t"
    else if c as int == 8 then "\\b"
    else if c as int == 12 then "\\f"
    else if c as int < 0x20 || c as int == 0x7F then "\\u00" + [HexDigit(c as int / 16), HexDigit(c as int % 16)]
    else [c]
  }

  function Piece(s: string): string
    requires s != []
  {
    if s[0] as int < 0x80 then Escape(s[0]) else CleanPiece(s)
  }

  /** The body of the JSON string the writer emits for `s`. */
  function Body(s: string): string
    decreases |s|
  {
    if s == [] then [] else Piece(s) + Body(s[Taken(s)..])
  }

  /** A run that needs no escaping is its own body. */
  lemma {:induction false} PlainRun(s: string, k: nat)
    requires k <= |s| && forall i :: 0 <= i < k ==> Plain(s[i])
    ensures Body(s) == s[..k] + Body(s[k..])
    ensures Clean(s) == s[..k] + Clean(s[k..])
    decreases k
  {
    if k > 0 {
      PlainOne(s);
      PlainRun(s[1..], k - 1);
      Regroup(s, k, Body(s[k..]));
      Regroup(s, k, Clean(s[k..]));
    } else {
      Regroup(s, 0, Body(s));
    }
  }

  lemma PlainOne(s: string)
    requires s != [] && Plain(s[0])
    ensures Body(s) == [s[0]] + Body(s[1..]) && Clean(s) == [s[0]] + Clean(s[1..])
  {
    assert Taken(s) == 1 && CleanPiece(s) == [s[0]];
  }

  lemma Regroup(s: string, k: nat, more: string)
    requires k <= |s|
    ensures k == 0 ==> s[k..] == s && s[..k] + more == more
    ensures k > 0 ==> s[1..][k - 1..] == s[k..] && [s[0]] + (s[1..][..k - 1] + more) == s[..k] + more
  {
    if k > 0 {
      assert [s[0]] + s[1..][..k - 1] == s[..k];
    }
  }

  lemma {:induction false} CleanOnlyGrows(s: string)
    ensures |Clean(s)| >= |s|
    decreases |s|
  {
    if s != [] { CleanOnlyGrows(s[Taken(s)..]); }
  }

  /** One piece decides: a replaced byte shows in the result, a kept sequence leaves the question to the rest. */
  lemma CleanStep(s: string)
    requires s != []
    ensures WriterLength(s, 0) == 0 ==> Clean(s) != s
    ensures WriterLength(s, 0) > 0 ==> (Clean(s) == s <==> Clean(s[Taken(s)..]) == s[Taken(s)..])
  {
    var n := Taken(s);
    CleanOnlyGrows(s[n..]);
    if WriterLength(s, 0) > 0 {
      assert s == s[..n] + s[n..];
      SamePrefix(s[..n], Clean(s[n..]), s[n..]);
    }
  }

  method PlainEnd(value: string, from: nat) returns (run: nat)
    requires from <= |value|
    ensures from <= run <= |value|
    ensures forall i :: from <= i < run ==> Plain(value[i])
    ensures run < |value| ==> !Plain(value[run])
  {
    run := from;
    while run < |value| && Plain(value[run])
      invariant from <= run <= |value|
      invariant forall i :: from <= i < run ==> Plain(value[i])
    {
      run := run + 1;
    }
  }

  /** `append_json_string_body`: appends the body and says whether anything had to be replaced. */
  method AppendStringBody(before: string, value: string) returns (out: string, replaced: bool)
    ensures out == before + Body(value)
    ensures replaced <==> Clean(value) != value
  {
    out, replaced := before, false;
    var index := 0;
    NothingLeft(value, []);
    while index < |value|
      invariant index <= |value|
      invariant out + Body(value[index..]) == before + Body(value)
      invariant replaced ==> Clean(value) != value
      invariant !replaced ==> (Clean(value) == value <==> Clean(value[index..]) == value[index..])
    {
      var run := PlainEnd(value, index);
      if run > index {
        PlainStep(value, index, run, out);
        out, index := out + value[index..run], run;
      } else {
        var one;
        out, index, one := AppendPiece(out, value, index);
        replaced := replaced || one;
      }
    }
    NothingLeft(value, out);
  }

  /** The slow path: one escape, one whole sequence, or one replaced byte. */
  method AppendPiece(before: string, value: string, index: nat) returns (out: string, next: nat, replaced: bool)
    requires index < |value|
    ensures index < next <= |value|
    ensures before + Body(value[index..]) == out + Body(value[next..])
    ensures if replaced then Clean(value[index..]) != value[index..] else Clean(value[index..]) == value[index..] <==>
              Clean(value[next..]) == value[next..]
  {
    var piece;
    piece, next, replaced := NextPiece(value, index);
    BodyStepTo(value[index..], value[next..], piece);
    CleanStepTo(value[index..], value[next..], replaced);
    out := before + piece;
    Associative(before, piece, Body(value[next..]));
  }

  method NextPiece(value: string, index: nat) returns (piece: string, next: nat, replaced: bool)
    requires index < |value|
    ensures index < next <= |value|
    ensures var rest := value[index..]; piece == Piece(rest) && value[next..] == rest[Taken(rest)..]
    ensures replaced <==> WriterLength(value[index..], 0) == 0
  {
    LengthOfSuffix(value, index);
    DropTwice(value, index, Taken(value[index..]));
    var c := value[index];
    if c as int >= 0x80 {
      var length := ValidUtf8Sequence(value, index);
      if length == 0 { return Replacement(), index + 1, true; }
      return value[index..index + length], index + length, false;
    }
    return Escape(c), index + 1, false;
  }

  lemma NothingLeft(value: string, out: string)
    ensures value[0..] == value && value[|value|..] == [] && out + Body([]) == out && Clean([]) == []
  {
  }

  lemma PlainStep(value: string, index: nat, run: nat, out: string)
    requires index < run <= |value| && forall i :: index <= i < run ==> Plain(value[i])
    ensures out + Body(value[index..]) == out + value[index..run] + Body(value[run..])
    ensures Clean(value[index..]) == value[index..] <==> Clean(value[run..]) == value[run..]
  {
    var rest, k := value[index..], run - index;
    PlainRun(rest, k);
    DropTwice(value, index, k);
    SplitAt(value, index, run);
    Associative(out, value[index..run], Body(value[run..]));
    SamePrefix(rest[..k], Clean(rest[k..]), rest[k..]);
  }

  lemma SamePrefix(p: string, x: string, y: string)
    ensures p + x == p + y <==> x == y
  {
    assert (p + x)[|p|..] == x && (p + y)[|p|..] == y;
  }

  lemma BodyStepTo(s: string, tail: string, piece: string)
    requires s != [] && tail == s[Taken(s)..] && piece == Piece(s)
    ensures Body(s) == piece + Body(tail)
  {
  }

  lemma CleanStepTo(s: string, tail: string, replaced: bool)
    requires s != [] && tail == s[Taken(s)..] && (replaced <==> WriterLength(s, 0) == 0)
    ensures if replaced then Clean(s) != s else Clean(s) == s <==> Clean(tail) == tail
  {
    CleanStep(s);
  }

  lemma SplitAt(s: string, i: nat, j: nat)
    requires i <= j <= |s|
    ensures s[i..][..j - i] == s[i..j] && s[i..] == s[i..j] + s[j..]
  {
  }

  lemma DropTwice(s: string, i: nat, j: nat)
    requires i + j <= |s|
    ensures s[i..][j..] == s[i + j..]
  {
  }

  lemma LengthOfSuffix(s: string, at: nat)
    requires at < |s|
    ensures WriterLength(s, at) == WriterLength(s[at..], 0)
  {
    RecognisersAgree(s, at);
    RecognisersAgree(s[at..], 0);
  }

  // ---- what the reader does ------------------------------------------------------------------

  datatype Escaped = Escaped(text: string, taken: nat)
  datatype StringRead = StringRead(text: string, rest: string)

  function HexValue(c: char): (d: Option<nat>)
    ensures d.Some? ==> d.value < 16
  {
    if '0' <= c <= '9' then Some(c as int - '0' as int)
    else if 'a' <= c <= 'f' then Some(c as int - 'a' as int + 10)
    else if 'A' <= c <= 'F' then Some(c as int - 'A' as int + 10)
    else None
  }

  /** `hex4`. */
  function Hex4(t: string): (code: Option<nat>)
    ensures code.Some? ==> |t| >= 4 && code.value < 0x10000
  {
    if |t| < 4 then None
    else if HexValue(t[0]).None? || HexValue(t[1]).None? || HexValue(t[2]).None? || HexValue(t[3]).None? then None
    else Some(((HexValue(t[0]).value * 16 + HexValue(t[1]).value) * 16 + HexValue(t[2]).value) * 16 +
        HexValue(t[3]).value)
  }

  datatype CodeRead = CodeRead(code: int, taken: nat)

  /** The four digits after `\u`, and those of the low half when they are a high surrogate. */
  function UnicodeEscape(t: string): (e: Option<CodeRead>)
    ensures e.Some? ==> e.value.taken <= |t| && Scalar(e.value.code)
  {
    var code := Hex4(t);
    if code.None? || 0xDC00 <= code.value <= 0xDFFF then None
    else if 0xD800 <= code.value <= 0xDBFF then
      if |t| < 6 || t[4] != '\\' || t[5] != 'u' then None
      else
        var low := Hex4(t[6..]);
        if low.None? || low.value < 0xDC00 || low.value > 0xDFFF then None
        else Some(CodeRead(0x10000 + (code.value - 0xD800) * 1024 + (low.value - 0xDC00), 10))
    else Some(CodeRead(code.value, 4))
  }

  function ShortEscape(c: char): (e: Option<char>)
    ensures e.Some? ==> e.value as int < 0x80
  {
    if c == '"' || c == '\\' || c == '/' then Some(c)
    else if c == 'b' then Some(8 as char)
    else if c == 'f' then Some(12 as char)
    else if c == 'n' then Some('\n')
    else if c == 'r' then Some('\r')
    else if c == 't' then Some('\t')
    else None
  }

  /** What follows a backslash. */
  function ReadEscape(t: string): (e: Option<Escaped>)
    ensures e.Some? ==> e.value.taken <= |t|
  {
    if t == [] then None
    else if t[0] == 'u' then
      var e := UnicodeEscape(t[1..]);
      if e.None? then None else Some(Escaped(Encode(e.value.code), 1 + e.value.taken))
    else
      var c := ShortEscape(t[0]);
      if c.None? then None else Some(Escaped([c.value], 1))
  }

  /** The reader's loop after the opening quote: what it collects and what is left after the closing one. */
  function ReadBody(t: string, out: string): (r: Option<StringRead>)
    ensures r.Some? ==> |r.value.rest| < |t|
    decreases |t|, 1
  {
    if t == [] then None
    else if t[0] == '"' then Some(StringRead(out, t[1..]))
    else ReadPiece(t, out)
  }

  /** One sequence or one escape, and then the rest. */
  function ReadPiece(t: string, out: string): (r: Option<StringRead>)
    requires t != []
    ensures r.Some? ==> |r.value.rest| < |t|
    decreases |t|, 0
  {
    if t[0] as int < 0x20 then None
    else if t[0] != '\\' then
      var n := ReaderLength(t, 0);
      if n == 0 then None else ReadBody(t[n..], out + t[..n])
    else
      var e := ReadEscape(t[1..]);
      if e.None? then None else ReadBody(t[1 + e.value.taken..], out + e.value.text)
  }

  // ---- they undo each other ------------------------------------------------------------------

  lemma EscapeReadsBack(c: char, more: string, out: string)
    requires c as int < 0x80 && !Plain(c)
    ensures ReadBody(Escape(c) + more, out) == ReadBody(more, out + [c])
  {
    var t := Escape(c) + more;
    assert Escape(c)[0] == '\\';
    var after := t[1..];
    if |Escape(c)| == 2 {
      assert after[0] == Escape(c)[1];
      assert ReadEscape(after) == Some(Escaped([c], 1));
      assert t[2..] == more;
    } else {
      HexReadsBack(c, more);
      assert after == "u" + ("00" + [HexDigit(c as int / 16), HexDigit(c as int % 16)] + more);
      assert after[1..] == "00" + [HexDigit(c as int / 16), HexDigit(c as int % 16)] + more;
      assert ReadEscape(after) == Some(Escaped([c], 5));
      assert t[6..] == more;
    }
  }

  lemma HexReadsBack(c: char, more: string)
    requires c as int < 0x80
    ensures UnicodeEscape("00" + [HexDigit(c as int / 16), HexDigit(c as int % 16)] + more) ==
            Some(CodeRead(c as int, 4))
  {
    var t := "00" + [HexDigit(c as int / 16), HexDigit(c as int % 16)] + more;
    assert t[0] == '0' && t[1] == '0' && t[2] == HexDigit(c as int / 16) && t[3] == HexDigit(c as int % 16);
    assert HexValue(t[2]) == Some(c as int / 16) && HexValue(t[3]) == Some(c as int % 16);
    assert Hex4(t) == Some(c as int);
  }

  lemma SequenceReadsBack(p: string, more: string, out: string)
    requires p != [] && ReaderLength(p, 0) == |p| && p[0] != '"' && p[0] != '\\' && p[0] as int >= 0x20
    ensures ReadBody(p + more, out) == ReadBody(more, out + p)
  {
    var t := p + more;
    assert t[..|p|] == p[..|p|] && p[..|p|] == p && t[|p|..] == more;
    LengthIsLocal(p, 0, t, 0);
  }

  lemma CleanPieceIsOne(s: string)
    requires s != []
    ensures var p := CleanPiece(s);
            p != [] && ReaderLength(p, 0) == |p| && (WriterLength(s, 0) == 0 ==> p[0] as int >= 0x80)
    ensures WriterLength(s, 0) > 0 ==> CleanPiece(s)[0] == s[0]
  {
    var p := CleanPiece(s);
    if WriterLength(s, 0) == 0 {
      assert p[0..|p|] == Encode(0xFFFD);
      EncodingIsRecognised(p, 0, 0xFFFD);
    } else {
      RecognisersAgree(s, 0);
      assert p[0..|p|] == s[0..|p|];
      LengthIsLocal(s, 0, p, 0);
    }
  }

  lemma PieceReadsBack(s: string, more: string, out: string)
    requires s != []
    ensures ReadBody(Piece(s) + more, out) == ReadBody(more, out + CleanPiece(s))
  {
    CleanPieceIsOne(s);
    if s[0] as int < 0x80 {
      assert CleanPiece(s) == [s[0]];
      if Plain(s[0]) {
        SequenceReadsBack([s[0]], more, out);
      } else {
        EscapeReadsBack(s[0], more, out);
      }
    } else {
      SequenceReadsBack(CleanPiece(s), more, out);
    }
  }

  /** Reading a written string gives the string with its invalid bytes replaced, and stops after its quote. */
  lemma {:induction false} BodyReadsBack(s: string, rest: string, out: string)
    ensures ReadBody(Body(s) + ("\"" + rest), out) == Some(StringRead(out + Clean(s), rest))
    decreases |s|
  {
    if s == [] {
      assert Body(s) + ("\"" + rest) == "\"" + rest;
      assert ("\"" + rest)[1..] == rest;
      assert out + Clean(s) == out;
    } else {
      var after := s[Taken(s)..];
      var more := Body(after) + ("\"" + rest);
      Associative(Piece(s), Body(after), "\"" + rest);
      PieceReadsBack(s, more, out);
      BodyReadsBack(after, rest, out + CleanPiece(s));
      Associative(out, CleanPiece(s), Clean(after));
    }
  }

  // ---- the meaning of Clean ------------------------------------------------------------------

  /** The encodings of the code points, one after the other. */
  function EncodeAll(codes: seq<int>): string
    requires forall c :: c in codes ==> Scalar(c)
  {
    if codes == [] then [] else Encode(codes[0]) + EncodeAll(codes[1..])
  }

  function Codes(s: string): seq<int>
    requires Clean(s) == s
    decreases |s|
  {
    if s == [] then [] else
      CleanStep(s);
      RecognisersAgree(s, 0);
      [CodeAt(s, 0)] + Codes(s[Taken(s)..])
  }

  lemma {:induction false} CleanTextIsEncoded(s: string)
    requires Clean(s) == s
    ensures (forall c :: c in Codes(s) ==> Scalar(c)) && EncodeAll(Codes(s)) == s
    decreases |s|
  {
    if s != [] {
      CleanStep(s);
      RecognisersAgree(s, 0);
      RecognisedIsEncoding(s, 0);
      CleanTextIsEncoded(s[Taken(s)..]);
      assert s == s[0..Taken(s)] + s[Taken(s)..];
    }
  }

  /** A kept prefix stays kept whatever follows. */
  lemma {:induction false} CleanAppend(a: string, b: string)
    requires Clean(a) == a
    ensures Clean(a + b) == a + Clean(b)
    decreases |a|
  {
    if a == [] {
      assert a + b == b && a + Clean(b) == Clean(b);
    } else {
      var n := Taken(a);
      CleanStep(a);
      FirstStays(a, b);
      CleanAppend(a[n..], b);
      SplitAt(a, 0, n);
      Associative(a[..n], a[n..], Clean(b));
    }
  }

  lemma FirstStays(a: string, b: string)
    requires a != [] && WriterLength(a, 0) > 0
    ensures Clean(a + b) == a[..Taken(a)] + Clean(a[Taken(a)..] + b)
  {
    var n, s := Taken(a), a + b;
    RecognisersAgree(a, 0);
    assert s[0..n] == a[0..n];
    LengthIsLocal(a, 0, s, 0);
    RecognisersAgree(s, 0);
    assert s[n..] == a[n..] + b;
  }

  lemma SequenceIsClean(p: string)
    requires p != [] && ReaderLength(p, 0) == |p|
    ensures Clean(p) == p
  {
    RecognisersAgree(p, 0);
    assert p[|p|..] == [];
  }

  lemma EncodingIsClean(code: int)
    requires Scalar(code)
    ensures Clean(Encode(code)) == Encode(code)
  {
    var p := Encode(code);
    assert p[0..|p|] == p;
    EncodingIsRecognised(p, 0, code);
    SequenceIsClean(p);
  }

  lemma {:induction false} EncodedIsClean(codes: seq<int>)
    requires forall c :: c in codes ==> Scalar(c)
    ensures Clean(EncodeAll(codes)) == EncodeAll(codes)
  {
    if codes != [] {
      EncodingIsClean(codes[0]);
      EncodedIsClean(codes[1..]);
      CleanAppend(Encode(codes[0]), EncodeAll(codes[1..]));
    }
  }

  /** Nothing is replaced exactly in the texts that are UTF-8: encodings of scalar values in a row. */
  lemma UnchangedIffUtf8(s: string)
    ensures Clean(s) == s <==> exists codes: seq<int> :: (forall c :: c in codes ==> Scalar(c)) && EncodeAll(codes) == s
  {
    if Clean(s) == s {
      CleanTextIsEncoded(s);
    }
    if codes: seq<int> :| (forall c :: c in codes ==> Scalar(c)) && EncodeAll(codes) == s {
      EncodedIsClean(codes);
    }
  }

  /** The result of cleaning is UTF-8, so cleaning once is enough. */
  lemma {:induction false} CleanIsUtf8(s: string)
    ensures Clean(Clean(s)) == Clean(s)
    decreases |s|
  {
    if s != [] {
      CleanPieceIsOne(s);
      SequenceIsClean(CleanPiece(s));
      CleanIsUtf8(s[Taken(s)..]);
      CleanAppend(CleanPiece(s), Clean(s[Taken(s)..]));
    }
  }

  /** Whatever the text, a string the reader returns is UTF-8. */
  lemma {:induction false} ReadsUtf8(t: string, out: string)
    requires Clean(out) == out && ReadBody(t, out).Some?
    ensures var s := ReadBody(t, out).value.text; Clean(s) == s
    decreases |t|
  {
    if t[0] == '"' {
    } else if t[0] != '\\' {
      var n := ReaderLength(t, 0);
      var p := t[..n];
      assert p[0..n] == t[0..n];
      LengthIsLocal(t, 0, p, 0);
      SequenceIsClean(p);
      CleanAppend(out, p);
      ReadsUtf8(t[n..], out + p);
    } else {
      var e := ReadEscape(t[1..]).value;
      EscapeIsClean(t[1..]);
      CleanAppend(out, e.text);
      ReadsUtf8(t[1 + e.taken..], out + e.text);
    }
  }

  lemma EscapeIsClean(t: string)
    requires ReadEscape(t).Some?
    ensures Clean(ReadEscape(t).value.text) == ReadEscape(t).value.text
  {
    if t[0] == 'u' {
      EncodingIsClean(UnicodeEscape(t[1..]).value.code);
    } else {
      AsciiIsClean([ShortEscape(t[0]).value]);
    }
  }

  lemma AsciiIsClean(p: string)
    requires |p| == 1 && p[0] as int < 0x80
    ensures Clean(p) == p
  {
    SequenceIsClean(p);
  }
}
