/**
 The grammar of RFC 8259, apart from the reader: a document is spelt by a derivation that fixes every character of it,
 white space included, and means a tree. The reader accepts exactly the spelt texts whose tree it can hold, and gives
 that tree.
 */
module JsonGrammar {
  import opened Text
  import opened Utf8
  import opened JsonStrings
  import opened Json
  import opened JsonReader

  // ---- the characters of a string (section 7) ------------------------------------------------

  /** A scalar value and one way to spell it between quotes. */
  datatype Part = Part(text: string, code: int)

  predicate DigitFor(c: char, d: int) {
    if d < 10 then c as int == 0x30 + d else c as int == 0x41 + d - 10 || c as int == 0x61 + d - 10
  }

  /** Four hexadecimal digits, in either case, for a number of 16 bits. */
  predicate FourDigits(s: string, n: int) {
    && |s| == 4 && 0 <= n < 0x10000
    && DigitFor(s[0], n / 4096) && DigitFor(s[1], n / 256 % 16) && DigitFor(s[2], n / 16 % 16) && DigitFor(s[3], n % 16)
  }

  predicate Letter(c: char, code: int) {
    || (c == '"' && code == 0x22) || (c == '\\' && code == 0x5C) || (c == '/' && code == 0x2F)
    || (c == 'b' && code == 0x08) || (c == 'f' && code == 0x0C) || (c == 'n' && code == 0x0A)
    || (c == 'r' && code == 0x0D) || (c == 't' && code == 0x09)
  }

  predicate Itself(p: Part) {
    Scalar(p.code) && p.code >= 0x20 && p.code != 0x22 && p.code != 0x5C && p.text == Encode(p.code)
  }

  predicate Short(p: Part) { |p.text| == 2 && p.text[0] == '\\' && Letter(p.text[1], p.code) }

  predicate Unit(t: string, n: int) { |t| == 6 && t[0] == '\\' && t[1] == 'u' && FourDigits(t[2..], n) }

  /** A high and a low surrogate. */
  predicate Pair(p: Part) {
    && 0x10000 <= p.code <= 0x10FFFF && |p.text| == 12
    && Unit(p.text[..6], 0xD800 + (p.code - 0x10000) / 1024) && Unit(p.text[6..], 0xDC00 + (p.code - 0x10000) % 1024)
  }

  predicate Spells(p: Part) { Scalar(p.code) && (Itself(p) || Short(p) || Unit(p.text, p.code) || Pair(p)) }

  predicate AllSpell(parts: seq<Part>) { forall i :: 0 <= i < |parts| ==> Spells(parts[i]) }

  function SpellParts(parts: seq<Part>, rest: string): string {
    if parts == [] then rest else parts[0].text + SpellParts(parts[1..], rest)
  }

  function Meaning(parts: seq<Part>): string
    requires AllSpell(parts)
  {
    if parts == [] then [] else Encode(parts[0].code) + Meaning(parts[1..])
  }

  lemma DigitIsRead(c: char, d: int)
    requires 0 <= d < 16
    ensures DigitFor(c, d) <==> HexValue(c) == Some(d)
  {
  }

  lemma FourAreRead(t: string, n: int)
    requires |t| >= 4
    ensures FourDigits(t[..4], n) <==> Hex4(t) == Some(n)
  {
    if 0 <= n < 0x10000 {
      DigitIsRead(t[0], n / 4096);
      DigitIsRead(t[1], n / 256 % 16);
      DigitIsRead(t[2], n / 16 % 16);
      DigitIsRead(t[3], n % 16);
      Sixteen(n);
    }
    if Hex4(t) == Some(n) {
      Sixteens(HexValue(t[0]).value, HexValue(t[1]).value, HexValue(t[2]).value, HexValue(t[3]).value);
    }
  }

  lemma Sixteen(n: int)
    ensures ((n / 4096 * 16 + n / 256 % 16) * 16 + n / 16 % 16) * 16 + n % 16 == n
  {
    assert n / 256 == n / 16 / 16 && n / 4096 == n / 256 / 16;
    assert n / 256 == n / 256 / 16 * 16 + n / 256 % 16;
  }

  lemma Sixteens(a: int, b: int, c: int, d: int)
    requires 0 <= a < 16 && 0 <= b < 16 && 0 <= c < 16 && 0 <= d < 16
    ensures var n := ((a * 16 + b) * 16 + c) * 16 + d;
            n / 4096 == a && n / 256 % 16 == b && n / 16 % 16 == c && n % 16 == d
  {
  }

  lemma UnitIsRead(t: string, n: int)
    requires |t| >= 6 && Unit(t[..6], n)
    ensures t[0] == '\\' && t[1] == 'u' && Hex4(t[2..]) == Some(n)
  {
    assert t[..6][2..] == t[2..][..4];
    FourAreRead(t[2..], n);
  }

  lemma PartIsRead(p: Part, more: string, out: string)
    requires Spells(p)
    ensures ReadBody(p.text + more, out) == ReadBody(more, out + Encode(p.code))
  {
    var t := p.text + more;
    TwoParts(p.text, more);
    if Itself(p) {
      assert p.text[0..|p.text|] == p.text;
      EncodingIsRecognised(p.text, 0, p.code);
      SequenceReadsBack(p.text, more, out);
    } else if Short(p) {
      assert t[1..][0] == p.text[1];
      assert ReadEscape(t[1..]) == Some(Escaped([p.code as char], 1));
    } else if Unit(p.text, p.code) {
      UnitEscapes(t, p.code);
    } else {
      PairEscapes(t, p);
    }
  }

  lemma UnitEscapes(t: string, n: int)
    requires |t| >= 6 && Unit(t[..6], n) && Scalar(n)
    ensures t[0] == '\\' && ReadEscape(t[1..]) == Some(Escaped(Encode(n), 5))
  {
    UnitIsRead(t, n);
    assert t[1..][1..] == t[2..] && t[1..][0] == t[1];
  }

  lemma PairEscapes(t: string, p: Part)
    requires Pair(p) && p.text <= t
    ensures t[0] == '\\' && ReadEscape(t[1..]) == Some(Escaped(Encode(p.code), 11))
  {
    var high, low := 0xD800 + (p.code - 0x10000) / 1024, 0xDC00 + (p.code - 0x10000) % 1024;
    assert t[..6] == p.text[..6] && t[6..][..6] == p.text[6..];
    UnitIsRead(t, high);
    UnitIsRead(t[6..], low);
    var u := t[2..];
    assert t[1..][1..] == u && t[1..][0] == t[1] && u[4] == t[6..][0] && u[5] == t[6..][1] && u[6..] == t[6..][2..];
    assert UnicodeEscape(u) == Some(CodeRead(p.code, 10));
  }

  /** A spelt string reads as the encodings of its scalar values, whatever its spelling. */
  lemma {:induction false} StringIsRead(parts: seq<Part>, rest: string, out: string)
    requires AllSpell(parts)
    ensures ReadBody(SpellParts(parts, "\"" + rest), out) == Some(StringRead(out + Meaning(parts), rest))
  {
    if parts == [] {
      assert ("\"" + rest)[1..] == rest;
      assert out + [] == out;
    } else {
      PartIsRead(parts[0], SpellParts(parts[1..], "\"" + rest), out);
      StringIsRead(parts[1..], rest, out + Encode(parts[0].code));
      Associative(out, Encode(parts[0].code), Meaning(parts[1..]));
    }
  }

  /** Whatever the reader takes for one character is one of its spellings. */
  lemma ReadIsPart(t: string, out: string) returns (p: Part)
    requires t != [] && t[0] != '"' && ReadBody(t, out).Some?
    ensures Spells(p) && p.text != [] && p.text <= t
    ensures ReadBody(t, out) == ReadBody(t[|p.text|..], out + Encode(p.code))
  {
    if t[0] != '\\' {
      var n := ReaderLength(t, 0);
      RecognisedIsEncoding(t, 0);
      p := Part(t[..n], CodeAt(t, 0));
      assert t[0..n] == t[..n];
    } else {
      p := EscapeIsPart(t);
    }
  }

  lemma EscapeIsPart(t: string) returns (p: Part)
    requires t != [] && t[0] == '\\' && ReadEscape(t[1..]).Some?
    ensures Spells(p) && p.text <= t && |p.text| == 1 + ReadEscape(t[1..]).value.taken
    ensures Encode(p.code) == ReadEscape(t[1..]).value.text
  {
    if t[1] == 'u' {
      assert t[1..][1..] == t[2..];
      var e := UnicodeEscape(t[2..]).value;
      p := Part(t[..2 + e.taken], e.code);
      FourAreRead(t[2..], Hex4(t[2..]).value);
      assert t[..6][2..] == t[2..][..4];
      if e.taken == 10 {
        PairIsPart(t);
      } else {
        assert p.text == t[..6];
      }
    } else {
      p := Part(t[..2], ShortEscape(t[1]).value as int);
      assert t[1..][0] == t[1];
    }
  }

  lemma PairIsPart(t: string)
    requires |t| >= 2 && t[0] == '\\' && t[1] == 'u' && UnicodeEscape(t[2..]).Some? &&
             UnicodeEscape(t[2..]).value.taken == 10
    ensures Pair(Part(t[..12], UnicodeEscape(t[2..]).value.code))
  {
    var u := t[2..];
    var high, low := Hex4(u).value, Hex4(u[6..]).value;
    DropTwice(t, 2, 6);
    DropTwice(t, 6, 2);
    UnitHere(t, high);
    UnitHere(t[6..], low);
    assert t[..12][..6] == t[..6] && t[..12][6..] == t[6..][..6];
    UnitsArePair(t[..12], high, low);
  }

  lemma UnitsArePair(s: string, high: int, low: int)
    requires |s| == 12 && Unit(s[..6], high) && Unit(s[6..], low) && 0xD800 <= high <= 0xDBFF && 0xDC00 <= low <= 0xDFFF
    ensures Pair(Part(s, 0x10000 + (high - 0xD800) * 1024 + (low - 0xDC00)))
  {
    Halves(high - 0xD800, low - 0xDC00);
  }

  lemma UnitHere(t: string, n: int)
    requires |t| >= 6 && t[0] == '\\' && t[1] == 'u' && Hex4(t[2..]) == Some(n)
    ensures Unit(t[..6], n)
  {
    FourAreRead(t[2..], n);
    assert t[..6][2..] == t[2..][..4];
  }

  lemma Halves(high: int, low: int)
    requires 0 <= low < 1024
    ensures (high * 1024 + low) / 1024 == high && (high * 1024 + low) % 1024 == low
  {
  }

  lemma PrefixAndRest(a: string, t: string)
    requires a <= t
    ensures t == a + t[|a|..]
  {
  }

  lemma PartsCons(p: Part, more: seq<Part>, rest: string)
    requires Spells(p) && AllSpell(more)
    ensures AllSpell([p] + more) && SpellParts([p] + more, rest) == p.text + SpellParts(more, rest)
    ensures Meaning([p] + more) == Encode(p.code) + Meaning(more)
  {
    assert ([p] + more)[1..] == more;
  }

  lemma {:induction false} ReadIsString(t: string, out: string) returns (parts: seq<Part>)
    requires ReadBody(t, out).Some?
    ensures AllSpell(parts)
    ensures var r := ReadBody(t, out).value; t == SpellParts(parts, "\"" + r.rest) && r.text == out + Meaning(parts)
    decreases |t|
  {
    if t[0] == '"' {
      parts := [];
      assert t == "\"" + t[1..] && out + [] == out;
    } else {
      var p := ReadIsPart(t, out);
      var after := t[|p.text|..];
      var more := ReadIsString(after, out + Encode(p.code));
      parts := [p] + more;
      PartsCons(p, more, "\"" + ReadBody(t, out).value.rest);
      PrefixAndRest(p.text, t);
      Associative(out, Encode(p.code), Meaning(more));
    }
  }

  /** The reader takes exactly the spelt strings, and gives the scalar values they spell. */
  lemma StringLaw(t: string, s: string, rest: string)
    ensures ReadBody(t, []) == Some(StringRead(s, rest)) <==>
            exists parts :: AllSpell(parts) && t == SpellParts(parts, "\"" + rest) && s == Meaning(parts)
  {
    if ReadBody(t, []) == Some(StringRead(s, rest)) {
      var parts := ReadIsString(t, []);
      assert [] + Meaning(parts) == Meaning(parts);
      assert AllSpell(parts) && t == SpellParts(parts, "\"" + rest) && s == Meaning(parts);
    }
    if parts :| AllSpell(parts) && t == SpellParts(parts, "\"" + rest) && s == Meaning(parts) {
      StringIsRead(parts, rest, []);
      assert [] + Meaning(parts) == Meaning(parts);
    }
  }

  // ---- documents -----------------------------------------------------------------------------

  /** A derivation: the tree with everything its text adds to it. `gap` is the white space of an empty container. */
  datatype Doc =
    | Word(value: Json)
    | Numeral(negative: bool, digits: string, fraction: string, exponent: string)
    | Quote(parts: seq<Part>)
    | List(gap: string, items: seq<Item>)
    | Dict(gap: string, members: seq<Member>)

  /** A value with the white space around it. */
  datatype Item = Item(before: string, doc: Doc, after: string)

  /** A key with the white space around it, and its value. */
  datatype Member = Member(before: string, key: seq<Part>, colon: string, item: Item)

  predicate Blank(s: string) {
    forall i :: 0 <= i < |s| ==> s[i] == ' ' || s[i] == '\t' || s[i] == '\n' || s[i] == '\r'
  }

  predicate SomeDigits(s: string) { s != [] && AllDigits(s) }

  predicate Fraction(s: string) { s == [] || (s[0] == '.' && SomeDigits(s[1..])) }

  predicate Exponent(s: string) {
    s == [] || ((s[0] == 'e' || s[0] == 'E') && |s| > 1 && SomeDigits(s[if s[1] == '+' || s[1] == '-' then 2 else 1..]))
  }

  predicate Grammatical(d: Doc)
    decreases d
  {
    match d
    case Word(v) => v == Null || v.Bool?
    case Numeral(_, digits, fraction, exponent) =>
      SomeDigits(digits) && (digits[0] == '0' ==> |digits| == 1) && Fraction(fraction) && Exponent(exponent)
    case Quote(parts) => AllSpell(parts)
    case List(gap, items) => Blank(gap) && GrammaticalItems(items)
    case Dict(gap, members) => Blank(gap) && GrammaticalMembers(members)
  }

  predicate GrammaticalItems(items: seq<Item>)
    decreases items
  {
    items == [] || (Grammatical(items[0].doc) && Padded(items[0]) && GrammaticalItems(items[1..]))
  }

  predicate GrammaticalMembers(members: seq<Member>)
    decreases members
  {
    members == [] || (Grammatical(members[0].item.doc) && Keyed(members[0]) && GrammaticalMembers(members[1..]))
  }

  predicate Padded(item: Item) { Blank(item.before) && Blank(item.after) }

  predicate Keyed(m: Member) { Blank(m.before) && AllSpell(m.key) && Blank(m.colon) && Padded(m.item) }

  function WordText(v: Json): string {
    if v == Null then "null" else if v == Bool(true) then "true" else "false"
  }

  function Sign(negative: bool): string { if negative then "-" else "" }

  /** The text of the document followed by `rest`. */
  function Spell(d: Doc, rest: string): string
    decreases d
  {
    match d
    case Word(v) => WordText(v) + rest
    case Numeral(negative, digits, fraction, exponent) => Sign(negative) + (digits + (fraction + (exponent + rest)))
    case Quote(parts) => "\"" + SpellParts(parts, "\"" + rest)
    case List(gap, items) => "[" + if items == [] then gap + ("]" + rest) else SpellItems(items, rest)
    case Dict(gap, members) => "{" + if members == [] then gap + ("}" + rest) else SpellMembers(members, rest)
  }

  function SpellItem(item: Item, rest: string): string
    decreases item
  {
    item.before + Spell(item.doc, item.after + rest)
  }

  function SpellItems(items: seq<Item>, rest: string): string
    requires items != []
    decreases items
  {
    SpellItem(items[0], if |items| == 1 then "]" + rest else "," + SpellItems(items[1..], rest))
  }

  function SpellMember(m: Member, rest: string): string
    decreases m
  {
    m.before + ("\"" + SpellParts(m.key, "\"" + (m.colon + (":" + SpellItem(m.item, rest)))))
  }

  function SpellMembers(members: seq<Member>, rest: string): string
    requires members != []
    decreases members
  {
    SpellMember(members[0], if |members| == 1 then "}" + rest else "," + SpellMembers(members[1..], rest))
  }

  /** The tree the document means: white space is gone, characters are their scalar values. */
  function Tree(d: Doc): Json
    requires Grammatical(d)
    decreases d
  {
    match d
    case Word(v) => v
    case Numeral(negative, digits, fraction, exponent) =>
      if fraction + exponent == [] then Number(negative, DigitsValue(digits))
      else Real(Sign(negative) + digits + (fraction + exponent))
    case Quote(parts) => Str(Meaning(parts))
    case List(_, items) => Arr(Trees(items))
    case Dict(_, members) => Obj(KeysOf(members), ValuesOf(members))
  }

  function Trees(items: seq<Item>): (r: seq<Json>)
    requires GrammaticalItems(items)
    decreases items
  {
    if items == [] then [] else [Tree(items[0].doc)] + Trees(items[1..])
  }

  function KeysOf(members: seq<Member>): (r: seq<string>)
    requires GrammaticalMembers(members)
  {
    if members == [] then [] else [Meaning(members[0].key)] + KeysOf(members[1..])
  }

  function ValuesOf(members: seq<Member>): (r: seq<Json>)
    requires GrammaticalMembers(members)
    decreases members
  {
    if members == [] then [] else [Tree(members[0].item.doc)] + ValuesOf(members[1..])
  }

  // ---- every spelt text is read --------------------------------------------------------------

  lemma {:induction false} BlankIsSkipped(a: string, t: string)
    requires Blank(a)
    ensures SkipSpace(a + t) == SkipSpace(t)
  {
    if a == [] {
      assert a + t == t;
    } else {
      assert (a + t)[1..] == a[1..] + t;
      BlankIsSkipped(a[1..], t);
    }
  }

  /** What may follow a value: nothing, white space, a comma or a closing bracket. */
  predicate Ends(rest: string) { rest == [] || IsSpace(rest[0]) || rest[0] == ',' || rest[0] == ']' || rest[0] == '}' }

  lemma EndsAfter(a: string, t: string)
    requires Blank(a) && Ends(t)
    ensures Ends(a + t)
  {
    if a != [] { assert (a + t)[0] == a[0]; } else { assert a + t == t; }
  }

  lemma FractionIsRead(f: string, more: string)
    requires Fraction(f) && (more == [] || (!IsDigit(more[0]) && more[0] != '.'))
    ensures FractionLength(f + more) == Some(|f|)
  {
    if f == [] {
      assert f + more == more;
    } else {
      assert (f + more)[1..] == f[1..] + more;
      DigitsOf(f[1..], more);
    }
  }

  lemma DropInto(a: string, b: string, k: nat)
    requires k < |a|
    ensures (a + b)[k..] == a[k..] + b && (a + b)[k..][0] == a[k]
  {
  }

  lemma ExponentIsRead(e: string, rest: string)
    requires Exponent(e) && Ends(rest)
    ensures ExponentLength(e + rest) == Some(|e|)
  {
    if e == [] {
      assert e + rest == rest;
    } else {
      var sign := if e[1] == '+' || e[1] == '-' then 2 else 1;
      var t := e + rest;
      DropInto(e, rest, 1);
      DropInto(e, rest, sign);
      assert t[0] == e[0];
      DigitsOf(e[sign..], rest);
    }
  }

  lemma ExponentStarts(e: string, rest: string)
    requires Exponent(e) && Ends(rest)
    ensures e + rest == [] || (!IsDigit((e + rest)[0]) && (e + rest)[0] != '.')
  {
    if e == [] { assert e + rest == rest; }
  }

  lemma RealIsRead(f: string, e: string, rest: string)
    requires Fraction(f) && Exponent(e) && Ends(rest)
    ensures RealLength(f + (e + rest)) == Some(|f + e|)
    ensures var t := f + (e + rest); t[..|f + e|] == f + e && (t == [] || !IsDigit(t[0]))
  {
    ExponentStarts(e, rest);
    FractionIsRead(f, e + rest);
    ExponentIsRead(e, rest);
    TwoParts(f, e + rest);
    Associative(f, e, rest);
    TwoParts(f + e, rest);
    if f == [] { assert f + (e + rest) == e + rest; }
  }

  lemma NumeralIsRead(sign: string, digits: string, f: string, e: string, rest: string, finite: string -> bool)
    requires SomeDigits(digits) && (digits[0] == '0' ==> |digits| == 1) && Fraction(f) && Exponent(e) && Ends(rest)
    ensures ParseDigits(sign, digits + (f + (e + rest)), finite) ==
            if f + e == [] then IntegerSpelt(sign == "-", digits, |sign| + |digits|)
            else RealSpelt(sign + digits + (f + e), finite)
  {
    var more := f + (e + rest);
    var t := digits + more;
    RealIsRead(f, e, rest);
    TwoParts(digits, more);
    DigitsOf(digits, more);
    assert t[..Digits(t)] == digits && t[|digits|..] == more;
    assert ParseDigits(sign, t, finite) == NumberSpelt(sign, digits, more, finite);
  }

  lemma NumberIsRead(d: Doc, rest: string, values: nat, limits: Limits)
    requires d.Numeral? && Grammatical(d) && Ends(rest)
    ensures ParseScalar(Spell(d, rest), values, limits) ==
            if Held(Tree(d), limits) then Some(Read(Tree(d), rest, values)) else None
  {
    var t, sign := Spell(d, rest), Sign(d.negative);
    var whole := sign + d.digits + (d.fraction + d.exponent);
    SignParses(d.negative, d.digits + (d.fraction + (d.exponent + rest)), limits.finite);
    NumeralIsRead(sign, d.digits, d.fraction, d.exponent, rest, limits.finite);
    NumberStarts(d, rest);
    Regrouped(sign, d.digits, d.fraction, d.exponent, rest);
    TwoParts(whole, rest);
    NumberLeaves(t, |whole|, Tree(d), values, limits);
  }

  lemma Regrouped(a: string, b: string, c: string, d: string, e: string)
    ensures a + (b + (c + (d + e))) == a + b + (c + d) + e && (c + d == [] ==> |a + b + (c + d)| == |a| + |b|)
  {
    Associative(c, d, e);
    Associative(b, c + d, e);
    Associative(a, b + (c + d), e);
    Associative(a, b, c + d);
  }

  lemma NumberLeaves(t: string, n: nat, v: Json, values: nat, limits: Limits)
    requires t != [] && (t[0] == '-' || IsDigit(t[0])) && n <= |t|
    requires ParseNumber(t, limits.finite) == if Held(v, limits) then Some(NumberRead(v, n)) else None
    ensures ParseScalar(t, values, limits) == if Held(v, limits) then Some(Read(v, t[n..], values)) else None
  {
    assert t[0] != '"' && t[0] != 't' && t[0] != 'f' && t[0] != 'n';
  }

  lemma NumberStarts(d: Doc, rest: string)
    requires d.Numeral? && Grammatical(d)
    ensures Spell(d, rest) != [] && (Spell(d, rest)[0] == '-' || IsDigit(Spell(d, rest)[0]))
  {
    if !d.negative { assert Spell(d, rest) == d.digits + (d.fraction + (d.exponent + rest)); }
  }

  lemma SpellStarts(d: Doc, rest: string)
    requires Grammatical(d)
    ensures var t := Spell(d, rest);
            && t != [] && !IsSpace(t[0]) && t[0] != ']' && t[0] != '}'
            && (t[0] == '[' <==> d.List?) && (t[0] == '{' <==> d.Dict?)
  {
    if d.Numeral? { NumberStarts(d, rest); }
  }

  lemma {:induction false} MeaningIsClean(parts: seq<Part>)
    requires AllSpell(parts)
    ensures Clean(Meaning(parts)) == Meaning(parts)
  {
    if parts != [] {
      EncodingIsClean(parts[0].code);
      MeaningIsClean(parts[1..]);
      CleanAppend(Encode(parts[0].code), Meaning(parts[1..]));
    }
  }

  lemma ScalarIsRead(d: Doc, rest: string, values: nat, limits: Limits)
    requires !d.List? && !d.Dict? && Grammatical(d) && Ends(rest)
    ensures ParseScalar(Spell(d, rest), values, limits) ==
            if Held(Tree(d), limits) then Some(Read(Tree(d), rest, values)) else None
    ensures Tree(d).Str? ==> Clean(Tree(d).text) == Tree(d).text
    ensures !Tree(d).Arr? && !Tree(d).Obj?
  {
    match d
    case Word(v) => LiteralReadsBack(WordText(v), rest, v, values);
    case Numeral(_, _, _, _) => NumberIsRead(d, rest, values, limits);
    case Quote(parts) =>
      HeadTail('"', SpellParts(parts, "\"" + rest));
      StringIsRead(parts, rest, []);
      assert [] + Meaning(parts) == Meaning(parts);
      MeaningIsClean(parts);
  }

  lemma {:induction false} ValueIsRead(d: Doc, rest: string, depth: nat, values: nat, limits: Limits)
    requires Grammatical(d) && Ends(rest)
    ensures ParseValue(Spell(d, rest), depth, values, limits) == Leaving(Build(Tree(d), depth, values, limits), rest)
    decreases d, 1
  {
    SpellStarts(d, rest);
    if Within(limits, depth, values + 1) {
      match d
      case List(gap, items) => ListIsRead(d, rest, depth, values + 1, limits);
      case Dict(gap, members) => DictIsRead(d, rest, depth, values + 1, limits);
      case _ => ScalarIsRead(d, rest, values + 1, limits);
    }
  }

  lemma {:induction false} ListIsRead(d: Doc, rest: string, depth: nat, values: nat, limits: Limits)
    requires d.List? && Grammatical(d) && Ends(rest)
    ensures ParseArray(Spell(d, rest), depth, values, limits) ==
            Leaving(BuildItems(Tree(d).items, depth, values, limits, []), rest)
    decreases d, 0
  {
    var items, end := d.items, "]" + rest;
    if items == [] {
      HeadTail('[', d.gap + end);
      BlankIsSkipped(d.gap, end);
      HeadTail(']', rest);
      NoSpace(end);
    } else {
      var inner := SpellItems(items, rest);
      HeadTail('[', inner);
      ItemStarts(items[0], if |items| == 1 then "]" + rest else "," + SpellItems(items[1..], rest));
      ItemsSkip(inner, depth, values, limits, []);
      ItemsAreRead(items, rest, depth, values, limits, []);
    }
  }

  /** The white space before an item is skipped and its value is next. */
  lemma ItemStarts(item: Item, more: string)
    requires Grammatical(item.doc) && Padded(item)
    ensures var u := Spell(item.doc, item.after + more);
            SkipSpace(SpellItem(item, more)) == u && u != [] && u[0] != ']' && u[0] != '}' && !IsSpace(u[0])
  {
    var u := Spell(item.doc, item.after + more);
    BlankIsSkipped(item.before, u);
    SpellStarts(item.doc, item.after + more);
    NoSpace(u);
  }

  lemma {:induction false} SkipTwice(t: string)
    ensures SkipSpace(SkipSpace(t)) == SkipSpace(t)
  {
    if t != [] && IsSpace(t[0]) { SkipTwice(t[1..]); }
  }

  lemma ItemsSkip(t: string, depth: nat, values: nat, limits: Limits, before: seq<Json>)
    ensures ParseItems(SkipSpace(t), depth, values, limits, before) == ParseItems(t, depth, values, limits, before)
  {
    SkipTwice(t);
  }

  /** What comes after a value in a container. */
  lemma AfterItem(after: string, more: string)
    requires Blank(after) && more != [] && !IsSpace(more[0]) && Ends(more)
    ensures Ends(after + more) && SkipSpace(after + more) == more
  {
    EndsAfter(after, more);
    BlankIsSkipped(after, more);
    NoSpace(more);
  }

  lemma {:induction false} ItemsAreRead(items: seq<Item>, rest: string, depth: nat, values: nat, limits: Limits,
                                        before: seq<Json>)
    requires items != [] && GrammaticalItems(items)
    ensures ParseItems(SpellItems(items, rest), depth, values, limits, before) ==
            Leaving(BuildItems(Trees(items), depth, values, limits, before), rest)
    decreases items, 0
  {
    var item, tail := items[0], items[1..];
    var more := if |items| == 1 then "]" + rest else "," + SpellItems(tail, rest);
    ItemStarts(item, more);
    AfterItem(item.after, more);
    ValueIsRead(item.doc, item.after + more, depth + 1, values, limits);
    var first := Build(Tree(item.doc), depth + 1, values, limits);
    ItemsRead(SpellItems(items, rest), depth, values, limits, before, first, item.after + more, more);
    assert Trees(items)[1..] == Trees(tail);
    if first.Some? {
      if |items| == 1 {
        HeadTail(']', rest);
      } else {
        HeadTail(',', SpellItems(tail, rest));
        ItemsAreRead(tail, rest, depth, first.value.values, limits, before + [first.value.value]);
      }
    }
  }

  lemma ItemsRead(t: string, depth: nat, values: nat, limits: Limits, before: seq<Json>, item: Option<Built>,
                  left: string, more: string)
    requires ParseValue(SkipSpace(t), depth + 1, values, limits) == Leaving(item, left) && SkipSpace(left) == more
    requires more != []
    ensures ParseItems(t, depth, values, limits, before) ==
            if item.None? then None
            else if more[0] == ','
                then ParseItems(more[1..], depth, item.value.values, limits, before + [item.value.value])
            else if more[0] == ']' then Some(Read(Arr(before + [item.value.value]), more[1..], item.value.values))
            else None
  {
  }

  lemma {:induction false} DictIsRead(d: Doc, rest: string, depth: nat, values: nat, limits: Limits)
    requires d.Dict? && Grammatical(d) && Ends(rest)
    ensures ParseObject(Spell(d, rest), depth, values, limits) ==
            Leaving(BuildMembers(Tree(d).keys, Tree(d).items, depth, values, limits, [], []), rest)
    decreases d, 0
  {
    var members, end := d.members, "}" + rest;
    if members == [] {
      HeadTail('{', d.gap + end);
      BlankIsSkipped(d.gap, end);
      HeadTail('}', rest);
      NoSpace(end);
    } else {
      var inner := SpellMembers(members, rest);
      HeadTail('{', inner);
      MemberStarts(members[0], if |members| == 1 then "}" + rest else "," + SpellMembers(members[1..], rest));
      MembersSkip(inner, depth, values, limits, [], []);
      MembersAreRead(members, rest, depth, values, limits, [], []);
    }
  }

  lemma MemberStarts(m: Member, more: string)
    requires Keyed(m)
    ensures SkipSpace(SpellMember(m, more)) ==
            "\"" + SpellParts(m.key, "\"" + (m.colon + (":" + SpellItem(m.item, more))))
  {
    var u := "\"" + SpellParts(m.key, "\"" + (m.colon + (":" + SpellItem(m.item, more))));
    BlankIsSkipped(m.before, u);
    NoSpace(u);
  }

  lemma MembersSkip(t: string, depth: nat, values: nat, limits: Limits, keys: seq<string>, items: seq<Json>)
    ensures ParseMembers(SkipSpace(t), depth, values, limits, keys, items) ==
            ParseMembers(t, depth, values, limits, keys, items)
  {
    SkipTwice(t);
  }

  /** The key is read, its colon passed, and its value is next. */
  lemma KeyIsRead(m: Member, more: string, keys: seq<string>)
    requires Grammatical(m.item.doc) && Keyed(m)
    ensures ParseKey(SkipSpace(SpellMember(m, more)), keys) ==
            if Meaning(m.key) in keys then None
            else Some(StringRead(Meaning(m.key), Spell(m.item.doc, m.item.after + more)))
  {
    var item := SpellItem(m.item, more);
    var left := m.colon + (":" + item);
    MemberStarts(m, more);
    HeadTail('"', SpellParts(m.key, "\"" + left));
    StringIsRead(m.key, left, []);
    assert [] + Meaning(m.key) == Meaning(m.key);
    BlankIsSkipped(m.colon, ":" + item);
    NoSpace(":" + item);
    HeadTail(':', item);
    ItemStarts(m.item, more);
  }

  lemma {:induction false} MembersAreRead(members: seq<Member>, rest: string, depth: nat, values: nat, limits: Limits,
                                          keys: seq<string>, items: seq<Json>)
    requires members != [] && GrammaticalMembers(members)
    ensures ParseMembers(SpellMembers(members, rest), depth, values, limits, keys, items) ==
            Leaving(BuildMembers(KeysOf(members), ValuesOf(members), depth, values, limits, keys, items), rest)
    decreases members, 0
  {
    var m, tail := members[0], members[1..];
    var more := if |members| == 1 then "}" + rest else "," + SpellMembers(tail, rest);
    var key := Meaning(m.key);
    KeyIsRead(m, more, keys);
    AfterItem(m.item.after, more);
    ValueIsRead(m.item.doc, m.item.after + more, depth + 1, values, limits);
    var first := Build(Tree(m.item.doc), depth + 1, values, limits);
    MembersRead(SpellMembers(members, rest), depth, values, limits, keys, items, key,
        Spell(m.item.doc, m.item.after + more), first, m.item.after + more, more);
    BuildsOn(members, depth, values, limits, keys, items);
    if first.Some? && key !in keys {
      if |members| == 1 {
        HeadTail('}', rest);
      } else {
        HeadTail(',', SpellMembers(tail, rest));
        MembersAreRead(tail, rest, depth, first.value.values, limits, keys + [key], items + [first.value.value]);
      }
    }
  }

  lemma BuildsOn(members: seq<Member>, depth: nat, values: nat, limits: Limits, keys: seq<string>, items: seq<Json>)
    requires members != [] && GrammaticalMembers(members)
    ensures var first, key := Build(Tree(members[0].item.doc), depth + 1, values, limits), Meaning(members[0].key);
            BuildMembers(KeysOf(members), ValuesOf(members), depth, values, limits, keys, items) ==
            if key in keys || first.None? then None
            else BuildMembers(KeysOf(members[1..]), ValuesOf(members[1..]), depth, first.value.values, limits,
                keys + [key], items + [first.value.value])
  {
    MeaningIsClean(members[0].key);
    var tail := members[1..];
    assert KeysOf(members)[1..] == KeysOf(tail) && ValuesOf(members)[1..] == ValuesOf(tail);
  }

  lemma MembersRead(t: string, depth: nat, values: nat, limits: Limits, keys: seq<string>, items: seq<Json>,
                    key: string, value: string, item: Option<Built>, left: string, more: string)
    requires ParseKey(SkipSpace(t), keys) == if key in keys then None else Some(StringRead(key, value))
    requires ParseValue(value, depth + 1, values, limits) == Leaving(item, left) && SkipSpace(left) == more
    requires more != []
    ensures ParseMembers(t, depth, values, limits, keys, items) ==
            if key in keys || item.None? then None
            else if more[0] == ','
                then ParseMembers(more[1..], depth, item.value.values, limits, keys + [key], items + [item.value.value])
            else if more[0] == '}'
                then Some(Read(Obj(keys + [key], items + [item.value.value]), more[1..], item.value.values))
            else None
  {
  }

  // ---- every accepted text is spelt ----------------------------------------------------------

  lemma {:induction false} SpaceTaken(t: string) returns (a: string)
    ensures Blank(a) && t == a + SkipSpace(t)
  {
    if t != [] && IsSpace(t[0]) {
      var b := SpaceTaken(t[1..]);
      a := [t[0]] + b;
      assert t == [t[0]] + t[1..];
      Associative([t[0]], b, SkipSpace(t[1..]));
    } else {
      a := [];
      assert [] + t == t;
    }
  }

  lemma TakenIsReal(t: string) returns (f: string, e: string)
    requires RealLength(t).Some?
    ensures Fraction(f) && Exponent(e) && f + e == t[..RealLength(t).value]
    ensures t == f + (e + t[RealLength(t).value..])
  {
    var m := FractionLength(t).value;
    var u := t[m..];
    var n := ExponentLength(u).value;
    f, e := t[..m], u[..n];
    PrefixAndRest(f, t);
    PrefixAndRest(e, u);
    DropTwice(t, m, n);
    Associative(f, e, u[n..]);
    TwoParts(f + e, u[n..]);
    TakenIsFraction(t);
    TakenIsExponent(u);
  }

  lemma TakenIsFraction(t: string)
    requires FractionLength(t).Some?
    ensures Fraction(t[..FractionLength(t).value])
  {
    var f := t[..FractionLength(t).value];
    if f != [] { assert f[1..] == t[1..][..Digits(t[1..])]; }
  }

  lemma TakenIsExponent(t: string)
    requires ExponentLength(t).Some?
    ensures Exponent(t[..ExponentLength(t).value])
  {
    var e := t[..ExponentLength(t).value];
    if e != [] {
      var sign := if StartsWith(t[1..], '+') || StartsWith(t[1..], '-') then 2 else 1;
      assert e[sign..] == t[sign..][..Digits(t[sign..])];
      assert sign == 2 ==> e[1] == t[1..][0];
      assert sign == 1 ==> IsDigit(e[sign..][0]);
    }
  }

  lemma DigitsAreNumeral(negative: bool, u: string, finite: string -> bool) returns (d: Doc, rest: string)
    requires ParseDigits(Sign(negative), u, finite).Some?
    ensures d.Numeral? && Grammatical(d) && d.negative == negative
    ensures u == d.digits + (d.fraction + (d.exponent + rest))
    ensures var r := ParseDigits(Sign(negative), u, finite).value;
            r.value == Tree(d) && r.taken == |Sign(negative) + d.digits + (d.fraction + d.exponent)|
  {
    var digits := u[..Digits(u)];
    var more := u[|digits|..];
    var f, e := TakenIsReal(more);
    d, rest := Numeral(negative, digits, f, e), more[RealLength(more).value..];
    PrefixAndRest(digits, u);
  }

  lemma ReadIsNumeral(t: string, finite: string -> bool) returns (d: Doc)
    requires t != [] && ParseNumber(t, finite).Some?
    ensures d.Numeral? && Grammatical(d)
    ensures var r := ParseNumber(t, finite).value; r.value == Tree(d) && t == Spell(d, t[r.taken..])
  {
    var negative := t[0] == '-';
    var u := if negative then t[1..] else t;
    var rest;
    d, rest := DigitsAreNumeral(negative, u, finite);
    assert t == Sign(negative) + u;
    Regrouped(Sign(negative), d.digits, d.fraction, d.exponent, rest);
    TwoParts(Sign(negative) + d.digits + (d.fraction + d.exponent), rest);
  }

  lemma ReadIsScalar(t: string, values: nat, limits: Limits) returns (d: Doc)
    requires t != [] && ParseScalar(t, values, limits).Some?
    ensures Grammatical(d)
    ensures var r := ParseScalar(t, values, limits).value; r.value == Tree(d) && t == Spell(d, r.rest)
  {
    if t[0] == '"' {
      var parts := ReadIsString(t[1..], []);
      d := Quote(parts);
      assert [] + Meaning(parts) == Meaning(parts);
      PrefixAndRest("\"", t);
    } else if t[0] == 't' || t[0] == 'f' || t[0] == 'n' {
      d := Word(ParseScalar(t, values, limits).value.value);
      PrefixAndRest(WordText(d.value), t);
    } else {
      d := ReadIsNumeral(t, limits.finite);
    }
  }

  /** Whatever the reader accepts is spelt by a derivation, and means the tree it returns. */
  lemma {:induction false} ReadIsSpelt(t: string, depth: nat, values: nat, limits: Limits) returns (d: Doc)
    requires ParseValue(t, depth, values, limits).Some?
    ensures Grammatical(d)
    ensures var r := ParseValue(t, depth, values, limits).value; r.value == Tree(d) && t == Spell(d, r.rest)
    decreases |t|, 1
  {
    if t[0] == '[' {
      d := ReadIsList(t, depth, values + 1, limits);
    } else if t[0] == '{' {
      d := ReadIsDict(t, depth, values + 1, limits);
    } else {
      d := ReadIsScalar(t, values + 1, limits);
    }
  }

  lemma {:induction false} ReadIsList(t: string, depth: nat, values: nat, limits: Limits) returns (d: Doc)
    requires t != [] && t[0] == '[' && ParseArray(t, depth, values, limits).Some?
    ensures d.List? && Grammatical(d)
    ensures var r := ParseArray(t, depth, values, limits).value; r.value == Tree(d) && t == Spell(d, r.rest)
    decreases |t|, 0
  {
    PrefixAndRest("[", t);
    var inner := SkipSpace(t[1..]);
    if StartsWith(inner, ']') {
      var gap := SpaceTaken(t[1..]);
      d := List(gap, []);
      PrefixAndRest("]", inner);
    } else {
      ItemsSkip(t[1..], depth, values, limits, []);
      var items := ReadIsItems(t[1..], depth, values, limits, []);
      d := List([], items);
      assert [] + Trees(items) == Trees(items);
    }
  }

  lemma {:induction false} ReadIsItems(t: string, depth: nat, values: nat, limits: Limits, before: seq<Json>)
    returns (items: seq<Item>)
    requires ParseItems(t, depth, values, limits, before).Some?
    ensures items != [] && GrammaticalItems(items)
    ensures var r := ParseItems(t, depth, values, limits, before).value;
            r.value == Arr(before + Trees(items)) && t == SpellItems(items, r.rest)
    decreases |t|, 2
  {
    var u := SkipSpace(t);
    var r := ParseValue(u, depth + 1, values, limits).value;
    var a := SpaceTaken(t);
    var b := SpaceTaken(r.rest);
    var doc := ReadIsSpelt(u, depth + 1, values, limits);
    var item, after := Item(a, doc, b), SkipSpace(r.rest);
    if StartsWith(after, ',') {
      PrefixAndRest(",", after);
      var tail := ReadIsItems(after[1..], depth, r.values, limits, before + [r.value]);
      items := [item] + tail;
      assert items[1..] == tail;
      Associative(before, [r.value], Trees(tail));
    } else {
      PrefixAndRest("]", after);
      items := [item];
      assert items[1..] == [] && [r.value] + [] == [r.value];
    }
  }

  lemma {:induction false} ReadIsDict(t: string, depth: nat, values: nat, limits: Limits) returns (d: Doc)
    requires t != [] && t[0] == '{' && ParseObject(t, depth, values, limits).Some?
    ensures d.Dict? && Grammatical(d)
    ensures var r := ParseObject(t, depth, values, limits).value; r.value == Tree(d) && t == Spell(d, r.rest)
    decreases |t|, 0
  {
    PrefixAndRest("{", t);
    var inner := SkipSpace(t[1..]);
    if StartsWith(inner, '}') {
      var gap := SpaceTaken(t[1..]);
      d := Dict(gap, []);
      PrefixAndRest("}", inner);
    } else {
      MembersSkip(t[1..], depth, values, limits, [], []);
      var members := ReadIsMembers(t[1..], depth, values, limits, [], []);
      d := Dict([], members);
      assert [] + KeysOf(members) == KeysOf(members) && [] + ValuesOf(members) == ValuesOf(members);
    }
  }

  lemma ReadIsKey(t: string, keys: seq<string>) returns (key: seq<Part>, colon: string, before: string)
    requires ParseKey(t, keys).Some?
    ensures AllSpell(key) && Blank(colon) && Blank(before)
    ensures var r := ParseKey(t, keys).value;
            r.text == Meaning(key) && t == "\"" + SpellParts(key, "\"" + (colon + (":" + (before + r.rest))))
  {
    PrefixAndRest("\"", t);
    key := ReadIsString(t[1..], []);
    assert [] + Meaning(key) == Meaning(key);
    var left := ReadBody(t[1..], []).value.rest;
    colon := SpaceTaken(left);
    var u := SkipSpace(left);
    PrefixAndRest(":", u);
    before := SpaceTaken(u[1..]);
  }

  /** One member, up to the character after it. */
  lemma {:induction false} ReadIsMember(t: string, depth: nat, values: nat, limits: Limits, keys: seq<string>)
    returns (m: Member)
    requires ParseKey(SkipSpace(t), keys).Some?
    requires ParseValue(ParseKey(SkipSpace(t), keys).value.rest, depth + 1, values, limits).Some?
    ensures Grammatical(m.item.doc) && Keyed(m)
    ensures var k := ParseKey(SkipSpace(t), keys).value;
            var r := ParseValue(k.rest, depth + 1, values, limits).value;
            k.text == Meaning(m.key) && r.value == Tree(m.item.doc) && t == SpellMember(m, SkipSpace(r.rest))
    decreases |t|, 2
  {
    var a := SpaceTaken(t);
    var k := ParseKey(SkipSpace(t), keys).value;
    var key, colon, before := ReadIsKey(SkipSpace(t), keys);
    var doc := ReadIsSpelt(k.rest, depth + 1, values, limits);
    var b := SpaceTaken(ParseValue(k.rest, depth + 1, values, limits).value.rest);
    m := Member(a, key, colon, Item(before, doc, b));
  }

  lemma MembersCons(m: Member, tail: seq<Member>, keys: seq<string>, items: seq<Json>, rest: string)
    requires Grammatical(m.item.doc) && Keyed(m) && GrammaticalMembers(tail)
    ensures var all := [m] + tail;
            && GrammaticalMembers(all)
            && SpellMembers(all, rest) ==
                 SpellMember(m, if tail == [] then "}" + rest else "," + SpellMembers(tail, rest))
            && keys + KeysOf(all) == keys + [Meaning(m.key)] + KeysOf(tail)
            && items + ValuesOf(all) == items + [Tree(m.item.doc)] + ValuesOf(tail)
  {
    var all := [m] + tail;
    assert all[1..] == tail;
    Associative(keys, [Meaning(m.key)], KeysOf(tail));
    Associative(items, [Tree(m.item.doc)], ValuesOf(tail));
  }

  lemma {:induction false} ReadIsMembers(t: string, depth: nat, values: nat, limits: Limits, keys: seq<string>,
                                         items: seq<Json>) returns (members: seq<Member>)
    requires ParseMembers(t, depth, values, limits, keys, items).Some?
    ensures members != [] && GrammaticalMembers(members)
    ensures var r := ParseMembers(t, depth, values, limits, keys, items).value;
            r.value == Obj(keys + KeysOf(members), items + ValuesOf(members)) && t == SpellMembers(members, r.rest)
    decreases |t|, 3
  {
    var m := ReadIsMember(t, depth, values, limits, keys);
    var k := ParseKey(SkipSpace(t), keys).value;
    var r := ParseValue(k.rest, depth + 1, values, limits).value;
    var after := SkipSpace(r.rest);
    var all := ParseMembers(t, depth, values, limits, keys, items).value;
    var tail := [];
    if StartsWith(after, ',') {
      PrefixAndRest(",", after);
      tail := ReadIsMembers(after[1..], depth, r.values, limits, keys + [k.text], items + [r.value]);
    } else {
      PrefixAndRest("}", after);
      assert keys + [k.text] + [] == keys + [k.text] && items + [r.value] + [] == items + [r.value];
    }
    members := [m] + tail;
    MembersCons(m, tail, keys, items, all.rest);
  }

  // ---- the reading law -----------------------------------------------------------------------

  /** The tree of a document has no invalid byte and a key for every item. */
  lemma {:induction false} TreeIsClean(d: Doc)
    requires Grammatical(d)
    ensures Shaped(Tree(d)) && Cleaned(Tree(d)) == Tree(d)
    decreases d, 0
  {
    match d
    case Word(_) =>
    case Numeral(_, _, _, _) =>
    case Quote(parts) => MeaningIsClean(parts);
    case List(_, items) => TreesAreClean(items);
    case Dict(_, members) => MembersAreClean(members);
  }

  lemma {:induction false} TreesAreClean(items: seq<Item>)
    requires GrammaticalItems(items)
    ensures (forall i :: 0 <= i < |Trees(items)| ==> Shaped(Trees(items)[i])) &&
            CleanedItems(Trees(items)) == Trees(items)
    decreases items, 0
  {
    if items != [] {
      TreeIsClean(items[0].doc);
      TreesAreClean(items[1..]);
      assert Trees(items)[1..] == Trees(items[1..]);
    }
  }

  lemma {:induction false} MembersAreClean(members: seq<Member>)
    requires GrammaticalMembers(members)
    ensures |KeysOf(members)| == |ValuesOf(members)| && CleanedKeys(KeysOf(members)) == KeysOf(members)
    ensures var v := ValuesOf(members); (forall i :: 0 <= i < |v| ==> Shaped(v[i])) && CleanedItems(v) == v
    decreases members, 0
  {
    if members != [] {
      TreeIsClean(members[0].item.doc);
      MeaningIsClean(members[0].key);
      MembersAreClean(members[1..]);
      assert KeysOf(members)[1..] == KeysOf(members[1..]) && ValuesOf(members)[1..] == ValuesOf(members[1..]);
    }
  }

  /** What the reader can hold: within the limits, no key twice in an object, every number in range. */
  predicate Holds(v: Json, limits: Limits) { Within(limits, Depth(v), Count(v)) && KeysDiffer(v) && AllHeld(v, limits) }

  /** Every spelt document is read as its tree exactly when the reader can hold it, whatever white space it has. */
  lemma SpeltIsRead(a: string, d: Doc, b: string, limits: Limits)
    requires Blank(a) && Grammatical(d) && Blank(b)
    ensures ParseJson(a + Spell(d, b), limits) ==
            if |a + Spell(d, b)| <= limits.bytes && Holds(Tree(d), limits) then Some(Tree(d)) else None
  {
    BlankIsSkipped(a, Spell(d, b));
    SpellStarts(d, b);
    NoSpace(Spell(d, b));
    BlankIsSkipped(b, []);
    assert b + [] == b;
    ValueIsRead(d, b, 1, 0, limits);
    TreeIsClean(d);
    BuildIs(Tree(d), 1, 0, limits);
  }

  /** The text spells the tree. */
  ghost predicate SpeltAs(t: string, v: Json) {
    exists a, d, b :: Blank(a) && Grammatical(d) && Blank(b) && t == a + Spell(d, b) && v == Tree(d)
  }

  /** The reader accepts a text as a tree exactly when the grammar spells the tree so and the reader can hold it. */
  lemma ReadingLaw(t: string, v: Json, limits: Limits)
    ensures ParseJson(t, limits) == Some(v) <==> |t| <= limits.bytes && SpeltAs(t, v) && Holds(v, limits)
  {
    if ParseJson(t, limits) == Some(v) {
      var a := SpaceTaken(t);
      var d := ReadIsSpelt(SkipSpace(t), 1, 0, limits);
      var b := SpaceTaken(ParseValue(SkipSpace(t), 1, 0, limits).value.rest);
      assert b + [] == b;
      SpeltIsRead(a, d, b, limits);
    }
    if SpeltAs(t, v) {
      var a, d, b :| Blank(a) && Grammatical(d) && Blank(b) && t == a + Spell(d, b) && v == Tree(d);
      SpeltIsRead(a, d, b, limits);
    }
  }

  /** The document without white space. */
  function Squeezed(d: Doc): Doc
    decreases d
  {
    match d
    case List(_, items) => List([], SqueezedItems(items))
    case Dict(_, members) => Dict([], SqueezedMembers(members))
    case _ => d
  }

  function SqueezedItems(items: seq<Item>): seq<Item>
    decreases items
  {
    if items == [] then [] else [Item([], Squeezed(items[0].doc), [])] + SqueezedItems(items[1..])
  }

  function SqueezedMembers(members: seq<Member>): seq<Member>
    decreases members
  {
    if members == [] then []
    else [Member([], members[0].key, [], Item([], Squeezed(members[0].item.doc), []))] + SqueezedMembers(members[1..])
  }

  lemma {:induction false} SqueezedTree(d: Doc)
    requires Grammatical(d)
    ensures Grammatical(Squeezed(d)) && Tree(Squeezed(d)) == Tree(d)
    decreases d, 0
  {
    match d
    case List(_, items) => SqueezedTrees(items);
    case Dict(_, members) => SqueezedValues(members);
    case _ =>
  }

  lemma {:induction false} SqueezedTrees(items: seq<Item>)
    requires GrammaticalItems(items)
    ensures GrammaticalItems(SqueezedItems(items)) && Trees(SqueezedItems(items)) == Trees(items)
    decreases items, 0
  {
    if items != [] {
      SqueezedTree(items[0].doc);
      SqueezedTrees(items[1..]);
      assert SqueezedItems(items)[1..] == SqueezedItems(items[1..]);
    }
  }

  lemma {:induction false} SqueezedValues(members: seq<Member>)
    requires GrammaticalMembers(members)
    ensures var s := SqueezedMembers(members);
            GrammaticalMembers(s) && KeysOf(s) == KeysOf(members) && ValuesOf(s) == ValuesOf(members)
    decreases members, 0
  {
    if members != [] {
      SqueezedTree(members[0].item.doc);
      SqueezedValues(members[1..]);
      assert SqueezedMembers(members)[1..] == SqueezedMembers(members[1..]);
    }
  }

  /** Texts that differ in white space between tokens only are both refused or both read as the same tree. */
  lemma SpaceIsIgnored(a: string, d: Doc, b: string, a': string, d': Doc, b': string, limits: Limits)
    requires Blank(a) && Grammatical(d) && Blank(b) && |a + Spell(d, b)| <= limits.bytes
    requires Blank(a') && Grammatical(d') && Blank(b') && |a' + Spell(d', b')| <= limits.bytes
    requires Squeezed(d) == Squeezed(d')
    ensures ParseJson(a + Spell(d, b), limits) == ParseJson(a' + Spell(d', b'), limits)
  {
    SqueezedTree(d);
    SqueezedTree(d');
    SpeltIsRead(a, d, b, limits);
    SpeltIsRead(a', d', b', limits);
  }
}
