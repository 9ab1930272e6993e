/**
 JSON documents: the text the sensor's writer produces for a tree and the tree its strict reader makes of a text
 (RFC 8259), within limits on size, nesting and number of values.
 */
module Json {
  import opened Text
  import opened JsonStrings

  /** Integers keep their sign and magnitude; a number with a fraction or an exponent is kept as it is spelt. */
  datatype Json =
    | Null
    | Bool(flag: bool)
    | Number(negative: bool, magnitude: nat)
    | Real(lexeme: string)
    | Str(text: string)
    | Arr(items: seq<Json>)
    | Obj(keys: seq<string>, items: seq<Json>)  // the key of each item

  /** `finite` says of a number with a fraction or an exponent whether a double can hold it. */
  datatype Limits = Limits(bytes: nat, depth: nat, values: nat, finite: string -> bool)

  const MAX_MAGNITUDE: nat := 0xFFFF_FFFF_FFFF_FFFF

  // ---- the written text ----------------------------------------------------------------------

  function Quoted(s: string): string { "\"" + Body(s) + "\"" }

  function TextOf(v: Json): string
    decreases v
  {
    match v
    case Null => "null"
    case Bool(flag) => if flag then "true" else "false"
    case Number(negative, magnitude) => (if negative then "-" else "") + Decimal(magnitude)
    case Real(lexeme) => lexeme
    case Str(s) => Quoted(s)
    case Arr(items) => "[" + ItemsText(items) + "]"
    case Obj(keys, items) => "{" + MembersText(keys, items) + "}"
  }

  function ItemsText(items: seq<Json>): string
    decreases items, 0
  {
    if items == [] then [] else TextOf(items[0]) + MoreItemsText(items[1..])
  }

  function MoreItemsText(items: seq<Json>): string
    decreases items, 1
  {
    if items == [] then [] else "," + ItemsText(items)
  }

  function MembersText(keys: seq<string>, items: seq<Json>): string
    decreases items, 0
  {
    if keys == [] || items == [] then []
    else Quoted(keys[0]) + (":" + (TextOf(items[0]) + MoreMembersText(keys[1..], items[1..])))
  }

  function MoreMembersText(keys: seq<string>, items: seq<Json>): string
    decreases items, 1
  {
    if keys == [] || items == [] then [] else "," + MembersText(keys, items)
  }

  function Cleaned(v: Json): Json
    decreases v
  {
    match v
    case Str(s) => Str(Clean(s))
    case Arr(items) => Arr(CleanedItems(items))
    case Obj(keys, items) => Obj(CleanedKeys(keys), CleanedItems(items))
    case _ => v
  }

  function CleanedItems(items: seq<Json>): (r: seq<Json>)
    decreases items
  {
    if items == [] then [] else [Cleaned(items[0])] + CleanedItems(items[1..])
  }

  function CleanedKeys(keys: seq<string>): (r: seq<string>) {
    if keys == [] then [] else [Clean(keys[0])] + CleanedKeys(keys[1..])
  }

  /** Number of values in the tree. */
  function Count(v: Json): (n: nat)
    ensures n >= 1
    decreases v
  {
    match v
    case Arr(items) => 1 + CountItems(items)
    case Obj(_, items) => 1 + CountItems(items)
    case _ => 1
  }

  function CountItems(items: seq<Json>): nat
    decreases items
  {
    if items == [] then 0 else Count(items[0]) + CountItems(items[1..])
  }

  function Depth(v: Json): (n: nat)
    ensures n >= 1
    decreases v
  {
    match v
    case Arr(items) => 1 + DepthItems(items)
    case Obj(_, items) => 1 + DepthItems(items)
    case _ => 1
  }

  function DepthItems(items: seq<Json>): nat
    decreases items
  {
    if items == [] then 0 else Max(Depth(items[0]), DepthItems(items[1..]))
  }

  // ---- the reader ----------------------------------------------------------------------------

  datatype Read = Read(value: Json, rest: string, values: nat)
  datatype NumberRead = NumberRead(value: Json, taken: nat)

  predicate IsSpace(c: char) { c == ' ' || c == '\t' || c == '\n' || c == '\r' }

  function SkipSpace(t: string): (r: string)
    ensures |r| <= |t|
  {
    if t != [] && IsSpace(t[0]) then SkipSpace(t[1..]) else t
  }

  lemma NoSpace(t: string)
    requires t == [] || !IsSpace(t[0])
    ensures SkipSpace(t) == t
  {
  }

  predicate StartsWith(t: string, c: char) { t != [] && t[0] == c }

  /** The number of digits at the start of the text. */
  function Digits(t: string): (n: nat)
    ensures n <= |t| && AllDigits(t[..n])
  {
    if t != [] && IsDigit(t[0]) then 1 + Digits(t[1..]) else 0
  }

  /** The length of a fraction that may stand at the start of the text; `None` for a point without digits. */
  function FractionLength(t: string): (e: Option<nat>)
    ensures e.Some? ==> e.value <= |t|
  {
    if !StartsWith(t, '.') then Some(0)
    else
      var n := Digits(t[1..]);
      if n == 0 then None else Some(1 + n)
  }

  function ExponentLength(t: string): (e: Option<nat>)
    ensures e.Some? ==> e.value <= |t|
  {
    if !StartsWith(t, 'e') && !StartsWith(t, 'E') then Some(0)
    else
      var sign := if StartsWith(t[1..], '+') || StartsWith(t[1..], '-') then 2 else 1;
      var n := Digits(t[sign..]);
      if n == 0 then None else Some(sign + n)
  }

  /** The length of what makes a number a real one. */
  function RealLength(t: string): (e: Option<nat>)
    ensures e.Some? ==> e.value <= |t|
  {
    var fraction := FractionLength(t);
    if fraction.None? then None
    else
      var exponent := ExponentLength(t[fraction.value..]);
      if exponent.None? then None else Some(fraction.value + exponent.value)
  }

  function ParseNumber(t: string, finite: string -> bool): (r: Option<NumberRead>)
    ensures r.Some? ==> 1 <= r.value.taken <= |t|
  {
    if StartsWith(t, '-') then ParseDigits("-", t[1..], finite) else ParseDigits("", t, finite)
  }

  /** A number from its first digit on. */
  function ParseDigits(sign: string, t: string, finite: string -> bool): (r: Option<NumberRead>)
    ensures r.Some? ==> 1 <= r.value.taken <= |sign| + |t|
  {
    var digits := t[..Digits(t)];
    if digits == [] || (digits[0] == '0' && |digits| > 1) then None
        else NumberSpelt(sign, digits, t[|digits|..], finite)
  }

  /** The number made of these digits and what follows them. */
  function NumberSpelt(sign: string, digits: string, t: string, finite: string -> bool): (r: Option<NumberRead>)
    requires AllDigits(digits)
    ensures r.Some? ==> |sign| + |digits| <= r.value.taken <= |sign| + |digits| + |t|
  {
    var more := RealLength(t);
    if more.None? then None
    else if more.value == 0 then IntegerSpelt(sign == "-", digits, |sign| + |digits|)
    else RealSpelt(sign + digits + t[..more.value], finite)
  }

  function IntegerSpelt(negative: bool, digits: string, taken: nat): (r: Option<NumberRead>)
    requires AllDigits(digits)
    ensures r.Some? ==> r.value.taken == taken
  {
    var magnitude := DigitsValue(digits);
    if magnitude > MAX_MAGNITUDE then None else Some(NumberRead(Number(negative, magnitude), taken))
  }

  function RealSpelt(lexeme: string, finite: string -> bool): (r: Option<NumberRead>)
    ensures r.Some? ==> r.value.taken == |lexeme|
  {
    if finite(lexeme) then Some(NumberRead(Real(lexeme), |lexeme|)) else None
  }

  function ParseLiteral(t: string, word: string, value: Json, values: nat): (r: Option<Read>)
    requires word != []
    ensures r.Some? ==> |r.value.rest| < |t|
  {
    if word <= t then Some(Read(value, t[|word|..], values)) else None
  }

  /** One value; `values` counts those begun so far. */
  function ParseValue(t: string, depth: nat, values: nat, limits: Limits): (r: Option<Read>)
    ensures r.Some? ==> |r.value.rest| < |t|
    decreases |t|, 2
  {
    if depth > limits.depth || values + 1 > limits.values || t == [] then None
        else ParseFirst(t, depth, values + 1, limits)
  }

  /** The first character decides. */
  function ParseFirst(t: string, depth: nat, values: nat, limits: Limits): (r: Option<Read>)
    requires t != []
    ensures r.Some? ==> |r.value.rest| < |t|
    decreases |t|, 1
  {
    if t[0] == '{' then ParseObject(t, depth, values, limits)
    else if t[0] == '[' then ParseArray(t, depth, values, limits)
    else ParseScalar(t, values, limits)
  }

  function ParseScalar(t: string, values: nat, limits: Limits): (r: Option<Read>)
    requires t != []
    ensures r.Some? ==> |r.value.rest| < |t|
  {
    if t[0] == '"' then
      var s := ReadBody(t[1..], []);
      if s.None? then None else Some(Read(Str(s.value.text), s.value.rest, values))
    else if t[0] == 't' then ParseLiteral(t, "true", Bool(true), values)
    else if t[0] == 'f' then ParseLiteral(t, "false", Bool(false), values)
    else if t[0] == 'n' then ParseLiteral(t, "null", Null, values)
    else
      var n := ParseNumber(t, limits.finite);
      if n.None? then None else Some(Read(n.value.value, t[n.value.taken..], values))
  }

  function ParseArray(t: string, depth: nat, values: nat, limits: Limits): (r: Option<Read>)
    requires t != []
    ensures r.Some? ==> |r.value.rest| < |t|
    decreases |t|, 0
  {
    var inner := SkipSpace(t[1..]);
    if StartsWith(inner, ']') then Some(Read(Arr([]), inner[1..], values))
        else ParseItems(inner, depth, values, limits, [])
  }

  function ParseObject(t: string, depth: nat, values: nat, limits: Limits): (r: Option<Read>)
    requires t != []
    ensures r.Some? ==> |r.value.rest| < |t|
    decreases |t|, 0
  {
    var inner := SkipSpace(t[1..]);
    if StartsWith(inner, '}') then Some(Read(Obj([], []), inner[1..], values))
        else ParseMembers(inner, depth, values, limits, [], [])
  }

  /** The rest of an array whose first items are read. */
  function ParseItems(t: string, depth: nat, values: nat, limits: Limits, items: seq<Json>): (r: Option<Read>)
    ensures r.Some? ==> |r.value.rest| < |t|
    decreases |t|, 3
  {
    var item := ParseValue(SkipSpace(t), depth + 1, values, limits);
    if item.None? then None
    else
      var after := SkipSpace(item.value.rest);
      if StartsWith(after, ',')
          then ParseItems(after[1..], depth, item.value.values, limits, items + [item.value.value])
      else if StartsWith(after, ']') then Some(Read(Arr(items + [item.value.value]), after[1..], item.value.values))
      else None
  }

  /** A key that is not among those read, and the text after its colon. */
  function ParseKey(t: string, keys: seq<string>): (r: Option<StringRead>)
    ensures r.Some? ==> |r.value.rest| < |t|
  {
    if !StartsWith(t, '"') then None
    else
      var key := ReadBody(t[1..], []);
      if key.None? || key.value.text in keys then None
      else
        var colon := SkipSpace(key.value.rest);
        if StartsWith(colon, ':') then Some(StringRead(key.value.text, SkipSpace(colon[1..]))) else None
  }

  /** The rest of an object whose first members are read. */
  function ParseMembers(t: string, depth: nat, values: nat, limits: Limits, keys: seq<string>,
                        items: seq<Json>): (r: Option<Read>)
    ensures r.Some? ==> |r.value.rest| < |t|
    decreases |t|, 3
  {
    var key := ParseKey(SkipSpace(t), keys);
    if key.None? then None
    else
      var item := ParseValue(key.value.rest, depth + 1, values, limits);
      if item.None? then None
      else
        var after := SkipSpace(item.value.rest);
        if StartsWith(after, ',') then
          ParseMembers(after[1..], depth, item.value.values, limits, keys + [key.value.text],
              items + [item.value.value])
        else if StartsWith(after, '}') then
          Some(Read(Obj(keys + [key.value.text], items + [item.value.value]), after[1..], item.value.values))
        else None
  }

  /** `parse_json`. */
  function ParseJson(t: string, limits: Limits): Option<Json> {
    if |t| > limits.bytes then None
    else
      var root := ParseValue(SkipSpace(t), 1, 0, limits);
      if root.None? || SkipSpace(root.value.rest) != [] then None else Some(root.value.value)
  }

  // ---- reading what was written --------------------------------------------------------------

  /** What the writer can be given: 64-bit integers, signed or unsigned, and no fractions. */
  predicate Printable(v: Json)
    decreases v
  {
    match v
    case Number(negative, magnitude) => if negative then 1 <= magnitude <= 0x8000_0000_0000_0000
        else magnitude <= MAX_MAGNITUDE
    case Real(_) => false
    case Arr(items) => forall i :: 0 <= i < |items| ==> Printable(items[i])
    case Obj(keys, items) => |keys| == |items| && forall i :: 0 <= i < |items| ==> Printable(items[i])
    case _ => true
  }

  /** No object in the tree has two keys that are the same once cleaned. */
  predicate KeysDiffer(v: Json)
    decreases v
  {
    match v
    case Arr(items) => ItemKeysDiffer(items)
    case Obj(keys, items) => ItemKeysDiffer(items) && Distinct(CleanedKeys(keys))
    case _ => true
  }

  predicate ItemKeysDiffer(items: seq<Json>)
    decreases items
  {
    items == [] || (KeysDiffer(items[0]) && ItemKeysDiffer(items[1..]))
  }

  predicate Distinct(keys: seq<string>) { forall i, j :: 0 <= i < j < |keys| ==> keys[i] != keys[j] }

  /** What may follow a value: nothing, or the character after it in a container. */
  predicate Delimited(rest: string) { rest == [] || rest[0] == ',' || rest[0] == ']' || rest[0] == '}' }

  lemma {:induction false} DigitsOf(d: string, rest: string)
    requires AllDigits(d) && (rest == [] || !IsDigit(rest[0]))
    ensures Digits(d + rest) == |d|
  {
    if d == [] {
      assert d + rest == rest;
    } else {
      assert (d + rest)[0] == d[0] && (d + rest)[1..] == d[1..] + rest;
      DigitsOf(d[1..], rest);
    }
  }

  lemma NoFraction(rest: string)
    requires Delimited(rest)
    ensures RealLength(rest) == Some(0)
  {
    assert rest[0..] == rest;
  }

  lemma TwoParts(a: string, b: string)
    ensures (a + b)[..|a|] == a && (a + b)[|a|..] == b
  {
  }

  lemma DigitsParse(sign: string, d: string, rest: string, finite: string -> bool)
    requires d != [] && AllDigits(d) && (d[0] == '0' ==> |d| == 1) && DigitsValue(d) <= MAX_MAGNITUDE && Delimited(rest)
    ensures ParseDigits(sign, d + rest, finite) == Some(NumberRead(Number(sign == "-", DigitsValue(d)), |sign| + |d|))
  {
    TwoParts(d, rest);
    DigitsOf(d, rest);
    IntegerParses(sign, d, rest, finite);
    var t := d + rest;
    assert t[..Digits(t)] == d && t[|d|..] == rest;
  }

  lemma IntegerParses(sign: string, d: string, rest: string, finite: string -> bool)
    requires AllDigits(d) && DigitsValue(d) <= MAX_MAGNITUDE && Delimited(rest)
    ensures NumberSpelt(sign, d, rest, finite) == Some(NumberRead(Number(sign == "-", DigitsValue(d)), |sign| + |d|))
  {
    NoFraction(rest);
  }

  lemma NumberReadsBack(negative: bool, d: string, rest: string, values: nat, limits: Limits)
    requires d != [] && AllDigits(d) && (d[0] == '0' ==> |d| == 1) && DigitsValue(d) <= MAX_MAGNITUDE && Delimited(rest)
    ensures var sign := if negative then "-" else "";
            ParseScalar(sign + d + rest, values, limits) == Some(Read(Number(negative, DigitsValue(d)), rest, values))
  {
    var sign := if negative then "-" else "";
    DigitsParse(sign, d, rest, limits.finite);
    SignParses(negative, d + rest, limits.finite);
    Associative(sign, d, rest);
    assert (sign + d)[0] == '-' || (sign + d)[0] == d[0];
    NumberParses(sign + d, rest, Number(negative, DigitsValue(d)), values, limits);
  }

  lemma SignParses(negative: bool, t: string, finite: string -> bool)
    requires t != [] && IsDigit(t[0])
    ensures var sign := if negative then "-" else ""; ParseNumber(sign + t, finite) == ParseDigits(sign, t, finite)
  {
    if negative {
      assert ("-" + t)[1..] == t;
    } else {
      assert "" + t == t;
    }
  }

  lemma LiteralReadsBack(word: string, rest: string, value: Json, values: nat)
    requires word != []
    ensures ParseLiteral(word + rest, word, value, values) == Some(Read(value, rest, values))
  {
    assert (word + rest)[|word|..] == rest;
  }

  /** A value's text starts with a character that is neither space nor a closing bracket. */
  lemma TextStarts(v: Json)
    requires Printable(v)
    ensures TextOf(v) != [] && !IsSpace(TextOf(v)[0]) && TextOf(v)[0] != ']' && TextOf(v)[0] != '}'
  {
    if v.Number? { assert IsDigit(Decimal(v.magnitude)[0]); }
  }

  predicate Within(limits: Limits, depth: nat, values: nat) { depth <= limits.depth && values <= limits.values }

  /** A tree as the reader would build it, and the number of values begun by then. */
  datatype Built = Built(value: Json, values: nat)

  /** A number the reader can hold: 64 bits for an integer, a finite double for any other. */
  predicate Held(v: Json, limits: Limits) {
    match v
    case Number(_, magnitude) => magnitude <= MAX_MAGNITUDE
    case Real(lexeme) => limits.finite(lexeme)
    case _ => true
  }

  /** Reading without the text: the limits and the key checks applied to the tree itself. */
  function Build(v: Json, depth: nat, values: nat, limits: Limits): Option<Built>
    decreases v
  {
    if !Within(limits, depth, values + 1) || !Held(v, limits) then None
    else if v.Arr? then BuildItems(v.items, depth, values + 1, limits, [])
    else if v.Obj? then BuildMembers(v.keys, v.items, depth, values + 1, limits, [], [])
    else Some(Built(if v.Str? then Str(Clean(v.text)) else v, values + 1))
  }

  function BuildItems(items: seq<Json>, depth: nat, values: nat, limits: Limits, before: seq<Json>): Option<Built>
    decreases items
  {
    if items == [] then Some(Built(Arr(before), values))
    else
      var first := Build(items[0], depth + 1, values, limits);
      if first.None? then None
          else BuildItems(items[1..], depth, first.value.values, limits, before + [first.value.value])
  }

  function BuildMembers(keys: seq<string>, items: seq<Json>, depth: nat, values: nat, limits: Limits,
                        keys0: seq<string>, items0: seq<Json>): Option<Built>
    decreases items
  {
    if keys == [] || items == [] then Some(Built(Obj(keys0, items0), values))
    else
      var first := Build(items[0], depth + 1, values, limits);
      if Clean(keys[0]) in keys0 || first.None? then None
      else BuildMembers(keys[1..], items[1..], depth, first.value.values, limits, keys0 + [Clean(keys[0])],
          items0 + [first.value.value])
  }

  function Leaving(b: Option<Built>, rest: string): Option<Read> {
    if b.None? then None else Some(Read(b.value.value, rest, b.value.values))
  }

  lemma {:induction false} ValueReadsBack(v: Json, rest: string, depth: nat, values: nat, limits: Limits)
    requires Printable(v) && Delimited(rest)
    ensures ParseValue(TextOf(v) + rest, depth, values, limits) == Leaving(Build(v, depth, values, limits), rest)
    decreases v, 1
  {
    var t := TextOf(v) + rest;
    TextStarts(v);
    assert t[0] == TextOf(v)[0];
    if Within(limits, depth, values + 1) {
      if v.Arr? {
        ArrayReadsBack(v.items, rest, depth, values + 1, limits);
      } else if v.Obj? {
        ObjectReadsBack(v.keys, v.items, rest, depth, values + 1, limits);
      } else {
        ScalarReadsBack(v, rest, values + 1, limits);
        ScalarIsDispatched(v);
      }
    }
  }

  lemma ScalarIsDispatched(v: Json)
    requires !v.Arr? && !v.Obj? && Printable(v)
    ensures TextOf(v) != [] && TextOf(v)[0] != '{' && TextOf(v)[0] != '['
  {
    if v.Number? { assert IsDigit(Decimal(v.magnitude)[0]); }
  }

  lemma ScalarReadsBack(v: Json, rest: string, values: nat, limits: Limits)
    requires !v.Arr? && !v.Obj? && Printable(v) && Delimited(rest)
    ensures ParseScalar(TextOf(v) + rest, values, limits) ==
            Some(Read(if v.Str? then Str(Clean(v.text)) else v, rest, values))
  {
    match v
    case Null => LiteralReadsBack("null", rest, v, values);
    case Bool(flag) => LiteralReadsBack(TextOf(v), rest, v, values);
    case Number(negative, magnitude) =>
      DecimalValue(magnitude);
      NumberReadsBack(negative, Decimal(magnitude), rest, values, limits);
    case Str(s) => QuotedReadsBack(s, rest);
  }

  lemma NumberParses(t: string, rest: string, v: Json, values: nat, limits: Limits)
    requires t != [] && (t[0] == '-' || IsDigit(t[0])) &&
             ParseNumber(t + rest, limits.finite) == Some(NumberRead(v, |t|))
    ensures ParseScalar(t + rest, values, limits) == Some(Read(v, rest, values))
  {
    var u := t + rest;
    assert u[0] == t[0] && u[|t|..] == rest;
    assert u[0] != '"' && u[0] != 't' && u[0] != 'f' && u[0] != 'n';
  }

  lemma QuotedReadsBack(s: string, rest: string)
    ensures ReadBody((Quoted(s) + rest)[1..], []) == Some(StringRead(Clean(s), rest))
  {
    assert (Quoted(s) + rest)[1..] == Body(s) + ("\"" + rest);
    BodyReadsBack(s, rest, []);
    assert [] + Clean(s) == Clean(s);
  }

  lemma {:induction false} ArrayReadsBack(items: seq<Json>, rest: string, depth: nat, values: nat, limits: Limits)
    requires forall i :: 0 <= i < |items| ==> Printable(items[i])
    ensures ParseArray("[" + ItemsText(items) + "]" + rest, depth, values, limits) ==
            Leaving(BuildItems(items, depth, values, limits, []), rest)
    decreases items, 2
  {
    var inner := ItemsText(items) + ("]" + rest);
    var t := "[" + ItemsText(items) + "]" + rest;
    assert t == "[" + inner;
    HeadTail('[', inner);
    if items == [] {
      var end := "]" + rest;
      assert !IsSpace(']');
      assert end[0] == ']' && end[1..] == rest && inner == end;
      NoSpace(end);
    } else {
      ItemsTextSplits(items, rest);
      ArrayParses(t, inner, depth, values, limits);
      ItemsReadBack(items, rest, depth, values, limits, []);
    }
  }

  lemma ArrayParses(t: string, inner: string, depth: nat, values: nat, limits: Limits)
    requires t != [] && t[1..] == inner && inner != [] && !IsSpace(inner[0]) && inner[0] != ']'
    ensures ParseArray(t, depth, values, limits) == ParseItems(inner, depth, values, limits, [])
  {
    NoSpace(inner);
  }

  lemma HeadTail<T>(x: T, y: seq<T>)
    ensures ([x] + y)[0] == x && ([x] + y)[1..] == y
  {
  }

  lemma {:induction false} ItemsReadBack(items: seq<Json>, rest: string, depth: nat, values: nat, limits: Limits,
                                         before: seq<Json>)
    requires items != [] && forall i :: 0 <= i < |items| ==> Printable(items[i])
    ensures ParseItems(ItemsText(items) + ("]" + rest), depth, values, limits, before) ==
            Leaving(BuildItems(items, depth, values, limits, before), rest)
    decreases items, 1
  {
    FirstItemReadsBack(items, rest, depth, values, limits, before);
    var first := Build(items[0], depth + 1, values, limits);
    if |items| > 1 && first.Some? {
      ItemsReadBack(items[1..], rest, depth, first.value.values, limits, before + [first.value.value]);
    }
  }

  /** The first item is read; what follows it is left to the loop. */
  lemma {:induction false} FirstItemReadsBack(items: seq<Json>, rest: string, depth: nat, values: nat, limits: Limits,
                                              before: seq<Json>)
    requires items != [] && Printable(items[0])
    ensures var first := Build(items[0], depth + 1, values, limits);
            ParseItems(ItemsText(items) + ("]" + rest), depth, values, limits, before) ==
            if first.None? then None
            else if |items| == 1 then Some(Read(Arr(before + [first.value.value]), rest, first.value.values))
            else ParseItems(ItemsText(items[1..]) + ("]" + rest), depth, first.value.values, limits,
                before + [first.value.value])
    decreases items, 0
  {
    var more := MoreItemsText(items[1..]) + ("]" + rest);
    ItemsTextSplits(items, rest);
    ValueReadsBack(items[0], more, depth + 1, values, limits);
    ItemsParse(TextOf(items[0]) + more, depth, values, limits, before, Build(items[0], depth + 1, values, limits),
        more);
  }

  lemma ItemsParse(t: string, depth: nat, values: nat, limits: Limits, before: seq<Json>, item: Option<Built>,
                   more: string)
    requires t != [] && !IsSpace(t[0]) && ParseValue(t, depth + 1, values, limits) == Leaving(item, more)
    requires more != [] && SkipSpace(more) == more
    ensures ParseItems(t, depth, values, limits, before) ==
            if item.None? then None
            else if more[0] == ','
                then ParseItems(more[1..], depth, item.value.values, limits, before + [item.value.value])
            else if more[0] == ']' then Some(Read(Arr(before + [item.value.value]), more[1..], item.value.values))
            else None
  {
    NoSpace(t);
  }

  /** What follows a value in a container is a comma and the others, or the closing bracket. */
  predicate Follows(more: string, last: bool, others: string, close: char, rest: string) {
    && Delimited(more) && more != [] && SkipSpace(more) == more
    && more[0] == (if last then close else ',')
    && more[1..] == if last then rest else others
  }

  lemma ItemsTextSplits(items: seq<Json>, rest: string)
    requires items != [] && Printable(items[0])
    ensures var more := MoreItemsText(items[1..]) + ("]" + rest);
            && ItemsText(items) + ("]" + rest) == TextOf(items[0]) + more
            && TextOf(items[0]) != [] && !IsSpace(TextOf(items[0])[0]) && TextOf(items[0])[0] != ']'
            && Follows(more, |items| == 1, ItemsText(items[1..]) + ("]" + rest), ']', rest)
  {
    var tail := items[1..];
    Associative(TextOf(items[0]), MoreItemsText(tail), "]" + rest);
    TextStarts(items[0]);
    MoreFollows(if tail == [] then [] else ItemsText(tail), tail == [], ']', rest);
  }

  lemma MoreFollows(text: string, last: bool, close: char, rest: string)
    requires close == ']' || close == '}'
    ensures Follows((if last then [] else "," + text) + ([close] + rest), last, text + ([close] + rest), close, rest)
  {
    var end := [close] + rest;
    if last {
      assert [] + end == end && end[1..] == rest;
      NoSpace(end);
    } else {
      Associative(",", text, end);
      assert ("," + (text + end))[1..] == text + end;
      NoSpace("," + (text + end));
    }
  }

  lemma {:induction false} ObjectReadsBack(keys: seq<string>, items: seq<Json>, rest: string, depth: nat, values: nat,
                                           limits: Limits)
    requires |keys| == |items| && forall i :: 0 <= i < |items| ==> Printable(items[i])
    ensures ParseObject("{" + MembersText(keys, items) + "}" + rest, depth, values, limits) ==
            Leaving(BuildMembers(keys, items, depth, values, limits, [], []), rest)
    decreases items, 2
  {
    var inner := MembersText(keys, items) + ("}" + rest);
    var t := "{" + MembersText(keys, items) + "}" + rest;
    assert t == "{" + inner;
    HeadTail('{', inner);
    if items == [] {
      var end := "}" + rest;
      assert end[0] == '}' && end[1..] == rest && inner == end;
      NoSpace(end);
    } else {
      MembersTextSplits(keys, items, rest);
      ObjectParses(t, inner, depth, values, limits);
      MembersReadBack(keys, items, rest, depth, values, limits, [], []);
    }
  }

  lemma ObjectParses(t: string, inner: string, depth: nat, values: nat, limits: Limits)
    requires t != [] && t[1..] == inner && inner != [] && !IsSpace(inner[0]) && inner[0] != '}'
    ensures ParseObject(t, depth, values, limits) == ParseMembers(inner, depth, values, limits, [], [])
  {
    NoSpace(inner);
  }

  lemma KeyReadsBack(key: string, rest: string, before: seq<string>)
    requires rest != [] && !IsSpace(rest[0])
    ensures ParseKey(Quoted(key) + (":" + rest), before) == if Clean(key) in before then None
            else Some(StringRead(Clean(key), rest))
  {
    QuotedReadsBack(key, ":" + rest);
    NoSpace(rest);
    assert (":" + rest)[1..] == rest;
  }

  lemma {:induction false} MembersReadBack(keys: seq<string>, items: seq<Json>, rest: string, depth: nat, values: nat,
                                           limits: Limits, keys0: seq<string>, items0: seq<Json>)
    requires |keys| == |items| > 0 && forall i :: 0 <= i < |items| ==> Printable(items[i])
    ensures ParseMembers(MembersText(keys, items) + ("}" + rest), depth, values, limits, keys0, items0) ==
            Leaving(BuildMembers(keys, items, depth, values, limits, keys0, items0), rest)
    decreases items, 1
  {
    FirstMemberReadsBack(keys, items, rest, depth, values, limits, keys0, items0);
    var first := Build(items[0], depth + 1, values, limits);
    if |items| > 1 && first.Some? && Clean(keys[0]) !in keys0 {
      MembersReadBack(keys[1..], items[1..], rest, depth, first.value.values, limits, keys0 + [Clean(keys[0])],
          items0 + [first.value.value]);
    }
  }

  /** The first member is read; what follows it is left to the loop. */
  lemma {:induction false} FirstMemberReadsBack(keys: seq<string>, items: seq<Json>, rest: string, depth: nat,
                                                values: nat, limits: Limits, keys0: seq<string>, items0: seq<Json>)
    requires |keys| == |items| > 0 && Printable(items[0])
    ensures var first, keys1 := Build(items[0], depth + 1, values, limits), keys0 + [Clean(keys[0])];
            ParseMembers(MembersText(keys, items) + ("}" + rest), depth, values, limits, keys0, items0) ==
            if Clean(keys[0]) in keys0 || first.None? then None
            else if |items| == 1 then Some(Read(Obj(keys1, items0 + [first.value.value]), rest, first.value.values))
            else ParseMembers(MembersText(keys[1..], items[1..]) + ("}" + rest), depth, first.value.values, limits,
                keys1, items0 + [first.value.value])
    decreases items, 0
  {
    var more := MoreMembersText(keys[1..], items[1..]) + ("}" + rest);
    var value := TextOf(items[0]) + more;
    MembersTextSplits(keys, items, rest);
    KeyReadsBack(keys[0], value, keys0);
    ValueReadsBack(items[0], more, depth + 1, values, limits);
    MembersParse(Quoted(keys[0]) + (":" + value), depth, values, limits, keys0, items0, Clean(keys[0]), value,
        Build(items[0], depth + 1, values, limits), more);
  }

  lemma MembersTextSplits(keys: seq<string>, items: seq<Json>, rest: string)
    requires |keys| == |items| > 0 && Printable(items[0])
    ensures var more := MoreMembersText(keys[1..], items[1..]) + ("}" + rest);
            && MembersText(keys, items) + ("}" + rest) == Quoted(keys[0]) + (":" + (TextOf(items[0]) + more))
            && TextOf(items[0]) != [] && !IsSpace(TextOf(items[0])[0])
            && Follows(more, |items| == 1, MembersText(keys[1..], items[1..]) + ("}" + rest), '}', rest)
  {
    var ks, tail := keys[1..], items[1..];
    MemberTextStep(Quoted(keys[0]), TextOf(items[0]), MoreMembersText(ks, tail), "}" + rest);
    TextStarts(items[0]);
    MoreFollows(if tail == [] then [] else MembersText(ks, tail), tail == [], '}', rest);
  }

  lemma MembersParse(t: string, depth: nat, values: nat, limits: Limits, keys: seq<string>, items: seq<Json>,
                     key: string, value: string, item: Option<Built>, more: string)
    requires t != [] && !IsSpace(t[0]) && ParseKey(t, keys) == if key in keys then None
             else Some(StringRead(key, value))
    requires ParseValue(value, depth + 1, values, limits) == Leaving(item, more) && more != [] &&
             SkipSpace(more) == more
    ensures ParseMembers(t, depth, values, limits, keys, items) ==
            if key in keys || item.None? then None
            else if more[0] == ','
                then ParseMembers(more[1..], depth, item.value.values, limits, keys + [key], items + [item.value.value])
            else if more[0] == '}'
                then Some(Read(Obj(keys + [key], items + [item.value.value]), more[1..], item.value.values))
            else None
  {
    NoSpace(t);
  }

  lemma MemberTextStep(key: string, value: string, more: string, end: string)
    ensures key + (":" + (value + more)) + end == key + (":" + (value + (more + end)))
  {
    Associative(value, more, end);
    Associative(":", value + more, end);
    Associative(key, ":" + (value + more), end);
  }

  // ---- when it is accepted -------------------------------------------------------------------

  /** Every object has as many keys as items. */
  predicate Shaped(v: Json)
    decreases v
  {
    match v
    case Arr(items) => forall i :: 0 <= i < |items| ==> Shaped(items[i])
    case Obj(keys, items) => |keys| == |items| && forall i :: 0 <= i < |items| ==> Shaped(items[i])
    case _ => true
  }

  /** The reader can hold every number of the tree. */
  predicate AllHeld(v: Json, limits: Limits)
    decreases v
  {
    match v
    case Arr(items) => ItemsHeld(items, limits)
    case Obj(_, items) => ItemsHeld(items, limits)
    case _ => Held(v, limits)
  }

  predicate ItemsHeld(items: seq<Json>, limits: Limits)
    decreases items
  {
    items == [] || (AllHeld(items[0], limits) && ItemsHeld(items[1..], limits))
  }

  lemma {:induction false} PrintableIsHeld(v: Json, limits: Limits)
    requires Printable(v)
    ensures Shaped(v) && AllHeld(v, limits)
    decreases v, 0
  {
    match v
    case Arr(items) => PrintablesAreHeld(items, limits);
    case Obj(_, items) => PrintablesAreHeld(items, limits);
    case _ =>
  }

  lemma {:induction false} PrintablesAreHeld(items: seq<Json>, limits: Limits)
    requires forall i :: 0 <= i < |items| ==> Printable(items[i])
    ensures (forall i :: 0 <= i < |items| ==> Shaped(items[i])) && ItemsHeld(items, limits)
    decreases items, 0
  {
    if items != [] {
      PrintableIsHeld(items[0], limits);
      PrintablesAreHeld(items[1..], limits);
      assert items == [items[0]] + items[1..];
    }
  }

  predicate Fits(v: Json, depth: nat, values: nat, limits: Limits)
    requires depth >= 1
  {
    Within(limits, depth - 1 + Depth(v), values + Count(v)) && KeysDiffer(v) && AllHeld(v, limits)
  }

  predicate ItemsFit(items: seq<Json>, depth: nat, values: nat, limits: Limits) {
    Within(limits, depth + DepthItems(items), values + CountItems(items)) && ItemKeysDiffer(items) &&
    ItemsHeld(items, limits)
  }

  lemma {:induction false} BuildIs(v: Json, depth: nat, values: nat, limits: Limits)
    requires depth >= 1 && Shaped(v)
    ensures Build(v, depth, values, limits) == if Fits(v, depth, values, limits)
            then Some(Built(Cleaned(v), values + Count(v))) else None
    decreases v
  {
    if !Within(limits, depth, values + 1) {
      assert Depth(v) >= 1 && Count(v) >= 1;
    } else if v.Arr? {
      BuildItemsIs(v.items, depth, values + 1, limits, []);
      assert [] + CleanedItems(v.items) == CleanedItems(v.items);
    } else if v.Obj? {
      BuildMembersIs(v.keys, v.items, depth, values + 1, limits, [], []);
      assert [] + CleanedKeys(v.keys) == CleanedKeys(v.keys) && [] + CleanedItems(v.items) == CleanedItems(v.items);
    }
  }

  lemma {:induction false} BuildItemsIs(items: seq<Json>, depth: nat, values: nat, limits: Limits, before: seq<Json>)
    requires Within(limits, depth, values) && forall i :: 0 <= i < |items| ==> Shaped(items[i])
    ensures BuildItems(items, depth, values, limits, before) ==
            if ItemsFit(items, depth, values, limits)
                then Some(Built(Arr(before + CleanedItems(items)), values + CountItems(items))) else None
    decreases items
  {
    if items == [] {
      assert before + [] == before;
    } else {
      BuildIs(items[0], depth + 1, values, limits);
      ItemsFitStep(items, depth, values, limits, before);
      if Build(items[0], depth + 1, values, limits).Some? {
        BuildItemsIs(items[1..], depth, values + Count(items[0]), limits, before + [Cleaned(items[0])]);
      }
    }
  }

  lemma ItemsFitStep(items: seq<Json>, depth: nat, values: nat, limits: Limits, before: seq<Json>)
    requires items != []
    ensures ItemsFit(items, depth, values, limits) <==>
            Fits(items[0], depth + 1, values, limits) && ItemsFit(items[1..], depth, values + Count(items[0]), limits)
    ensures CountItems(items) == Count(items[0]) + CountItems(items[1..])
    ensures before + [Cleaned(items[0])] + CleanedItems(items[1..]) == before + CleanedItems(items)
  {
    Associative(before, [Cleaned(items[0])], CleanedItems(items[1..]));
  }

  lemma KeysStep(keys: seq<string>, before: seq<string>)
    requires keys != [] && Distinct(before)
    ensures before + [Clean(keys[0])] + CleanedKeys(keys[1..]) == before + CleanedKeys(keys)
    ensures if Clean(keys[0]) in before then !Distinct(before + CleanedKeys(keys))
            else Distinct(before + [Clean(keys[0])])
  {
    var k := Clean(keys[0]);
    Associative(before, [k], CleanedKeys(keys[1..]));
    if k in before {
      var i :| 0 <= i < |before| && before[i] == k;
      var all := before + CleanedKeys(keys);
      assert all[i] == k && all[|before|] == k;
    }
  }

  lemma {:induction false} BuildMembersIs(keys: seq<string>, items: seq<Json>, depth: nat, values: nat, limits: Limits,
                                          keys0: seq<string>, items0: seq<Json>)
    requires Within(limits, depth, values) && |keys| == |items| && Distinct(keys0) && forall i :: 0 <= i < |items| ==>
               Shaped(items[i])
    ensures BuildMembers(keys, items, depth, values, limits, keys0, items0) ==
            if ItemsFit(items, depth, values, limits) && Distinct(keys0 + CleanedKeys(keys))
            then Some(Built(Obj(keys0 + CleanedKeys(keys), items0 + CleanedItems(items)), values + CountItems(items)))
                else None
    decreases items
  {
    if items == [] {
      assert keys0 + [] == keys0 && items0 + [] == items0;
    } else {
      BuildIs(items[0], depth + 1, values, limits);
      ItemsFitStep(items, depth, values, limits, items0);
      KeysStep(keys, keys0);
      var first, key := Build(items[0], depth + 1, values, limits), Clean(keys[0]);
      if key in keys0 || first.None? {
        assert BuildMembers(keys, items, depth, values, limits, keys0, items0).None?;
      } else {
        BuildMembersIs(keys[1..], items[1..], depth, first.value.values, limits, keys0 + [key],
            items0 + [first.value.value]);
      }
    }
  }

  /**
   For every tree the writer can be given and all limits: its text is accepted exactly when it is within the limits and
   no object has two keys that become the same by cleaning, and then it reads as the tree with every invalid byte
   replaced.
   */
  lemma RoundTrip(v: Json, limits: Limits)
    requires Printable(v)
    ensures ParseJson(TextOf(v), limits) ==
            if |TextOf(v)| <= limits.bytes && Within(limits, Depth(v), Count(v)) && KeysDiffer(v) then Some(Cleaned(v))
                else None
  {
    TextStarts(v);
    NoSpace(TextOf(v));
    assert TextOf(v) + [] == TextOf(v);
    ValueReadsBack(v, [], 1, 0, limits);
    PrintableIsHeld(v, limits);
    BuildIs(v, 1, 0, limits);
  }
}
