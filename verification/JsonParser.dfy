/**
 The parser object: recursive descent over a fixed text with a position that only moves forward and a count of values.
 Every method leaves the object where the corresponding function on texts says.
 */
module JsonParsers {
  import opened Text
  import opened Utf8
  import opened JsonStrings
  import opened Json

  lemma LengthHere(text: string, at: nat)
    requires at < |text|
    ensures ReaderLength(text, at) == ReaderLength(text[at..], 0)
  {
  }

  class JsonParser {
    const text: string
    const limits: Limits
    var position: nat
    var values: nat

    predicate Valid() reads this { position <= |text| }

    function Rest(): string
      requires Valid()
      reads this
    {
      text[position..]
    }

    constructor (text: string, limits: Limits)
      ensures Valid() && position == 0 && values == 0 && this.text == text && this.limits == limits
    {
      this.text, this.limits := text, limits;
      position, values := 0, 0;
    }

    method Advance(n: nat)
      requires Valid() && n <= |Rest()|
      modifies this`position
      ensures Valid() && position == old(position) + n && Rest() == old(Rest())[n..]
    {
      DropTwice(text, position, n);
      position := position + n;
    }

    method SkipBlanks()
      requires Valid()
      modifies this`position
      ensures Valid() && Rest() == SkipSpace(old(Rest())) && position >= old(position)
    {
      while position < |text| && IsSpace(text[position])
        invariant Valid() && position >= old(position)
        invariant SkipSpace(Rest()) == SkipSpace(old(Rest()))
      {
        Advance(1);
      }
    }

    method Literal(word: string) returns (ok: bool)
      requires Valid() && word != []
      modifies this`position
      ensures Valid() && (ok <==> word <= old(Rest())) && (ok ==> Rest() == old(Rest())[|word|..])
    {
      ok := word <= text[position..];
      if ok { Advance(|word|); }
    }

    /** The text of a string after its opening quote. */
    method String() returns (s: Option<string>)
      requires Valid() && position < |text|
      modifies this`position
      ensures Valid() && position >= old(position)
      ensures var r := ReadBody(old(Rest())[1..], []);
              if r.None? then s.None? else s == Some(r.value.text) && Rest() == r.value.rest
    {
      Advance(1);
      ghost var goal := ReadBody(Rest(), []);
      var out := [];
      while position < |text|
        invariant Valid() && position >= old(position)
        invariant ReadBody(Rest(), out) == goal
        decreases |text| - position
      {
        var c := text[position];
        if c == '"' {
          Advance(1);
          return Some(out);
        }
        assert ReadBody(Rest(), out) == ReadPiece(Rest(), out);
        if c as int < 0x20 { return None; }
        if c != '\\' {
          var length := ReaderLength(text, position);
          LengthHere(text, position);
          if length == 0 { return None; }
          assert text[position..position + length] == Rest()[..length];
          out := out + text[position..position + length];
          Advance(length);
        } else {
          var e := ReadEscape(text[position + 1..]);
          DropTwice(text, position, 1);
          if e.None? { return None; }
          out := out + e.value.text;
          Advance(1 + e.value.taken);
        }
      }
      return None;
    }

    method Number() returns (v: Option<Json>)
      requires Valid() && position < |text|
      modifies this`position
      ensures Valid()
      ensures var r := ParseNumber(old(Rest()), limits.finite);
              if r.None? then v.None? else v == Some(r.value.value) && Rest() == old(Rest())[r.value.taken..]
    {
      var r := ScanNumber(text[position..], limits.finite);
      if r.None? { return None; }
      Advance(r.value.taken);
      return Some(r.value.value);
    }

    /** Whether the text goes on with this character. */
    method At(c: char) returns (yes: bool)
      requires Valid()
      ensures yes <==> StartsWith(Rest(), c)
    {
      yes := position < |text| && text[position] == c;
    }

    /** A result and a place that agree with what the function on the text says. */
    ghost predicate Agrees(v: Option<Json>, r: Option<Read>)
      reads this
    {
      && Valid()
      && if r.None? then v.None?
         else v == Some(r.value.value) && Rest() == r.value.rest && values == r.value.values
    }

    method Value(depth: nat) returns (v: Option<Json>)
      requires Valid()
      modifies this`position, this`values
      ensures Agrees(v, ParseValue(old(Rest()), depth, old(values), limits))
      decreases |text| - position, 1
    {
      if depth > limits.depth { return None; }
      values := values + 1;
      if values > limits.values || position >= |text| { return None; }
      ghost var t := Rest();
      assert ParseValue(t, depth, old(values), limits) == ParseFirst(t, depth, values, limits);
      var first := text[position];
      if first == '{' {
        v := Object(depth);
      } else if first == '[' {
        v := Array(depth);
      } else {
        v := Scalar();
      }
    }

    method Scalar() returns (v: Option<Json>)
      requires Valid() && position < |text|
      modifies this`position
      ensures Agrees(v, ParseScalar(old(Rest()), old(values), limits))
    {
      var first := text[position];
      if first == '"' {
        var s := String();
        return if s.None? then None else Some(Str(s.value));
      } else if first == 't' {
        var ok := Literal("true");
        return if ok then Some(Bool(true)) else None;
      } else if first == 'f' {
        var ok := Literal("false");
        return if ok then Some(Bool(false)) else None;
      } else if first == 'n' {
        var ok := Literal("null");
        return if ok then Some(Null) else None;
      }
      v := Number();
    }

    method Array(depth: nat) returns (v: Option<Json>)
      requires Valid() && position < |text|
      modifies this`position, this`values
      ensures Agrees(v, ParseArray(old(Rest()), depth, old(values), limits))
      decreases |text| - position, 0
    {
      Advance(1);
      SkipBlanks();
      var empty := At(']');
      if empty {
        Advance(1);
        return Some(Arr([]));
      }
      var items := [];
      ghost var goal := ParseItems(Rest(), depth, values, limits, []);
      while true
        invariant Valid() && position > old(position)
        invariant ParseItems(Rest(), depth, values, limits, items) == goal
        decreases |text| - position
      {
        SkipBlanks();
        var item := Value(depth + 1);
        if item.None? { return None; }
        items := items + [item.value];
        SkipBlanks();
        var more := At(',');
        if !more { break; }
        Advance(1);
      }
      var close := At(']');
      if !close { return None; }
      Advance(1);
      return Some(Arr(items));
    }

    /** A key that is not among those read, up to the value after its colon. */
    method Key(keys: seq<string>) returns (key: Option<string>)
      requires Valid()
      modifies this`position
      ensures Valid() && position >= old(position)
      ensures var r := ParseKey(old(Rest()), keys);
              if r.None? then key.None? else key == Some(r.value.text) && Rest() == r.value.rest
    {
      var quote := At('"');
      if !quote { return None; }
      key := String();
      if key.None? || key.value in keys { return None; }
      SkipBlanks();
      var colon := At(':');
      if !colon { return None; }
      Advance(1);
      SkipBlanks();
    }

    method Object(depth: nat) returns (v: Option<Json>)
      requires Valid() && position < |text|
      modifies this`position, this`values
      ensures Agrees(v, ParseObject(old(Rest()), depth, old(values), limits))
      decreases |text| - position, 0
    {
      Advance(1);
      SkipBlanks();
      var empty := At('}');
      if empty {
        Advance(1);
        return Some(Obj([], []));
      }
      var keys, items := [], [];
      ghost var goal := ParseMembers(Rest(), depth, values, limits, [], []);
      while true
        invariant Valid() && position > old(position)
        invariant ParseMembers(Rest(), depth, values, limits, keys, items) == goal
        decreases |text| - position
      {
        SkipBlanks();
        var key := Key(keys);
        if key.None? { return None; }
        var item := Value(depth + 1);
        if item.None? { return None; }
        keys, items := keys + [key.value], items + [item.value];
        SkipBlanks();
        var more := At(',');
        if !more { break; }
        Advance(1);
      }
      var close := At('}');
      if !close { return None; }
      Advance(1);
      return Some(Obj(keys, items));
    }

    /** `run`: the whole document. */
    method Run() returns (v: Option<Json>)
      requires position == 0 && values == 0
      modifies this`position, this`values
      ensures v == ParseJson(text, limits)
    {
      if |text| > limits.bytes { return None; }
      assert Rest() == text;
      SkipBlanks();
      v := Value(1);
      if v.Some? {
        SkipBlanks();
        if position != |text| { return None; }
      }
    }
  }

  // ---- numbers -------------------------------------------------------------------------------

  method CountDigits(t: string) returns (n: nat)
    ensures n == Digits(t)
  {
    n := 0;
    while n < |t| && IsDigit(t[n])
      invariant n <= |t| && n + Digits(t[n..]) == Digits(t)
    {
      DropTwice(t, n, 1);
      n := n + 1;
    }
  }

  method ScanExponent(t: string) returns (length: Option<nat>)
    ensures length == ExponentLength(t)
  {
    if t == [] || (t[0] != 'e' && t[0] != 'E') { return Some(0); }
    var sign := 1;
    if |t| > 1 && (t[1] == '+' || t[1] == '-') { sign := 2; }
    var n := CountDigits(t[sign..]);
    return if n == 0 then None else Some(sign + n);
  }

  /** The fraction and the exponent. */
  method ScanReal(t: string) returns (length: Option<nat>)
    ensures length == RealLength(t)
  {
    var fraction := 0;
    if t != [] && t[0] == '.' {
      var n := CountDigits(t[1..]);
      if n == 0 { return None; }
      fraction := 1 + n;
    }
    var exponent := ScanExponent(t[fraction..]);
    return if exponent.None? then None else Some(fraction + exponent.value);
  }

  method ScanDigits(sign: string, t: string, finite: string -> bool) returns (r: Option<NumberRead>)
    ensures r == ParseDigits(sign, t, finite)
  {
    var n := CountDigits(t);
    var digits := t[..n];
    if digits == [] || (digits[0] == '0' && |digits| > 1) { return None; }
    r := ScanSpelt(sign, digits, t[|digits|..], finite);
  }

  method ScanSpelt(sign: string, digits: string, t: string, finite: string -> bool) returns (r: Option<NumberRead>)
    requires AllDigits(digits)
    ensures r == NumberSpelt(sign, digits, t, finite)
  {
    var more := ScanReal(t);
    if more.None? { return None; }
    return if more.value == 0 then IntegerSpelt(sign == "-", digits, |sign| + |digits|)
        else RealSpelt(sign + digits + t[..more.value], finite);
  }

  method ScanNumber(t: string, finite: string -> bool) returns (r: Option<NumberRead>)
    requires t != []
    ensures r == ParseNumber(t, finite)
  {
    if t[0] == '-' {
      r := ScanDigits("-", t[1..], finite);
    } else {
      r := ScanDigits("", t, finite);
    }
  }
}
