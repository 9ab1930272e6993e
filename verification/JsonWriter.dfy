/**
 The streaming writer: one output text, one flag for each open container that has no element yet, and whether a key
 still waits for its value. The calls a caller makes for a tree leave the tree's text in the output.
 */
module JsonWriters {
  import opened Text
  import opened JsonStrings
  import opened Json
  import JsonParsers

  class JsonWriter {
    var out: string
    var first: seq<bool>
    var afterKey: bool
    var replaced: bool

    constructor ()
      ensures out == "" && first == [] && !afterKey && !replaced
    {
      out, first, afterKey, replaced := "", [], false, false;
    }

    /** The comma, if one is due before the next element. */
    function Comma(): string reads this { if afterKey || first == [] || first[|first| - 1] then "" else "," }

    /** The open containers once the innermost has an element. */
    function Begun(): seq<bool> reads this { if afterKey || first == [] then first else first[..|first| - 1] + [false] }

    method Separate()
      modifies this`out, this`first, this`afterKey
      ensures out == old(out) + old(Comma()) && first == old(Begun()) && !afterKey
    {
      if afterKey {
        afterKey := false;
        return;
      }
      if first != [] {
        if !first[|first| - 1] { out := out + ","; }
        first := first[..|first| - 1] + [false];
      }
    }

    /** One element that is not a container: its comma, its text. */
    method Element(text: string)
      modifies this`out, this`first, this`afterKey
      ensures out == old(out) + old(Comma()) + text && first == old(Begun()) && !afterKey
    {
      Separate();
      out := out + text;
    }

    method Begin(bracket: char)
      modifies this`out, this`first, this`afterKey
      ensures out == old(out) + old(Comma()) + [bracket] && first == old(Begun()) + [true] && !afterKey
    {
      Element([bracket]);
      first := first + [true];
    }

    method End(bracket: char)
      requires first != [] && !afterKey
      modifies this`out, this`first
      ensures out == old(out) + [bracket] && first == old(first)[..|old(first)| - 1]
    {
      out := out + [bracket];
      first := first[..|first| - 1];
    }

    method Key(name: string)
      requires !afterKey
      modifies this
      ensures out == old(out) + old(Comma()) + Quoted(name) + ":" && first == old(Begun()) && afterKey
      ensures replaced == (old(replaced) || Clean(name) != name)
    {
      String(name);
      out := out + ":";
      afterKey := true;
    }

    method String(text: string)
      modifies this
      ensures out == old(out) + old(Comma()) + Quoted(text) && first == old(Begun()) && !afterKey
      ensures replaced == (old(replaced) || Clean(text) != text)
    {
      Separate();
      ghost var before := out;
      var flag;
      out, flag := AppendStringBody(out + "\"", text);
      out := out + "\"";
      Associative(before, "\"", Body(text));
      Associative(before, "\"" + Body(text), "\"");
      replaced := replaced || flag;
    }
  }

  /** The calls that write a tree. */
  method Write(w: JsonWriter, v: Json)
    requires Printable(v)
    modifies w
    ensures w.out == old(w.out) + old(w.Comma()) + TextOf(v)
    ensures w.first == old(w.Begun()) && !w.afterKey
    ensures w.replaced == (old(w.replaced) || Cleaned(v) != v)
    decreases v, 1
  {
    match v
    case Null => w.Element("null");
    case Bool(flag) => w.Element(if flag then "true" else "false");
    case Number(negative, magnitude) => w.Element((if negative then "-" else "") + Decimal(magnitude));
    case Str(s) => w.String(s);
    case Arr(items) => WriteArray(w, v);
    case Obj(keys, items) => WriteObject(w, v);
  }

  method WriteArray(w: JsonWriter, v: Json)
    requires v.Arr? && Printable(v)
    modifies w
    ensures w.out == old(w.out) + old(w.Comma()) + TextOf(v)
    ensures w.first == old(w.Begun()) && !w.afterKey
    ensures w.replaced == (old(w.replaced) || Cleaned(v) != v)
    decreases v, 0
  {
    ghost var outer, start := w.Begun(), w.out + w.Comma();
    w.Begin('[');
    WriteItems(w, v.items);
    w.End(']');
    Bracketed(start, "[", ItemsText(v.items), "]");
  }

  lemma Bracketed(start: string, open: string, inner: string, close: string)
    ensures start + open + inner + close == start + (open + inner + close)
  {
  }

  /** The items of the innermost container, of which some may be written already. */
  method WriteItems(w: JsonWriter, items: seq<Json>)
    requires (forall i :: 0 <= i < |items| ==> Printable(items[i])) && w.first != [] && !w.afterKey
    modifies w
    ensures w.out == old(w.out) + if old(w.Comma()) == "" then ItemsText(items) else MoreItemsText(items)
    ensures |w.first| == |old(w.first)| && w.first[..|w.first| - 1] == old(w.first)[..|old(w.first)| - 1] && !w.afterKey
    ensures w.replaced == (old(w.replaced) || CleanedItems(items) != items)
    decreases items, 0
  {
    if items != [] {
      ghost var start, comma := w.out, w.Comma();
      Write(w, items[0]);
      WriteItems(w, items[1..]);
      ItemsTextJoins(start, comma, items);
      CleanedFirst(items);
    }
  }

  lemma ItemsTextJoins(start: string, comma: string, items: seq<Json>)
    requires items != [] && (comma == "" || comma == ",")
    ensures start + comma + TextOf(items[0]) + MoreItemsText(items[1..]) == start + if comma == ""
            then ItemsText(items) else MoreItemsText(items)
  {
    Associative(start + comma, TextOf(items[0]), MoreItemsText(items[1..]));
    Associative(start, comma, ItemsText(items));
    assert start + "" == start;
  }

  lemma CleanedFirst(items: seq<Json>)
    requires items != []
    ensures CleanedItems(items) == items <==> Cleaned(items[0]) == items[0] && CleanedItems(items[1..]) == items[1..]
  {
    HeadTail(Cleaned(items[0]), CleanedItems(items[1..]));
    assert items == [items[0]] + items[1..];
  }

  method WriteObject(w: JsonWriter, v: Json)
    requires v.Obj? && Printable(v)
    modifies w
    ensures w.out == old(w.out) + old(w.Comma()) + TextOf(v)
    ensures w.first == old(w.Begun()) && !w.afterKey
    ensures w.replaced == (old(w.replaced) || Cleaned(v) != v)
    decreases v, 0
  {
    ghost var outer, start := w.Begun(), w.out + w.Comma();
    w.Begin('{');
    WriteMembers(w, v.keys, v.items);
    w.End('}');
    Bracketed(start, "{", MembersText(v.keys, v.items), "}");
  }

  method WriteMembers(w: JsonWriter, keys: seq<string>, items: seq<Json>)
    requires |keys| == |items| && (forall i :: 0 <= i < |items| ==> Printable(items[i])) && w.first != [] && !w.afterKey
    modifies w
    ensures w.out == old(w.out) + if old(w.Comma()) == "" then MembersText(keys, items)
            else MoreMembersText(keys, items)
    ensures |w.first| == |old(w.first)| && w.first[..|w.first| - 1] == old(w.first)[..|old(w.first)| - 1] && !w.afterKey
    ensures w.replaced == (old(w.replaced) || CleanedKeys(keys) != keys || CleanedItems(items) != items)
    decreases items, 0
  {
    if items != [] {
      ghost var start, comma := w.out, w.Comma();
      w.Key(keys[0]);
      Write(w, items[0]);
      WriteMembers(w, keys[1..], items[1..]);
      MembersTextJoins(start, comma, keys, items);
      CleanedFirst(items);
      CleanedFirstKey(keys);
    }
  }

  lemma MembersTextJoins(start: string, comma: string, keys: seq<string>, items: seq<Json>)
    requires |keys| == |items| > 0 && (comma == "" || comma == ",")
    ensures start + comma + Quoted(keys[0]) + ":" + "" + TextOf(items[0]) + MoreMembersText(keys[1..], items[1..]) ==
            start + if comma == "" then MembersText(keys, items) else MoreMembersText(keys, items)
  {
    var q, t, more := Quoted(keys[0]), TextOf(items[0]), MoreMembersText(keys[1..], items[1..]);
    MemberJoins(start + comma, q, t, more);
    Associative(start, comma, MembersText(keys, items));
    assert start + "" == start;
  }

  lemma MemberJoins(start: string, key: string, value: string, more: string)
    ensures start + key + ":" + "" + value + more == start + (key + (":" + (value + more)))
  {
  }

  lemma CleanedFirstKey(keys: seq<string>)
    requires keys != []
    ensures CleanedKeys(keys) == keys <==> Clean(keys[0]) == keys[0] && CleanedKeys(keys[1..]) == keys[1..]
  {
    HeadTail(Clean(keys[0]), CleanedKeys(keys[1..]));
    assert keys == [keys[0]] + keys[1..];
  }

  /** Writing a tree and reading the output: the writer and the parser object, end to end. */
  method WriteAndRead(v: Json, limits: Limits) returns (text: string, read: Option<Json>, replaced: bool)
    requires Printable(v)
    ensures text == TextOf(v)
    ensures read == if |text| <= limits.bytes && Within(limits, Depth(v), Count(v)) && KeysDiffer(v)
            then Some(Cleaned(v)) else None
    ensures replaced <==> Cleaned(v) != v
    ensures !replaced && read.Some? ==> read == Some(v)
  {
    var w := new JsonWriter();
    Write(w, v);
    text, replaced := w.out, w.replaced;
    var p := new JsonParsers.JsonParser(text, limits);
    read := p.Run();
    RoundTrip(v, limits);
  }
}
