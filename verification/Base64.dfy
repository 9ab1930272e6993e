/**
 Base64 (sections 3.5 and 4 of RFC 4648): the encoder of the response profile and the strict decoder of the command
 keys. The decoder is canonical: it accepts exactly what the encoder produces.
 */
module Base64 {
  import opened Text

  type Byte = x: int | 0 <= x < 256

  // ---- the alphabet --------------------------------------------------------------------------

  function Symbol(v: int): (c: char)
    requires 0 <= v < 64
    ensures Value(c) == v && c != '='
  {
    if v < 26 then ('A' as int + v) as char
    else if v < 52 then ('a' as int + v - 26) as char
    else if v < 62 then ('0' as int + v - 52) as char
    else if v == 62 then '+' else '/'
  }

  function Value(c: char): (v: int)
    ensures -1 <= v < 64
  {
    if 'A' <= c <= 'Z' then c as int - 'A' as int
    else if 'a' <= c <= 'z' then c as int - 'a' as int + 26
    else if '0' <= c <= '9' then c as int - '0' as int + 52
    else if c == '+' then 62
    else if c == '/' then 63
    else -1
  }

  lemma SymbolOfValue(c: char)
    requires Value(c) >= 0
    ensures Symbol(Value(c)) == c
  {
  }

  // ---- groups --------------------------------------------------------------------------------

  predicate IsGroup(g: seq<Byte>) { 1 <= |g| <= 3 }

  /** One to three bytes as four characters. */
  function EncodeGroup(g: seq<Byte>): (q: string)
    ensures IsGroup(g) ==> |q| == 4
  {
    if !IsGroup(g) then ""
    else
      var a, b, c := g[0], if |g| > 1 then g[1] else 0, if |g| > 2 then g[2] else 0;
      [Symbol(a / 4), Symbol(a % 4 * 16 + b / 16),
       if |g| > 1 then Symbol(b % 16 * 4 + c / 64) else '=',
       if |g| > 2 then Symbol(c % 64) else '=']
  }

  /** The 24 bits of four characters, as bytes. */
  function Bytes3(q0: int, q1: int, q2: int, q3: int): (b: seq<Byte>)
    requires 0 <= q0 < 64 && 0 <= q1 < 64 && 0 <= q2 < 64 && 0 <= q3 < 64
    ensures |b| == 3
  {
    var group := q0 * 262144 + q1 * 4096 + q2 * 64 + q3;
    [group / 65536, group / 256 % 256, group % 256]
  }

  /**
   Four characters as one to three bytes: padding only at the end of the last group, and only for bits that are zero.
   */
  function DecodeGroup(q: string, last: bool): (g: Option<seq<Byte>>)
    ensures g.Some? ==> |q| == 4 && IsGroup(g.value) && (|g.value| < 3 ==> last)
  {
    if |q| != 4 || Value(q[0]) < 0 || Value(q[1]) < 0 then None
    else if q[2] == '=' then
      if q[3] != '=' || !last || Value(q[1]) % 16 != 0 then None else Some(Bytes3(Value(q[0]), Value(q[1]), 0, 0)[..1])
    else if Value(q[2]) < 0 then None
    else if q[3] == '=' then
      if !last || Value(q[2]) % 4 != 0 then None else Some(Bytes3(Value(q[0]), Value(q[1]), Value(q[2]), 0)[..2])
    else if Value(q[3]) < 0 then None
    else Some(Bytes3(Value(q[0]), Value(q[1]), Value(q[2]), Value(q[3])))
  }

  lemma Split24(a: Byte, b: Byte, c: Byte)
    ensures var group := a * 65536 + b * 256 + c; group / 65536 == a && group / 256 % 256 == b && group % 256 == c
  {
    var group := a * 65536 + b * 256 + c;
    assert group / 256 == a * 256 + b;
  }

  lemma BytesOfThree(a: Byte, b: Byte, c: Byte)
    ensures Bytes3(a / 4, a % 4 * 16 + b / 16, b % 16 * 4 + c / 64, c % 64) == [a, b, c]
  {
    var a1, a0, b1, b0, c1, c0 := a / 4, a % 4, b / 16, b % 16, c / 64, c % 64;
    assert a == 4 * a1 + a0 && b == 16 * b1 + b0 && c == 64 * c1 + c0;
    assert a1 * 262144 + (a0 * 16 + b1) * 4096 + (b0 * 4 + c1) * 64 + c0 == a * 65536 + b * 256 + c;
    Split24(a, b, c);
  }

  lemma GroupDecodes(g: seq<Byte>, last: bool)
    requires IsGroup(g) && (|g| < 3 ==> last)
    ensures DecodeGroup(EncodeGroup(g), last) == Some(g)
  {
    if |g| == 3 {
      ThreeDecode(g, last);
    } else if |g| == 2 {
      TwoDecode(g);
    } else {
      OneDecodes(g);
    }
  }

  lemma ThreeDecode(g: seq<Byte>, last: bool)
    requires |g| == 3
    ensures DecodeGroup(EncodeGroup(g), last) == Some(g)
  {
    BytesOfThree(g[0], g[1], g[2]);
    assert g == [g[0], g[1], g[2]];
  }

  lemma TwoDecode(g: seq<Byte>)
    requires |g| == 2
    ensures DecodeGroup(EncodeGroup(g), true) == Some(g)
  {
    BytesOfThree(g[0], g[1], 0);
    assert g == [g[0], g[1], 0][..2];
  }

  lemma OneDecodes(g: seq<Byte>)
    requires |g| == 1
    ensures DecodeGroup(EncodeGroup(g), true) == Some(g)
  {
    BytesOfThree(g[0], 0, 0);
    assert g == [g[0], 0, 0][..1];
  }

  lemma SymbolsOfBytes(q0: int, q1: int, q2: int, q3: int)
    requires 0 <= q0 < 64 && 0 <= q1 < 64 && 0 <= q2 < 64 && 0 <= q3 < 64
    ensures var b := Bytes3(q0, q1, q2, q3);
            b[0] / 4 == q0 && b[0] % 4 * 16 + b[1] / 16 == q1 && b[1] % 16 * 4 + b[2] / 64 == q2 && b[2] % 64 == q3
    ensures q2 == q3 == 0 && q1 % 16 == 0 ==> Bytes3(q0, q1, q2, q3)[1] == 0
    ensures q3 == 0 && q2 % 4 == 0 ==> Bytes3(q0, q1, q2, q3)[2] == 0
  {
    var group := q0 * 262144 + q1 * 4096 + q2 * 64 + q3;
    assert group / 65536 == q0 * 4 + q1 / 16;
    assert group / 256 == q0 * 1024 + q1 * 16 + q2 / 4;
    assert group / 256 % 256 == q1 % 16 * 16 + q2 / 4;
    assert group % 256 == q2 % 4 * 64 + q3;
  }

  lemma GroupEncodes(q: string, last: bool)
    requires DecodeGroup(q, last).Some?
    ensures EncodeGroup(DecodeGroup(q, last).value) == q
  {
    var q2 := if q[2] == '=' then 0 else Value(q[2]);
    var q3 := if q[3] == '=' then 0 else Value(q[3]);
    SymbolsOfBytes(Value(q[0]), Value(q[1]), q2, q3);
    SymbolOfValue(q[0]);
    SymbolOfValue(q[1]);
    if q[2] != '=' { SymbolOfValue(q[2]); }
    if q[3] != '=' { SymbolOfValue(q[3]); }
  }

  // ---- a text, group by group ----------------------------------------------------------------

  type Encoder = seq<Byte> -> string
  type Decoder = (string, bool) -> Option<seq<Byte>>

  function EncodeWith(encode: Encoder, bytes: seq<Byte>): string {
    if |bytes| == 0 then ""
    else if |bytes| <= 3 then encode(bytes)
    else encode(bytes[..3]) + EncodeWith(encode, bytes[3..])
  }

  function DecodeWith(decode: Decoder, t: string): (b: Option<seq<Byte>>)
    requires |t| % 4 == 0
  {
    if t == "" then Some([])
    else
      var g, rest := decode(t[..4], |t| == 4), DecodeWith(decode, t[4..]);
      if g.None? || rest.None? then None else Some(g.value + rest.value)
  }

  lemma EncodeStep(encode: Encoder, bytes: seq<Byte>)
    requires bytes != []
    ensures var n := if |bytes| > 3 then 3 else |bytes|;
            EncodeWith(encode, bytes) == encode(bytes[..n]) + EncodeWith(encode, bytes[n..])
  {
    if |bytes| <= 3 {
      assert bytes[..|bytes|] == bytes && bytes[|bytes|..] == [];
      assert encode(bytes) + "" == encode(bytes);
    }
  }

  /** The loop of the encoder. */
  method EncodeLoop(encode: Encoder, bytes: seq<Byte>) returns (encoded: string)
    ensures encoded == EncodeWith(encode, bytes)
  {
    encoded := "";
    var i := 0;
    assert bytes[0..] == bytes;
    while i < |bytes|
      invariant i <= |bytes| && encoded + EncodeWith(encode, bytes[i..]) == EncodeWith(encode, bytes)
    {
      var next := if i + 3 < |bytes| then i + 3 else |bytes|;
      EncodeStep(encode, bytes[i..]);
      assert bytes[i..][..next - i] == bytes[i..next] && bytes[i..][next - i..] == bytes[next..];
      Associative(encoded, encode(bytes[i..next]), EncodeWith(encode, bytes[next..]));
      encoded := encoded + encode(bytes[i..next]);
      i := next;
    }
  }

  ghost function After(out: seq<Byte>, rest: Option<seq<Byte>>): Option<seq<Byte>> {
    if rest.None? then None else Some(out + rest.value)
  }

  lemma DecodeStep(decode: Decoder, t: string, index: nat, out: seq<Byte>)
    requires |t| % 4 == 0 && index % 4 == 0 && index < |t|
    ensures var g := decode(t[index..index + 4], index + 4 == |t|);
            After(out, DecodeWith(decode, t[index..])) == if g.None? then None
                else After(out + g.value, DecodeWith(decode, t[index + 4..]))
  {
    var u := t[index..];
    assert u[..4] == t[index..index + 4] && u[4..] == t[index + 4..];
    var g, rest := decode(u[..4], |u| == 4), DecodeWith(decode, u[4..]);
    if g.Some? && rest.Some? { Associative(out, g.value, rest.value); }
  }

  /** The loop of the decoder. */
  method DecodeLoop(decode: Decoder, t: string) returns (bytes: Option<seq<Byte>>)
    requires |t| % 4 == 0
    ensures bytes == DecodeWith(decode, t)
  {
    var out: seq<Byte> := [];
    var index := 0;
    ghost var goal := DecodeWith(decode, t);
    assert t[0..] == t && (goal.Some? ==> [] + goal.value == goal.value);
    while index < |t|
      invariant index <= |t| && index % 4 == 0
      invariant goal == After(out, DecodeWith(decode, t[index..]))
    {
      DecodeStep(decode, t, index, out);
      var g := decode(t[index..index + 4], index + 4 == |t|);
      if g.None? { return None; }
      out := out + g.value;
      index := index + 4;
    }
    assert t[index..] == "" && out + [] == out;
    return Some(out);
  }

  ghost predicate Undoes(decode: Decoder, encode: Encoder) {
    && (forall g: seq<Byte> :: IsGroup(g) ==> |encode(g)| == 4)
    && (forall g: seq<Byte>, last: bool :: IsGroup(g) && (|g| < 3 ==> last) ==> decode(encode(g), last) == Some(g))
  }

  ghost predicate IsUndone(decode: Decoder, encode: Encoder) {
    forall q: string, last: bool :: |q| == 4 && decode(q, last).Some? ==>
      IsGroup(decode(q, last).value) && (|decode(q, last).value| < 3 ==> last) && encode(decode(q, last).value) == q
  }

  lemma {:induction false} GroupsDecode(encode: Encoder, decode: Decoder, bytes: seq<Byte>)
    requires Undoes(decode, encode)
    ensures |EncodeWith(encode, bytes)| % 4 == 0 && DecodeWith(decode, EncodeWith(encode, bytes)) == Some(bytes)
    ensures bytes != [] ==> EncodeWith(encode, bytes) != ""
    decreases |bytes|
  {
    if bytes != [] {
      var n := if |bytes| > 3 then 3 else |bytes|;
      var g, rest := bytes[..n], bytes[n..];
      EncodeStep(encode, bytes);
      GroupsDecode(encode, decode, rest);
      var q, t := encode(g), EncodeWith(encode, rest);
      assert IsGroup(g) && decode(q, |t| == 0) == Some(g);
      assert (q + t)[..4] == q && (q + t)[4..] == t;
      assert g + rest == bytes;
    }
  }

  lemma {:induction false} GroupsEncode(encode: Encoder, decode: Decoder, t: string)
    requires IsUndone(decode, encode) && |t| % 4 == 0 && DecodeWith(decode, t).Some?
    ensures var bytes := DecodeWith(decode, t).value; EncodeWith(encode, bytes) == t && (t != "" ==> bytes != [])
    decreases |t|
  {
    if t != "" {
      var g, rest := decode(t[..4], |t| == 4).value, DecodeWith(decode, t[4..]).value;
      assert IsGroup(g) && encode(g) == t[..4];
      GroupsEncode(encode, decode, t[4..]);
      GroupAndRest(encode, g, rest);
      assert t == t[..4] + t[4..];
    }
  }

  lemma GroupAndRest(encode: Encoder, g: seq<Byte>, rest: seq<Byte>)
    requires IsGroup(g) && (|g| < 3 ==> rest == [])
    ensures EncodeWith(encode, g + rest) == encode(g) + EncodeWith(encode, rest)
  {
    var all := g + rest;
    if rest == [] {
      assert all == g && encode(g) + "" == encode(g);
    } else {
      assert all[..3] == g && all[3..] == rest;
    }
  }

  // ---- the codec -----------------------------------------------------------------------------

  function Encode(bytes: seq<Byte>): string { EncodeWith(EncodeGroup, bytes) }

  function Decode(t: string): Option<seq<Byte>> { if t == "" || |t| % 4 != 0 then None else DecodeWith(DecodeGroup, t) }

  /** `response_profile_header`. */
  method EncodeText(bytes: seq<Byte>) returns (encoded: string)
    ensures encoded == Encode(bytes)
  {
    encoded := EncodeLoop(EncodeGroup, bytes);
  }

  /** `decode_base64`. */
  method DecodeText(t: string) returns (bytes: Option<seq<Byte>>)
    ensures bytes == Decode(t)
  {
    if t == "" || |t| % 4 != 0 { return None; }
    bytes := DecodeLoop(DecodeGroup, t);
  }

  /** Decoding undoes encoding on every non-empty input. */
  lemma DecodeOfEncode(bytes: seq<Byte>)
    requires bytes != []
    ensures Decode(Encode(bytes)) == Some(bytes)
  {
    var encode: Encoder, decode: Decoder := EncodeGroup, DecodeGroup;
    forall g: seq<Byte>, last: bool | IsGroup(g) && (|g| < 3 ==> last)
      ensures decode(encode(g), last) == Some(g)
    {
      GroupDecodes(g, last);
    }
    assert forall g: seq<Byte> :: IsGroup(g) ==> |encode(g)| == 4;
    assert Undoes(decode, encode);
    GroupsDecode(encode, decode, bytes);
  }

  /** Encoding what was decoded gives the text back: there is one text for each value. */
  lemma EncodeOfDecode(t: string)
    requires Decode(t).Some?
    ensures Decode(t).value != [] && Encode(Decode(t).value) == t
  {
    var encode: Encoder, decode: Decoder := EncodeGroup, DecodeGroup;
    forall q: string, last: bool | |q| == 4 && decode(q, last).Some?
      ensures IsGroup(decode(q, last).value) && (|decode(q, last).value| < 3 ==> last) &&
              encode(decode(q, last).value) == q
    {
      GroupEncodes(q, last);
    }
    GroupsEncode(encode, decode, t);
  }

  // ---- section 4 of RFC 4648 -----------------------------------------------------------------

  /** The number of 24 bits a group stands for; missing bytes are zero. */
  function Bits(g: seq<Byte>): (n: int)
    requires IsGroup(g)
    ensures 0 <= n < 0x100_0000
  {
    var a: int, b: int, c: int := g[0], if |g| > 1 then g[1] else 0, if |g| > 2 then g[2] else 0;
    a * 65536 + b * 256 + c
  }

  /** The alphabet, in the order of its values. */
  function Alphabet(): (s: string)
    ensures |s| == 64
  {
    "ABCDEFGHIJKLMNOPQRSTUVWXYZ" + "abcdefghijklmnopqrstuvwxyz" + "0123456789" + "+/"
  }

  /** These characters are the symbols of the values 0 to 63, in this order. */
  ghost predicate InOrder(alphabet: string) {
    |alphabet| == 64 && forall v :: 0 <= v < 64 ==> Symbol(v) == alphabet[v]
  }

  lemma LettersInOrder()
    ensures forall i :: 0 <= i < 26 ==> "ABCDEFGHIJKLMNOPQRSTUVWXYZ"[i] as int == 65 + i
    ensures forall i :: 0 <= i < 26 ==> "abcdefghijklmnopqrstuvwxyz"[i] as int == 97 + i
    ensures forall i :: 0 <= i < 10 ==> "0123456789"[i] as int == 48 + i
  {
  }

  lemma AlphabetInOrder()
    ensures InOrder(Alphabet())
  {
    LettersInOrder();
    var upper, lower, digits := "ABCDEFGHIJKLMNOPQRSTUVWXYZ", "abcdefghijklmnopqrstuvwxyz", "0123456789";
    forall v | 0 <= v < 64
      ensures Symbol(v) == Alphabet()[v]
    {
      var s := Alphabet();
      if v < 26 {
        assert s[v] == upper[v];
      } else if v < 52 {
        assert s[v] == lower[v - 26];
      } else if v < 62 {
        assert s[v] == digits[v - 52];
      } else {
        assert s[v] == "+/"[v - 62];
      }
    }
  }

  /** A character has a value exactly when it stands in the alphabet, and the value is its place there. */
  lemma ValueIsPlace(c: char, v: int)
    requires 0 <= v < 64
    ensures Value(c) == v <==> c == Alphabet()[v]
  {
    AlphabetInOrder();
    assert Symbol(v) == Alphabet()[v];
    if Value(c) == v { SymbolOfValue(c); }
  }

  /** The characters of a group are its bits, six at a time from the highest, and padding for what it lacks. */
  ghost predicate SpeltGroup(alphabet: string, q: string, g: seq<Byte>)
    requires |alphabet| == 64
  {
    && IsGroup(g) && |q| == 4
    && q[0] == alphabet[Bits(g) / 262144 % 64] && q[1] == alphabet[Bits(g) / 4096 % 64]
    && q[2] == (if |g| > 1 then alphabet[Bits(g) / 64 % 64] else '=')
    && q[3] == (if |g| > 2 then alphabet[Bits(g) % 64] else '=')
  }

  lemma SixBits(a: Byte, b: Byte, c: Byte)
    ensures var n := a * 65536 + b * 256 + c;
            n / 262144 % 64 == a / 4 && n / 4096 % 64 == a % 4 * 16 + b / 16 &&
            n / 64 % 64 == b % 16 * 4 + c / 64 && n % 64 == c % 64
  {
    var a1, a0, b1, b0, c1, c0 := a / 4, a % 4, b / 16, b % 16, c / 64, c % 64;
    var n := a * 65536 + b * 256 + c;
    assert n == a1 * 262144 + (a0 * 16 + b1) * 4096 + (b0 * 4 + c1) * 64 + c0;
    assert n / 64 == a1 * 4096 + (a0 * 16 + b1) * 64 + (b0 * 4 + c1);
    assert n / 4096 == a1 * 64 + (a0 * 16 + b1);
    assert n / 262144 == a1;
  }

  lemma GroupIsSpelt(alphabet: string, g: seq<Byte>)
    requires InOrder(alphabet) && IsGroup(g)
    ensures SpeltGroup(alphabet, EncodeGroup(g), g)
  {
    SixBits(g[0], if |g| > 1 then g[1] else 0, if |g| > 2 then g[2] else 0);
  }

  function GroupEnd(bytes: seq<Byte>, i: nat): nat { if 3 * i + 3 < |bytes| then 3 * i + 3 else |bytes| }

  lemma {:induction false} GroupsAreSpelt(alphabet: string, bytes: seq<Byte>, i: nat)
    requires InOrder(alphabet) && 3 * i < |bytes|
    ensures |Encode(bytes)| == (|bytes| + 2) / 3 * 4
    ensures SpeltGroup(alphabet, Encode(bytes)[4 * i..4 * i + 4], bytes[3 * i..GroupEnd(bytes, i)])
    decreases |bytes|
  {
    var n := if |bytes| > 3 then 3 else |bytes|;
    var first, rest := bytes[..n], bytes[n..];
    EncodeStep(EncodeGroup, bytes);
    if rest != [] {
      GroupsAreSpelt(alphabet, rest, if i > 0 then i - 1 else 0);
    }
    GroupIsSpelt(alphabet, first);
    ShiftedGroup(bytes, EncodeGroup(first), Encode(rest), i);
  }

  lemma ShiftedGroup(bytes: seq<Byte>, q: string, t: string, i: nat)
    requires 3 * i < |bytes| && |q| == 4 && |t| == (|bytes| - GroupEnd(bytes, 0) + 2) / 3 * 4
    ensures |q + t| == (|bytes| + 2) / 3 * 4
    ensures i == 0 ==> (q + t)[0..4] == q && bytes[0..GroupEnd(bytes, 0)] == bytes[..GroupEnd(bytes, 0)]
    ensures i > 0 ==>
              && 4 * i + 4 <= |q + t| && (q + t)[4 * i..4 * i + 4] == t[4 * (i - 1)..4 * (i - 1) + 4]
              && bytes[3 * i..GroupEnd(bytes, i)] == bytes[3..][3 * (i - 1)..GroupEnd(bytes[3..], i - 1)]
  {
    if i > 0 {
      AfterPrefix(q, t, 4 * (i - 1), 4 * (i - 1) + 4);
      AfterPrefix(bytes[..3], bytes[3..], 3 * (i - 1), GroupEnd(bytes[3..], i - 1));
      assert bytes == bytes[..3] + bytes[3..];
    }
  }

  lemma AfterPrefix<T>(a: seq<T>, b: seq<T>, from: nat, to: nat)
    requires from <= to <= |b|
    ensures (a + b)[|a| + from..|a| + to] == b[from..to]
  {
  }

  /** The encoded text: four characters for every three bytes begun, each four the bits of their group. */
  lemma EncodedIsSpelt(bytes: seq<Byte>, i: nat)
    requires 3 * i < |bytes|
    ensures |Encode(bytes)| == (|bytes| + 2) / 3 * 4
    ensures SpeltGroup(Alphabet(), Encode(bytes)[4 * i..4 * i + 4], bytes[3 * i..GroupEnd(bytes, i)])
  {
    AlphabetInOrder();
    GroupsAreSpelt(Alphabet(), bytes, i);
  }
}
