/**
 UTF-8 (RFC 3629). The JSON writer and the JSON reader each have their own recogniser: the writer decodes and checks
 the code point, the reader checks lead and second byte against a table. A character stands for a byte.
 */
module Utf8 {
  import opened Text

  function Byte(s: string, i: nat): int
    requires i < |s|
  {
    s[i] as int
  }

  predicate Continues(s: string, i: nat) { i < |s| && Byte(s, i) / 64 == 2 }

  // ---- the writer's recogniser ---------------------------------------------------------------

  /** The length a lead byte announces, 0 for none. */
  function Announced(lead: int): nat {
    if lead / 32 == 6 then 2 else if lead / 16 == 14 then 3 else if lead / 8 == 30 then 4 else 0
  }

  function LeadBits(lead: int, length: nat): int {
    if length == 2 then lead % 32 else if length == 3 then lead % 16 else lead % 8
  }

  /** The code point after `count` continuation bytes; `None` when one of them is not one. */
  function Decoded(s: string, at: nat, count: nat, lead: int): Option<int>
    requires at + count < |s|
  {
    if count == 0 then Some(lead)
    else
      var before := Decoded(s, at, count - 1, lead);
      if before.None? || !Continues(s, at + count) then None
      else Some(before.value * 64 + Byte(s, at + count) % 64)
  }

  /** Not minimal, too large, or a surrogate. */
  predicate OutOfRange(length: nat, code: int) {
    (length == 2 && code < 0x80) || (length == 3 && code < 0x800) ||
    (length == 4 && (code < 0x10000 || code > 0x10FFFF)) || 0xD800 <= code <= 0xDFFF
  }

  /** `valid_utf8_sequence`: the length of the sequence at `at`, or 0. */
  function WriterLength(s: string, at: nat): (n: nat)
    requires at < |s|
    ensures n <= 4 && at + n <= |s|
  {
    var lead := Byte(s, at);
    var length := Announced(lead);
    if lead < 0x80 then 1
    else if length == 0 || length > |s| - at then 0
    else
      var code := Decoded(s, at, length - 1, LeadBits(lead, length));
      if code.None? || OutOfRange(length, code.value) then 0 else length
  }

  /** The writer's loop. */
  method ValidUtf8Sequence(s: string, at: nat) returns (n: nat)
    requires at < |s|
    ensures n == WriterLength(s, at)
  {
    var lead := Byte(s, at);
    if lead < 0x80 { return 1; }
    var length := Announced(lead);
    if length == 0 || length > |s| - at { return 0; }
    var code := LeadBits(lead, length);
    ghost var start := code;
    var index := 1;
    while index < length
      invariant 1 <= index <= length
      invariant Decoded(s, at, index - 1, start) == Some(code)
    {
      if !Continues(s, at + index) {
        BrokenStaysBroken(s, at, index, length - 1, start);
        return 0;
      }
      code := code * 64 + Byte(s, at + index) % 64;
      index := index + 1;
    }
    return if OutOfRange(length, code) then 0 else length;
  }

  lemma {:induction false} BrokenStaysBroken(s: string, at: nat, k: nat, count: nat, lead: int)
    requires k <= count && at + count < |s| && Decoded(s, at, k, lead).None?
    ensures Decoded(s, at, count, lead).None?
    decreases count
  {
    if k < count { BrokenStaysBroken(s, at, k, count - 1, lead); }
  }

  // ---- the reader's recogniser ---------------------------------------------------------------

  /** `utf8_length`: the length of the sequence at `at`, or 0. */
  function ReaderLength(s: string, at: nat): (n: nat)
    requires at < |s|
    ensures n <= 4 && at + n <= |s|
  {
    var lead := Byte(s, at);
    if lead < 0x80 then 1
    else if 0xC2 <= lead <= 0xDF then if Continues(s, at + 1) then 2 else 0
    else if 0xE0 <= lead <= 0xEF then
      if !Continues(s, at + 1) || !Continues(s, at + 2) then 0
      else if lead == 0xE0 && Byte(s, at + 1) < 0xA0 then 0
      else if lead == 0xED && Byte(s, at + 1) > 0x9F then 0
      else 3
    else if 0xF0 <= lead <= 0xF4 then
      if !Continues(s, at + 1) || !Continues(s, at + 2) || !Continues(s, at + 3) then 0
      else if lead == 0xF0 && Byte(s, at + 1) < 0x90 then 0
      else if lead == 0xF4 && Byte(s, at + 1) > 0x8F then 0
      else 4
    else 0
  }

  lemma DecodedTwo(s: string, at: nat, lead: int)
    requires at + 2 < |s|
    ensures Decoded(s, at, 2, lead) ==
            if Continues(s, at + 1) && Continues(s, at + 2)
                then Some(lead * 4096 + Byte(s, at + 1) % 64 * 64 + Byte(s, at + 2) % 64) else None
  {
    assert Decoded(s, at, 1, lead) == if Continues(s, at + 1) then Some(lead * 64 + Byte(s, at + 1) % 64) else None;
  }

  lemma DecodedThree(s: string, at: nat, lead: int)
    requires at + 3 < |s|
    ensures Decoded(s, at, 3, lead) ==
            if Continues(s, at + 1) && Continues(s, at + 2) && Continues(s, at + 3)
            then Some(lead * 262144 + Byte(s, at + 1) % 64 * 4096 + Byte(s, at + 2) % 64 * 64 + Byte(s, at + 3) % 64)
                else None
  {
    DecodedTwo(s, at, lead);
  }

  /** The two recognisers accept the same sequences with the same length, everywhere in every text. */
  lemma RecognisersAgree(s: string, at: nat)
    requires at < |s|
    ensures WriterLength(s, at) == ReaderLength(s, at)
  {
    var lead := Byte(s, at);
    if 0xC0 <= lead < 0xE0 {
      AgreeOnTwo(s, at);
    } else if 0xE0 <= lead < 0xF0 {
      AgreeOnThree(s, at);
    } else if 0xF0 <= lead < 0xF8 {
      AgreeOnFour(s, at);
    } else if lead >= 0x80 {
      assert Announced(lead) == 0;
    }
  }

  lemma AgreeOnTwo(s: string, at: nat)
    requires at < |s| && 0xC0 <= Byte(s, at) < 0xE0
    ensures WriterLength(s, at) == ReaderLength(s, at)
  {
    var lead := Byte(s, at) % 32;
    assert Announced(Byte(s, at)) == 2 && lead == Byte(s, at) - 0xC0;
    if at + 1 < |s| {
      assert Decoded(s, at, 1, lead) == if Continues(s, at + 1) then Some(lead * 64 + Byte(s, at + 1) % 64) else None;
    }
  }

  lemma AgreeOnThree(s: string, at: nat)
    requires at < |s| && 0xE0 <= Byte(s, at) < 0xF0
    ensures WriterLength(s, at) == ReaderLength(s, at)
  {
    var lead := Byte(s, at) % 16;
    assert Announced(Byte(s, at)) == 3 && lead == Byte(s, at) - 0xE0;
    if at + 2 < |s| { DecodedTwo(s, at, lead); }
  }

  lemma AgreeOnFour(s: string, at: nat)
    requires at < |s| && 0xF0 <= Byte(s, at) < 0xF8
    ensures WriterLength(s, at) == ReaderLength(s, at)
  {
    var lead := Byte(s, at) % 8;
    assert Announced(Byte(s, at)) == 4 && lead == Byte(s, at) - 0xF0;
    if at + 3 < |s| { DecodedThree(s, at, lead); }
  }

  // ---- what both recognise -------------------------------------------------------------------

  predicate Scalar(code: int) { 0 <= code <= 0x10FFFF && !(0xD800 <= code <= 0xDFFF) }

  /** `append_utf8`: the encoding of a code point. */
  function Encode(code: int): (s: string)
    requires Scalar(code)
    ensures 1 <= |s| <= 4
  {
    if code < 0x80 then [code as char]
    else if code < 0x800 then [(0xC0 + code / 64) as char, (0x80 + code % 64) as char]
    else if code < 0x10000
        then [(0xE0 + code / 4096) as char, (0x80 + code / 64 % 64) as char, (0x80 + code % 64) as char]
    else [(0xF0 + code / 262144) as char, (0x80 + code / 4096 % 64) as char, (0x80 + code / 64 % 64) as char,
        (0x80 + code % 64) as char]
  }

  /** Whatever encodes a scalar value is recognised, with its whole length. */
  lemma EncodingIsRecognised(s: string, at: nat, code: int)
    requires Scalar(code) && at + |Encode(code)| <= |s| && s[at..at + |Encode(code)|] == Encode(code)
    ensures ReaderLength(s, at) == |Encode(code)|
  {
    var e := Encode(code);
    assert s[at] == e[0];
    if |e| > 1 { assert s[at + 1] == e[1]; }
    if |e| > 2 { assert s[at + 2] == e[2]; }
    if |e| > 3 { assert s[at + 3] == e[3]; }
  }

  /** The code point of a recognised sequence. */
  function CodeAt(s: string, at: nat): (code: int)
    requires at < |s| && ReaderLength(s, at) > 0
  {
    var n := ReaderLength(s, at);
    if n == 1 then Byte(s, at)
    else if n == 2 then Byte(s, at) % 32 * 64 + Byte(s, at + 1) % 64
    else if n == 3 then Byte(s, at) % 16 * 4096 + Byte(s, at + 1) % 64 * 64 + Byte(s, at + 2) % 64
    else Byte(s, at) % 8 * 262144 + Byte(s, at + 1) % 64 * 4096 + Byte(s, at + 2) % 64 * 64 + Byte(s, at + 3) % 64
  }

  lemma Digits64(a: int, b: int, c: int, d: int)
    requires 0 <= a && 0 <= b < 64 && 0 <= c < 64 && 0 <= d < 64
    ensures var n := a * 262144 + b * 4096 + c * 64 + d;
            n / 262144 == a && n / 4096 % 64 == b && n / 64 % 64 == c && n % 64 == d &&
                n / 64 == a * 4096 + b * 64 + c && n / 4096 == a * 64 + b
  {
  }

  /** Whatever is recognised encodes a scalar value. */
  lemma RecognisedIsEncoding(s: string, at: nat)
    requires at < |s| && ReaderLength(s, at) > 0
    ensures Scalar(CodeAt(s, at)) && Encode(CodeAt(s, at)) == s[at..at + ReaderLength(s, at)]
  {
    var n := ReaderLength(s, at);
    if n == 2 {
      TwoBytes(s, at);
    } else if n == 3 {
      ThreeBytes(s, at);
    } else if n == 4 {
      FourBytes(s, at);
    }
  }

  lemma TwoBytes(s: string, at: nat)
    requires at < |s| && ReaderLength(s, at) == 2
    ensures Scalar(CodeAt(s, at)) && Encode(CodeAt(s, at)) == s[at..at + 2]
  {
    Digits64(0, 0, Byte(s, at) % 32, Byte(s, at + 1) % 64);
    assert Byte(s, at) == 0xC0 + Byte(s, at) % 32 && Byte(s, at + 1) == 0x80 + Byte(s, at + 1) % 64;
  }

  lemma ThreeBytes(s: string, at: nat)
    requires at < |s| && ReaderLength(s, at) == 3
    ensures Scalar(CodeAt(s, at)) && Encode(CodeAt(s, at)) == s[at..at + 3]
  {
    Digits64(0, Byte(s, at) % 16, Byte(s, at + 1) % 64, Byte(s, at + 2) % 64);
    assert Byte(s, at) == 0xE0 + Byte(s, at) % 16 && Byte(s, at + 1) == 0x80 + Byte(s, at + 1) % 64 &&
        Byte(s, at + 2) == 0x80 + Byte(s, at + 2) % 64;
  }

  lemma FourBytes(s: string, at: nat)
    requires at < |s| && ReaderLength(s, at) == 4
    ensures Scalar(CodeAt(s, at)) && Encode(CodeAt(s, at)) == s[at..at + 4]
  {
    Digits64(Byte(s, at) % 8, Byte(s, at + 1) % 64, Byte(s, at + 2) % 64, Byte(s, at + 3) % 64);
    assert Byte(s, at) == 0xF0 + Byte(s, at) % 8 && Byte(s, at + 1) == 0x80 + Byte(s, at + 1) % 64 &&
           Byte(s, at + 2) == 0x80 + Byte(s, at + 2) % 64 && Byte(s, at + 3) == 0x80 + Byte(s, at + 3) % 64;
  }

  /** A sequence is recognised by its own bytes, wherever they stand. */
  lemma LengthIsLocal(a: string, i: nat, b: string, j: nat)
    requires i < |a| && ReaderLength(a, i) > 0 && j + ReaderLength(a, i) <= |b|
    requires b[j..j + ReaderLength(a, i)] == a[i..i + ReaderLength(a, i)]
    ensures ReaderLength(b, j) == ReaderLength(a, i)
  {
    RecognisedIsEncoding(a, i);
    EncodingIsRecognised(b, j, CodeAt(a, i));
  }
}
