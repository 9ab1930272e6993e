/**
 Text helpers shared by the codecs of the sensor: decimal numbers as `std::to_string` writes them
 and the digit loops of the readers take them back, fields between separators, and records that
 end in a newline. A `string` stands for a byte string: one character per byte.
 */
module Text {

  datatype Option<+T> = None | Some(value: T)

  lemma Associative<T>(a: seq<T>, b: seq<T>, c: seq<T>)
    ensures a + (b + c) == a + b + c
  {
  }

  /** The first of the remaining items moves to the end of the finished ones. */
  lemma MoveOver<T>(done: seq<T>, x: T, rest: seq<T>, remaining: seq<T>, all: seq<T>)
    requires done + remaining == all && remaining == [x] + rest
    ensures done + [x] + rest == all
  {
  }

  lemma PrefixOfPrefix<T>(a: seq<T>, b: seq<T>, c: seq<T>)
    requires a <= b && b <= c
    ensures a <= c
  {
  }

  function Max(a: nat, b: nat): nat { if a < b then b else a }

  ghost predicate NoRepeat<T>(s: seq<T>) { forall i, j :: 0 <= i < j < |s| ==> s[i] != s[j] }

  lemma SmallerSubset<T>(a: set<T>, b: set<T>)
    requires a <= b
    ensures |a| <= |b|
  {
    assert b == a + (b - a);
  }

  lemma CutAt(s: string, from: nat, at: nat)
    requires from <= at < |s|
    ensures s[from..] == s[from..at] + [s[at]] + s[at + 1..]
  {
  }

  predicate IsDigit(c: char) { '0' <= c <= '9' }

  predicate AllDigits(s: string) { forall i :: 0 <= i < |s| ==> IsDigit(s[i]) }

  function DigitChar(d: nat): (c: char)
    requires d < 10
    ensures IsDigit(c) && c as int - '0' as int == d
  {
    ('0' as int + d) as char
  }

  /** What `std::to_string` prints for a non-negative number. */
  function Decimal(n: nat): (s: string)
    ensures |s| >= 1 && AllDigits(s)
    ensures s[0] == '0' ==> n == 0 && |s| == 1
  {
    if n < 10 then [DigitChar(n)] else Decimal(n / 10) + [DigitChar(n % 10)]
  }

  /** The value of a run of digits, most significant first. */
  function DigitsValue(s: string): (v: nat)
    requires AllDigits(s)
  {
    if s == [] then 0
    else DigitsValue(s[..|s| - 1]) * 10 + (s[|s| - 1] as int - '0' as int)
  }

  /** Reading the digits of `n` gives `n` back. */
  lemma {:induction false} DecimalValue(n: nat)
    ensures DigitsValue(Decimal(n)) == n
  {
    if n >= 10 {
      DecimalValue(n / 10);
      var s := Decimal(n);
      assert s[..|s| - 1] == Decimal(n / 10);
    }
  }

  function Pow10(k: nat): (p: nat)
    ensures p >= 1
  {
    if k == 0 then 1 else 10 * Pow10(k - 1)
  }

  /** A number below 10^k has at most k digits. */
  lemma {:induction false} DecimalLength(n: nat, k: nat)
    requires k >= 1 && n < Pow10(k)
    ensures |Decimal(n)| <= k
  {
    if n >= 10 {
      DecimalLength(n / 10, k - 1);
    }
  }

  lemma {:induction false} DecimalInjective(m: nat, n: nat)
    requires Decimal(m) == Decimal(n)
    ensures m == n
  {
    DecimalValue(m);
    DecimalValue(n);
  }

  /** 19 digits hold every non-negative 64-bit signed number, 20 every unsigned one. */
  lemma Pow10Bounds()
    ensures Pow10(19) == 10_000_000_000_000_000_000
    ensures Pow10(20) == 100_000_000_000_000_000_000
  {
    assert Pow10(5) == 100_000;
    assert Pow10(10) == 10_000_000_000;
    assert Pow10(15) == 1_000_000_000_000_000;
  }

  /** Position of the first `c` at or after `from`, or the length when there is none. */
  function IndexOf(s: string, c: char, from: nat := 0): (i: nat)
    requires from <= |s|
    ensures from <= i <= |s|
    ensures i < |s| ==> s[i] == c
    ensures forall j :: from <= j < i ==> s[j] != c
    decreases |s| - from
  {
    if from == |s| || s[from] == c then from else IndexOf(s, c, from + 1)
  }

  /** The pieces of `s` between the separators; there is always at least one. */
  function Fields(s: string, c: char): (parts: seq<string>)
    ensures |parts| >= 1
    decreases |s|
  {
    var i := IndexOf(s, c);
    if i == |s| then [s] else [s[..i]] + Fields(s[i + 1..], c)
  }

  /** No field holds the separator, nor anything the text does not hold. */
  lemma {:induction false} FieldsLack(s: string, c: char, x: char)
    requires x == c || x !in s
    ensures forall p :: p in Fields(s, c) ==> x !in p
    decreases |s|
  {
    var i := IndexOf(s, c);
    if i < |s| { FieldsLack(s[i + 1..], c, x); }
  }

  /** One more field in front of a separator. */
  lemma FieldsCons(head: string, tail: string, c: char)
    requires c !in head
    ensures Fields(head + [c] + tail, c) == [head] + Fields(tail, c)
  {
    var s := head + [c] + tail;
    assert s[|head|] == c;
    assert forall j :: 0 <= j < |head| ==> s[j] == head[j];
    assert IndexOf(s, c) == |head|;
    assert s[..|head|] == head;
    assert s[|head| + 1..] == tail;
  }

  /** A text without the separator is one field. */
  lemma FieldsOne(s: string, c: char)
    requires c !in s
    ensures Fields(s, c) == [s]
  {
  }

  /** The parts with the separator between them. */
  function Join(parts: seq<string>, c: char): string
    requires |parts| >= 1
  {
    if |parts| == 1 then parts[0] else parts[0] + [c] + Join(parts[1..], c)
  }

  /** Splitting what was joined gives the parts back. */
  lemma {:induction false} FieldsOfJoin(parts: seq<string>, c: char)
    requires |parts| >= 1
    requires forall p :: p in parts ==> c !in p
    ensures Fields(Join(parts, c), c) == parts
  {
    if |parts| == 1 {
      FieldsOne(parts[0], c);
    } else {
      FieldsOfJoin(parts[1..], c);
      FieldsCons(parts[0], Join(parts[1..], c), c);
    }
  }

  lemma {:induction false} JoinLacks(parts: seq<string>, c: char, x: char)
    requires |parts| >= 1 && x != c
    requires forall p :: p in parts ==> x !in p
    ensures x !in Join(parts, c)
  {
    if |parts| > 1 { JoinLacks(parts[1..], c, x); }
  }

  predicate Terminated(s: string) { s == [] || s[|s| - 1] == '\n' }

  /** The text up to and including its last newline. */
  function WholeLines(s: string): (t: string)
    ensures Terminated(t) && t <= s
  {
    if Terminated(s) then s else WholeLines(s[..|s| - 1])
  }

  /** An unterminated tail goes; everything before it stays. */
  lemma {:induction false} WholeLinesDropsTail(whole: string, tail: string)
    requires Terminated(whole) && '\n' !in tail
    ensures WholeLines(whole + tail) == whole
    decreases |tail|
  {
    if tail == [] {
      assert whole + tail == whole;
    } else {
      var s := whole + tail;
      assert s[|s| - 1] == tail[|tail| - 1];
      assert tail[|tail| - 1] in tail;
      assert s[..|s| - 1] == whole + tail[..|tail| - 1];
      WholeLinesDropsTail(whole, tail[..|tail| - 1]);
    }
  }

  /** The lines `std::getline` returns for a text whose last line is terminated. */
  function Lines(s: string): (lines: seq<string>)
    ensures s == [] <==> lines == []
    decreases |s|
  {
    if s == [] then []
    else
      var i := IndexOf(s, '\n');
      if i == |s| then [s] else [s[..i]] + Lines(s[i + 1..])
  }

  lemma {:induction false} LinesLackNewline(s: string)
    ensures forall l :: l in Lines(s) ==> '\n' !in l
    decreases |s|
  {
    if s != [] {
      var i := IndexOf(s, '\n');
      if i < |s| { LinesLackNewline(s[i + 1..]); }
    }
  }

  lemma LinesCons(head: string, tail: string)
    requires '\n' !in head
    ensures Lines(head + "\n" + tail) == [head] + Lines(tail)
  {
    var s := head + "\n" + tail;
    assert s[|head|] == '\n';
    assert forall j :: 0 <= j < |head| ==> s[j] == head[j];
    assert IndexOf(s, '\n') == |head|;
    assert s[..|head|] == head && s[|head| + 1..] == tail;
  }

  /** Appending a terminated line appends one line. */
  lemma {:induction false} LinesAppend(whole: string, line: string)
    requires Terminated(whole) && '\n' !in line
    ensures Lines(whole + line + "\n") == Lines(whole) + [line]
    decreases |whole|
  {
    if whole == [] {
      assert whole + line + "\n" == line + "\n" + [];
      LinesCons(line, []);
    } else {
      var i := IndexOf(whole, '\n');
      var head, rest := whole[..i], whole[i + 1..];
      CutAt(whole, 0, i);
      LinesAppend(rest, line);
      LinesCons(head, rest);
      LinesCons(head, rest + line + "\n");
      Associative(head + "\n", rest, line);
      Associative(head + "\n", rest + line, "\n");
      Associative([head], Lines(rest), [line]);
    }
  }
}
