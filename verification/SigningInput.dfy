/**
 The text a command's signature covers: each field by name, length and bytes. Two commands with the same text agree on
 every field, whatever bytes the fields hold.
 */
module SigningInput {
  import opened Text
  import opened CommandPolicy

  function ActionName(a: Action): string {
    match a
    case KillProcess => "KILL_PROCESS"
    case CollectProcessInfo => "COLLECT_PROCESS_INFO"
    case CollectNetworkConnections => "COLLECT_NETWORK_CONNECTIONS"
    case CollectFile => "COLLECT_FILE"
    case QuarantineFile => "QUARANTINE_FILE"
    case IsolateHost => "ISOLATE_HOST"
    case ReleaseHostIsolation => "RELEASE_HOST_ISOLATION"
  }

  /** What the action is about. */
  datatype Target = Target(pid: nat, startTicks: nat, path: string)

  /** What `std::to_string` prints for a signed number. */
  function Signed(n: int): string { if n < 0 then "-" + Decimal(-n) else Decimal(n) }

  // ---- framing -------------------------------------------------------------------------------

  function Field(name: string, value: string): string { name + (":" + (Decimal(|value|) + (":" + (value + "\n")))) }

  function Framed(names: seq<string>, values: seq<string>): string
    requires |names| == |values|
  {
    if names == [] then "" else Field(names[0], values[0]) + Framed(names[1..], values[1..])
  }

  lemma ColonAt(a: string, x: string)
    requires ':' !in a
    ensures IndexOf(a + (":" + x), ':') == |a|
  {
    var s := a + (":" + x);
    assert s[|a|] == ':';
    assert forall j :: 0 <= j < |a| ==> s[j] == a[j] && a[j] in a;
  }

  /** A text up to its first colon is found again. */
  lemma FirstColon(a: string, b: string, x: string, y: string)
    requires ':' !in a && ':' !in b && a + (":" + x) == b + (":" + y)
    ensures a == b && x == y
  {
    ColonAt(a, x);
    ColonAt(b, y);
    SameStart(a, b, ":" + x, ":" + y);
    SameStart(":", ":", x, y);
  }

  lemma SameStart(a: string, b: string, x: string, y: string)
    requires |a| == |b| && a + x == b + y
    ensures a == b && x == y
  {
    assert a == (a + x)[..|a|] && b == (b + y)[..|b|];
    assert x == (a + x)[|a|..] && y == (b + y)[|b|..];
  }

  lemma DecimalHasNoColon(n: nat)
    ensures ':' !in Decimal(n)
  {
    forall i | 0 <= i < |Decimal(n)|
      ensures Decimal(n)[i] != ':'
    {
      assert IsDigit(Decimal(n)[i]);
    }
  }

  /** One framed value is found again, however the values and what follows them look. */
  lemma FieldIsFound(name: string, v: string, w: string, x: string, y: string)
    requires Field(name, v) + x == Field(name, w) + y
    ensures v == w && x == y
  {
    FieldSpelt(name, v, x);
    FieldSpelt(name, w, y);
    SameStart(name + ":", name + ":", Decimal(|v|) + (":" + (v + ("\n" + x))), Decimal(|w|) + (":" + (w + ("\n" + y))));
    DecimalHasNoColon(|v|);
    DecimalHasNoColon(|w|);
    FirstColon(Decimal(|v|), Decimal(|w|), v + ("\n" + x), w + ("\n" + y));
    DecimalInjective(|v|, |w|);
    SameStart(v, w, "\n" + x, "\n" + y);
    SameStart("\n", "\n", x, y);
  }

  lemma FieldSpelt(name: string, v: string, x: string)
    ensures Field(name, v) + x == name + ":" + (Decimal(|v|) + (":" + (v + ("\n" + x))))
  {
    var d := Decimal(|v|);
    Associative(v, "\n", x);
    Associative(":", v + "\n", x);
    Associative(d, ":" + (v + "\n"), x);
    Associative(":", d + (":" + (v + "\n")), x);
    Associative(name, ":" + (d + (":" + (v + "\n"))), x);
    Associative(name, ":", d + (":" + (v + ("\n" + x))));
  }

  /** The framing is injective for any fixed list of names. */
  lemma {:induction false} FramedIsInjective(names: seq<string>, v: seq<string>, w: seq<string>)
    requires |names| == |v| == |w| && Framed(names, v) == Framed(names, w)
    ensures v == w
    decreases |names|
  {
    if names != [] {
      FieldIsFound(names[0], v[0], w[0], Framed(names[1..], v[1..]), Framed(names[1..], w[1..]));
      FramedIsInjective(names[1..], v[1..], w[1..]);
      assert v == [v[0]] + v[1..] && w == [w[0]] + w[1..];
    }
  }

  // ---- reading the framing -------------------------------------------------------------------

  datatype Frame = Frame(names: seq<string>, values: seq<string>)

  /** The fields of a text: a name up to a colon, a length up to the next, that many bytes, and a line break. */
  function Unframed(t: string): Option<Frame>
    decreases |t|
  {
    var i := IndexOf(t, ':');
    if t == "" then Some(Frame([], [])) else if i == |t| then None else UnframedLength(t[..i], t[i + 1..])
  }

  function UnframedLength(name: string, t: string): Option<Frame>
    decreases |t|
  {
    var i := IndexOf(t, ':');
    if i == |t| || !AllDigits(t[..i]) then None else UnframedValue(name, DigitsValue(t[..i]), t[i + 1..])
  }

  function UnframedValue(name: string, n: nat, t: string): Option<Frame>
    decreases |t|
  {
    if n >= |t| || t[n] != '\n' then None else With(name, t[..n], Unframed(t[n + 1..]))
  }

  /** One field before the others. */
  function With(name: string, value: string, rest: Option<Frame>): Option<Frame> {
    if rest.None? then None else Some(Frame([name] + rest.value.names, [value] + rest.value.values))
  }

  lemma NameIsRead(name: string, u: string)
    requires ':' !in name
    ensures Unframed(name + (":" + u)) == UnframedLength(name, u)
  {
    ColonAt(name, u);
    CutAtColon(name, u);
  }

  lemma LengthIsRead(name: string, n: nat, w: string)
    ensures UnframedLength(name, Decimal(n) + (":" + w)) == UnframedValue(name, n, w)
  {
    DecimalHasNoColon(n);
    DecimalValue(n);
    ColonAt(Decimal(n), w);
    CutAtColon(Decimal(n), w);
  }

  lemma ValueIsRead(name: string, v: string, x: string)
    ensures UnframedValue(name, |v|, v + ("\n" + x)) == With(name, v, Unframed(x))
  {
    AfterValue(v, x);
  }

  lemma AfterValue(v: string, x: string)
    ensures var w := v + ("\n" + x); |w| > |v| && w[|v|] == '\n' && w[..|v|] == v && w[|v| + 1..] == x
  {
  }

  lemma FieldUnframes(name: string, v: string, x: string)
    requires ':' !in name
    ensures Unframed(Field(name, v) + x) == With(name, v, Unframed(x))
  {
    var w := v + ("\n" + x);
    FieldSpelt(name, v, x);
    Associative(name, ":", Decimal(|v|) + (":" + w));
    NameIsRead(name, Decimal(|v|) + (":" + w));
    LengthIsRead(name, |v|, w);
    ValueIsRead(name, v, x);
  }

  lemma CutAtColon(a: string, x: string)
    ensures var s := a + (":" + x); |s| > |a| && s[..|a|] == a && s[|a| + 1..] == x
  {
  }

  /** Names without a colon and values of any bytes are read back as they were framed. */
  lemma {:induction false} FramedUnframes(names: seq<string>, values: seq<string>)
    requires |names| == |values| && forall i :: 0 <= i < |names| ==> ':' !in names[i]
    ensures Unframed(Framed(names, values)) == Some(Frame(names, values))
  {
    if names != [] {
      FieldUnframes(names[0], values[0], Framed(names[1..], values[1..]));
      FramedUnframes(names[1..], values[1..]);
      assert names == [names[0]] + names[1..] && values == [values[0]] + values[1..];
    }
  }

  // ---- the signing input ---------------------------------------------------------------------

  function FieldNames(): (names: seq<string>)
    ensures |names| == 12
  {
    ["schema_version", "command_id", "correlation_id", "agent_id", "host_id", "action", "created_at", "expires_at",
     "pid", "start_time_ticks", "boot_id", "path"]
  }

  function FieldValues(c: Command, t: Target): (values: seq<string>)
    ensures |values| == 12
  {
    [if c.boot == "" then "1" else "2", c.id, c.correlation, c.agent, c.host, ActionName(c.action),
     Signed(c.created), Signed(c.expires), Decimal(t.pid), Decimal(t.startTicks), c.boot, t.path]
  }

  /** `command_signing_input`. */
  function SigningInput(c: Command, t: Target): string {
    "panopticon-command-auth/1\n" + Framed(FieldNames(), FieldValues(c, t))
  }

  lemma NamesHaveNoColon()
    ensures forall i :: 0 <= i < 12 ==> ':' !in FieldNames()[i]
  {
  }

  /** A reader of the framing finds, after the first line, these names with these values in this order. */
  lemma InputReads(c: Command, t: Target)
    ensures var input := SigningInput(c, t);
            && |input| >= 26 && input[..26] == "panopticon-command-auth/1\n"
            && Unframed(input[26..]) == Some(Frame(
              ["schema_version", "command_id", "correlation_id", "agent_id", "host_id", "action", "created_at",
               "expires_at", "pid", "start_time_ticks", "boot_id", "path"],
              [if c.boot == "" then "1" else "2", c.id, c.correlation, c.agent, c.host, ActionName(c.action),
               Signed(c.created), Signed(c.expires), Decimal(t.pid), Decimal(t.startTicks), c.boot, t.path]))
  {
    NamesHaveNoColon();
    FramedUnframes(FieldNames(), FieldValues(c, t));
    AfterHead("panopticon-command-auth/1\n", Framed(FieldNames(), FieldValues(c, t)));
  }

  lemma AfterHead(head: string, x: string)
    ensures (head + x)[..|head|] == head && (head + x)[|head|..] == x
  {
  }

  lemma ActionNameIsInjective(a: Action, b: Action)
    requires ActionName(a) == ActionName(b)
    ensures a == b
  {
    var n := ActionName(a);
    assert |n| > 8 ==> n[0] == ActionName(b)[0] && n[8] == ActionName(b)[8];
  }

  lemma SignedIsInjective(m: int, n: int)
    requires Signed(m) == Signed(n)
    ensures m == n
  {
    SignedStarts(m);
    SignedStarts(n);
    if m < 0 && n < 0 {
      SameStart("-", "-", Decimal(-m), Decimal(-n));
      DecimalInjective(-m, -n);
    } else if m >= 0 && n >= 0 {
      DecimalInjective(m, n);
    }
  }

  lemma SignedStarts(n: int)
    ensures Signed(n) != "" && (Signed(n)[0] == '-' <==> n < 0)
  {
    if n >= 0 { assert IsDigit(Decimal(n)[0]); }
  }

  /** Commands with the same signing input are the same in everything but the signature itself. */
  lemma SameInputSameCommand(a: Command, s: Target, b: Command, t: Target)
    requires SigningInput(a, s) == SigningInput(b, t)
    ensures a == b.(authorized := a.authorized) && s == t
  {
    var head := "panopticon-command-auth/1\n";
    SameStart(head, head, Framed(FieldNames(), FieldValues(a, s)), Framed(FieldNames(), FieldValues(b, t)));
    FramedIsInjective(FieldNames(), FieldValues(a, s), FieldValues(b, t));
    SameValues(a, s, b, t);
  }

  lemma SameValues(a: Command, s: Target, b: Command, t: Target)
    requires FieldValues(a, s) == FieldValues(b, t)
    ensures a == b.(authorized := a.authorized) && s == t
  {
    var v, w := FieldValues(a, s), FieldValues(b, t);
    assert v[1] == w[1] && v[2] == w[2] && v[3] == w[3] && v[4] == w[4] && v[10] == w[10] && v[11] == w[11];
    assert v[5] == w[5];
    ActionNameIsInjective(a.action, b.action);
    assert v[6] == w[6];
    SignedIsInjective(a.created, b.created);
    assert v[7] == w[7];
    SignedIsInjective(a.expires, b.expires);
    assert v[8] == w[8];
    DecimalInjective(s.pid, t.pid);
    assert v[9] == w[9];
    DecimalInjective(s.startTicks, t.startTicks);
  }
}
