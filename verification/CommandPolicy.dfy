/**
 The decision procedure of the command processor: every check a command passes before its intent is
 recorded, in the order the processor makes them.
 */
module CommandPolicy {
  import opened Text
  import opened LedgerFormat

  datatype Action =
    | KillProcess | CollectProcessInfo | CollectNetworkConnections | CollectFile
    | QuarantineFile | IsolateHost | ReleaseHostIsolation

  datatype Mode = Off | DryRun | Enforce

  /** A command after strict parsing; `created` is 0 when the envelope has none. */
  datatype Command = Command(id: string, agent: string, host: string, correlation: string, action: Action,
                             created: int, expires: int, boot: string, authorized: bool)

  datatype Policy = Policy(mode: Mode, allowed: set<Action>, maximumLifetime: nat, clockSkew: nat,
                           requireBootBinding: bool, requireSignature: bool, maximumChanges: nat)

  /** The fixed English texts sent beside a reason code. */
  datatype Texts = Texts(refusal: Why -> string, unavailable: string, interrupted: string, notAccepted: string)

  datatype Options = Options(agent: string, host: string, boot: string, keyring: bool, acceptance: bool,
                             policy: Policy, texts: Texts)

  datatype Verdict = Valid | Missing | UnknownKey | UnsignedWindow | BadSignature

  /** What the cryptographic oracle says about the authorization of one command. */
  datatype Signature = Signature(keyKnown: bool, verifies: bool)

  /** Why a command is refused. */
  datatype Why =
    | SignatureRequired | UnknownSigningKey | WindowNotSigned | SignatureInvalid
    | WrongEndpoint | NoKeyPinned | BootUnavailable | BootMismatch
    | BootBindingRequired | Expired | NotYetValid | LifetimeExceeded
    | LedgerReset | ResponseDisabled | ActionNotPermitted | RateLimited

  datatype Decision =
    | Refusal(why: Why)
    | Admission(dryRun: bool)

  /** The machine reason sent to the Manager. */
  function Code(w: Why): string {
    match w
    case SignatureRequired => "signature_required"
    case UnknownSigningKey => "unknown_signing_key"
    case WindowNotSigned => "signature_invalid"
    case SignatureInvalid => "signature_invalid"
    case WrongEndpoint => "wrong_endpoint"
    case NoKeyPinned => "signature_required"
    case BootUnavailable => "boot_unavailable"
    case BootMismatch => "boot_mismatch"
    case BootBindingRequired => "boot_binding_required"
    case Expired => "expired"
    case NotYetValid => "not_yet_valid"
    case LifetimeExceeded => "lifetime_exceeded"
    case LedgerReset => "ledger_reset"
    case ResponseDisabled => "response_disabled"
    case ActionNotPermitted => "action_not_permitted"
    case RateLimited => "rate_limited"
  }

  predicate ChangesHost(a: Action) { a.KillProcess? || a.QuarantineFile? || a.IsolateHost? || a.ReleaseHostIsolation? }

  predicate Collects(a: Action) { a.CollectProcessInfo? || a.CollectNetworkConnections? || a.CollectFile? }

  /** The keyring's verdict: the validity window must be inside the signature. */
  function Check(c: Command, s: Signature): Verdict {
    if !c.authorized then Missing
    else if !s.keyKnown then UnknownKey
    else if c.created <= 0 then UnsignedWindow
    else if s.verifies then Valid else BadSignature
  }

  /** The rate window: times more than a minute old leave from the front. */
  function Recent(times: seq<int>, now: int): seq<int> {
    if times == [] || times[0] > now - 60 then times else Recent(times[1..], now)
  }

  function SignatureRefusal(v: Verdict): Why
    requires v != Valid
  {
    match v
    case Missing => SignatureRequired
    case UnknownKey => UnknownSigningKey
    case UnsignedWindow => WindowNotSigned
    case BadSignature => SignatureInvalid
  }

  /** Identity, signature and boot: who issued the command and for which boot of which host. */
  function CheckIssuer(o: Options, c: Command, s: Signature): Option<Why> {
    var bound := c.action.KillProcess? || c.action.CollectProcessInfo?;
    if c.agent != o.agent || c.host != o.host then
      Some(WrongEndpoint)
    else if o.keyring && Check(c, s) != Valid then Some(SignatureRefusal(Check(c, s)))
    else if !o.keyring && o.policy.requireSignature then
      Some(NoKeyPinned)
    else if c.boot != "" && o.boot == "" then
      Some(BootUnavailable)
    else if c.boot != "" && c.boot != o.boot then
      Some(BootMismatch)
    else if c.boot == "" && o.policy.requireBootBinding && bound then
      Some(BootBindingRequired)
    else None
  }

  /** Time: expiry, future issue, lifetime, and whether the replay ledger covers the time of issue. */
  function CheckTime(o: Options, c: Command, epoch: int, now: int): Option<Why> {
    var longest := o.policy.maximumLifetime + o.policy.clockSkew;
    var issued := if c.created > 0 then c.expires - c.created else 0;
    if c.expires <= now then Some(Expired)
    else if c.created > now + o.policy.clockSkew then
      Some(NotYetValid)
    else if c.expires - now > longest || issued > longest then
      Some(LifetimeExceeded)
    else if c.created > 0 && epoch > 0 && c.created < epoch then
      Some(LedgerReset)
    else None
  }

  /** Local policy: mode, permitted actions and the rate of changes (every action is implemented). */
  function CheckPolicy(o: Options, c: Command, times: seq<int>, now: int): Decision {
    var dry := ChangesHost(c.action) && o.policy.mode != Enforce;
    if o.policy.mode == Off then Refusal(ResponseDisabled)
    else if c.action !in o.policy.allowed then
      Refusal(ActionNotPermitted)
    else if ChangesHost(c.action) && !dry && |Recent(times, now)| >= o.policy.maximumChanges then
      Refusal(RateLimited)
    else Admission(dry)
  }

  function Decide(o: Options, c: Command, s: Signature, epoch: int, times: seq<int>, now: int): Decision {
    var issuer := CheckIssuer(o, c, s);
    if issuer.Some? then Refusal(issuer.value)
    else
      var time := CheckTime(o, c, epoch, now);
      if time.Some? then Refusal(time.value) else CheckPolicy(o, c, times, now)
  }

  /** An admitted command is unexpired, not issued in the future, and not older than the ledger. */
  lemma AdmittedInTime(o: Options, c: Command, s: Signature, epoch: int, times: seq<int>, now: int)
    requires Decide(o, c, s, epoch, times, now).Admission?
    ensures now < c.expires <= now + o.policy.maximumLifetime + o.policy.clockSkew
    ensures c.created <= now + o.policy.clockSkew
    ensures c.created > 0 && epoch > 0 ==> epoch <= c.created
    ensures o.keyring ==> c.created > 0
  {
  }

  // ---- the decision, field by field ----------------------------------------------------------

  /** A reading that no later reading has pushed out of the window: it or one before it is less than a minute old. */
  ghost predicate InWindow(times: seq<int>, now: int, i: int) {
    0 <= i < |times| && exists j :: 0 <= j <= i && times[j] > now - 60
  }

  ghost function WindowOf(times: seq<int>, now: int): set<int> { set i | 0 <= i < |times| && InWindow(times, now, i) }

  predicate Ascending(times: seq<int>) { forall i, j :: 0 <= i < j < |times| ==> times[i] <= times[j] }

  /** The readings of a clock that does not go back: those in the window are those of the last minute. */
  lemma WindowIsLastMinute(times: seq<int>, now: int)
    requires Ascending(times)
    ensures forall i :: i in WindowOf(times, now) <==> 0 <= i < |times| && times[i] > now - 60
  {
  }

  /** Dropping old readings from the front keeps exactly those in the window. */
  lemma RecentIsWindow(times: seq<int>, now: int)
    ensures |Recent(times, now)| == |WindowOf(times, now)|
  {
    RecentKeeps(times, now);
    var first := |times| - |Recent(times, now)|;
    assert WindowOf(times, now) == Span(first, |times|);
    SpanSize(first, |times|);
  }

  lemma {:induction false} RecentKeeps(times: seq<int>, now: int)
    ensures |Recent(times, now)| <= |times|
    ensures forall i :: InWindow(times, now, i) <==> |times| - |Recent(times, now)| <= i < |times|
    decreases |times|
  {
    if times != [] {
      if times[0] > now - 60 {
        assert forall i :: 0 <= i < |times| ==> InWindow(times, now, i) by { assert times[0] > now - 60; }
      } else {
        RecentKeeps(times[1..], now);
        forall i ensures InWindow(times, now, i) <==> InWindow(times[1..], now, i - 1) {
          OldOneLeaves(times, now, i);
        }
      }
    }
  }

  lemma OldOneLeaves(times: seq<int>, now: int, i: int)
    requires times != [] && times[0] <= now - 60
    ensures InWindow(times, now, i) <==> InWindow(times[1..], now, i - 1)
  {
    if InWindow(times, now, i) {
      var j :| 0 <= j <= i && times[j] > now - 60;
      assert times[1..][j - 1] == times[j];
    }
    if InWindow(times[1..], now, i - 1) {
      var j :| 0 <= j <= i - 1 && times[1..][j] > now - 60;
      assert times[j + 1] == times[1..][j];
    }
  }

  predicate Between(first: int, n: int, i: int) { first <= i < n }

  ghost function Span(first: int, n: int): set<int> { set i | first <= i < n && Between(first, n, i) }

  lemma {:induction false} SpanSize(first: int, n: int)
    requires first <= n
    ensures |Span(first, n)| == n - first
    decreases n - first
  {
    if first < n {
      SpanSize(first, n - 1);
      assert Span(first, n) == Span(first, n - 1) + {n - 1};
    } else {
      assert Span(first, n) == {};
    }
  }

  predicate ChangesTheHost(a: Action) { a in {KillProcess, QuarantineFile, IsolateHost, ReleaseHostIsolation} }

  /** What speaks against a command, over the fields of options, command and signature alone. */
  ghost predicate Objection(o: Options, c: Command, s: Signature, epoch: int, times: seq<int>, now: int, why: Why) {
    var longest := o.policy.maximumLifetime + o.policy.clockSkew;
    match why
    case WrongEndpoint => c.agent != o.agent || c.host != o.host
    case SignatureRequired => o.keyring && !c.authorized
    case UnknownSigningKey => o.keyring && !s.keyKnown
    case WindowNotSigned => o.keyring && c.created <= 0
    case SignatureInvalid => o.keyring && !s.verifies
    case NoKeyPinned => !o.keyring && o.policy.requireSignature
    case BootUnavailable => c.boot != "" && o.boot == ""
    case BootMismatch => c.boot != "" && c.boot != o.boot
    case BootBindingRequired =>
      c.boot == "" && o.policy.requireBootBinding && c.action in {KillProcess, CollectProcessInfo}
    case Expired => c.expires <= now
    case NotYetValid => c.created > now + o.policy.clockSkew
    case LifetimeExceeded => c.expires > now + longest || (c.created > 0 && c.expires > c.created + longest)
    case LedgerReset => 0 < c.created < epoch
    case ResponseDisabled => o.policy.mode == Off
    case ActionNotPermitted => c.action !in o.policy.allowed
    case RateLimited =>
      ChangesTheHost(c.action) && o.policy.mode == Enforce && |WindowOf(times, now)| >= o.policy.maximumChanges
  }

  /** Which of two objections is given as the reason: the one with the lower number. */
  function Rank(why: Why): nat {
    match why
    case WrongEndpoint => 0
    case SignatureRequired => 1
    case UnknownSigningKey => 2
    case WindowNotSigned => 3
    case SignatureInvalid => 4
    case NoKeyPinned => 5
    case BootUnavailable => 6
    case BootMismatch => 7
    case BootBindingRequired => 8
    case Expired => 9
    case NotYetValid => 10
    case LifetimeExceeded => 11
    case LedgerReset => 12
    case ResponseDisabled => 13
    case ActionNotPermitted => 14
    case RateLimited => 15
  }

  ghost predicate FirstObjection(o: Options, c: Command, s: Signature, epoch: int, times: seq<int>, now: int,
                                 why: Why) {
    && Objection(o, c, s, epoch, times, now, why)
    && forall other :: Objection(o, c, s, epoch, times, now, other) ==> Rank(why) <= Rank(other)
  }

  /** The reason given is the first objection. */
  lemma RefusedForFirst(o: Options, c: Command, s: Signature, epoch: int, times: seq<int>, now: int)
    ensures var d := Decide(o, c, s, epoch, times, now);
            && (d.Refusal? ==> FirstObjection(o, c, s, epoch, times, now, d.why))
            && (d.Admission? ==> forall why :: !Objection(o, c, s, epoch, times, now, why))
  {
    RecentIsWindow(times, now);
  }

  lemma RankIsOneToOne(a: Why, b: Why)
    requires Rank(a) == Rank(b)
    ensures a == b
  {
  }

  /** The whole decision: a command is refused for its first objection, and admitted if and only if it has none. */
  lemma DecidedByObjections(o: Options, c: Command, s: Signature, epoch: int, times: seq<int>, now: int)
    ensures var d := Decide(o, c, s, epoch, times, now);
            && (d.Admission? <==> forall why :: !Objection(o, c, s, epoch, times, now, why))
            && (forall why :: d == Refusal(why) <==> FirstObjection(o, c, s, epoch, times, now, why))
  {
    RefusedForFirst(o, c, s, epoch, times, now);
    var d := Decide(o, c, s, epoch, times, now);
    forall why | FirstObjection(o, c, s, epoch, times, now, why)
      ensures d == Refusal(why)
    {
      RankIsOneToOne(d.why, why);
    }
  }

  /** The same as one condition, over the fields of options, command and signature. */
  ghost predicate Admissible(o: Options, c: Command, s: Signature, epoch: int, times: seq<int>, now: int) {
    && c.agent == o.agent && c.host == o.host
    && (if o.keyring then c.authorized && s.keyKnown && c.created > 0 && s.verifies else !o.policy.requireSignature)
    && (if c.boot != "" then c.boot == o.boot
        else !o.policy.requireBootBinding || c.action !in {KillProcess, CollectProcessInfo})
    && now < c.expires <= now + o.policy.maximumLifetime + o.policy.clockSkew
    && c.created <= now + o.policy.clockSkew
    && (c.created > 0 ==> c.expires <= c.created + o.policy.maximumLifetime + o.policy.clockSkew)
    && (c.created > 0 && epoch > 0 ==> epoch <= c.created)
    && o.policy.mode != Off && c.action in o.policy.allowed
    && (ChangesTheHost(c.action) && o.policy.mode == Enforce ==> |WindowOf(times, now)| < o.policy.maximumChanges)
  }

  /**
   Admission: exactly the commands of the right issuer, for this boot, in time, permitted and within the rate; and
   carried out for show only, exactly where a changing action is not to be enforced.
   */
  lemma AdmittedIff(o: Options, c: Command, s: Signature, epoch: int, times: seq<int>, now: int)
    ensures var d := Decide(o, c, s, epoch, times, now);
            && (d.Admission? <==> Admissible(o, c, s, epoch, times, now))
            && (d.Admission? ==> (d.dryRun <==> ChangesTheHost(c.action) && o.policy.mode != Enforce))
  {
    RecentIsWindow(times, now);
  }

  lemma SignatureCodes()
    ensures ReasonOk(Code(SignatureRequired))
    ensures ReasonOk(Code(UnknownSigningKey))
    ensures ReasonOk(Code(WindowNotSigned))
    ensures ReasonOk(Code(SignatureInvalid))
    ensures ReasonOk(Code(NoKeyPinned))
  {
    assert ReasonOk("signature_required");
    assert ReasonOk("unknown_signing_key");
    assert ReasonOk("signature_invalid");
  }

  lemma EndpointCodes()
    ensures ReasonOk(Code(WrongEndpoint))
    ensures ReasonOk(Code(BootUnavailable))
    ensures ReasonOk(Code(BootMismatch))
    ensures ReasonOk(Code(BootBindingRequired))
  {
    assert ReasonOk("wrong_endpoint");
    assert ReasonOk("boot_unavailable");
    assert ReasonOk("boot_mismatch");
    assert ReasonOk("boot_binding_required");
  }

  lemma TimeCodes()
    ensures ReasonOk(Code(Expired))
    ensures ReasonOk(Code(NotYetValid))
    ensures ReasonOk(Code(LifetimeExceeded))
    ensures ReasonOk(Code(LedgerReset))
  {
    assert ReasonOk("expired");
    assert ReasonOk("not_yet_valid");
    assert ReasonOk("lifetime_exceeded");
    assert ReasonOk("ledger_reset");
  }

  lemma PolicyCodes()
    ensures ReasonOk(Code(ResponseDisabled))
    ensures ReasonOk(Code(ActionNotPermitted))
    ensures ReasonOk(Code(RateLimited))
  {
    assert ReasonOk("response_disabled");
    assert ReasonOk("action_not_permitted");
    assert ReasonOk("rate_limited");
  }

  /** Every refusal can be stored: its code is a reason the ledger takes. */
  lemma CodeIsReason(w: Why)
    ensures ReasonOk(Code(w))
  {
    SignatureCodes();
    EndpointCodes();
    TimeCodes();
    PolicyCodes();
    match w case _ =>
  }

  lemma OtherReasons()
    ensures ReasonOk("interrupted") && ReasonOk("invalid_command") && ReasonOk("manager_acceptance_required")
  {
  }
}
