/**
 The resumable upload of an artifact: the Manager says how much it has, the sensor sends the next slices, at most four
 in one call. What the Manager replies may depend in any way on everything it was sent.
 */
module ArtifactUpload {
  import opened Text

  const CHUNK_BYTES: nat := 65536
  const CHUNKS_PER_CALL: nat := 4
  const MAXIMUM_BYTES: nat := 1048576

  datatype Request =
    | Admit
    | Chunk(offset: nat, part: string)
    | Finish(digest: string)

  /**
   A reply: a receipt, or progress. `wellFormed` covers the closed set of fields, the identity of the artifact and the
   chunk size; `expires` is `None` when the field is null.
   */
  datatype Reply =
    | Progress(wellFormed: bool, digest: string, received: nat, complete: bool, expires: Option<string>)
    | Receipt(valid: bool)
    | Silence

  /** The Manager: its reply to the last of these requests. */
  type Manager = seq<Request> -> Reply

  // ---- one reply -----------------------------------------------------------------------------

  /** `read_progress`: how many bytes the Manager has; `fixed` is the digest of an earlier reply, or empty. */
  function ReadProgress(r: Reply, size: nat, fixed: string): (n: Option<nat>)
    ensures n.Some? ==> n.value <= size && (n.value == size || n.value % CHUNK_BYTES == 0)
    ensures n.Some? ==> r.Progress? && r.digest != "" && (fixed == "" || r.digest == fixed)
  {
    if !r.Progress? || !r.wellFormed || r.digest == "" || (fixed != "" && r.digest != fixed) then None
    else if r.received > size || (r.received != size && r.received % CHUNK_BYTES != 0) then None
    else if r.complete && (r.received != size || r.expires.Some?) then None
    else if !r.complete && (r.expires.None? || r.expires.value == "") then None
    else Some(r.received)
  }

  /** The slice that starts at an offset. */
  function Slice(content: string, offset: nat): (part: string)
    requires offset <= |content|
  {
    if offset + CHUNK_BYTES <= |content| then content[offset..offset + CHUNK_BYTES] else content[offset..]
  }

  // ---- what was sent -------------------------------------------------------------------------

  /** The slices from one offset on, one after the other. */
  ghost predicate Slices(content: string, offset: nat, sent: seq<Request>)
    decreases |sent|
  {
    sent == [] ||
    (offset < |content| && sent[0] == Chunk(offset, Slice(content, offset)) &&
        Slices(content, offset + |Slice(content, offset)|, sent[1..]))
  }

  /** Where the slices end. */
  ghost function End(content: string, offset: nat, sent: seq<Request>): nat
    requires offset <= |content|
    decreases |sent|
  {
    if sent == [] then offset else End(content, offset + |Slice(content, offset)|, sent[1..])
  }

  lemma {:induction false} SliceMore(content: string, offset: nat, sent: seq<Request>)
    requires offset <= |content| && Slices(content, offset, sent) && End(content, offset, sent) < |content|
    ensures var at := End(content, offset, sent); var more := sent + [Chunk(at, Slice(content, at))];
            Slices(content, offset, more) && End(content, offset, more) == at + |Slice(content, at)|
    decreases |sent|
  {
    var at := End(content, offset, sent);
    var more := sent + [Chunk(at, Slice(content, at))];
    if sent == [] {
      assert more[1..] == [];
    } else {
      assert more[1..] == sent[1..] + [Chunk(at, Slice(content, at))];
      SliceMore(content, offset + |Slice(content, offset)|, sent[1..]);
    }
  }

  /** Every one of these replies is progress under one digest. */
  ghost predicate OneDigest(manager: Manager, log: seq<Request>, from: nat, digest: string) {
    forall k :: from < k <= |log| ==> manager(log[..k]).Progress? && manager(log[..k]).digest == digest
  }

  // ---- a Manager that keeps what it gets ------------------------------------------------------

  /** What it has after these requests: a slice counts when it starts where the bytes end. */
  ghost function Stored(log: seq<Request>): nat {
    if log == [] then 0
    else
      var before, last := Stored(log[..|log| - 1]), log[|log| - 1];
      if last.Chunk? && last.offset == before then before + |last.part| else before
  }

  ghost predicate Faithful(manager: Manager, size: nat, digest: string, log: seq<Request>) {
    log != [] ==>
      var r, last := manager(log), log[|log| - 1];
      if last.Finish? then r == Receipt(Stored(log) == size && last.digest == digest)
      else
        && r.Progress? && r.wellFormed && r.digest == digest && r.received == Stored(log) && !r.complete
        && r.expires.Some? && r.expires.value != ""
  }

  ghost predicate Keeps(manager: Manager, size: nat, digest: string) {
    digest != "" && forall log :: Faithful(manager, size, digest, log)
  }

  ghost predicate OnBoundary(n: nat, size: nat) { n <= size && (n == size || n % CHUNK_BYTES == 0) }

  lemma StoredMore(log: seq<Request>, r: Request)
    ensures Stored(log + [r]) == if r.Chunk? && r.offset == Stored(log) then Stored(log) + |r.part| else Stored(log)
  {
    assert (log + [r])[..|log|] == log;
  }

  lemma FaithfulReply(manager: Manager, size: nat, digest: string, log: seq<Request>, fixed: string)
    requires Keeps(manager, size, digest) && log != [] && !log[|log| - 1].Finish? && OnBoundary(Stored(log), size) &&
             (fixed == "" || fixed == digest)
    ensures ReadProgress(manager(log), size, fixed) == Some(Stored(log)) && manager(log).digest == digest
  {
    assert Faithful(manager, size, digest, log);
  }

  lemma SliceIsBoundary(content: string, offset: nat)
    requires OnBoundary(offset, |content|)
    ensures OnBoundary(offset + |Slice(content, offset)|, |content|)
    ensures offset < |content| ==>
              offset + |Slice(content, offset)| == if offset + CHUNK_BYTES <= |content| then offset + CHUNK_BYTES
                  else |content|
  {
  }

  // ---- one call ------------------------------------------------------------------------------

  /**
   What one call sent: admission, at most four consecutive slices from where the Manager stands, and perhaps the end.
   */
  datatype Call = Call(start: nat, chunks: seq<Request>, digest: string)

  ghost predicate Orderly(manager: Manager, content: string, before: seq<Request>, c: Call, log: seq<Request>) {
    && before + [Admit] + c.chunks <= log && |c.chunks| <= CHUNKS_PER_CALL
    && c.start <= |content| && Slices(content, c.start, c.chunks)
  }

  /** Every byte is acknowledged under one digest, and the receipt is for that digest. */
  ghost predicate Acknowledged(manager: Manager, content: string, before: seq<Request>, c: Call, log: seq<Request>) {
    && log == before + [Admit] + c.chunks + [Finish(c.digest)]
    && ReadProgress(manager(before + [Admit]), |content|, "") == Some(c.start)
    && OneDigest(manager, before + [Admit] + c.chunks, |before|, c.digest)
    && End(content, c.start, c.chunks) == |content|
    && manager(log) == Receipt(true)
  }

  lemma OneDigestMore(manager: Manager, log: seq<Request>, r: Request, from: nat, digest: string)
    requires OneDigest(manager, log, from, digest) && manager(log + [r]).Progress? &&
             manager(log + [r]).digest == digest
    ensures OneDigest(manager, log + [r], from, digest)
  {
    var more := log + [r];
    forall k | from < k <= |more|
      ensures manager(more[..k]).Progress? && manager(more[..k]).digest == digest
    {
      if k <= |log| { assert more[..k] == log[..k]; } else { assert more[..k] == more; }
    }
  }

  /** So many slices after admission. */
  ghost predicate Underway(content: string, log0: seq<Request>, start: nat, log: seq<Request>, chunks: seq<Request>,
                           received: nat) {
    log == log0 + chunks && start <= |content| && Slices(content, start, chunks) &&
        received == End(content, start, chunks) <= |content|
  }

  /** A Manager that keeps what it gets has what was sent. */
  ghost predicate Keeping(content: string, before: seq<Request>, log: seq<Request>, received: nat, step: nat) {
    received == Stored(log) && OnBoundary(received, |content|) &&
        received == Min(|content|, Stored(before) + step * CHUNK_BYTES)
  }

  lemma UnderwayMore(content: string, log0: seq<Request>, start: nat, log: seq<Request>, chunks: seq<Request>,
                     received: nat)
    requires Underway(content, log0, start, log, chunks, received) && received < |content|
    ensures var r := Chunk(received, Slice(content, received));
            Underway(content, log0, start, log + [r], chunks + [r], received + |Slice(content, received)|)
  {
    SliceMore(content, start, chunks);
    Associative(log0, chunks, [Chunk(received, Slice(content, received))]);
  }

  lemma KeepingMore(manager: Manager, content: string, digest: string, before: seq<Request>, log: seq<Request>,
                    received: nat, step: nat)
    requires Keeps(manager, |content|, digest) && Keeping(content, before, log, received, step) && received < |content|
    ensures var r := Chunk(received, Slice(content, received)); var next := received + |Slice(content, received)|;
            Keeping(content, before, log + [r], next, step + 1) &&
                ReadProgress(manager(log + [r]), |content|, digest) == Some(next)
  {
    var r := Chunk(received, Slice(content, received));
    StoredMore(log, r);
    SliceIsBoundary(content, received);
    FaithfulReply(manager, |content|, digest, log + [r], digest);
  }

  /** The slices of one call: `log` holds what was sent, `received` what the Manager has. */
  method SendSlices(manager: Manager, content: string, ghost before: seq<Request>, start: nat, digest: string,
                    log0: seq<Request>)
    returns (ok: bool, log: seq<Request>, received: nat, ghost chunks: seq<Request>)
    requires log0 == before + [Admit] && start <= |content| && digest != ""
    requires manager(log0).Progress? && manager(log0).digest == digest
    ensures log == log0 + chunks && |chunks| <= CHUNKS_PER_CALL && Slices(content, start, chunks)
    ensures ok ==> Underway(content, log0, start, log, chunks, received) && OneDigest(manager, log, |before|, digest)
    ensures ok ==> received == |content| || |chunks| == CHUNKS_PER_CALL
    ensures Keeps(manager, |content|, digest) && Keeping(content, before, log0, start, 0) ==>
              ok && Keeping(content, before, log, received, |chunks|)
  {
    log, chunks, ok, received := log0, [], true, start;
    ghost var keeps := Keeps(manager, |content|, digest) && Keeping(content, before, log0, start, 0);
    AdmitUnderDigest(manager, before, digest);
    assert log0 + [] == log0;
    var step := 0;
    while step < CHUNKS_PER_CALL && received < |content|
      invariant Underway(content, log0, start, log, chunks, received) && |chunks| == step <= CHUNKS_PER_CALL
      invariant OneDigest(manager, log, |before|, digest)
      invariant keeps ==> Keeping(content, before, log, received, step)
    {
      var part := Slice(content, received);
      UnderwayMore(content, log0, start, log, chunks, received);
      if keeps { KeepingMore(manager, content, digest, before, log, received, step); }
      ghost var was := log;
      log, chunks := log + [Chunk(received, part)], chunks + [Chunk(received, part)];
      var next := ReadProgress(manager(log), |content|, digest);
      if next.None? || next.value != received + |part| { return false, log, received, chunks; }
      OneDigestMore(manager, was, Chunk(received, part), |before|, digest);
      received := next.value;
      step := step + 1;
    }
  }

  function Min(a: nat, b: nat): nat { if a < b then a else b }

  lemma AdmitUnderDigest(manager: Manager, before: seq<Request>, digest: string)
    requires manager(before + [Admit]).Progress? && manager(before + [Admit]).digest == digest
    ensures OneDigest(manager, before + [Admit], |before|, digest)
  {
    var log := before + [Admit];
    assert log[..|log|] == log;
  }

  /**
   `resume_artifact_upload`, against every Manager: the slices sent are consecutive, at most four, from where the
   Manager says it stands; a receipt is returned only after one fixed digest has acknowledged every byte. Against a
   Manager that keeps what it gets, one call brings it four slices further and ends with the receipt exactly when
   nothing is left.
   */
  method Resume(manager: Manager, content: string, before: seq<Request>)
    returns (receipt: bool, log: seq<Request>, ghost c: Call)
    ensures log == before || Orderly(manager, content, before, c, log)
    ensures receipt ==> Acknowledged(manager, content, before, c, log)
    ensures forall digest ::
              0 < |content| <= MAXIMUM_BYTES && Keeps(manager, |content|, digest) &&
              OnBoundary(Stored(before), |content|) ==>
      && Stored(log) == Min(|content|, Stored(before) + CHUNKS_PER_CALL * CHUNK_BYTES)
      && OnBoundary(Stored(log), |content|) && (receipt <==> Stored(log) == |content|)
  {
    receipt, log, c := false, before, Call(0, [], "");
    if content == "" || |content| > MAXIMUM_BYTES { return; }
    log := before + [Admit];
    assert log + [] == log;
    StoredMore(before, Admit);
    forall d | Keeps(manager, |content|, d) && OnBoundary(Stored(before), |content|)
      ensures ReadProgress(manager(log), |content|, "") == Some(Stored(log)) && manager(log).digest == d
    {
      FaithfulReply(manager, |content|, d, log, "");
    }
    var admitted := ReadProgress(manager(log), |content|, "");
    if admitted.None? { return; }
    var digest := manager(log).digest;
    var ok, received;
    ghost var chunks;
    ok, log, received, chunks := SendSlices(manager, content, before, admitted.value, digest, log);
    c := Call(admitted.value, chunks, digest);
    if !ok || received != |content| { return; }
    ghost var sent := log;
    StoredMore(log, Finish(digest));
    log := log + [Finish(digest)];
    receipt := manager(log) == Receipt(true);
    forall d | Keeps(manager, |content|, d)
      ensures Faithful(manager, |content|, d, log)
    {
    }
  }

  /** Any content that may be sent at all is delivered in at most four calls to a Manager that keeps what it gets. */
  method FourCalls(manager: Manager, content: string, digest: string) returns (receipt: bool, calls: nat)
    requires 0 < |content| <= MAXIMUM_BYTES && Keeps(manager, |content|, digest)
    ensures receipt && calls <= 4
  {
    var log := [];
    receipt, calls := false, 0;
    while calls < 4 && !receipt
      invariant calls <= 4 && OnBoundary(Stored(log), |content|) &&
                Stored(log) == Min(|content|, calls * CHUNKS_PER_CALL * CHUNK_BYTES)
      invariant calls > 0 ==> (receipt <==> Stored(log) == |content|)
      decreases 4 - calls
    {
      ghost var c;
      receipt, log, c := Resume(manager, content, log);
      calls := calls + 1;
    }
  }
}
