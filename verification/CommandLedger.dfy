/**
 The replay ledger object: the map of commands it holds in memory and the append-only file behind it.
 */
module CommandLedgers {
  import opened Text
  import opened LedgerFormat
  import opened CommandPolicy
  import opened CommandMachine

  /** What one write(2) on the ledger did. */
  datatype Written = Bytes(count: nat) | Again | Failed(truncated: bool)

  /** `split_tabs`. */
  method SplitTabs(line: string) returns (parts: seq<string>)
    ensures parts == Fields(line, '\t')
  {
    parts := [];
    var rest := line;
    while true
      invariant parts + Fields(rest, '\t') == Fields(line, '\t')
      decreases |rest|
    {
      var tab := IndexOf(rest, '\t');
      if tab == |rest| {
        parts := parts + [rest];
        return;
      }
      MoveOver(parts, rest[..tab], Fields(rest[tab + 1..], '\t'), Fields(rest, '\t'), Fields(line, '\t'));
      parts := parts + [rest[..tab]];
      rest := rest[tab + 1..];
    }
  }

  /** The text without an unterminated final line. */
  method DropTail(contents: string) returns (whole: string)
    ensures whole == WholeLines(contents)
  {
    whole := contents;
    while whole != [] && whole[|whole| - 1] != '\n'
      invariant WholeLines(whole) == WholeLines(contents)
      decreases |whole|
    {
      whole := whole[..|whole| - 1];
    }
  }

  /** The lines one after the other, as `std::getline` hands them out. */
  method SplitLines(whole: string) returns (lines: seq<string>)
    requires Terminated(whole)
    ensures lines == Lines(whole)
  {
    lines := [];
    var rest := whole;
    while rest != []
      invariant Terminated(rest)
      invariant lines + Lines(rest) == Lines(whole)
      decreases |rest|
    {
      var end := IndexOf(rest, '\n');
      MoveOver(lines, rest[..end], Lines(rest[end + 1..]), Lines(rest), Lines(whole));
      lines := lines + [rest[..end]];
      rest := rest[end + 1..];
    }
  }

  /** The reading loop of `open`: the first malformed line makes the whole file corrupt. */
  method ReadLines(lines: seq<string>) returns (image: Option<Image>)
    ensures image == LoadLines(lines)
  {
    var img := EMPTY;
    for k := 0 to |lines|
      invariant LoadLines(lines[..k]) == Some(img)
    {
      LoadNextLine(lines, k, img);
      var parts := SplitTabs(lines[k]);
      var applied := ApplyParts(img, parts, k == 0);
      if applied.None? {
        CorruptStaysCorrupt(lines, k + 1);
        return None;
      }
      img := applied.value;
    }
    assert lines[..|lines|] == lines;
    return Some(img);
  }

  /** The pass of `open` that forgets reported commands a day past their expiry. */
  method ForgetExpired(entries: map<string, Entry>, now: int) returns (kept: map<string, Entry>)
    ensures kept == Kept(entries, now)
  {
    kept := entries;
    var rest := entries.Keys;
    while rest != {}
      invariant rest <= entries.Keys && kept.Keys <= entries.Keys
      invariant forall id :: id in kept ==> kept[id] == entries[id]
      invariant forall id :: id in entries ==> (id in kept <==> id in rest || !Forgettable(entries[id], now))
    {
      var id :| id in rest;
      rest := rest - {id};
      if Forgettable(entries[id], now) { kept := kept - {id}; }
    }
    assert kept == Kept(entries, now);
  }

  /** The compact rewrite. */
  method WriteCompact(image: Image) returns (text: string, ghost order: seq<string>)
    requires ImageOk(image)
    ensures Enumerates(order, image.entries) && text == Render(image, order)
  {
    order := [];
    text := EpochText(image.epoch);
    var rest := image.entries.Keys;
    while rest != {}
      invariant rest <= image.entries.Keys
      invariant forall i, j :: 0 <= i < j < |order| ==> order[i] != order[j]
      invariant forall id :: id in order ==> id in image.entries && id !in rest
      invariant forall id :: id in image.entries ==> id in order || id in rest
      invariant text == Render(image, order)
    {
      var id :| id in rest;
      rest := rest - {id};
      text := text + EditsText(EntryEdits(id, image.entries[id]));
      ghost var before := order;
      order := order + [id];
      assert order[..|order| - 1] == before;
    }
  }

  /** `open` up to the rename: what the file says, and the file to leave behind. */
  method OpenFile(contents: string, maximum: nat, now: int) returns (o: Opening, left: string)
    requires now < SIGNED_LIMIT
    ensures o == Opened(contents, maximum, now)
    ensures o.Ready? ==> ImageOk(o.image) && LeftBehind(left, contents, o)
  {
    left := contents;
    var whole := DropTail(contents);
    var lines := SplitLines(whole);
    var loaded := ReadLines(lines);
    if loaded.None? { return Corrupt, left; }
    var epoch := if whole == [] then NewEpoch(now) else loaded.value.epoch;
    var entries := ForgetExpired(loaded.value.entries, now);
    if |entries| > maximum { return TooMany, left; }
    o := Ready(Image(epoch, entries), |entries| != |loaded.value.entries| || whole != contents || whole == []);
    OpenedOk(contents, maximum, now);
    if o.rewrite {
      ghost var order;
      left, order := WriteCompact(o.image);
    }
  }

  /** The entries once this one is done, if it was received and the outcome is one the ledger takes. */
  function Finished(entries: map<string, Entry>, id: string, outcome: string, reason: string,
                    detail: string): map<string, Entry> {
    if id in entries && entries[id].phase == Received && OutcomeOk(outcome) && ReasonOk(reason)
    then entries[id := entries[id].(phase := Done, outcome := outcome, reason := reason, detail := detail)]
    else entries
  }

  /** The entries once this one is reported, if it was done. */
  function Closed(entries: map<string, Entry>, id: string): map<string, Entry> {
    if id in entries && entries[id].phase == Done then entries[id := entries[id].(phase := Reported)] else entries
  }

  class CommandLedger {
    const maximum: nat
    var file: string
    var writable: bool
    var epoch: int
    var entries: map<string, Entry>

    ghost predicate Valid()
      reads this
    {
      ImageOk(Image(epoch, entries)) && (writable ==> Terminated(file))
    }

    /** The ledger as the machine sees it. */
    ghost function AsWorld(): (w: World)
      reads this
      ensures w.memory.Up?
    {
      World(file, Up(epoch, entries, writable, [], Idle), 0, [], [], 0, 0)
    }

    /** `open` of a file that loads; `now` is the clock, `image` and `left` what opening makes of the file. */
    constructor (contents: string, maximum: nat, now: int, left: string)
      requires now < SIGNED_LIMIT && Opened(contents, maximum, now).Ready?
      requires ImageOk(Opened(contents, maximum, now).image) &&
               LeftBehind(left, contents, Opened(contents, maximum, now))
      ensures Valid() && writable && this.maximum == maximum && file == left
      ensures Image(epoch, entries) == Opened(contents, maximum, now).image && Load(file) == Some(Image(epoch, entries))
    {
      this.maximum := maximum;
      this.file := left;
      this.writable := true;
      this.epoch := Opened(contents, maximum, now).image.epoch;
      this.entries := Opened(contents, maximum, now).image.entries;
      OpenLeavesItsImage(contents, maximum, now, left);
    }

    /** The kernel's answer to one write: some of the bytes, an interruption, or an error. */
    method Write(left: nat) returns (w: Written)
      requires left > 0
      ensures w.Bytes? ==> 0 < w.count <= left
    {
      var any: Written := *;
      w := if any.Bytes? && !(0 < any.count <= left) then Bytes(left) else any;
    }

    /**
     `append`: all of the line and a sync, or an error; after a failed write the file is cut back to where the
     record began, or closed for good. The source retries an interrupted write for ever; here the number of
     interruptions is arbitrary but finite.
     */
    method Append(text: string) returns (ok: bool, ghost how: CommandMachine.Write)
      requires writable ==> Terminated(file)
      modifies this`file, this`writable
      ensures Possible(how, text) && !how.Died? && ok == (how == Synced) && (ok ==> old(writable))
      ensures !old(writable) ==> file == old(file) && !writable
      ensures old(writable) ==>
                match how
                case Synced => file == old(file) + text && writable
                case CutBack => file == old(file) && writable
                case Stuck(kept) => file == old(file) + text[..kept] && !writable
                case _ => file == old(file) + text && writable
    {
      if !writable { return false, CutBack; }
      ghost var begin := file;
      var start := |file|;
      var done := 0;
      var interruptions: nat := *;
      while done < |text|
        invariant done <= |text| && start == |begin| && writable
        invariant file == begin + text[..done]
        decreases |text| - done, interruptions
      {
        var written := Write(|text| - done);
        if written.Failed? {
          if written.truncated {
            file := file[..start];
            return false, CutBack;
          }
          writable := false;
          return false, Stuck(done);
        }
        if written.Bytes? {
          file := file + text[done..done + written.count];
          assert text[..done] + text[done..done + written.count] == text[..done + written.count];
          done := done + written.count;
        } else if interruptions == 0 {
          file := file + text[done..];
          assert text[..done] + text[done..] == text[..|text|];
          done := |text|;
        } else {
          interruptions := interruptions - 1;
        }
      }
      assert text[..done] == text;
      var synced: bool := *;
      return synced, if synced then Synced else Unsynced;
    }

    method MarkReceived(id: string, correlation: string, expires: int)
      returns (made: bool, failed: bool, ghost how: CommandMachine.Write)
      requires Valid() && expires <= INT64_MAX
      modifies this`file, this`writable, this`entries
      ensures Valid() && !how.Died? && (made ==> !failed)
      ensures var refused := !CommandIdOk(id) || !CommandIdOk(correlation) || expires <= 0;
              if refused || id in old(entries) || |old(entries)| >= maximum then
                !made && how == Synced && unchanged(this) && failed == (refused || id !in old(entries))
              else
                Possible(how, EditText(Receive(id, correlation, expires))) &&
                AsWorld() == CommandMachine.Append(old(AsWorld()), Receive(id, correlation, expires), how) &&
                made == Recorded(old(AsWorld()), how) == (how == Synced) && failed == !made
    {
      how := Synced;
      if !CommandIdOk(id) || !CommandIdOk(correlation) || expires <= 0 { return false, true, how; }
      if id in entries { return false, false, how; }
      if |entries| >= maximum { return false, true, how; }
      var e := Receive(id, correlation, expires);
      LineOfFields(e);
      var ok;
      ok, how := Append(EditText(e));
      if !ok { return false, true, how; }
      EditedKeepsOk(e, Image(epoch, entries));
      entries := entries[id := Fresh(correlation, expires)];
      return true, false, how;
    }

    method MarkDone(id: string, outcome: string, reason: string, detail: string)
      returns (made: bool, ghost how: CommandMachine.Write)
      requires Valid()
      modifies this`file, this`writable, this`entries
      ensures Valid() && !how.Died?
      ensures entries == if how == Synced then Finished(old(entries), id, outcome, reason, Clean(detail))
              else old(entries)
      ensures var e := Finish(id, outcome, reason, Clean(detail));
              if Edited(e, Image(old(epoch), old(entries))).None? then !made && how == Synced && unchanged(this)
              else
                Possible(how, EditText(e)) && AsWorld() == CommandMachine.Append(old(AsWorld()), e, how) &&
                made == Recorded(old(AsWorld()), how) == (how == Synced)
    {
      how := Synced;
      if !ReasonOk(reason) || !OutcomeOk(outcome) || id !in entries || entries[id].phase != Received {
        return false, how;
      }
      var kept := Clean(detail);
      assert '\t' !in kept && '\n' !in kept;
      var e := Finish(id, outcome, reason, kept);
      LineOfFields(e);
      var ok;
      ok, how := Append(EditText(e));
      if !ok { return false, how; }
      EditedKeepsOk(e, Image(epoch, entries));
      entries := entries[id := entries[id].(phase := Done, outcome := outcome, reason := reason, detail := kept)];
      return true, how;
    }

    method MarkReported(id: string) returns (made: bool, ghost how: CommandMachine.Write)
      requires Valid()
      modifies this`file, this`writable, this`entries
      ensures Valid() && !how.Died?
      ensures entries == if how == Synced then Closed(old(entries), id) else old(entries)
      ensures if Edited(Report(id), Image(old(epoch), old(entries))).None? then !made && how == Synced &&
              unchanged(this)
              else
                Possible(how, EditText(Report(id))) &&
                    AsWorld() == CommandMachine.Append(old(AsWorld()), Report(id), how) &&
                made == Recorded(old(AsWorld()), how) == (how == Synced)
    {
      how := Synced;
      if id !in entries || entries[id].phase != Done { return false, how; }
      var e := Report(id);
      LineOfFields(e);
      var ok;
      ok, how := Append(EditText(e));
      if !ok { return false, how; }
      EditedKeepsOk(e, Image(epoch, entries));
      entries := entries[id := entries[id].(phase := Reported)];
      return true, how;
    }
  }
}
