/**
 The strict reader on arbitrary text: what every accepted document satisfies, and the parser object that works by
 advancing its position and counting values.
 */
module JsonReader {
  import opened Text
  import opened JsonStrings
  import opened Json

  // ---- whatever is accepted ------------------------------------------------------------------

  /** UTF-8 throughout, no repeated key, integers of 64 bits. */
  predicate Proper(v: Json)
    decreases v
  {
    match v
    case Str(s) => Clean(s) == s
    case Number(_, magnitude) => magnitude <= MAX_MAGNITUDE
    case Arr(items) => forall i :: 0 <= i < |items| ==> Proper(items[i])
    case Obj(keys, items) =>
      && |keys| == |items| && Distinct(keys) && AllClean(keys)
      && forall i :: 0 <= i < |items| ==> Proper(items[i])
    case _ => true
  }

  predicate AllClean(keys: seq<string>) { forall i :: 0 <= i < |keys| ==> Clean(keys[i]) == keys[i] }

  lemma {:induction false} CountItemsMore(items: seq<Json>, v: Json)
    ensures CountItems(items + [v]) == CountItems(items) + Count(v)
    ensures DepthItems(items + [v]) == Max(DepthItems(items), Depth(v))
  {
    var all := items + [v];
    if items == [] {
      assert all[1..] == [];
    } else {
      assert all[1..] == items[1..] + [v] && all[0] == items[0];
      CountItemsMore(items[1..], v);
    }
  }

  /** A value read at some depth with some values begun keeps within the limits and is proper. */
  predicate Sound(v: Json, depth: nat, before: nat, after: nat, limits: Limits) {
    Proper(v) && depth + Depth(v) <= limits.depth + 1 && after == before + Count(v) && after <= limits.values
  }

  /** The items collected so far by a container at `depth` that was begun as value number `start`. */
  predicate Collected(items: seq<Json>, depth: nat, start: nat, values: nat, limits: Limits) {
    && (forall i :: 0 <= i < |items| ==> Proper(items[i]))
    && depth + DepthItems(items) <= limits.depth && values == start + CountItems(items) &&
         start <= values <= limits.values
  }

  lemma CollectMore(items: seq<Json>, v: Json, depth: nat, start: nat, values: nat, after: nat, limits: Limits)
    requires Collected(items, depth, start, values, limits) && Sound(v, depth + 1, values, after, limits)
    ensures Collected(items + [v], depth, start, after, limits)
  {
    CountItemsMore(items, v);
  }

  lemma {:induction false} ValueIsSound(t: string, depth: nat, values: nat, limits: Limits)
    requires ParseValue(t, depth, values, limits).Some?
    ensures var r := ParseValue(t, depth, values, limits).value; Sound(r.value, depth, values, r.values, limits)
    decreases |t|, 2
  {
    FirstIsSound(t, depth, values, limits);
  }

  lemma {:induction false} FirstIsSound(t: string, depth: nat, values: nat, limits: Limits)
    requires t != [] && Within(limits, depth, values + 1) && ParseFirst(t, depth, values + 1, limits).Some?
    ensures var r := ParseFirst(t, depth, values + 1, limits).value; Sound(r.value, depth, values, r.values, limits)
    decreases |t|, 1
  {
    if t[0] == '{' {
      var inner := SkipSpace(t[1..]);
      if !StartsWith(inner, '}') {
        MembersAreSound(inner, depth, values, values + 1, limits, [], []);
      }
    } else if t[0] == '[' {
      var inner := SkipSpace(t[1..]);
      if !StartsWith(inner, ']') {
        ItemsAreSound(inner, depth, values, values + 1, limits, []);
      }
    } else {
      ScalarIsSound(t, values + 1, limits);
    }
  }

  lemma ScalarIsSound(t: string, values: nat, limits: Limits)
    requires t != [] && ParseScalar(t, values, limits).Some?
    ensures var r := ParseScalar(t, values, limits).value;
            Proper(r.value) && Depth(r.value) == 1 && Count(r.value) == 1 && r.values == values
  {
    if t[0] == '"' { ReadsUtf8(t[1..], []); }
  }

  lemma {:induction false} ItemsAreSound(t: string, depth: nat, start: nat, values: nat, limits: Limits,
                                         items: seq<Json>)
    requires Collected(items, depth, start + 1, values, limits) && ParseItems(t, depth, values, limits, items).Some?
    ensures var r := ParseItems(t, depth, values, limits, items).value; Sound(r.value, depth, start, r.values, limits)
    decreases |t|, 3
  {
    var u := SkipSpace(t);
    ValueIsSound(u, depth + 1, values, limits);
    var item := ParseValue(u, depth + 1, values, limits).value;
    CollectMore(items, item.value, depth, start + 1, values, item.values, limits);
    var after := SkipSpace(item.rest);
    if StartsWith(after, ',') {
      ItemsAreSound(after[1..], depth, start, item.values, limits, items + [item.value]);
    }
  }

  lemma {:induction false} MembersAreSound(t: string, depth: nat, start: nat, values: nat, limits: Limits,
                                           keys: seq<string>, items: seq<Json>)
    requires Collected(items, depth, start + 1, values, limits) &&
             ParseMembers(t, depth, values, limits, keys, items).Some?
    requires |keys| == |items| && Distinct(keys) && AllClean(keys)
    ensures var r := ParseMembers(t, depth, values, limits, keys, items).value;
            Sound(r.value, depth, start, r.values, limits)
    decreases |t|, 3
  {
    var u := SkipSpace(t);
    var key := ParseKey(u, keys).value;
    KeyIsSound(u, keys);
    ValueIsSound(key.rest, depth + 1, values, limits);
    var item := ParseValue(key.rest, depth + 1, values, limits).value;
    CollectMore(items, item.value, depth, start + 1, values, item.values, limits);
    var after := SkipSpace(item.rest);
    if StartsWith(after, ',') {
      MembersAreSound(after[1..], depth, start, item.values, limits, keys + [key.text], items + [item.value]);
    }
  }

  lemma KeyIsSound(t: string, keys: seq<string>)
    requires Distinct(keys) && AllClean(keys) && ParseKey(t, keys).Some?
    ensures var more := keys + [ParseKey(t, keys).value.text]; Distinct(more) && AllClean(more)
  {
    ReadsUtf8(t[1..], []);
  }

  lemma {:induction false} ProperIsClean(v: Json)
    requires Proper(v)
    ensures Cleaned(v) == v && KeysDiffer(v)
    decreases v, 0
  {
    match v
    case Arr(items) => ProperItems(items);
    case Obj(keys, items) => ProperItems(items); CleanKeysStay(keys);
    case _ =>
  }

  lemma {:induction false} ProperItems(items: seq<Json>)
    requires forall i :: 0 <= i < |items| ==> Proper(items[i])
    ensures CleanedItems(items) == items && ItemKeysDiffer(items)
    decreases items, 0
  {
    if items != [] {
      ProperIsClean(items[0]);
      ProperItems(items[1..]);
      assert [items[0]] + items[1..] == items;
    }
  }

  lemma {:induction false} CleanKeysStay(keys: seq<string>)
    requires AllClean(keys)
    ensures CleanedKeys(keys) == keys
  {
    if keys != [] {
      CleanKeysStay(keys[1..]);
      assert [keys[0]] + keys[1..] == keys;
    }
  }

  /** Every accepted document, whoever wrote it: within all limits, UTF-8 throughout, no key twice in an object. */
  lemma AcceptedIsSound(t: string, limits: Limits)
    requires ParseJson(t, limits).Some?
    ensures var v := ParseJson(t, limits).value;
            |t| <= limits.bytes && Proper(v) && Within(limits, Depth(v), Count(v)) && Cleaned(v) == v && KeysDiffer(v)
  {
    ValueIsSound(SkipSpace(t), 1, 0, limits);
    ProperIsClean(ParseJson(t, limits).value);
  }

  /** An accepted document of integers, written again, reads as the same tree. */
  lemma Rewritten(t: string, limits: Limits)
    requires ParseJson(t, limits).Some? && Printable(ParseJson(t, limits).value)
    ensures var v := ParseJson(t, limits).value; |TextOf(v)| <= limits.bytes ==> ParseJson(TextOf(v), limits) == Some(v)
  {
    AcceptedIsSound(t, limits);
    RoundTrip(ParseJson(t, limits).value, limits);
  }

  /** Distinct keys can become the same: two different stray bytes are both replaced, and the text is refused. */
  lemma KeysCanCollide(limits: Limits)
    ensures var v := Obj(["\U{FE}", "\U{FF}"], [Null, Null]);
            Printable(v) && Distinct(v.keys) && ParseJson(TextOf(v), limits).None?
  {
    var v := Obj(["\U{FE}", "\U{FF}"], [Null, Null]);
    RoundTrip(v, limits);
    var keys := v.keys;
    StrayByte("\U{FE}");
    StrayByte("\U{FF}");
    assert CleanedKeys(keys) == [Clean(keys[0])] + CleanedKeys(keys[1..]);
    assert CleanedKeys(keys[1..]) == [Clean(keys[1])] + CleanedKeys(keys[2..]);
    assert CleanedKeys(keys)[0] == CleanedKeys(keys)[1];
  }

  lemma StrayByte(s: string)
    requires |s| == 1 && 0xF8 <= s[0] as int
    ensures Clean(s) == Replacement()
  {
    assert s[1..] == [];
  }
}
