/** The canonical text of a JSON value (`canonical` and `parse` in scripts/apple_brief_demo.py). */
module CanonicalJson {
  import opened Text
  import opened KeyOrder
  import opened Json
  import opened JsonText
  import opened JsonParse
  import Seqs

  /** `canonical` of a value without floats. */
  function TextOf(v: Json): string {
    Print(Unicode, Sorted(CanonicalKeys, v))
  }

  /**
   * Objects are printed with their keys in `KeyOrder`, arrays in order, everything without blanks. A float anywhere
   * in the value is refused.
   */
  function Canonical(v: Json): Result<string> {
    if FloatFree(v) then Ok(TextOf(v))
    else Err("floating-point values are outside this demo's data contract")
  }

  // ----- what the text is -----

  function TextsOf(items: Items): seq<string> {
    match items
    case NoItems => []
    case Item(v, rest) => [TextOf(v)] + TextsOf(rest)
  }

  function KeysOf(ms: Members): seq<string> {
    match ms
    case NoMembers => []
    case Member(k, _, rest) => [k] + KeysOf(rest)
  }

  predicate AllKeysOf(keys: seq<string>, ms: Members) {
    forall i :: 0 <= i < |keys| ==> Lookup(ms, keys[i]).Some?
  }

  /** `json.dumps(k) + ":" + canonical(value[k])` for each of the keys */
  function Entries(ms: Members, keys: seq<string>): seq<string>
    requires AllKeysOf(keys, ms)
  {
    if keys == [] then []
    else [Quote(Unicode, keys[0]) + (":" + TextOf(Lookup(ms, keys[0]).value))] + Entries(ms, keys[1..])
  }

  lemma TextOfScalars(v: Json)
    ensures TextOf(Null) == "null" && TextOf(Bool(true)) == "true" && TextOf(Bool(false)) == "false"
    ensures v.Int? ==> TextOf(v) == if v.n < 0 then "-" + Digits(-v.n) else Digits(v.n)
    ensures v.Str? ==> TextOf(v) == Quote(Unicode, v.s)
  {
  }

  lemma {:induction false} PrintedItems(items: Items)
    ensures PrintItems(Unicode, SortedItems(CanonicalKeys, items)) == Join(",", TextsOf(items))
  {
    if items.Item? {
      PrintedItems(items.rest);
      Seqs.Cons(TextOf(items.first), TextsOf(items.rest), []);
      if items.rest.Item? {
        Seqs.Assoc(TextOf(items.first), ",", Join(",", TextsOf(items.rest)));
      } else {
        Seqs.Empty(TextOf(items.first));
      }
    }
  }

  /** An array is its elements in order, with commas between them and nothing else. */
  lemma TextOfArray(items: Items)
    ensures TextOf(Arr(items)) == "[" + Join(",", TextsOf(items)) + "]"
  {
    PrintedItems(items);
  }

  /** Sorted members of an object, or the last ones of them. */
  predicate SortedFrom(ms: Members, sorted: Members) {
    match sorted
    case NoMembers => true
    case Member(k, v, rest) =>
      Lookup(ms, k).Some? && v == Sorted(CanonicalKeys, Lookup(ms, k).value) && SortedFrom(ms, rest)
  }

  lemma {:induction false} SortedFromKeys(ms: Members, sorted: Members)
    requires SortedFrom(ms, sorted)
    ensures AllKeysOf(KeysOf(sorted), ms)
  {
    if sorted.Member? {
      SortedFromKeys(ms, sorted.rest);
    }
  }

  lemma {:induction false} PrintedMembers(ms: Members, sorted: Members)
    requires SortedFrom(ms, sorted) && AllKeysOf(KeysOf(sorted), ms)
    ensures PrintMembers(Unicode, sorted) == Join(",", Entries(ms, KeysOf(sorted)))
  {
    if sorted.Member? {
      var keys := KeysOf(sorted);
      Seqs.Cons(sorted.key, KeysOf(sorted.rest), []);
      SortedFromKeys(ms, sorted.rest);
      PrintedMembers(ms, sorted.rest);
      var entry := Quote(Unicode, sorted.key) + (":" + TextOf(Lookup(ms, sorted.key).value));
      Seqs.Cons(entry, Entries(ms, KeysOf(sorted.rest)), []);
      assert KeysOf(sorted.rest) == [] <==> sorted.rest.NoMembers?;
      if sorted.rest.Member? {
        Seqs.Assoc(entry, ",", Join(",", Entries(ms, KeysOf(sorted.rest))));
      } else {
        Seqs.Empty(entry);
      }
    }
  }

  lemma {:induction false} KeysLookup(ms: Members, key: string)
    ensures key in KeysOf(ms) <==> Lookup(ms, key).Some?
  {
    if ms.Member? {
      KeysLookup(ms.rest, key);
    }
  }

  lemma {:induction false} AboveKeys(key: string, ms: Members)
    requires Above(CanonicalKeys, key, ms)
    ensures forall i :: 0 <= i < |KeysOf(ms)| ==> KeyLess(key, KeysOf(ms)[i])
  {
    if ms.Member? {
      AboveKeys(key, ms.rest);
    }
  }

  lemma {:induction false} IncreasingKeys(ms: Members)
    requires Increasing(CanonicalKeys, ms)
    ensures forall i, j :: 0 <= i < j < |KeysOf(ms)| ==> KeyLess(KeysOf(ms)[i], KeysOf(ms)[j])
  {
    if ms.Member? {
      IncreasingKeys(ms.rest);
      AboveKeys(ms.key, ms.rest);
      var keys, later := KeysOf(ms), KeysOf(ms.rest);
      assert forall i :: 1 <= i < |keys| ==> keys[i] == later[i - 1];
    }
  }

  lemma {:induction false} SortedFromAll(ms: Members, part: Members, sorted: Members)
    requires Distinct(ms) && Distinct(part) && sorted == SortedMembers(CanonicalKeys, ms)
    requires forall x :: Lookup(part, x).Some? ==> Lookup(part, x) == Lookup(sorted, x)
    ensures SortedFrom(ms, part)
  {
    if part.Member? {
      SortedLookup(CanonicalKeys, ms, part.key);
      assert Lookup(part, part.key) == Some(part.value);
      forall x | Lookup(part.rest, x).Some?
        ensures Lookup(part.rest, x) == Lookup(sorted, x)
      {
        assert Lookup(part, x).Some?;
      }
      SortedFromAll(ms, part.rest, sorted);
    }
  }

  /** All the keys of the members, in the order of keys. */
  ghost predicate KeysInOrder(ms: Members, keys: seq<string>) {
    && (forall key :: key in keys <==> Lookup(ms, key).Some?)
    && (forall i, j :: 0 <= i < j < |keys| ==> KeyLess(keys[i], keys[j]))
  }

  /** An object is its entries in the order of their keys, with commas between them and nothing else. */
  lemma TextOfObject(ms: Members) returns (keys: seq<string>)
    requires Distinct(ms)
    ensures KeysInOrder(ms, keys) && AllKeysOf(keys, ms)
    ensures TextOf(Obj(ms)) == "{" + Join(",", Entries(ms, keys)) + "}"
  {
    var sorted := SortedMembers(CanonicalKeys, ms);
    keys := KeysOf(sorted);
    SortedIncreasing(CanonicalKeys, ms);
    IncreasingDistinct(CanonicalKeys, sorted);
    SortedFromAll(ms, sorted, sorted);
    SortedFromKeys(ms, sorted);
    PrintedMembers(ms, sorted);
    IncreasingKeys(sorted);
    forall key
      ensures key in keys <==> Lookup(ms, key).Some?
    {
      KeysLookup(sorted, key);
      SortedLookup(CanonicalKeys, ms, key);
    }
  }

  // ----- what the text tells -----

  /** Parsing a canonical text gives the value that was printed, its members now in the order of their keys. */
  lemma ParseCanonical(v: Json)
    requires Strict(v)
    ensures Canonical(v).Ok? <==> FloatFree(v)
    ensures Canonical(v).Ok? ==> Loads(Unique, Canonical(v).value) == Some(Sorted(CanonicalKeys, v))
    ensures Same(Sorted(CanonicalKeys, v), v)
  {
    SortedKeeps(CanonicalKeys, v);
    SortedIsSame(CanonicalKeys, v);
    if FloatFree(v) {
      LoadsPrint(Unicode, Unique, Sorted(CanonicalKeys, v));
    }
  }

  /** Two values have one canonical text exactly when they are the same value: insertion order never shows in it. */
  lemma CanonicalDecidesSame(v: Json, w: Json)
    requires Strict(v) && Strict(w) && FloatFree(v) && FloatFree(w)
    ensures Canonical(v) == Canonical(w) <==> Same(v, w)
  {
    SortedKeeps(CanonicalKeys, v);
    SortedKeeps(CanonicalKeys, w);
    SameIffSorted(CanonicalKeys, v, w);
    if Canonical(v) == Canonical(w) {
      PrintInjective(Unicode, Sorted(CanonicalKeys, v), Sorted(CanonicalKeys, w));
    }
  }

  /** A canonical text is its own canonical form. */
  lemma CanonicalOfParsed(v: Json)
    requires Strict(v) && FloatFree(v)
    ensures Loads(Unique, Canonical(v).value).Some?
    ensures Canonical(Loads(Unique, Canonical(v).value).value) == Canonical(v)
  {
    ParseCanonical(v);
    SortedKeeps(CanonicalKeys, v);
    CanonicalDecidesSame(Sorted(CanonicalKeys, v), v);
  }

  /** What equals a value without floats has none. */
  lemma SameFloatFree(v: Json, w: Json)
    requires Strict(v) && Strict(w) && Same(v, w)
    ensures FloatFree(v) <==> FloatFree(w)
  {
    SameIffSorted(CanonicalKeys, v, w);
    SortedKeeps(CanonicalKeys, v);
    SortedKeeps(CanonicalKeys, w);
  }
}
