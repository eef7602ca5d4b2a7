/** JSON values as Python holds them: a `dict` is a list of members in insertion order. */
module Json {
  import opened Text
  import opened KeyOrder

  datatype Json =
    | Null
    | Bool(b: bool)
    | Int(n: int)
    | Float(literal: string)
    | Str(s: string)
    | Arr(items: Items)
    | Obj(members: Members)

  datatype Items = NoItems | Item(first: Json, rest: Items)

  datatype Members = NoMembers | Member(key: string, value: Json, rest: Members)

  function Lookup(ms: Members, key: string): Option<Json> {
    match ms
    case NoMembers => None
    case Member(k, v, rest) => if k == key then Some(v) else Lookup(rest, key)
  }

  function Size(ms: Members): nat {
    match ms
    case NoMembers => 0
    case Member(_, _, rest) => 1 + Size(rest)
  }

  /** No key occurs twice. */
  predicate Distinct(ms: Members) {
    match ms
    case NoMembers => true
    case Member(k, _, rest) => Lookup(rest, k) == None && Distinct(rest)
  }

  /** A value a Python program can hold: the keys of every `dict` in it are distinct. */
  predicate Strict(v: Json) {
    match v
    case Arr(items) => StrictItems(items)
    case Obj(members) => Distinct(members) && StrictMembers(members)
    case _ => true
  }

  predicate StrictItems(items: Items) {
    match items
    case NoItems => true
    case Item(v, rest) => Strict(v) && StrictItems(rest)
  }

  predicate StrictMembers(ms: Members) {
    match ms
    case NoMembers => true
    case Member(_, v, rest) => Strict(v) && StrictMembers(rest)
  }

  predicate FloatFree(v: Json) {
    match v
    case Float(_) => false
    case Arr(items) => FloatFreeItems(items)
    case Obj(members) => FloatFreeMembers(members)
    case _ => true
  }

  predicate FloatFreeItems(items: Items) {
    match items
    case NoItems => true
    case Item(v, rest) => FloatFree(v) && FloatFreeItems(rest)
  }

  predicate FloatFreeMembers(ms: Members) {
    match ms
    case NoMembers => true
    case Member(_, v, rest) => FloatFree(v) && FloatFreeMembers(rest)
  }

  // ----- equality that ignores insertion order -----

  /** Equality of values: the order of the members of an object does not matter. */
  predicate Same(v: Json, w: Json) {
    match v
    case Arr(items) => w.Arr? && SameItems(items, w.items)
    case Obj(members) => w.Obj? && Size(members) == Size(w.members) && Within(members, w.members)
    case _ => v == w
  }

  predicate SameItems(a: Items, b: Items) {
    match a
    case NoItems => b.NoItems?
    case Item(v, rest) => b.Item? && Same(v, b.first) && SameItems(rest, b.rest)
  }

  /** Every member of `a` is in `b` with the same value. */
  predicate Within(a: Members, b: Members) {
    match a
    case NoMembers => true
    case Member(k, v, rest) =>
      && Lookup(b, k).Some?
      && Same(v, Lookup(b, k).value)
      && Within(rest, b)
  }

  // ----- sorting the members -----

  function Insert(order: Order, key: string, value: Json, ms: Members): Members {
    match ms
    case NoMembers => Member(key, value, NoMembers)
    case Member(k, v, rest) =>
      if Before(order, key, k) then Member(key, value, ms) else Member(k, v, Insert(order, key, value, rest))
  }

  /** The value with the members of every object sorted by key. */
  function Sorted(order: Order, v: Json): Json {
    match v
    case Arr(items) => Arr(SortedItems(order, items))
    case Obj(members) => Obj(SortedMembers(order, members))
    case _ => v
  }

  function SortedItems(order: Order, items: Items): Items {
    match items
    case NoItems => NoItems
    case Item(v, rest) => Item(Sorted(order, v), SortedItems(order, rest))
  }

  function SortedMembers(order: Order, ms: Members): Members {
    match ms
    case NoMembers => NoMembers
    case Member(k, v, rest) => Insert(order, k, Sorted(order, v), SortedMembers(order, rest))
  }

  predicate Above(order: Order, key: string, ms: Members) {
    match ms
    case NoMembers => true
    case Member(k, _, rest) => Before(order, key, k) && Above(order, key, rest)
  }

  predicate Increasing(order: Order, ms: Members) {
    match ms
    case NoMembers => true
    case Member(k, _, rest) => Above(order, k, rest) && Increasing(order, rest)
  }

  lemma {:induction false} AboveTransitive(order: Order, a: string, b: string, ms: Members)
    requires Before(order, a, b) && Above(order, b, ms)
    ensures Above(order, a, ms)
  {
    if ms.Member? {
      BeforeTransitive(order, a, b, ms.key);
      AboveTransitive(order, a, b, ms.rest);
    }
  }

  lemma {:induction false} AboveLookup(order: Order, key: string, ms: Members)
    requires Above(order, key, ms)
    ensures Lookup(ms, key) == None
  {
    if ms.Member? {
      BeforeTotal(order, key, ms.key);
      AboveLookup(order, key, ms.rest);
    }
  }

  lemma {:induction false} InsertAbove(order: Order, bound: string, key: string, value: Json, ms: Members)
    requires Before(order, bound, key) && Above(order, bound, ms)
    ensures Above(order, bound, Insert(order, key, value, ms))
  {
    if ms.Member? && !Before(order, key, ms.key) {
      InsertAbove(order, bound, key, value, ms.rest);
    }
  }

  lemma {:induction false} InsertIncreasing(order: Order, key: string, value: Json, ms: Members)
    requires Increasing(order, ms) && Lookup(ms, key) == None
    ensures Increasing(order, Insert(order, key, value, ms))
  {
    if ms.Member? {
      if Before(order, key, ms.key) {
        AboveTransitive(order, key, ms.key, ms.rest);
      } else {
        BeforeTotal(order, key, ms.key);
        InsertAbove(order, ms.key, key, value, ms.rest);
        InsertIncreasing(order, key, value, ms.rest);
      }
    }
  }

  lemma {:induction false} InsertLookup(order: Order, key: string, value: Json, ms: Members, x: string)
    requires Lookup(ms, key) == None
    ensures Lookup(Insert(order, key, value, ms), x) == if x == key then Some(value) else Lookup(ms, x)
  {
    if ms.Member? && !Before(order, key, ms.key) {
      InsertLookup(order, key, value, ms.rest, x);
    }
  }

  lemma {:induction false} InsertSize(order: Order, key: string, value: Json, ms: Members)
    ensures Size(Insert(order, key, value, ms)) == 1 + Size(ms)
  {
    if ms.Member? {
      InsertSize(order, key, value, ms.rest);
    }
  }

  function SortedOption(order: Order, v: Option<Json>): Option<Json> {
    match v
    case None => None
    case Some(value) => Some(Sorted(order, value))
  }

  /** Sorting keeps the keys and what each of them is bound to, up to sorting the values. */
  lemma {:induction false} SortedLookup(order: Order, ms: Members, x: string)
    requires Distinct(ms)
    ensures Lookup(SortedMembers(order, ms), x) == SortedOption(order, Lookup(ms, x))
  {
    if ms.Member? {
      SortedLookup(order, ms.rest, ms.key);
      SortedLookup(order, ms.rest, x);
      InsertLookup(order, ms.key, Sorted(order, ms.value), SortedMembers(order, ms.rest), x);
    }
  }

  lemma {:induction false} SortedIncreasing(order: Order, ms: Members)
    requires Distinct(ms)
    ensures Increasing(order, SortedMembers(order, ms))
    ensures Size(SortedMembers(order, ms)) == Size(ms)
  {
    if ms.Member? {
      SortedIncreasing(order, ms.rest);
      SortedLookup(order, ms.rest, ms.key);
      InsertIncreasing(order, ms.key, Sorted(order, ms.value), SortedMembers(order, ms.rest));
      InsertSize(order, ms.key, Sorted(order, ms.value), SortedMembers(order, ms.rest));
    }
  }

  /** The two lists bind every key alike. */
  ghost predicate Agree(a: Members, b: Members) {
    forall x :: Lookup(a, x) == Lookup(b, x)
  }

  lemma HeadsEqual(order: Order, a: Members, b: Members)
    requires a.Member? && b.Member? && Increasing(order, a) && Increasing(order, b) && Agree(a, b)
    ensures a.key == b.key
  {
    assert Lookup(a, a.key) == Lookup(b, a.key);
    assert Lookup(a, b.key) == Lookup(b, b.key);
    BeforeTotal(order, a.key, b.key);
    if Before(order, a.key, b.key) {
      AboveTransitive(order, a.key, b.key, b.rest);
      AboveLookup(order, a.key, b);
    } else if Before(order, b.key, a.key) {
      AboveTransitive(order, b.key, a.key, a.rest);
      AboveLookup(order, b.key, a);
    }
  }

  lemma {:induction false} IncreasingUnique(order: Order, a: Members, b: Members)
    requires Increasing(order, a) && Increasing(order, b) && Agree(a, b)
    ensures a == b
  {
    assert b.Member? ==> Lookup(a, b.key) == Lookup(b, b.key);
    assert a.Member? ==> Lookup(a, a.key) == Lookup(b, a.key);
    if a.Member? {
      HeadsEqual(order, a, b);
      AboveLookup(order, a.key, a.rest);
      AboveLookup(order, b.key, b.rest);
      forall x
        ensures Lookup(a.rest, x) == Lookup(b.rest, x)
      {
        assert Lookup(a, x) == Lookup(b, x);
      }
      IncreasingUnique(order, a.rest, b.rest);
    }
  }

  // ----- sorting decides equality -----

  ghost predicate Matches(order: Order, a: Members, b: Members, x: string) {
    Lookup(a, x).Some? ==> Lookup(b, x).Some? && Sorted(order, Lookup(a, x).value) == Sorted(order, Lookup(b, x).value)
  }

  lemma {:induction false} StrictLookup(ms: Members, x: string)
    requires StrictMembers(ms) && Lookup(ms, x).Some?
    ensures Strict(Lookup(ms, x).value)
  {
    if ms.key != x {
      StrictLookup(ms.rest, x);
    }
  }

  /**
   * Two values are the same exactly when they are equal after sorting, so insertion order never shows in the sorted
   * value and nothing else is lost by sorting.
   */
  lemma {:induction false} SameIffSorted(order: Order, v: Json, w: Json)
    requires Strict(v) && Strict(w)
    ensures Same(v, w) <==> Sorted(order, v) == Sorted(order, w)
    decreases v, 1
  {
    if v.Arr? && w.Arr? {
      SameItemsIffSorted(order, v.items, w.items);
    } else if v.Obj? && w.Obj? {
      SameObjectsIffSorted(order, v.members, w.members);
    }
  }

  lemma {:induction false} SameItemsIffSorted(order: Order, a: Items, b: Items)
    requires StrictItems(a) && StrictItems(b)
    ensures SameItems(a, b) <==> SortedItems(order, a) == SortedItems(order, b)
    decreases a, 0
  {
    if a.Item? && b.Item? {
      SameIffSorted(order, a.first, b.first);
      SameItemsIffSorted(order, a.rest, b.rest);
    }
  }

  lemma {:induction false} WithinIffMatches(order: Order, a: Members, b: Members)
    requires Distinct(a) && StrictMembers(a) && StrictMembers(b)
    ensures Within(a, b) <==> forall x :: Matches(order, a, b, x)
    decreases a, 0
  {
    if a.Member? {
      WithinIffMatches(order, a.rest, b);
      if Lookup(b, a.key).Some? {
        StrictLookup(b, a.key);
        SameIffSorted(order, a.value, Lookup(b, a.key).value);
      }
      if Within(a, b) {
        forall x
          ensures Matches(order, a, b, x)
        {
          assert Matches(order, a.rest, b, x);
        }
      }
      if forall x :: Matches(order, a, b, x) {
        assert Matches(order, a, b, a.key);
        forall x
          ensures Matches(order, a.rest, b, x)
        {
          assert Matches(order, a, b, x);
        }
      }
    }
  }

  function Keys(ms: Members): set<string> {
    match ms
    case NoMembers => {}
    case Member(k, _, rest) => {k} + Keys(rest)
  }

  lemma {:induction false} KeysLookup(ms: Members, x: string)
    ensures x in Keys(ms) <==> Lookup(ms, x).Some?
  {
    if ms.Member? {
      KeysLookup(ms.rest, x);
    }
  }

  lemma {:induction false} KeysCount(ms: Members)
    requires Distinct(ms)
    ensures |Keys(ms)| == Size(ms)
  {
    if ms.Member? {
      KeysLookup(ms.rest, ms.key);
      KeysCount(ms.rest);
    }
  }

  lemma SubsetOfSameSize<T>(a: set<T>, b: set<T>)
    requires a <= b && |a| == |b|
    ensures a == b
  {
    assert b == a + (b - a);
  }

  lemma Pigeonhole(order: Order, a: Members, b: Members, x: string)
    requires Distinct(a) && Distinct(b) && Size(a) == Size(b)
    requires forall y :: Matches(order, a, b, y)
    requires Lookup(a, x).None?
    ensures Lookup(b, x).None?
  {
    forall y | y in Keys(a)
      ensures y in Keys(b)
    {
      KeysLookup(a, y);
      KeysLookup(b, y);
      assert Matches(order, a, b, y);
    }
    KeysCount(a);
    KeysCount(b);
    SubsetOfSameSize(Keys(a), Keys(b));
    KeysLookup(a, x);
    KeysLookup(b, x);
  }

  lemma {:induction false} SameObjectsIffSorted(order: Order, a: Members, b: Members)
    requires Distinct(a) && Distinct(b) && StrictMembers(a) && StrictMembers(b)
    ensures Size(a) == Size(b) && Within(a, b) <==> SortedMembers(order, a) == SortedMembers(order, b)
    decreases a, 1
  {
    WithinIffMatches(order, a, b);
    SortedIncreasing(order, a);
    SortedIncreasing(order, b);
    if Size(a) == Size(b) && Within(a, b) {
      forall x
        ensures Lookup(SortedMembers(order, a), x) == Lookup(SortedMembers(order, b), x)
      {
        SortedLookup(order, a, x);
        SortedLookup(order, b, x);
        assert Matches(order, a, b, x);
        if Lookup(a, x).None? {
          Pigeonhole(order, a, b, x);
        }
      }
      IncreasingUnique(order, SortedMembers(order, a), SortedMembers(order, b));
    }
    if SortedMembers(order, a) == SortedMembers(order, b) {
      forall x
        ensures Matches(order, a, b, x)
      {
        SortedLookup(order, a, x);
        SortedLookup(order, b, x);
      }
    }
  }

  // ----- sorting keeps strictness -----

  lemma {:induction false} InsertKeeps(order: Order, key: string, value: Json, ms: Members)
    ensures StrictMembers(Insert(order, key, value, ms)) <==> Strict(value) && StrictMembers(ms)
    ensures FloatFreeMembers(Insert(order, key, value, ms)) <==> FloatFree(value) && FloatFreeMembers(ms)
  {
    if ms.Member? {
      InsertKeeps(order, key, value, ms.rest);
    }
  }

  lemma {:induction false} IncreasingDistinct(order: Order, ms: Members)
    requires Increasing(order, ms)
    ensures Distinct(ms)
  {
    if ms.Member? {
      AboveLookup(order, ms.key, ms.rest);
      IncreasingDistinct(order, ms.rest);
    }
  }

  lemma {:induction false} SortedKeeps(order: Order, v: Json)
    requires Strict(v)
    ensures Strict(Sorted(order, v))
    ensures FloatFree(Sorted(order, v)) <==> FloatFree(v)
  {
    match v
    case Arr(items) =>
      SortedKeepsItems(order, items);
    case Obj(members) =>
      SortedKeepsMembers(order, members);
      SortedIncreasing(order, members);
      IncreasingDistinct(order, SortedMembers(order, members));
    case _ =>
  }

  lemma {:induction false} SortedKeepsItems(order: Order, items: Items)
    requires StrictItems(items)
    ensures StrictItems(SortedItems(order, items))
    ensures FloatFreeItems(SortedItems(order, items)) <==> FloatFreeItems(items)
  {
    if items.Item? {
      SortedKeeps(order, items.first);
      SortedKeepsItems(order, items.rest);
    }
  }

  lemma {:induction false} SortedKeepsMembers(order: Order, ms: Members)
    requires StrictMembers(ms)
    ensures StrictMembers(SortedMembers(order, ms))
    ensures FloatFreeMembers(SortedMembers(order, ms)) <==> FloatFreeMembers(ms)
  {
    if ms.Member? {
      SortedKeeps(order, ms.value);
      SortedKeepsMembers(order, ms.rest);
      InsertKeeps(order, ms.key, Sorted(order, ms.value), SortedMembers(order, ms.rest));
    }
  }

  lemma {:induction false} InsertAtFront(order: Order, key: string, value: Json, ms: Members)
    requires Above(order, key, ms)
    ensures Insert(order, key, value, ms) == Member(key, value, ms)
  {
  }

  /** Sorting a sorted value changes nothing. */
  lemma {:induction false} SortedTwice(order: Order, v: Json)
    requires Strict(v)
    ensures Sorted(order, Sorted(order, v)) == Sorted(order, v)
    decreases v, 0
  {
    match v
    case Arr(items) =>
      SortedTwiceItems(order, items);
    case Obj(members) =>
      SortedTwiceMembers(order, members);
    case _ =>
  }

  lemma {:induction false} SortedTwiceItems(order: Order, items: Items)
    requires StrictItems(items)
    ensures SortedItems(order, SortedItems(order, items)) == SortedItems(order, items)
    decreases items, 0
  {
    if items.Item? {
      SortedTwice(order, items.first);
      SortedTwiceItems(order, items.rest);
    }
  }

  predicate SortedValues(order: Order, ms: Members) {
    match ms
    case NoMembers => true
    case Member(_, v, rest) => Sorted(order, v) == v && SortedValues(order, rest)
  }

  lemma {:induction false} IncreasingFixed(order: Order, ms: Members)
    requires Increasing(order, ms) && SortedValues(order, ms)
    ensures SortedMembers(order, ms) == ms
  {
    if ms.Member? {
      IncreasingFixed(order, ms.rest);
      InsertAtFront(order, ms.key, ms.value, ms.rest);
    }
  }

  lemma {:induction false} SortedTwiceMembers(order: Order, ms: Members)
    requires Distinct(ms) && StrictMembers(ms)
    ensures SortedMembers(order, SortedMembers(order, ms)) == SortedMembers(order, ms)
    decreases ms, 1
  {
    SortedIncreasing(order, ms);
    AllSorted(order, ms);
    IncreasingFixed(order, SortedMembers(order, ms));
  }

  lemma {:induction false} InsertSortedValues(order: Order, key: string, value: Json, ms: Members)
    requires Sorted(order, value) == value && SortedValues(order, ms)
    ensures SortedValues(order, Insert(order, key, value, ms))
  {
    if ms.Member? {
      InsertSortedValues(order, key, value, ms.rest);
    }
  }

  lemma {:induction false} AllSorted(order: Order, ms: Members)
    requires StrictMembers(ms)
    ensures SortedValues(order, SortedMembers(order, ms))
    decreases ms, 0
  {
    if ms.Member? {
      SortedTwice(order, ms.value);
      AllSorted(order, ms.rest);
      InsertSortedValues(order, ms.key, Sorted(order, ms.value), SortedMembers(order, ms.rest));
    }
  }

  /** Sorting gives the same value. */
  lemma SortedIsSame(order: Order, v: Json)
    requires Strict(v)
    ensures Same(Sorted(order, v), v)
  {
    SortedKeeps(order, v);
    SortedTwice(order, v);
    SameIffSorted(order, Sorted(order, v), v);
  }
}
