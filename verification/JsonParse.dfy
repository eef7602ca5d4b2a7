/** Printing and parsing whole JSON values. */
module JsonParse {
  import opened Text
  import opened KeyOrder
  import opened Json
  import opened JsonText
  import Seqs

  // ----- objects from pairs -----

  /** Python's own decoder, which makes a `dict` of an object's pairs, or the strict one, with `strict_pairs`. */
  datatype Pairs = LastWins | Unique

  /** `result[key] = value` */
  function Put(ms: Members, key: string, value: Json): Members {
    match ms
    case NoMembers => Member(key, value, NoMembers)
    case Member(k, v, rest) => if k == key then Member(k, value, rest) else Member(k, v, Put(rest, key, value))
  }

  function PutAll(ms: Members, pairs: Members): Members
    decreases pairs
  {
    match pairs
    case NoMembers => ms
    case Member(k, v, rest) => PutAll(Put(ms, k, v), rest)
  }

  function Build(pairs: Pairs, ms: Members): Option<Members> {
    match pairs
    case LastWins => Some(PutAll(NoMembers, ms))
    case Unique => if Distinct(ms) then Some(ms) else None
  }

  function Append(a: Members, b: Members): Members {
    match a
    case NoMembers => b
    case Member(k, v, rest) => Member(k, v, Append(rest, b))
  }

  lemma {:induction false} PutNew(ms: Members, key: string, value: Json)
    requires Lookup(ms, key).None?
    ensures Put(ms, key, value) == Append(ms, Member(key, value, NoMembers))
  {
    if ms.Member? {
      PutNew(ms.rest, key, value);
    }
  }

  lemma {:induction false} AppendAssociative(a: Members, b: Members, c: Members)
    ensures Append(Append(a, b), c) == Append(a, Append(b, c))
  {
    if a.Member? {
      AppendAssociative(a.rest, b, c);
    }
  }

  lemma {:induction false} AppendNothing(a: Members)
    ensures Append(a, NoMembers) == a
  {
    if a.Member? {
      AppendNothing(a.rest);
    }
  }

  lemma {:induction false} AppendLookup(a: Members, b: Members, key: string)
    ensures Lookup(Append(a, b), key) == if Lookup(a, key).Some? then Lookup(a, key) else Lookup(b, key)
  {
    if a.Member? {
      AppendLookup(a.rest, b, key);
    }
  }

  lemma {:induction false} AppendDistinct(a: Members, b: Members)
    requires Distinct(Append(a, b))
    ensures b.Member? ==> Lookup(a, b.key).None?
  {
    if a.Member? {
      AppendLookup(a.rest, b, a.key);
      AppendDistinct(a.rest, b);
    }
  }

  lemma {:induction false} PutAllDistinct(ms: Members, pairs: Members)
    requires Distinct(Append(ms, pairs))
    ensures PutAll(ms, pairs) == Append(ms, pairs)
    decreases pairs
  {
    if pairs.NoMembers? {
      AppendNothing(ms);
    } else {
      AppendDistinct(ms, pairs);
      PutNew(ms, pairs.key, pairs.value);
      AppendAssociative(ms, Member(pairs.key, pairs.value, NoMembers), pairs.rest);
      PutAllDistinct(Put(ms, pairs.key, pairs.value), pairs.rest);
    }
  }

  lemma BuildDistinct(pairs: Pairs, ms: Members)
    requires Distinct(ms)
    ensures Build(pairs, ms) == Some(ms)
  {
    PutAllDistinct(NoMembers, ms);
  }

  lemma {:induction false} PutLookup(ms: Members, key: string, value: Json, x: string)
    ensures Lookup(Put(ms, key, value), x) == if x == key then Some(value) else Lookup(ms, x)
  {
    if ms.Member? {
      PutLookup(ms.rest, key, value, x);
    }
  }

  lemma {:induction false} PutDistinct(ms: Members, key: string, value: Json)
    requires Distinct(ms)
    ensures Distinct(Put(ms, key, value))
  {
    if ms.Member? && ms.key != key {
      PutDistinct(ms.rest, key, value);
      PutLookup(ms.rest, key, value, ms.key);
    }
  }

  lemma RepeatedKey(a: Members, b: Members)
    requires b.Member? && Lookup(a, b.key).Some?
    ensures !Distinct(Append(a, b))
  {
    if Distinct(Append(a, b)) {
      AppendDistinct(a, b);
    }
  }

  /**
   * The decoder's hook: a dictionary grown pair by pair that stops at a key it already holds. It accepts exactly the
   * lists without a repeated key, and gives them back in their order.
   */
  method StrictPairs(pairs: Members) returns (result: Option<Members>)
    ensures result == Build(Unique, pairs)
  {
    var dictionary, pending := NoMembers, pairs;
    AppendNothing(dictionary);
    while pending.Member?
      invariant Append(dictionary, pending) == pairs && Distinct(dictionary)
      decreases pending
    {
      if Lookup(dictionary, pending.key).Some? {
        RepeatedKey(dictionary, pending);
        return None;
      }
      PutNew(dictionary, pending.key, pending.value);
      AppendAssociative(dictionary, Member(pending.key, pending.value, NoMembers), pending.rest);
      PutDistinct(dictionary, pending.key, pending.value);
      dictionary := Put(dictionary, pending.key, pending.value);
      pending := pending.rest;
    }
    AppendNothing(dictionary);
    result := Some(dictionary);
  }

  // ----- printing -----

  function Print(style: Style, v: Json): string {
    match v
    case Null => Word(v)
    case Bool(_) => Word(v)
    case Int(n) => PrintInt(n)
    case Float(literal) => literal
    case Str(s) => Quote(style, s)
    case Arr(items) => ['['] + PrintItems(style, items) + [']']
    case Obj(members) => ['{'] + PrintMembers(style, members) + ['}']
  }

  function PrintItems(style: Style, items: Items): string {
    match items
    case NoItems => ""
    case Item(v, rest) => Print(style, v) + (if rest.NoItems? then "" else [','] + PrintItems(style, rest))
  }

  function PrintMembers(style: Style, ms: Members): string {
    match ms
    case NoMembers => ""
    case Member(k, v, rest) =>
      (Quote(style, k) + ([':'] + Print(style, v)))
      + (if rest.NoMembers? then "" else [','] + PrintMembers(style, rest))
  }

  // ----- parsing -----

  predicate IsWhite(c: char) {
    c == ' ' || c == '\t' || c == '\n' || c == '\r'
  }

  function Skip(s: string): (t: string)
    ensures |t| <= |s|
  {
    if s != "" && IsWhite(s[0]) then Skip(s[1..]) else s
  }

  /** Blanks, tabs and line ends are skipped, and nothing else. */
  lemma {:induction false} SkipIs(s: string) returns (white: string)
    ensures s == white + Skip(s) && forall i :: 0 <= i < |white| ==> white[i] in " \t\n\r"
    ensures Skip(s) == "" || Skip(s)[0] !in " \t\n\r"
  {
    white := "";
    if s != "" && IsWhite(s[0]) {
      white := SkipIs(s[1..]);
      white := [s[0]] + white;
      assert s == [s[0]] + s[1..];
    }
  }

  /** A key, the colon, and the white space around it. */
  function ParseKey(s: string): (p: Parsed<string>)
    ensures p.Got? ==> |p.rest| < |s|
  {
    if s == "" || s[0] != '"' then Bad
    else
      match ParseChars(s[1..])
      case Bad => Bad
      case Got(k, t) =>
        var u := Skip(t);
        if u != "" && u[0] == ':' then Got(k, Skip(u[1..])) else Bad
  }

  /** The constants that only Python's own decoder reads; the strict one refuses them. */
  function ParseConstant(s: string): (p: Parsed<Json>)
    ensures p.Got? ==> |p.rest| < |s|
  {
    if "NaN" <= s then Got(Float("NaN"), s[3..])
    else if "Infinity" <= s then Got(Float("Infinity"), s[8..])
    else if "-Infinity" <= s then Got(Float("-Infinity"), s[9..])
    else Bad
  }

  lemma ConstantsAre(s: string, rest: string)
    ensures ParseConstant("NaN" + rest) == Got(Float("NaN"), rest)
    ensures ParseConstant("Infinity" + rest) == Got(Float("Infinity"), rest)
    ensures ParseConstant("-Infinity" + rest) == Got(Float("-Infinity"), rest)
    ensures ParseConstant(s).Got? ==> "NaN" <= s || "Infinity" <= s || "-Infinity" <= s
  {
    Seqs.Concatenation("NaN", rest);
    Seqs.Concatenation("Infinity", rest);
    Seqs.Concatenation("-Infinity", rest);
    assert ("Infinity" + rest)[0] == 'I' && ("-Infinity" + rest)[0] == '-';
  }

  function ParseValue(pairs: Pairs, s: string): (p: Parsed<Json>)
    ensures p.Got? ==> |p.rest| < |s|
    decreases |s|, 1
  {
    if s == "" then Bad
    else if s[0] == '"' then
      match ParseChars(s[1..]) case Bad => Bad case Got(cs, t) => Got(Str(cs), t)
    else if s[0] == '[' then ParseArray(pairs, Skip(s[1..]))
    else if s[0] == '{' then ParseObject(pairs, Skip(s[1..]))
    else if ParseWord(s).Got? || pairs.Unique? then ParseWord(s)
    else ParseConstant(s)
  }

  function ParseArray(pairs: Pairs, s: string): (p: Parsed<Json>)
    ensures p.Got? ==> |p.rest| < |s|
    decreases |s|, 3
  {
    if s != "" && s[0] == ']' then Got(Arr(NoItems), s[1..])
    else match ParseItems(pairs, s) case Bad => Bad case Got(items, t) => Got(Arr(items), t)
  }

  function ParseItems(pairs: Pairs, s: string): (p: Parsed<Items>)
    ensures p.Got? ==> |p.rest| < |s|
    decreases |s|, 2
  {
    match ParseValue(pairs, s)
    case Bad => Bad
    case Got(v, t) =>
      var u := Skip(t);
      if u == "" then Bad
      else if u[0] == ']' then Got(Item(v, NoItems), u[1..])
      else if u[0] == ',' then
        match ParseItems(pairs, Skip(u[1..])) case Bad => Bad case Got(items, w) => Got(Item(v, items), w)
      else Bad
  }

  function ParseObject(pairs: Pairs, s: string): (p: Parsed<Json>)
    ensures p.Got? ==> |p.rest| < |s|
    decreases |s|, 3
  {
    if s != "" && s[0] == '}' then Got(Obj(NoMembers), s[1..])
    else
      match ParseMembers(pairs, s)
      case Bad => Bad
      case Got(ms, t) => match Build(pairs, ms) case None => Bad case Some(built) => Got(Obj(built), t)
  }

  function ParseMembers(pairs: Pairs, s: string): (p: Parsed<Members>)
    ensures p.Got? ==> |p.rest| < |s|
    decreases |s|, 2
  {
    match ParseKey(s)
    case Bad => Bad
    case Got(k, t) =>
      match ParseValue(pairs, t)
      case Bad => Bad
      case Got(v, u) =>
        var w := Skip(u);
        if w == "" then Bad
        else if w[0] == '}' then Got(Member(k, v, NoMembers), w[1..])
        else if w[0] == ',' then
          match ParseMembers(pairs, Skip(w[1..])) case Bad => Bad case Got(ms, x) => Got(Member(k, v, ms), x)
        else Bad
  }

  /** `json.loads` */
  function Loads(pairs: Pairs, text: string): Option<Json> {
    match ParseValue(pairs, Skip(text))
    case Bad => None
    case Got(v, rest) => if Skip(rest) == "" then Some(v) else None
  }

  // ----- round trip -----

  predicate Admitted(v: Json) {
    Strict(v) && FloatFree(v)
  }

  /** The first character of a printed value is neither white space nor the end of an array or object. */
  predicate Begins(text: string) {
    text != "" && !IsWhite(text[0]) && text[0] != ']' && text[0] != '}'
  }

  lemma SkipNothing(text: string)
    requires text == "" || !IsWhite(text[0])
    ensures Skip(text) == text
  {
  }

  lemma IntBegins(n: int)
    ensures Begins(PrintInt(n))
  {
    DigitsHead(if n < 0 then -n else n);
  }

  lemma WordBegins(v: Json)
    requires v.Null? || v.Bool?
    ensures Begins(Word(v))
  {
  }

  lemma BracketBegins(open: char, rest: string)
    requires !IsWhite(open) && open != ']' && open != '}'
    ensures Begins([open] + rest)
  {
  }

  lemma PrintBegins(style: Style, v: Json)
    requires FloatFree(v)
    ensures Begins(Print(style, v))
  {
    match v
    case Int(n) => IntBegins(n);
    case Null => WordBegins(v);
    case Bool(_) => WordBegins(v);
    case Str(s) => BracketBegins('"', Escaped(style, s) + ['"']);
    case Arr(items) => BracketBegins('[', PrintItems(style, items) + [']']);
    case Obj(members) => BracketBegins('{', PrintMembers(style, members) + ['}']);
  }

  lemma BeginsAppend(text: string, rest: string)
    requires Begins(text)
    ensures Begins(text + rest) && Skip(text + rest) == text + rest
  {
  }

  lemma StrRoundTrip(style: Style, pairs: Pairs, s: string, rest: string)
    ensures ParseValue(pairs, Quote(style, s) + rest) == Got(Str(s), rest)
  {
    Seqs.Wrap('"', Escaped(style, s), '"', rest);
    CharsRoundTrip(style, s, rest);
  }

  lemma KeyRoundTrip(style: Style, key: string, rest: string)
    requires Begins(rest)
    ensures ParseKey(Quote(style, key) + ([':'] + rest)) == Got(key, rest)
  {
    Seqs.Wrap('"', Escaped(style, key), '"', [':'] + rest);
    CharsRoundTrip(style, key, [':'] + rest);
    SkipNothing([':'] + rest);
    assert ([':'] + rest)[1..] == rest;
    SkipNothing(rest);
  }

  lemma OtherwiseAWord(pairs: Pairs, s: string)
    requires s != "" && s[0] != '"' && s[0] != '[' && s[0] != '{' && ParseWord(s).Got?
    ensures ParseValue(pairs, s) == ParseWord(s)
  {
  }

  lemma ScalarRoundTrip(style: Style, pairs: Pairs, v: Json, rest: string)
    requires v.Null? || v.Bool? || v.Int?
    requires Ends(rest)
    ensures ParseValue(pairs, Print(style, v) + rest) == Got(v, rest)
  {
    var s := Print(style, v) + rest;
    if v.Int? {
      IntRoundTrip(v.n, rest);
      NotAWord(s);
      OtherwiseAWord(pairs, s);
    } else {
      WordRoundTrip(v, rest);
      OtherwiseAWord(pairs, s);
    }
  }

  /** Whatever style prints an admitted value, and whatever the decoder does with pairs, reading it gives the value. */
  lemma {:induction false} PrintRoundTrip(style: Style, pairs: Pairs, v: Json, rest: string)
    requires Admitted(v) && Ends(rest)
    ensures ParseValue(pairs, Print(style, v) + rest) == Got(v, rest)
    decreases v, 1
  {
    match v
    case Str(s) => StrRoundTrip(style, pairs, s, rest);
    case Arr(items) => ArrayRoundTrip(style, pairs, items, rest);
    case Obj(members) => ObjectRoundTrip(style, pairs, members, rest);
    case _ => ScalarRoundTrip(style, pairs, v, rest);
  }

  lemma EmptyArray(pairs: Pairs, rest: string)
    ensures ParseArray(pairs, Skip([']'] + rest)) == Got(Arr(NoItems), rest)
  {
    SkipNothing([']'] + rest);
    assert ([']'] + rest)[1..] == rest;
  }

  lemma ParseArrayOf(pairs: Pairs, s: string, items: Items, rest: string)
    requires Begins(s) && ParseItems(pairs, s) == Got(items, rest)
    ensures ParseArray(pairs, Skip(s)) == Got(Arr(items), rest)
  {
    SkipNothing(s);
  }

  lemma ArrayClosed(pairs: Pairs, inner: string, items: Items, rest: string)
    requires ParseArray(pairs, Skip(inner + ([']'] + rest))) == Got(Arr(items), rest)
    ensures ParseValue(pairs, (['['] + inner + [']']) + rest) == Got(Arr(items), rest)
  {
    Seqs.Wrap('[', inner, ']', rest);
  }

  lemma ParseLastItem(pairs: Pairs, s: string, v: Json, rest: string)
    requires ParseValue(pairs, s) == Got(v, [']'] + rest)
    ensures ParseItems(pairs, s) == Got(Item(v, NoItems), rest)
  {
    SkipNothing([']'] + rest);
    assert ([']'] + rest)[1..] == rest;
  }

  lemma ParseNextItem(pairs: Pairs, s: string, v: Json, u: string, items: Items, rest: string)
    requires ParseValue(pairs, s) == Got(v, [','] + u) && Begins(u) && ParseItems(pairs, u) == Got(items, rest)
    ensures ParseItems(pairs, s) == Got(Item(v, items), rest)
  {
    SkipNothing([','] + u);
    SkipNothing(u);
    assert ([','] + u)[1..] == u;
  }

  lemma CommaSplit(a: string, b: string, c: string)
    ensures (a + ([','] + b)) + c == a + ([','] + (b + c))
  {
  }

  lemma {:induction false} ArrayRoundTrip(style: Style, pairs: Pairs, items: Items, rest: string)
    requires StrictItems(items) && FloatFreeItems(items)
    ensures ParseValue(pairs, Print(style, Arr(items)) + rest) == Got(Arr(items), rest)
    decreases items, 3
  {
    ArrayBody(style, pairs, items, rest);
    ArrayClosed(pairs, PrintItems(style, items), items, rest);
  }

  lemma {:induction false} ArrayBody(style: Style, pairs: Pairs, items: Items, rest: string)
    requires StrictItems(items) && FloatFreeItems(items)
    ensures ParseArray(pairs, Skip(PrintItems(style, items) + ([']'] + rest))) == Got(Arr(items), rest)
    decreases items, 2
  {
    if items.NoItems? {
      Seqs.Empty([']'] + rest);
      EmptyArray(pairs, rest);
    } else {
      ItemsRoundTrip(style, pairs, items, rest);
      ParseArrayOf(pairs, PrintItems(style, items) + ([']'] + rest), items, rest);
    }
  }

  lemma {:induction false} ItemsRoundTrip(style: Style, pairs: Pairs, items: Items, rest: string)
    requires items.Item? && StrictItems(items) && FloatFreeItems(items)
    ensures ParseItems(pairs, PrintItems(style, items) + ([']'] + rest)) == Got(items, rest)
    ensures Begins(PrintItems(style, items) + ([']'] + rest))
    decreases items, 1
  {
    var first := Print(style, items.first);
    PrintBegins(style, items.first);
    if items.rest.NoItems? {
      var tail := [']'] + rest;
      Seqs.Empty(first);
      PrintRoundTrip(style, pairs, items.first, tail);
      BeginsAppend(first, tail);
      ParseLastItem(pairs, first + tail, items.first, rest);
    } else {
      var others := PrintItems(style, items.rest) + ([']'] + rest);
      CommaSplit(first, PrintItems(style, items.rest), [']'] + rest);
      PrintRoundTrip(style, pairs, items.first, [','] + others);
      ItemsRoundTrip(style, pairs, items.rest, rest);
      BeginsAppend(first, [','] + others);
      ParseNextItem(pairs, first + ([','] + others), items.first, others, items.rest, rest);
    }
  }

  lemma ParseObjectOf(pairs: Pairs, s: string, ms: Members, rest: string)
    requires Begins(s) && ParseMembers(pairs, s) == Got(ms, rest) && Build(pairs, ms) == Some(ms)
    ensures ParseObject(pairs, Skip(s)) == Got(Obj(ms), rest)
  {
    SkipNothing(s);
  }

  lemma ParseLastMember(pairs: Pairs, s: string, key: string, t: string, v: Json, rest: string)
    requires ParseKey(s) == Got(key, t) && ParseValue(pairs, t) == Got(v, ['}'] + rest)
    ensures ParseMembers(pairs, s) == Got(Member(key, v, NoMembers), rest)
  {
    SkipNothing(['}'] + rest);
    assert (['}'] + rest)[1..] == rest;
  }

  lemma ParseNextMember(pairs: Pairs, s: string, key: string, t: string, v: Json, u: string, ms: Members, rest: string)
    requires ParseKey(s) == Got(key, t) && ParseValue(pairs, t) == Got(v, [','] + u)
    requires Begins(u) && ParseMembers(pairs, u) == Got(ms, rest)
    ensures ParseMembers(pairs, s) == Got(Member(key, v, ms), rest)
  {
    SkipNothing([','] + u);
    SkipNothing(u);
    assert ([','] + u)[1..] == u;
  }

  lemma ObjectClosed(pairs: Pairs, inner: string, ms: Members, rest: string)
    requires ParseObject(pairs, Skip(inner + (['}'] + rest))) == Got(Obj(ms), rest)
    ensures ParseValue(pairs, (['{'] + inner + ['}']) + rest) == Got(Obj(ms), rest)
  {
    Seqs.Wrap('{', inner, '}', rest);
  }

  lemma {:induction false} ObjectRoundTrip(style: Style, pairs: Pairs, ms: Members, rest: string)
    requires Distinct(ms) && StrictMembers(ms) && FloatFreeMembers(ms)
    ensures ParseValue(pairs, Print(style, Obj(ms)) + rest) == Got(Obj(ms), rest)
    decreases ms, 3
  {
    ObjectBody(style, pairs, ms, rest);
    ObjectClosed(pairs, PrintMembers(style, ms), ms, rest);
  }

  lemma EmptyObject(pairs: Pairs, rest: string)
    ensures ParseObject(pairs, Skip(['}'] + rest)) == Got(Obj(NoMembers), rest)
  {
    SkipNothing(['}'] + rest);
    assert (['}'] + rest)[1..] == rest;
  }

  lemma {:induction false} ObjectBody(style: Style, pairs: Pairs, ms: Members, rest: string)
    requires Distinct(ms) && StrictMembers(ms) && FloatFreeMembers(ms)
    ensures ParseObject(pairs, Skip(PrintMembers(style, ms) + (['}'] + rest))) == Got(Obj(ms), rest)
    decreases ms, 2
  {
    if ms.NoMembers? {
      Seqs.Empty(['}'] + rest);
      EmptyObject(pairs, rest);
    } else {
      MembersRoundTrip(style, pairs, ms, rest);
      BuildDistinct(pairs, ms);
      ParseObjectOf(pairs, PrintMembers(style, ms) + (['}'] + rest), ms, rest);
    }
  }

  lemma {:induction false} MembersRoundTrip(style: Style, pairs: Pairs, ms: Members, rest: string)
    requires ms.Member? && StrictMembers(ms) && FloatFreeMembers(ms)
    ensures ParseMembers(pairs, PrintMembers(style, ms) + (['}'] + rest)) == Got(ms, rest)
    ensures Begins(PrintMembers(style, ms) + (['}'] + rest))
    decreases ms, 1
  {
    var value := Print(style, ms.value);
    var first := Quote(style, ms.key) + ([':'] + value);
    if ms.rest.NoMembers? {
      var tail := ['}'] + rest;
      Seqs.Empty(first);
      MemberRoundTrip(style, pairs, ms.key, ms.value, tail);
      ParseLastMember(pairs, first + tail, ms.key, value + tail, ms.value, rest);
    } else {
      var printed := PrintMembers(style, ms.rest);
      var others := printed + (['}'] + rest);
      var tail := [','] + others;
      CommaSplit(first, printed, ['}'] + rest);
      MemberRoundTrip(style, pairs, ms.key, ms.value, tail);
      MembersRoundTrip(style, pairs, ms.rest, rest);
      ParseNextMember(pairs, first + tail, ms.key, value + tail, ms.value, others, ms.rest, rest);
    }
  }

  lemma {:induction false} MemberRoundTrip(style: Style, pairs: Pairs, key: string, v: Json, rest: string)
    requires Admitted(v) && Ends(rest)
    ensures var text := (Quote(style, key) + ([':'] + Print(style, v))) + rest;
            && ParseKey(text) == Got(key, Print(style, v) + rest)
            && ParseValue(pairs, Print(style, v) + rest) == Got(v, rest)
            && Begins(text)
    decreases v, 2
  {
    PrintBegins(style, v);
    BeginsAppend(Print(style, v), rest);
    Seqs.Assoc(Quote(style, key), [':'] + Print(style, v), rest);
    Seqs.Cons(':', Print(style, v), rest);
    KeyRoundTrip(style, key, Print(style, v) + rest);
    PrintRoundTrip(style, pairs, v, rest);
    BeginsAppend(Quote(style, key), [':'] + (Print(style, v) + rest));
  }

  // ----- printed text is one line -----

  /** No control characters, so in particular no line feed. */
  predicate Visible(s: string) {
    forall i :: 0 <= i < |s| ==> ' ' <= s[i]
  }

  lemma EscapeVisible(style: Style, c: char)
    ensures Visible(Escape(style, c))
  {
  }

  lemma {:induction false} EscapedVisible(style: Style, s: string)
    ensures Visible(Escaped(style, s)) && Visible(Quote(style, s))
  {
    if s != "" {
      EscapedVisible(style, s[1..]);
      EscapeVisible(style, s[0]);
    }
  }

  lemma {:induction false} DigitsVisible(n: nat)
    ensures Visible(Digits(n))
  {
    if n >= 10 {
      DigitsVisible(n / 10);
    }
  }

  lemma WordVisible(v: Json)
    ensures Visible(Word(v))
  {
  }

  lemma IntVisible(n: int)
    ensures Visible(PrintInt(n))
  {
    DigitsVisible(if n < 0 then -n else n);
  }

  lemma VisibleAppend(a: string, b: string)
    requires Visible(a) && Visible(b)
    ensures Visible(a + b)
  {
  }

  lemma WrapVisible(open: char, s: string, close: char)
    requires ' ' <= open && ' ' <= close && Visible(s)
    ensures Visible([open] + s + [close])
  {
  }

  lemma {:induction false} PrintVisible(style: Style, v: Json)
    requires FloatFree(v)
    ensures Visible(Print(style, v))
  {
    match v
    case Null => WordVisible(v);
    case Bool(_) => WordVisible(v);
    case Int(n) => IntVisible(n);
    case Str(s) => EscapedVisible(style, s);
    case Arr(items) =>
      PrintItemsVisible(style, items);
      WrapVisible('[', PrintItems(style, items), ']');
    case Obj(members) =>
      PrintMembersVisible(style, members);
      WrapVisible('{', PrintMembers(style, members), '}');
  }

  lemma {:induction false} PrintItemsVisible(style: Style, items: Items)
    requires FloatFreeItems(items)
    ensures Visible(PrintItems(style, items))
  {
    if items.Item? {
      PrintVisible(style, items.first);
      PrintItemsVisible(style, items.rest);
      VisibleAppend([','], PrintItems(style, items.rest));
    }
  }

  lemma {:induction false} PrintMembersVisible(style: Style, ms: Members)
    requires FloatFreeMembers(ms)
    ensures Visible(PrintMembers(style, ms))
  {
    if ms.Member? {
      EscapedVisible(style, ms.key);
      PrintVisible(style, ms.value);
      PrintMembersVisible(style, ms.rest);
      VisibleAppend([':'], Print(style, ms.value));
      VisibleAppend(Quote(style, ms.key), [':'] + Print(style, ms.value));
      VisibleAppend([','], PrintMembers(style, ms.rest));
    }
  }

  // ----- the strict decoder refines the plain one -----

  lemma {:induction false} PutStrict(ms: Members, key: string, value: Json)
    requires StrictMembers(ms) && Strict(value)
    ensures StrictMembers(Put(ms, key, value))
  {
    if ms.Member? && ms.key != key {
      PutStrict(ms.rest, key, value);
    }
  }

  lemma {:induction false} PutAllStrict(ms: Members, pairs: Members)
    requires Distinct(ms) && StrictMembers(ms) && StrictMembers(pairs)
    ensures Distinct(PutAll(ms, pairs)) && StrictMembers(PutAll(ms, pairs))
    decreases pairs
  {
    if pairs.Member? {
      PutDistinct(ms, pairs.key, pairs.value);
      PutStrict(ms, pairs.key, pairs.value);
      PutAllStrict(Put(ms, pairs.key, pairs.value), pairs.rest);
    }
  }

  lemma WordIsStrict(s: string)
    ensures ParseWord(s).Got? ==> Strict(ParseWord(s).value)
    ensures ParseConstant(s).Got? ==> Strict(ParseConstant(s).value)
  {
  }

  lemma ScalarIsStrict(pairs: Pairs, s: string)
    requires s == "" || (s[0] != '[' && s[0] != '{')
    ensures ParseValue(pairs, s).Got? ==> Strict(ParseValue(pairs, s).value)
  {
    WordIsStrict(s);
  }

  lemma BuiltIsStrict(pairs: Pairs, s: string)
    requires ParseMembers(pairs, s).Got? ==> StrictMembers(ParseMembers(pairs, s).value)
    ensures ParseObject(pairs, s).Got? ==> Strict(ParseObject(pairs, s).value)
  {
    if ParseMembers(pairs, s).Got? {
      PutAllStrict(NoMembers, ParseMembers(pairs, s).value);
    }
  }

  /** Every object in a parsed value has distinct keys, whatever was done with repeated pairs. */
  lemma {:induction false} ParsedIsStrict(pairs: Pairs, s: string)
    ensures ParseValue(pairs, s).Got? ==> Strict(ParseValue(pairs, s).value)
    decreases |s|, 1
  {
    if s != "" && s[0] == '[' {
      ParsedItemsAreStrict(pairs, Skip(s[1..]));
    } else if s != "" && s[0] == '{' {
      ParsedMembersAreStrict(pairs, Skip(s[1..]));
      BuiltIsStrict(pairs, Skip(s[1..]));
    } else {
      ScalarIsStrict(pairs, s);
    }
  }

  lemma {:induction false} ParsedItemsAreStrict(pairs: Pairs, s: string)
    ensures ParseItems(pairs, s).Got? ==> StrictItems(ParseItems(pairs, s).value)
    decreases |s|, 2
  {
    ParsedIsStrict(pairs, s);
    if ParseValue(pairs, s).Got? {
      var u := Skip(ParseValue(pairs, s).rest);
      if u != "" {
        ParsedItemsAreStrict(pairs, Skip(u[1..]));
      }
    }
  }

  lemma {:induction false} ParsedMembersAreStrict(pairs: Pairs, s: string)
    ensures ParseMembers(pairs, s).Got? ==> StrictMembers(ParseMembers(pairs, s).value)
    decreases |s|, 2
  {
    if ParseKey(s).Got? {
      var t := ParseKey(s).rest;
      ParsedIsStrict(pairs, t);
      if ParseValue(pairs, t).Got? {
        var u := Skip(ParseValue(pairs, t).rest);
        if u != "" {
          ParsedMembersAreStrict(pairs, Skip(u[1..]));
        }
      }
    }
  }

  /** Where the strict decoder reads a value, the plain one reads the same value and stops at the same place. */
  lemma {:induction false} UniqueRefines(s: string)
    ensures ParseValue(Unique, s).Got? ==> ParseValue(LastWins, s) == ParseValue(Unique, s)
    decreases |s|, 1
  {
    if s != "" && s[0] == '[' {
      UniqueRefinesItems(Skip(s[1..]));
    } else if s != "" && s[0] == '{' {
      var t := Skip(s[1..]);
      UniqueRefinesMembers(t);
      if ParseMembers(Unique, t).Got? && Distinct(ParseMembers(Unique, t).value) {
        BuildDistinct(LastWins, ParseMembers(Unique, t).value);
      }
    }
  }

  lemma {:induction false} UniqueRefinesItems(s: string)
    ensures ParseItems(Unique, s).Got? ==> ParseItems(LastWins, s) == ParseItems(Unique, s)
    decreases |s|, 2
  {
    UniqueRefines(s);
    if ParseValue(Unique, s).Got? {
      var u := Skip(ParseValue(Unique, s).rest);
      if u != "" {
        UniqueRefinesItems(Skip(u[1..]));
      }
    }
  }

  lemma {:induction false} UniqueRefinesMembers(s: string)
    ensures ParseMembers(Unique, s).Got? ==> ParseMembers(LastWins, s) == ParseMembers(Unique, s)
    decreases |s|, 2
  {
    if ParseKey(s).Got? {
      var t := ParseKey(s).rest;
      UniqueRefines(t);
      if ParseValue(Unique, t).Got? {
        var u := Skip(ParseValue(Unique, t).rest);
        if u != "" {
          UniqueRefinesMembers(Skip(u[1..]));
        }
      }
    }
  }

  /** `parse` gives only values with distinct keys, and only the values `json.loads` gives. */
  lemma LoadsUnique(text: string)
    ensures Loads(Unique, text).Some? ==>
              Strict(Loads(Unique, text).value) && Loads(LastWins, text) == Loads(Unique, text)
  {
    ParsedIsStrict(Unique, Skip(text));
    UniqueRefines(Skip(text));
  }

  /** Loading a printed value gives the value back. */
  lemma LoadsPrint(style: Style, pairs: Pairs, v: Json)
    requires Admitted(v)
    ensures Loads(pairs, Print(style, v)) == Some(v)
  {
    PrintRoundTrip(style, pairs, v, "");
    Seqs.Empty(Print(style, v));
    PrintBegins(style, v);
    SkipNothing(Print(style, v));
  }

  /** So one style never prints two admitted values alike. */
  lemma PrintInjective(style: Style, v: Json, w: Json)
    requires Admitted(v) && Admitted(w) && Print(style, v) == Print(style, w)
    ensures v == w
  {
    LoadsPrint(style, Unique, v);
    LoadsPrint(style, Unique, w);
  }
}
