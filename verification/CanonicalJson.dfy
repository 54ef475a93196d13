/** The canonical text behind the run-dedupe key, and why it identifies a value up to key order. */
module CanonicalJson {
  import opened JsonText
  import opened Sorting
  import opened Walks

  /** Values `canonicalJson` may meet. Numbers stand for their printed form; `JUndefined` is a value
    * JavaScript has and JSON has not.
    */
  datatype Json =
    | JUndefined
    | JNull
    | JBool(b: bool)
    | JNumber(n: Numeral)
    | JString(s: Text)
    | JArray(items: seq<Json>)
    | JObject(entries: seq<Entry>)

  datatype Entry = Entry(key: Text, value: Json)

  const NULL_TEXT: Text := [110, 117, 108, 108]
  const TRUE_TEXT: Text := [116, 114, 117, 101]
  const FALSE_TEXT: Text := [102, 97, 108, 115, 101]

  // ---------------------------------------------------------------- sizes

  function Size(v: Json): nat {
    match v
    case JArray(items) => 1 + SizeItems(items)
    case JObject(entries) => 1 + SizeEntries(entries)
    case _ => 1
  }

  function SizeItems(items: seq<Json>): nat {
    if items == [] then 0 else Size(items[0]) + 1 + SizeItems(items[1..])
  }

  function SizeEntries(es: seq<Entry>): nat {
    if es == [] then 0 else Size(es[0].value) + 1 + SizeEntries(es[1..])
  }

  lemma {:induction false} SizeAppend(a: seq<Entry>, b: seq<Entry>)
    ensures SizeEntries(a + b) == SizeEntries(a) + SizeEntries(b)
  {
    if a == [] {
      assert a + b == b;
    } else {
      assert (a + b)[1..] == a[1..] + b;
      SizeAppend(a[1..], b);
    }
  }

  lemma {:induction false} SizeMember(es: seq<Entry>, e: Entry)
    requires e in es
    ensures Size(e.value) < SizeEntries(es)
  {
    if es[0] != e { SizeMember(es[1..], e); }
  }

  // ---------------------------------------------------------------- key order

  /** `a <= b` on strings: by code units, a prefix first. */
  predicate KeyLeq(a: Text, b: Text) {
    a == [] || (b != [] && (a[0] < b[0] || (a[0] == b[0] && KeyLeq(a[1..], b[1..]))))
  }

  lemma {:induction false} KeyLeqTotal(a: Text, b: Text)
    ensures KeyLeq(a, b) || KeyLeq(b, a)
    ensures KeyLeq(a, b) && KeyLeq(b, a) ==> a == b
  {
    if a != [] && b != [] {
      KeyLeqTotal(a[1..], b[1..]);
      assert a == [a[0]] + a[1..] && b == [b[0]] + b[1..];
    }
  }

  lemma {:induction false} KeyLeqTransitive(a: Text, b: Text, c: Text)
    requires KeyLeq(a, b) && KeyLeq(b, c)
    ensures KeyLeq(a, c)
  {
    if a != [] && b != [] && c != [] && a[0] == b[0] == c[0] {
      KeyLeqTransitive(a[1..], b[1..], c[1..]);
    }
  }

  const BY_KEY: (Entry, Entry) -> bool := (a: Entry, b: Entry) => KeyLeq(a.key, b.key)

  lemma ByKeyIsTotal()
    ensures TotalPreorder(BY_KEY)
  {
    forall a: Entry, b: Entry
      ensures BY_KEY(a, b) || BY_KEY(b, a)
    {
      KeyLeqTotal(a.key, b.key);
    }
    forall a: Entry, b: Entry, c: Entry | BY_KEY(a, b) && BY_KEY(b, c)
      ensures BY_KEY(a, c)
    {
      KeyLeqTransitive(a.key, b.key, c.key);
    }
  }

  /** Entries whose value is not undefined. */
  function Defined(es: seq<Entry>): seq<Entry> {
    if es == [] then []
    else Defined(es[..|es| - 1]) + if es[|es| - 1].value == JUndefined then [] else [es[|es| - 1]]
  }

  /** The entries in the order they are printed. */
  function Ordered(es: seq<Entry>): seq<Entry> {
    Sort(BY_KEY, Defined(es))
  }

  lemma {:induction false} SizeDefined(es: seq<Entry>)
    ensures SizeEntries(Defined(es)) <= SizeEntries(es)
  {
    if es != [] {
      var front, last := es[..|es| - 1], es[|es| - 1];
      SizeDefined(front);
      assert es == front + [last];
      SizeAppend(front, [last]);
      SizeAppend(Defined(front), [last]);
      assert Defined(front) + [] == Defined(front);
    }
  }

  lemma {:induction false} SizeInsert(es: seq<Entry>, e: Entry)
    ensures SizeEntries(Insert(BY_KEY, es, e)) == SizeEntries(es) + SizeEntries([e])
  {
    if es != [] {
      var front, last := es[..|es| - 1], es[|es| - 1];
      assert es == front + [last];
      SizeInsert(front, e);
      SizeAppend(front, [last]);
      SizeAppend(es, [e]);
      SizeAppend(Insert(BY_KEY, front, e), [last]);
    }
  }

  lemma {:induction false} SizeSort(es: seq<Entry>)
    ensures SizeEntries(Sort(BY_KEY, es)) == SizeEntries(es)
  {
    if es != [] {
      var front, last := es[..|es| - 1], es[|es| - 1];
      assert es == front + [last];
      SizeSort(front);
      SizeAppend(front, [last]);
      SizeInsert(Sort(BY_KEY, front), last);
    }
  }

  lemma SizeOrdered(es: seq<Entry>)
    ensures SizeEntries(Ordered(es)) <= SizeEntries(es)
  {
    SizeDefined(es);
    SizeSort(Defined(es));
  }

  // ---------------------------------------------------------------- canonicalJson

  /** The canonical text of a value. */
  function Canon(v: Json): Text
    decreases Size(v), 1
  {
    match v
    case JUndefined => NULL_TEXT
    case JNull => NULL_TEXT
    case JBool(b) => if b then TRUE_TEXT else FALSE_TEXT
    case JNumber(n) => n
    case JString(s) => Quote(s)
    case JArray(items) => [OPEN_BRACKET] + CanonItems(items) + [CLOSE_BRACKET]
    case JObject(entries) =>
      SizeOrdered(entries);
      [OPEN_BRACE] + CanonEntries(Ordered(entries)) + [CLOSE_BRACE]
  }

  /** Items joined with commas. */
  function CanonItems(items: seq<Json>): Text
    decreases SizeItems(items), 0
  {
    if items == [] then []
    else Canon(items[0]) + if |items| == 1 then [] else [COMMA] + CanonItems(items[1..])
  }

  /** `key:value` pairs joined with commas. */
  function CanonEntries(es: seq<Entry>): Text
    decreases SizeEntries(es), 0
  {
    if es == [] then []
    else Quote(es[0].key) + [COLON] + Canon(es[0].value) + if |es| == 1 then [] else [COMMA] + CanonEntries(es[1..])
  }

  // ---------------------------------------------------------------- printing the same

  /** Undefined reads as null wherever it is printed at all. */
  function Plain(v: Json): Json {
    if v == JUndefined then JNull else v
  }

  /** The two values have the same printed structure. */
  predicate PrintsAs(a: Json, b: Json)
    decreases Size(a), 1
  {
    match (Plain(a), Plain(b))
    case (JArray(x), JArray(y)) => ItemsPrintAs(x, y)
    case (JObject(x), JObject(y)) =>
      SizeOrdered(x);
      EntriesPrintAs(Ordered(x), Ordered(y))
    case (p, q) => p == q
  }

  predicate ItemsPrintAs(x: seq<Json>, y: seq<Json>)
    decreases SizeItems(x), 0
  {
    |x| == |y| && (x == [] || (PrintsAs(x[0], y[0]) && ItemsPrintAs(x[1..], y[1..])))
  }

  predicate EntriesPrintAs(x: seq<Entry>, y: seq<Entry>)
    decreases SizeEntries(x), 0
  {
    |x| == |y| &&
    (x == [] || (x[0].key == y[0].key && PrintsAs(x[0].value, y[0].value) && EntriesPrintAs(x[1..], y[1..])))
  }

  lemma {:induction false} SameText(a: Json, b: Json)
    requires PrintsAs(a, b)
    ensures Canon(a) == Canon(b)
    decreases Size(a), 1
  {
    match (Plain(a), Plain(b))
    case (JArray(x), JArray(y)) => SameItemsText(x, y);
    case (JObject(x), JObject(y)) =>
      SizeOrdered(x);
      SameEntriesText(Ordered(x), Ordered(y));
    case _ =>
  }

  lemma {:induction false} SameItemsText(x: seq<Json>, y: seq<Json>)
    requires ItemsPrintAs(x, y)
    ensures CanonItems(x) == CanonItems(y)
    decreases SizeItems(x), 0
  {
    if x != [] {
      SameText(x[0], y[0]);
      SameItemsText(x[1..], y[1..]);
    }
  }

  lemma {:induction false} SameEntriesText(x: seq<Entry>, y: seq<Entry>)
    requires EntriesPrintAs(x, y)
    ensures CanonEntries(x) == CanonEntries(y)
    decreases SizeEntries(x), 0
  {
    if x != [] {
      SameText(x[0].value, y[0].value);
      SameEntriesText(x[1..], y[1..]);
    }
  }

  // ---------------------------------------------------------------- reading it back

  /** What the first code unit of a printed value says. */
  predicate Opens(v: Json, u: CodeUnit) {
    match v
    case JUndefined => u == 110
    case JNull => u == 110
    case JBool(b) => u == if b then 116 else 102
    case JNumber(_) => IsDigit(u) || u == 45
    case JString(_) => u == QUOTE
    case JArray(_) => u == OPEN_BRACKET
    case JObject(_) => u == OPEN_BRACE
  }

  lemma CanonOpens(v: Json)
    ensures Canon(v) != [] && Opens(v, Canon(v)[0])
  {
    hide CanonItems, CanonEntries, Ordered, Escaped;
  }

  lemma ConcatHead(a: Text, b: Text)
    requires a != []
    ensures (a + b)[0] == a[0]
  {
  }

  lemma FixedText(t: Text, r: Text, q: Text)
    requires t + r == t + q
    ensures r == q
  {
    assert r == (t + r)[|t|..] && q == (t + q)[|t|..];
  }

  /** A value can be read back, up to how it prints, from the front of any text that goes on with a delimiter. */
  lemma {:induction false} CanonReadsBack(a: Json, r: Text, b: Json, q: Text)
    requires Canon(a) + r == Canon(b) + q && Delimited(r) && Delimited(q)
    ensures PrintsAs(a, b) && r == q
    decreases Size(a), 1
  {
    SameKind(a, r, b, q);
    match (Plain(a), Plain(b))
    case (JNull, JNull) => FixedText(NULL_TEXT, r, q);
    case (JBool(x), JBool(y)) => FixedText(if x then TRUE_TEXT else FALSE_TEXT, r, q);
    case (JNumber(m), JNumber(n)) => NumeralEnds(m, r, n, q);
    case (JString(s), JString(t)) => QuoteInjective(s, r, t, q);
    case (JArray(x), JArray(y)) =>
      Unwrap(OPEN_BRACKET, CanonItems(x), CLOSE_BRACKET, r, CanonItems(y), q);
      ItemsReadBack(x, r, y, q);
    case (JObject(x), JObject(y)) =>
      SizeOrdered(x);
      Unwrap(OPEN_BRACE, CanonEntries(Ordered(x)), CLOSE_BRACE, r, CanonEntries(Ordered(y)), q);
      EntriesReadBack(Ordered(x), r, Ordered(y), q);
  }

  /** The first code unit alone tells the kind of value. */
  lemma SameKind(a: Json, r: Text, b: Json, q: Text)
    requires Canon(a) + r == Canon(b) + q
    ensures match (Plain(a), Plain(b))
      case (JNull, JNull) => true
      case (JBool(x), JBool(y)) => x == y
      case (JNumber(_), JNumber(_)) => true
      case (JString(_), JString(_)) => true
      case (JArray(_), JArray(_)) => true
      case (JObject(_), JObject(_)) => true
      case _ => false
  {
    CanonOpens(a);
    CanonOpens(b);
    ConcatHead(Canon(a), r);
    ConcatHead(Canon(b), q);
    hide Canon;
  }

  lemma Unwrap(open: CodeUnit, x: Text, close: CodeUnit, r: Text, y: Text, q: Text)
    requires [open] + x + [close] + r == [open] + y + [close] + q
    ensures x + [close] + r == y + [close] + q
  {
    assert [open] + x + [close] + r == [open] + (x + [close] + r);
    assert [open] + y + [close] + q == [open] + (y + [close] + q);
    FixedText([open], x + [close] + r, y + [close] + q);
  }

  /** What follows the first of several printed items: a comma and the rest, or the closing bracket. */
  function After(more: bool, rest: Text, close: CodeUnit, r: Text): Text {
    if more then [COMMA] + rest + [close] + r else [close] + r
  }

  lemma AfterAgrees(m: bool, x: Text, n: bool, y: Text, close: CodeUnit, r: Text, q: Text)
    requires After(m, x, close, r) == After(n, y, close, q) && close != COMMA
    ensures m == n && (if m then x + [close] + r == y + [close] + q else r == q)
  {
    assert After(m, x, close, r)[0] == if m then COMMA else close;
    assert After(n, y, close, q)[0] == if n then COMMA else close;
    if m {
      assert [COMMA] + x + [close] + r == [COMMA] + (x + [close] + r);
      assert [COMMA] + y + [close] + q == [COMMA] + (y + [close] + q);
      FixedText([COMMA], x + [close] + r, y + [close] + q);
    } else {
      FixedText([close], r, q);
    }
  }

  lemma ItemsSplit(x: seq<Json>, r: Text)
    requires x != []
    ensures CanonItems(x) + [CLOSE_BRACKET] + r ==
      Canon(x[0]) + After(|x| > 1, CanonItems(x[1..]), CLOSE_BRACKET, r)
  {
    hide Canon;
    var rest := CanonItems(x[1..]);
    var tail := if |x| > 1 then [COMMA] + rest else [];
    assert CanonItems(x) == Canon(x[0]) + tail;
    hide CanonItems;
    Regroup(Canon(x[0]), tail, [CLOSE_BRACKET], r);
    TailIsAfter(|x| > 1, rest, CLOSE_BRACKET, r);
  }

  lemma Regroup(a: Text, b: Text, c: Text, r: Text)
    ensures a + b + c + r == a + (b + c + r)
  {
  }

  lemma TailIsAfter(more: bool, rest: Text, close: CodeUnit, r: Text)
    ensures (if more then [COMMA] + rest else []) + [close] + r == After(more, rest, close, r)
  {
    if !more { assert [] + [close] + r == [close] + r; }
  }

  /** An item never begins with a closing bracket. */
  lemma ItemsHead(x: seq<Json>, r: Text)
    ensures (CanonItems(x) + [CLOSE_BRACKET] + r)[0] == CLOSE_BRACKET <==> x == []
  {
    if x != [] {
      ItemsSplit(x, r);
      CanonOpens(x[0]);
      ConcatHead(Canon(x[0]), After(|x| > 1, CanonItems(x[1..]), CLOSE_BRACKET, r));
      hide Canon, CanonItems;
    }
  }

  lemma {:induction false} ItemsReadBack(x: seq<Json>, r: Text, y: seq<Json>, q: Text)
    requires CanonItems(x) + [CLOSE_BRACKET] + r == CanonItems(y) + [CLOSE_BRACKET] + q
    ensures ItemsPrintAs(x, y) && r == q
    decreases SizeItems(x), 0
  {
    ItemsHead(x, r);
    ItemsHead(y, q);
    hide Canon, PrintsAs;
    if x == [] {
      assert [] + [CLOSE_BRACKET] + r == [CLOSE_BRACKET] + r;
      assert [] + [CLOSE_BRACKET] + q == [CLOSE_BRACKET] + q;
      FixedText([CLOSE_BRACKET], r, q);
    } else {
      ItemsSplit(x, r);
      ItemsSplit(y, q);
      hide CanonItems;
      CanonReadsBack(x[0], After(|x| > 1, CanonItems(x[1..]), CLOSE_BRACKET, r),
                     y[0], After(|y| > 1, CanonItems(y[1..]), CLOSE_BRACKET, q));
      AfterAgrees(|x| > 1, CanonItems(x[1..]), |y| > 1, CanonItems(y[1..]), CLOSE_BRACKET, r, q);
      if |x| > 1 { ItemsReadBack(x[1..], r, y[1..], q); }
    }
  }

  lemma EntriesSplit(x: seq<Entry>, r: Text)
    requires x != []
    ensures CanonEntries(x) + [CLOSE_BRACE] + r ==
      Quote(x[0].key) + ([COLON] + (Canon(x[0].value) + After(|x| > 1, CanonEntries(x[1..]), CLOSE_BRACE, r)))
  {
    var rest := CanonEntries(x[1..]);
    EntriesTail(x);
    TailIsAfter(|x| > 1, rest, CLOSE_BRACE, r);
    hide Canon, Quote, CanonEntries, After;
    PairSplit(Quote(x[0].key), Canon(x[0].value), if |x| > 1 then [COMMA] + rest else [], r,
              After(|x| > 1, rest, CLOSE_BRACE, r));
  }

  lemma EntriesTail(x: seq<Entry>)
    requires x != []
    ensures CanonEntries(x) ==
      Quote(x[0].key) + [COLON] + Canon(x[0].value) + if |x| > 1 then [COMMA] + CanonEntries(x[1..]) else []
  {
    hide Canon, Quote;
  }

  lemma PairSplit(key: Text, value: Text, tail: Text, r: Text, after: Text)
    requires tail + [CLOSE_BRACE] + r == after
    ensures key + [COLON] + value + tail + [CLOSE_BRACE] + r == key + ([COLON] + (value + after))
  {
    Regroup(key + [COLON] + value, tail, [CLOSE_BRACE], r);
    assert key + [COLON] + value + after == key + ([COLON] + (value + after));
  }

  /** An entry never begins with a closing brace. */
  lemma EntriesHead(x: seq<Entry>, r: Text)
    ensures (CanonEntries(x) + [CLOSE_BRACE] + r)[0] == CLOSE_BRACE <==> x == []
  {
    if x != [] {
      EntriesSplit(x, r);
      hide Canon, CanonEntries, Escaped;
      assert Quote(x[0].key)[0] == QUOTE;
    }
  }

  lemma {:induction false} EntriesReadBack(x: seq<Entry>, r: Text, y: seq<Entry>, q: Text)
    requires CanonEntries(x) + [CLOSE_BRACE] + r == CanonEntries(y) + [CLOSE_BRACE] + q
    ensures EntriesPrintAs(x, y) && r == q
    decreases SizeEntries(x), 0
  {
    EntriesHead(x, r);
    EntriesHead(y, q);
    hide Canon, PrintsAs, Quote;
    if x == [] {
      assert [] + [CLOSE_BRACE] + r == [CLOSE_BRACE] + r;
      assert [] + [CLOSE_BRACE] + q == [CLOSE_BRACE] + q;
      FixedText([CLOSE_BRACE], r, q);
    } else {
      EntriesSplit(x, r);
      EntriesSplit(y, q);
      hide CanonEntries;
      var ar := After(|x| > 1, CanonEntries(x[1..]), CLOSE_BRACE, r);
      var aq := After(|y| > 1, CanonEntries(y[1..]), CLOSE_BRACE, q);
      QuoteInjective(x[0].key, [COLON] + (Canon(x[0].value) + ar), y[0].key, [COLON] + (Canon(y[0].value) + aq));
      FixedText([COLON], Canon(x[0].value) + ar, Canon(y[0].value) + aq);
      CanonReadsBack(x[0].value, ar, y[0].value, aq);
      AfterAgrees(|x| > 1, CanonEntries(x[1..]), |y| > 1, CanonEntries(y[1..]), CLOSE_BRACE, r, q);
      if |x| > 1 { EntriesReadBack(x[1..], r, y[1..], q); }
    }
  }

  /** Two texts are equal exactly when the values have the same printed structure. */
  lemma CanonIsPrinting(a: Json, b: Json)
    ensures Canon(a) == Canon(b) <==> PrintsAs(a, b)
  {
    if Canon(a) == Canon(b) {
      assert Canon(a) + [] == Canon(b) + [];
      CanonReadsBack(a, [], b, []);
    }
    if PrintsAs(a, b) { SameText(a, b); }
  }

  // ---------------------------------------------------------------- equality up to key order

  ghost predicate DistinctKeys(es: seq<Entry>) {
    forall i, j :: 0 <= i < j < |es| ==> es[i].key != es[j].key
  }

  /** Objects have each key once, all the way down, as JavaScript objects do. */
  ghost predicate WellFormed(v: Json) {
    match v
    case JArray(items) => forall i :: 0 <= i < |items| ==> WellFormed(items[i])
    case JObject(entries) => DistinctKeys(entries) && forall e :: e in entries ==> WellFormed(e.value)
    case _ => true
  }

  predicate IsDefined(e: Entry) {
    e.value != JUndefined
  }

  /** Equal as JSON values: arrays by position, objects key by key in any order, undefined members absent
    * and undefined elsewhere null.
    */
  ghost predicate EqualUpToOrder(a: Json, b: Json)
    decreases a
  {
    if a.JArray? && b.JArray? then
      |a.items| == |b.items| && forall i :: 0 <= i < |a.items| ==> EqualUpToOrder(a.items[i], b.items[i])
    else if a.JObject? && b.JObject? then
      EachHasEqual(a.entries, b.entries) && KeysWithin(b.entries, a.entries)
    else Plain(a) == Plain(b)
  }

  /** Every defined entry of x has one in y with the same key and an equal value. */
  ghost predicate EachHasEqual(x: seq<Entry>, y: seq<Entry>)
    decreases x
  {
    forall e :: e in x && IsDefined(e) ==>
      exists f :: f in y && IsDefined(f) && f.key == e.key && EqualUpToOrder(e.value, f.value)
  }

  /** Every defined entry of x has one in y with the same key. */
  ghost predicate KeysWithin(x: seq<Entry>, y: seq<Entry>) {
    forall e :: e in x && IsDefined(e) ==> exists f :: f in y && IsDefined(f) && f.key == e.key
  }

  function KeySet(es: seq<Entry>): set<Text> {
    set e | e in es :: e.key
  }

  lemma {:induction false} DefinedMembers(es: seq<Entry>)
    ensures forall e :: e in Defined(es) <==> e in es && IsDefined(e)
  {
    if es != [] {
      var front, last := es[..|es| - 1], es[|es| - 1];
      DefinedMembers(front);
      assert es == front + [last];
    }
  }

  lemma {:induction false} DefinedKeepsDistinct(es: seq<Entry>)
    requires DistinctKeys(es)
    ensures DistinctKeys(Defined(es))
  {
    if es != [] {
      var front, last := es[..|es| - 1], es[|es| - 1];
      DefinedKeepsDistinct(front);
      DefinedMembers(front);
      LastKeyIsNew(es, Defined(front));
    }
  }

  lemma LastKeyIsNew(es: seq<Entry>, d: seq<Entry>)
    requires es != [] && DistinctKeys(es) && DistinctKeys(d) && forall e :: e in d ==> e in es[..|es| - 1]
    ensures DistinctKeys(d + [es[|es| - 1]])
  {
    var front, last := es[..|es| - 1], es[|es| - 1];
    forall i | 0 <= i < |d|
      ensures d[i].key != last.key
    {
      assert d[i] in d;
      var k :| 0 <= k < |front| && front[k] == d[i];
      assert es[k].key != es[|es| - 1].key;
    }
  }

  lemma {:induction false} InsertKeepsDistinct(es: seq<Entry>, e: Entry)
    requires DistinctKeys(es) && forall i :: 0 <= i < |es| ==> es[i].key != e.key
    ensures DistinctKeys(Insert(BY_KEY, es, e))
  {
    if es != [] && !BY_KEY(es[|es| - 1], e) {
      var front, last := es[..|es| - 1], es[|es| - 1];
      InsertKeepsDistinct(front, e);
      InsertMembers(BY_KEY, front, e);
      var t := Insert(BY_KEY, front, e);
      forall i | 0 <= i < |t|
        ensures t[i].key != last.key
      {
        assert t[i] in t;
        if t[i] != e {
          var k :| 0 <= k < |front| && front[k] == t[i];
          assert es[k].key != es[|es| - 1].key;
        }
      }
    }
  }

  lemma {:induction false} SortKeepsDistinct(es: seq<Entry>)
    requires DistinctKeys(es)
    ensures DistinctKeys(Sort(BY_KEY, es))
  {
    if es != [] {
      var front, last := es[..|es| - 1], es[|es| - 1];
      SortKeepsDistinct(front);
      SortMembers(BY_KEY, front);
      var t := Sort(BY_KEY, front);
      forall i | 0 <= i < |t|
        ensures t[i].key != last.key
      {
        assert t[i] in t;
        assert t[i] in front;
        var k :| 0 <= k < |front| && front[k] == t[i];
        assert es[k].key != es[|es| - 1].key;
      }
      InsertKeepsDistinct(t, last);
    }
  }

  /** The printed order: the defined entries, each key once, ascending. */
  lemma OrderedFacts(es: seq<Entry>)
    requires DistinctKeys(es)
    ensures forall e :: e in Ordered(es) <==> e in es && IsDefined(e)
    ensures DistinctKeys(Ordered(es)) && SortedBy(BY_KEY, Ordered(es))
  {
    DefinedMembers(es);
    DefinedKeepsDistinct(es);
    SortMembers(BY_KEY, Defined(es));
    SortKeepsDistinct(Defined(es));
    ByKeyIsTotal();
    SortSorts(BY_KEY, Defined(es));
  }

  lemma FirstKeyIsLeast(x: seq<Entry>, k: Text)
    requires x != [] && SortedBy(BY_KEY, x) && k in KeySet(x)
    ensures KeyLeq(x[0].key, k)
  {
    var i :| 0 <= i < |x| && x[i].key == k;
    if i == 0 { KeyLeqTotal(k, k); }
    else { assert BY_KEY(x[0], x[i]); }
  }

  lemma TailKeys(x: seq<Entry>)
    requires x != [] && DistinctKeys(x)
    ensures KeySet(x[1..]) == KeySet(x) - {x[0].key}
  {
    forall k
      ensures k in KeySet(x[1..]) <==> k in KeySet(x) && k != x[0].key
    {
      if k in KeySet(x[1..]) {
        var i :| 0 <= i < |x[1..]| && x[1..][i].key == k;
        assert x[i + 1].key == k && x[i + 1] in x;
      }
      if k in KeySet(x) && k != x[0].key {
        var i :| 0 <= i < |x| && x[i].key == k;
        assert x[1..][i - 1] == x[i];
      }
    }
  }

  /** Ascending lists with the same keys have them in the same places. */
  lemma {:induction false} SameKeysSamePlaces(x: seq<Entry>, y: seq<Entry>)
    requires SortedBy(BY_KEY, x) && SortedBy(BY_KEY, y) && DistinctKeys(x) && DistinctKeys(y)
    requires KeySet(x) == KeySet(y)
    ensures |x| == |y| && forall i :: 0 <= i < |x| ==> x[i].key == y[i].key
    decreases |x|
  {
    if x == [] || y == [] {
      EmptyKeys(x);
      EmptyKeys(y);
    } else {
      assert x[0].key in KeySet(x) && y[0].key in KeySet(y);
      FirstKeyIsLeast(x, y[0].key);
      FirstKeyIsLeast(y, x[0].key);
      KeyLeqTotal(x[0].key, y[0].key);
      TailKeys(x);
      TailKeys(y);
      TailSorted(x);
      TailSorted(y);
      hide KeyLeq, KeySet, SortedBy;
      SameKeysSamePlaces(x[1..], y[1..]);
      forall i | 0 <= i < |x|
        ensures x[i].key == y[i].key
      {
        if i > 0 { assert x[1..][i - 1].key == y[1..][i - 1].key; }
      }
    }
  }

  lemma EmptyKeys(x: seq<Entry>)
    ensures KeySet(x) == {} <==> x == []
  {
    if x != [] { assert x[0].key in KeySet(x); }
  }

  lemma TailSorted(x: seq<Entry>)
    requires x != [] && SortedBy(BY_KEY, x) && DistinctKeys(x)
    ensures SortedBy(BY_KEY, x[1..]) && DistinctKeys(x[1..])
  {
    forall i, j | 0 <= i < j < |x[1..]|
      ensures BY_KEY(x[1..][i], x[1..][j])
    {
      assert BY_KEY(x[i + 1], x[j + 1]);
    }
  }

  lemma {:induction false} EntriesPairwise(x: seq<Entry>, y: seq<Entry>)
    ensures EntriesPrintAs(x, y) <==>
      |x| == |y| && forall i :: 0 <= i < |x| ==> x[i].key == y[i].key && PrintsAs(x[i].value, y[i].value)
  {
    hide PrintsAs;
    if x != [] && |x| == |y| {
      EntriesPairwise(x[1..], y[1..]);
      assert forall i :: 1 <= i < |x| ==> x[i] == x[1..][i - 1] && y[i] == y[1..][i - 1];
      assert forall i :: 0 <= i < |x| - 1 ==> x[1..][i] == x[i + 1] && y[1..][i] == y[i + 1];
    }
  }

  lemma {:induction false} ItemsPairwise(x: seq<Json>, y: seq<Json>)
    ensures ItemsPrintAs(x, y) <==> |x| == |y| && forall i :: 0 <= i < |x| ==> PrintsAs(x[i], y[i])
  {
    hide PrintsAs;
    if x != [] && |x| == |y| {
      ItemsPairwise(x[1..], y[1..]);
      assert forall i :: 1 <= i < |x| ==> x[i] == x[1..][i - 1] && y[i] == y[1..][i - 1];
      assert forall i :: 0 <= i < |x| - 1 ==> x[1..][i] == x[i + 1] && y[1..][i] == y[i + 1];
    }
  }

  lemma SameKey(es: seq<Entry>, e: Entry, f: Entry)
    requires DistinctKeys(es) && e in es && f in es && e.key == f.key
    ensures e == f
  {
    var i :| 0 <= i < |es| && es[i] == e;
    var j :| 0 <= j < |es| && es[j] == f;
  }

  /** The printed structure of well-formed values is equality up to key order. */
  lemma {:induction false} PrintsAsIsEquality(a: Json, b: Json)
    requires WellFormed(a) && WellFormed(b)
    ensures PrintsAs(a, b) <==> EqualUpToOrder(a, b)
    decreases a
  {
    if a.JArray? && b.JArray? {
      ItemsPairwise(a.items, b.items);
      hide ItemsPrintAs;
      if |a.items| == |b.items| {
        forall i | 0 <= i < |a.items|
          ensures PrintsAs(a.items[i], b.items[i]) <==> EqualUpToOrder(a.items[i], b.items[i])
        {
          PrintsAsIsEquality(a.items[i], b.items[i]);
        }
      }
    } else if a.JObject? && b.JObject? {
      forall e, f | e in a.entries && f in b.entries
        ensures PrintsAs(e.value, f.value) <==> EqualUpToOrder(e.value, f.value)
      {
        PrintsAsIsEquality(e.value, f.value);
      }
      ObjectsAgree(a, b);
    }
  }

  lemma ObjectsAgree(a: Json, b: Json)
    requires a.JObject? && b.JObject? && DistinctKeys(a.entries) && DistinctKeys(b.entries)
    requires forall e, f :: e in a.entries && f in b.entries ==>
      (PrintsAs(e.value, f.value) <==> EqualUpToOrder(e.value, f.value))
    ensures PrintsAs(a, b) <==> EqualUpToOrder(a, b)
  {
    var x, y := Ordered(a.entries), Ordered(b.entries);
    OrderedFacts(a.entries);
    OrderedFacts(b.entries);
    EntriesPairwise(x, y);
    assert PrintsAs(a, b) <==> EntriesPrintAs(x, y);
    hide PrintsAs, Ordered, EntriesPrintAs, SortedBy;
    if EntriesPrintAs(x, y) { PrintedIsEqual(a, b, x, y); }
    if EqualUpToOrder(a, b) { EqualIsPrinted(a, b, x, y); }
  }

  lemma PrintedIsEqual(a: Json, b: Json, x: seq<Entry>, y: seq<Entry>)
    requires a.JObject? && b.JObject?
    requires forall e, f :: e in a.entries && f in b.entries ==>
      (PrintsAs(e.value, f.value) <==> EqualUpToOrder(e.value, f.value))
    requires forall e :: e in x <==> e in a.entries && IsDefined(e)
    requires forall e :: e in y <==> e in b.entries && IsDefined(e)
    requires |x| == |y| && forall i :: 0 <= i < |x| ==> x[i].key == y[i].key && PrintsAs(x[i].value, y[i].value)
    ensures EachHasEqual(a.entries, b.entries) && KeysWithin(b.entries, a.entries)
  {
    hide PrintsAs, EqualUpToOrder;
    forall e | e in a.entries && IsDefined(e)
      ensures exists f :: f in b.entries && IsDefined(f) && f.key == e.key && EqualUpToOrder(e.value, f.value)
    {
      var i :| 0 <= i < |x| && x[i] == e;
      assert y[i] in y;
    }
    forall f | f in b.entries && IsDefined(f)
      ensures exists e :: e in a.entries && IsDefined(e) && e.key == f.key
    {
      var i :| 0 <= i < |y| && y[i] == f;
      assert x[i] in x;
    }
  }

  lemma Partner(x: seq<Entry>, y: seq<Entry>, e: Entry) returns (f: Entry)
    requires EachHasEqual(x, y) && e in x && IsDefined(e)
    ensures f in y && IsDefined(f) && f.key == e.key && EqualUpToOrder(e.value, f.value)
  {
    hide EqualUpToOrder;
    f :| f in y && IsDefined(f) && f.key == e.key && EqualUpToOrder(e.value, f.value);
  }

  /** Objects equal up to key order print the same keys. */
  lemma EqualKeys(a: Json, b: Json, x: seq<Entry>, y: seq<Entry>)
    requires a.JObject? && b.JObject? && EachHasEqual(a.entries, b.entries) && KeysWithin(b.entries, a.entries)
    requires forall e :: e in x <==> e in a.entries && IsDefined(e)
    requires forall e :: e in y <==> e in b.entries && IsDefined(e)
    ensures KeySet(x) == KeySet(y)
  {
    hide EqualUpToOrder, EachHasEqual;
    forall k
      ensures k in KeySet(x) <==> k in KeySet(y)
    {
      if k in KeySet(x) {
        var e :| e in x && e.key == k;
        var f := Partner(a.entries, b.entries, e);
        assert f in y;
      }
      if k in KeySet(y) {
        var f :| f in y && f.key == k;
        var e :| e in a.entries && IsDefined(e) && e.key == f.key;
        assert e in x;
      }
    }
  }

  lemma EqualIsPrinted(a: Json, b: Json, x: seq<Entry>, y: seq<Entry>)
    requires a.JObject? && b.JObject? && EachHasEqual(a.entries, b.entries) && KeysWithin(b.entries, a.entries)
    requires DistinctKeys(b.entries)
    requires forall e, f :: e in a.entries && f in b.entries ==>
      (PrintsAs(e.value, f.value) <==> EqualUpToOrder(e.value, f.value))
    requires forall e :: e in x <==> e in a.entries && IsDefined(e)
    requires forall e :: e in y <==> e in b.entries && IsDefined(e)
    requires SortedBy(BY_KEY, x) && SortedBy(BY_KEY, y) && DistinctKeys(x) && DistinctKeys(y)
    ensures |x| == |y| && forall i :: 0 <= i < |x| ==> x[i].key == y[i].key && PrintsAs(x[i].value, y[i].value)
  {
    hide PrintsAs, SortedBy, EqualUpToOrder, EachHasEqual, KeysWithin;
    EqualKeys(a, b, x, y);
    SameKeysSamePlaces(x, y);
    hide KeySet, DistinctKeys;
    forall i | 0 <= i < |x|
      ensures PrintsAs(x[i].value, y[i].value)
    {
      assert x[i] in x && y[i] in y;
      var f := Partner(a.entries, b.entries, x[i]);
      SameKey(b.entries, f, y[i]);
    }
  }

  /** The canonical text identifies a value exactly up to object key order. */
  lemma CanonicalTextIsIdentity(a: Json, b: Json)
    requires WellFormed(a) && WellFormed(b)
    ensures Canon(a) == Canon(b) <==> EqualUpToOrder(a, b)
  {
    CanonIsPrinting(a, b);
    PrintsAsIsEquality(a, b);
  }

  // ---------------------------------------------------------------- the dedupe key

  const NEWLINE: CodeUnit := 10

  /** The text that is hashed: the integration, a newline, and the canonical input. */
  function InputText(integrationId: Text, input: Json): Text {
    integrationId + [NEWLINE] + Canon(input)
  }

  /** No canonical text contains a line break, so it can be told from the id in front of it. */
  lemma {:induction false} CanonPrintable(v: Json)
    ensures Printable(Canon(v))
    decreases Size(v), 1
  {
    match v
    case JString(s) =>
      EscapedPrintable(s);
      hide Escaped;
    case JArray(items) =>
      ItemsPrintable(items);
      WrappedPrintable(OPEN_BRACKET, CanonItems(items), CLOSE_BRACKET);
    case JObject(entries) =>
      SizeOrdered(entries);
      EntriesPrintable(Ordered(entries));
      WrappedPrintable(OPEN_BRACE, CanonEntries(Ordered(entries)), CLOSE_BRACE);
    case _ =>
  }

  lemma {:induction false} ItemsPrintable(items: seq<Json>)
    ensures Printable(CanonItems(items))
    decreases SizeItems(items), 0
  {
    hide Canon;
    if items != [] {
      CanonPrintable(items[0]);
      ItemsPrintable(items[1..]);
      JoinedPrintable(Canon(items[0]), COMMA, CanonItems(items[1..]));
    }
  }

  lemma {:induction false} EntriesPrintable(es: seq<Entry>)
    ensures Printable(CanonEntries(es))
    decreases SizeEntries(es), 0
  {
    hide Canon, Quote, Printable;
    if es == [] {
      EmptyPrintable();
    } else {
      CanonPrintable(es[0].value);
      QuotePrintable(es[0].key);
      EntriesPrintable(es[1..]);
      var first := Quote(es[0].key) + [COLON] + Canon(es[0].value);
      JoinedPrintable(Quote(es[0].key), COLON, Canon(es[0].value));
      JoinedPrintable(first, COMMA, CanonEntries(es[1..]));
      if |es| == 1 { assert CanonEntries(es) == first; }
    }
  }

  lemma EmptyPrintable()
    ensures Printable([])
  {
  }

  lemma QuotePrintable(s: Text)
    ensures Printable(Quote(s))
  {
    hide Escaped;
    EscapedPrintable(s);
    WrappedPrintable(QUOTE, Escaped(s), QUOTE);
  }

  /** Two runs share a dedupe text exactly when they ask the same integration for the same input. */
  lemma DedupeTextIsIdentity(i: Text, a: Json, j: Text, b: Json)
    requires WellFormed(a) && WellFormed(b)
    ensures InputText(i, a) == InputText(j, b) <==> i == j && EqualUpToOrder(a, b)
    ensures InputText(i, a)[..|i|] == i && InputText(i, a)[|i|] as int == 10 && InputText(i, a)[|i| + 1..] == Canon(a)
  {
    CanonicalTextIsIdentity(a, b);
    CanonPrintable(a);
    CanonPrintable(b);
    hide Canon, EqualUpToOrder;
    if InputText(i, a) == InputText(j, b) {
      LastLineAgrees(i, Canon(a), j, Canon(b));
    }
  }

  lemma LastLineAgrees(i: Text, x: Text, j: Text, y: Text)
    requires i + [NEWLINE] + x == j + [NEWLINE] + y && Printable(x) && Printable(y)
    ensures i == j && x == y
  {
    var l := i + [NEWLINE] + x;
    LastLineNotLonger(i, x, j, y);
    LastLineNotLonger(j, y, i, x);
    assert i == l[..|i|] && j == l[..|j|];
    assert x == l[|i| + 1..] && y == l[|j| + 1..];
  }

  lemma LastLineNotLonger(i: Text, x: Text, j: Text, y: Text)
    requires i + [NEWLINE] + x == j + [NEWLINE] + y && Printable(y)
    ensures |i| <= |j|
  {
    var r := j + [NEWLINE] + y;
    assert forall k :: |j| < k < |r| ==> r[k] == y[k - |j| - 1];
    assert (i + [NEWLINE] + x)[|i|] == NEWLINE;
  }
}
