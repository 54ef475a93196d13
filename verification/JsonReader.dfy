/** A reader of JSON texts, after the grammar of RFC 8259, and what it makes of canonical texts. */
module JsonReader {
  import opened CanonicalJson
  import opened JsonText
  import opened Options

  datatype Value =
    | Null
    | Bool(b: bool)
    | Number(text: Text)
    | Str(s: Text)
    | Arr(items: seq<Value>)
    | Obj(members: seq<Member>)

  datatype Member = Member(name: Text, value: Value)

  /** What was read, and what is left of the text. */
  datatype Read<T> = Read(value: T, rest: Text)

  // ---------------------------------------------------------------- strings

  function HexValue(u: CodeUnit): Option<nat> {
    if 48 <= u <= 57 then Some(u - 48)
    else if 97 <= u <= 102 then Some(u - 87)
    else if 65 <= u <= 70 then Some(u - 55)
    else None
  }

  /** Four hexadecimal digits as a code unit. */
  function HexUnit(t: Text): Option<CodeUnit> {
    if |t| < 4 then None
    else
      match (HexValue(t[0]), HexValue(t[1]), HexValue(t[2]), HexValue(t[3]))
      case (Some(a), Some(b), Some(c), Some(d)) =>
        if a < 16 && b < 16 && c < 16 && d < 16 then Some(4096 * a + 256 * b + 16 * c + d) else None
      case _ => None
  }

  /** What follows a backslash, other than the four-digit form. */
  function Unescape(u: CodeUnit): Option<CodeUnit> {
    if u == 34 || u == 92 || u == 47 then Some(u)
    else if u == 98 then Some(8)
    else if u == 102 then Some(12)
    else if u == 110 then Some(10)
    else if u == 114 then Some(13)
    else if u == 116 then Some(9)
    else None
  }

  /** The code units up to the closing quotation mark. Control characters must be escaped. */
  function ReadUnits(t: Text): (r: Option<Read<Text>>)
    ensures r.Some? ==> |r.value.rest| < |t|
  {
    if t == [] then None
    else if t[0] == 34 then Some(Read([], t[1..]))
    else if t[0] < 32 then None
    else if t[0] != 92 then Ahead(t[0], ReadUnits(t[1..]))
    else if |t| < 2 then None
    else if t[1] == 117 then
      match HexUnit(t[2..])
      case Some(u) => Ahead(u, ReadUnits(t[6..]))
      case None => None
    else
      match Unescape(t[1])
      case Some(u) => Ahead(u, ReadUnits(t[2..]))
      case None => None
  }

  function Ahead(u: CodeUnit, r: Option<Read<Text>>): (r': Option<Read<Text>>)
    ensures r'.Some? <==> r.Some?
    ensures r.Some? ==> r'.value.rest == r.value.rest
  {
    match r
    case Some(Read(units, rest)) => Some(Read([u] + units, rest))
    case None => None
  }

  // ---------------------------------------------------------------- values

  function NumeralLength(t: Text): (n: nat)
    ensures n <= |t|
  {
    if t == [] || !IsNumeralUnit(t[0]) then 0 else 1 + NumeralLength(t[1..])
  }

  function ReadValue(t: Text): (r: Option<Read<Value>>)
    ensures r.Some? ==> |r.value.rest| < |t|
    decreases |t|, 1
  {
    if |t| >= 4 && t[..4] == [110, 117, 108, 108] then Some(Read(Null, t[4..]))
    else if |t| >= 4 && t[..4] == [116, 114, 117, 101] then Some(Read(Bool(true), t[4..]))
    else if |t| >= 5 && t[..5] == [102, 97, 108, 115, 101] then Some(Read(Bool(false), t[5..]))
    else if t == [] then None
    else if t[0] == 34 then
      match ReadUnits(t[1..])
      case Some(Read(s, rest)) => Some(Read(Str(s), rest))
      case None => None
    else if t[0] == 91 then
      if |t| >= 2 && t[1] == 93 then Some(Read(Arr([]), t[2..]))
      else
        match ReadItems(t[1..])
        case Some(Read(items, rest)) => Some(Read(Arr(items), rest))
        case None => None
    else if t[0] == 123 then
      if |t| >= 2 && t[1] == 125 then Some(Read(Obj([]), t[2..]))
      else
        match ReadMembers(t[1..])
        case Some(Read(members, rest)) => Some(Read(Obj(members), rest))
        case None => None
    else if IsDigit(t[0]) || t[0] == 45 then Some(Read(Number(t[..NumeralLength(t)]), t[NumeralLength(t)..]))
    else None
  }

  /** Values with commas between them, up to the closing bracket. */
  function ReadItems(t: Text): (r: Option<Read<seq<Value>>>)
    ensures r.Some? ==> |r.value.rest| < |t|
    decreases |t|, 2
  {
    match ReadValue(t)
    case None => None
    case Some(Read(v, rest)) =>
      if rest == [] then None
      else if rest[0] == 93 then Some(Read([v], rest[1..]))
      else if rest[0] != 44 then None
      else
        match ReadItems(rest[1..])
        case None => None
        case Some(Read(vs, after)) => Some(Read([v] + vs, after))
  }

  /** Members with commas between them, up to the closing brace. */
  function ReadMembers(t: Text): (r: Option<Read<seq<Member>>>)
    ensures r.Some? ==> |r.value.rest| < |t|
    decreases |t|, 2
  {
    match ReadMember(t)
    case None => None
    case Some(Read(m, rest)) =>
      if rest == [] then None
      else if rest[0] == 125 then Some(Read([m], rest[1..]))
      else if rest[0] != 44 then None
      else
        match ReadMembers(rest[1..])
        case None => None
        case Some(Read(ms, after)) => Some(Read([m] + ms, after))
  }

  /** A name, a colon and a value. */
  function ReadMember(t: Text): (r: Option<Read<Member>>)
    ensures r.Some? ==> |r.value.rest| < |t|
    decreases |t|, 0
  {
    if t == [] || t[0] != 34 then None
    else
      match ReadUnits(t[1..])
      case None => None
      case Some(Read(name, rest)) =>
        if rest == [] || rest[0] != 58 then None
        else
          match ReadValue(rest[1..])
          case None => None
          case Some(Read(v, after)) => Some(Read(Member(name, v), after))
  }

  /** The value of a whole text. */
  function Parse(t: Text): Option<Value> {
    match ReadValue(t)
    case Some(Read(v, rest)) => if rest == [] then Some(v) else None
    case None => None
  }

  // ---------------------------------------------------------------- what a value is as JSON

  /** As `JSON` knows it: nothing is undefined, and members come in the order in which they are printed. */
  function AsJson(v: Json): Value
    decreases Size(v), 1
  {
    match v
    case JUndefined => Null
    case JNull => Null
    case JBool(b) => Bool(b)
    case JNumber(n) => Number(n)
    case JString(s) => Str(s)
    case JArray(items) => Arr(ItemsAsJson(items))
    case JObject(entries) =>
      SizeOrdered(entries);
      Obj(EntriesAsJson(Ordered(entries)))
  }

  function ItemsAsJson(items: seq<Json>): (vs: seq<Value>)
    ensures |vs| == |items|
    decreases SizeItems(items), 0
  {
    if items == [] then [] else [AsJson(items[0])] + ItemsAsJson(items[1..])
  }

  function EntriesAsJson(es: seq<Entry>): (ms: seq<Member>)
    ensures |ms| == |es| && forall i :: 0 <= i < |es| ==> ms[i].name == es[i].key
    decreases SizeEntries(es), 0
  {
    if es == [] then [] else [Member(es[0].key, AsJson(es[0].value))] + EntriesAsJson(es[1..])
  }

  // ---------------------------------------------------------------- reading strings back

  lemma HexReads(d: nat)
    requires d < 16
    ensures HexValue(Hex(d)) == Some(d)
  {
  }

  lemma Hex4Reads(u: CodeUnit, r: Text)
    ensures HexUnit(Hex4(u) + r) == Some(u)
  {
    var t := Hex4(u) + r;
    assert t[0] == Hex4(u)[0] && t[1] == Hex4(u)[1] && t[2] == Hex4(u)[2] && t[3] == Hex4(u)[3];
    HexReads(u / 16 / 16 / 16);
    HexReads(u / 16 / 16 % 16);
    HexReads(u / 16 % 16);
    HexReads(u % 16);
    hide Hex, HexValue;
  }

  /** One piece of an escaped string is read as the units it stands for. */
  lemma PieceReads(s: Text, r: Text)
    requires s != []
    ensures var n := PieceLength(s);
      ReadUnits(Piece(s) + r) == (if n == 2 then Ahead(s[0], Ahead(s[1], ReadUnits(r))) else Ahead(s[0], ReadUnits(r)))
  {
    var t := Piece(s) + r;
    if StartsWithPair(s) {
      assert t[0] == s[0] && t[1..] == [s[1]] + r && t[1..][0] == s[1] && t[1..][1..] == r;
    } else if Short(s[0]) != 0 {
      assert t[0] == 92 && t[1] == Short(s[0]) && t[2..] == r;
      ShortReads(s[0]);
    } else if s[0] < 32 || IsHigh(s[0]) || IsLow(s[0]) {
      assert t[0] == 92 && t[1] == 117 && t[2..] == Hex4(s[0]) + r && t[6..] == r;
      Hex4Reads(s[0], r);
    } else {
      assert t[0] == s[0] && t[1..] == r;
    }
  }

  lemma ShortReads(u: CodeUnit)
    requires Short(u) != 0
    ensures Unescape(Short(u)) == Some(u) && Short(u) != 117
  {
  }

  lemma {:induction false} EscapedReads(s: Text, r: Text)
    ensures ReadUnits(Escaped(s) + [QUOTE] + r) == Some(Read(s, r))
    decreases |s|
  {
    hide *;
    if s == [] {
      EndReads(r);
    } else {
      var n := PieceLength(s);
      EscapedSplits(s, r);
      EscapedReads(s[n..], r);
      PieceReads(s, Escaped(s[n..]) + [QUOTE] + r);
      PieceAhead(s, r);
    }
  }

  /** The seven characters that have a letter of their own are escaped with it; other control characters, and
    * surrogates without a partner, with four lower-case hexadecimal digits; nothing else is escaped.
    */
  lemma EscapesAreFew(u: CodeUnit)
    ensures var text := Escape(u);
      if u in {8, 9, 10, 12, 13, 34, 92} then |text| == 2 && text[0] == 92 && Unescape(text[1]) == Some(u)
      else if u < 32 || 0xD800 <= u < 0xE000 then
        && |text| == 6 && text[0] == 92 && text[1] == 117 && HexUnit(text[2..]) == Some(u)
        && forall k :: 2 <= k < 6 ==> 48 <= text[k] <= 57 || 97 <= text[k] <= 102
      else text == [u]
  {
    if u !in {8, 9, 10, 12, 13, 34, 92} && (u < 32 || 0xD800 <= u < 0xE000) {
      Hex4Reads(u, []);
      assert Hex4(u) + [] == Hex4(u);
      assert Escape(u)[2..] == Hex4(u);
      assert forall k :: 2 <= k < 6 ==> Escape(u)[k] == Hex4(u)[k - 2];
    }
  }

  lemma EndReads(r: Text)
    ensures ReadUnits(Escaped([]) + [QUOTE] + r) == Some(Read([], r))
  {
    assert Escaped([]) + [QUOTE] + r == [QUOTE] + r;
  }

  lemma PieceAhead(s: Text, r: Text)
    requires s != []
    ensures var n := PieceLength(s);
      (if n == 2 then Ahead(s[0], Ahead(s[1], Some(Read(s[n..], r)))) else Ahead(s[0], Some(Read(s[n..], r)))) == Some(Read(s, r))
  {
    var n := PieceLength(s);
    assert s == if n == 2 then [s[0]] + ([s[1]] + s[2..]) else [s[0]] + s[1..];
  }

  lemma QuoteReads(s: Text, r: Text)
    ensures ReadUnits((Quote(s) + r)[1..]) == Some(Read(s, r))
    ensures (Quote(s) + r)[0] == 34
  {
    EscapedReads(s, r);
    assert (Quote(s) + r)[1..] == Escaped(s) + [QUOTE] + r;
    hide ReadUnits, Escaped;
  }

  // ---------------------------------------------------------------- reading values back

  lemma {:induction false} NumeralLengthAll(m: Text, r: Text)
    requires forall i :: 0 <= i < |m| ==> IsNumeralUnit(m[i])
    requires Delimited(r)
    ensures NumeralLength(m + r) == |m|
  {
    if m == [] {
      assert m + r == r;
    } else {
      assert (m + r)[1..] == m[1..] + r;
      NumeralLengthAll(m[1..], r);
    }
  }

  lemma NumeralReads(n: Numeral, r: Text)
    requires Delimited(r)
    ensures ReadValue(n + r) == Some(Read(Number(n), r))
  {
    var t := n + r;
    NumeralLengthAll(n, r);
    assert t[0] == n[0] && t[..|n|] == n && t[|n|..] == r;
    assert |t| >= 4 ==> t[..4][0] == t[0];
    assert |t| >= 5 ==> t[..5][0] == t[0];
    hide NumeralLength, IsNumeralUnit;
  }

  lemma NullReads(r: Text)
    ensures ReadValue(NULL_TEXT + r) == Some(Read(Null, r))
  {
    var t := NULL_TEXT + r;
    assert t[..4] == NULL_TEXT && t[4..] == r;
  }

  lemma BoolReads(b: bool, r: Text)
    ensures ReadValue((if b then TRUE_TEXT else FALSE_TEXT) + r) == Some(Read(Bool(b), r))
  {
    if b {
      var t := TRUE_TEXT + r;
      assert t[..4] == TRUE_TEXT && t[4..] == r && t[..4][0] == 116;
    } else {
      var t := FALSE_TEXT + r;
      assert t[..5] == FALSE_TEXT && t[5..] == r && t[..4][0] == 102;
    }
  }

  /** None of the three words begins here. */
  lemma NoWord(t: Text)
    requires t != [] && t[0] != 110 && t[0] != 116 && t[0] != 102
    ensures |t| >= 4 ==> t[..4] != [110, 117, 108, 108] && t[..4] != [116, 114, 117, 101]
    ensures |t| >= 5 ==> t[..5] != [102, 97, 108, 115, 101]
  {
    if |t| >= 4 { assert t[..4][0] == t[0]; }
    if |t| >= 5 { assert t[..5][0] == t[0]; }
  }

  lemma StringReads(s: Text, r: Text)
    ensures ReadValue(Quote(s) + r) == Some(Read(Str(s), r))
  {
    QuoteReads(s, r);
    NoWord(Quote(s) + r);
    hide ReadUnits, Quote;
  }

  /** A value is read back from the front of any text that goes on with a delimiter. */
  lemma {:induction false} CanonReads(v: Json, r: Text)
    requires Delimited(r)
    ensures ReadValue(Canon(v) + r) == Some(Read(AsJson(v), r))
    decreases Size(v), 1
  {
    hide ReadValue, Quote, CanonItems, CanonEntries, Ordered, Delimited;
    match v
    case JUndefined => NullReads(r);
    case JNull => NullReads(r);
    case JBool(b) => BoolReads(b, r);
    case JNumber(n) => NumeralReads(n, r);
    case JString(s) => StringReads(s, r);
    case JArray(items) =>
      if items != [] { ItemsRead(items, r); }
      ArrayReads(items, r);
    case JObject(entries) =>
      SizeOrdered(entries);
      if Ordered(entries) != [] { EntriesRead(Ordered(entries), r); }
      ObjectReads(Ordered(entries), r);
  }

  lemma ArrayReads(items: seq<Json>, r: Text)
    requires items != [] ==> ReadItems(CanonItems(items) + [CLOSE_BRACKET] + r) == Some(Read(ItemsAsJson(items), r))
    ensures ReadValue([OPEN_BRACKET] + CanonItems(items) + [CLOSE_BRACKET] + r) == Some(Read(Arr(ItemsAsJson(items)), r))
  {
    var t := [OPEN_BRACKET] + CanonItems(items) + [CLOSE_BRACKET] + r;
    assert t[0] == 91 && t[1..] == CanonItems(items) + [CLOSE_BRACKET] + r;
    NoWord(t);
    ItemsHead(items, r);
    if items == [] {
      assert CanonItems(items) == [] && t[2..] == r;
    }
    hide CanonItems, ReadItems;
    assert t[1] == t[1..][0];
  }

  lemma ObjectReads(es: seq<Entry>, r: Text)
    requires es != [] ==> ReadMembers(CanonEntries(es) + [CLOSE_BRACE] + r) == Some(Read(EntriesAsJson(es), r))
    ensures ReadValue([OPEN_BRACE] + CanonEntries(es) + [CLOSE_BRACE] + r) == Some(Read(Obj(EntriesAsJson(es)), r))
  {
    var t := [OPEN_BRACE] + CanonEntries(es) + [CLOSE_BRACE] + r;
    assert t[0] == 123 && t[1..] == CanonEntries(es) + [CLOSE_BRACE] + r;
    NoWord(t);
    EntriesHead(es, r);
    if es == [] {
      assert CanonEntries(es) == [] && t[2..] == r;
    }
    hide CanonEntries, ReadMembers;
    assert t[1] == t[1..][0];
  }

  lemma AfterDelimits(more: bool, rest: Text, close: CodeUnit, r: Text)
    requires close == CLOSE_BRACKET || close == CLOSE_BRACE
    ensures var after := After(more, rest, close, r);
      && Delimited(after) && after != []
      && after[0] == (if more then 44 else close)
      && after[1..] == if more then rest + [close] + r else r
  {
    if more { assert [COMMA] + rest + [close] + r == [COMMA] + (rest + [close] + r); }
  }

  lemma {:induction false} ItemsRead(items: seq<Json>, r: Text)
    requires items != []
    ensures ReadItems(CanonItems(items) + [CLOSE_BRACKET] + r) == Some(Read(ItemsAsJson(items), r))
    decreases SizeItems(items), 0
  {
    hide ReadValue, Canon, CanonItems, After, Delimited;
    var after := After(|items| > 1, CanonItems(items[1..]), CLOSE_BRACKET, r);
    ItemsSplit(items, r);
    AfterDelimits(|items| > 1, CanonItems(items[1..]), CLOSE_BRACKET, r);
    CanonReads(items[0], after);
    if |items| > 1 {
      ItemsRead(items[1..], r);
    } else {
      assert ItemsAsJson(items) == [AsJson(items[0])];
    }
  }

  lemma {:induction false} EntriesRead(es: seq<Entry>, r: Text)
    requires es != []
    ensures ReadMembers(CanonEntries(es) + [CLOSE_BRACE] + r) == Some(Read(EntriesAsJson(es), r))
    decreases SizeEntries(es), 0
  {
    hide ReadValue, ReadMember, Canon, CanonEntries, After, Delimited, Quote;
    var after := After(|es| > 1, CanonEntries(es[1..]), CLOSE_BRACE, r);
    EntriesSplit(es, r);
    AfterDelimits(|es| > 1, CanonEntries(es[1..]), CLOSE_BRACE, r);
    CanonReads(es[0].value, after);
    MemberReads(es[0], after);
    if |es| > 1 {
      EntriesRead(es[1..], r);
    } else {
      assert EntriesAsJson(es) == [Member(es[0].key, AsJson(es[0].value))];
    }
  }

  lemma MemberReads(e: Entry, after: Text)
    requires ReadValue(Canon(e.value) + after) == Some(Read(AsJson(e.value), after))
    ensures ReadMember(Quote(e.key) + ([COLON] + (Canon(e.value) + after))) == Some(Read(Member(e.key, AsJson(e.value)), after))
  {
    hide ReadValue, Canon, Quote, ReadUnits;
    var rest := [COLON] + (Canon(e.value) + after);
    QuoteReads(e.key, rest);
    assert rest[0] == 58 && rest[1..] == Canon(e.value) + after;
  }

  /** The canonical text is JSON, and a reader finds in it the value: undefined as null, and objects with their
    * defined members.
    */
  lemma CanonicalTextIsJson(v: Json)
    ensures Parse(Canon(v)) == Some(AsJson(v))
  {
    CanonReads(v, []);
    assert Canon(v) + [] == Canon(v);
    hide ReadValue, Canon, AsJson;
  }

  // ---------------------------------------------------------------- the order of members

  /** At the first place where two names differ, the one that has ended, or has the smaller code unit there, comes
    * first.
    */
  ghost predicate ComesBefore(a: Text, b: Text) {
    exists k: nat :: DiffersAt(a, b, k)
  }

  predicate DiffersAt(a: Text, b: Text, k: nat) {
    k <= |a| && k < |b| && a[..k] == b[..k] && (k == |a| || a[k] < b[k])
  }

  lemma {:induction false} LeqComesBefore(a: Text, b: Text)
    requires KeyLeq(a, b) && a != b
    ensures ComesBefore(a, b)
  {
    if a == [] {
      assert DiffersAt(a, b, 0);
    } else if a[0] < b[0] {
      assert DiffersAt(a, b, 0);
    } else {
      assert a == [a[0]] + a[1..] && b == [b[0]] + b[1..];
      LeqComesBefore(a[1..], b[1..]);
      var k: nat :| DiffersAt(a[1..], b[1..], k);
      assert a[..k + 1] == [a[0]] + a[1..][..k] && b[..k + 1] == [b[0]] + b[1..][..k];
      assert DiffersAt(a, b, k + 1);
    }
  }

  lemma {:induction false} EntriesAt(es: seq<Entry>, i: nat)
    requires i < |es|
    ensures EntriesAsJson(es)[i] == Member(es[i].key, AsJson(es[i].value))
    decreases |es|
  {
    if i > 0 { EntriesAt(es[1..], i - 1); }
  }

  /** An object reads as its defined members, each once, in ascending order of their names by code unit. */
  lemma MembersAreInOrder(es: seq<Entry>)
    requires DistinctKeys(es)
    ensures var ms := AsJson(JObject(es)).members;
      && (forall i, j :: 0 <= i < j < |ms| ==> ComesBefore(ms[i].name, ms[j].name))
      && (forall m :: m in ms <==> exists e :: e in es && e.value != JUndefined && m == Member(e.key, AsJson(e.value)))
  {
    OrderedFacts(es);
    var x, ms := Ordered(es), EntriesAsJson(Ordered(es));
    hide Ordered, AsJson, KeyLeq;
    forall i, j | 0 <= i < j < |ms|
      ensures ComesBefore(ms[i].name, ms[j].name)
    {
      assert BY_KEY(x[i], x[j]);
      LeqComesBefore(x[i].key, x[j].key);
    }
    forall m
      ensures m in ms <==> exists e :: e in es && e.value != JUndefined && m == Member(e.key, AsJson(e.value))
    {
      if m in ms {
        var i :| 0 <= i < |ms| && ms[i] == m;
        EntriesAt(x, i);
        assert x[i] in x;
      }
      if e :| e in es && e.value != JUndefined && m == Member(e.key, AsJson(e.value)) {
        var i :| 0 <= i < |x| && x[i] == e;
        EntriesAt(x, i);
      }
    }
  }
}
