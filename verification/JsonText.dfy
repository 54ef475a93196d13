/** JSON values as JavaScript sees them, and the text of strings and numbers. Strings are sequences of
  * UTF-16 code units.
  */
module JsonText {
  type CodeUnit = u: int | 0 <= u < 0x1_0000
  type Text = seq<CodeUnit>

  const QUOTE: CodeUnit := 34
  const COMMA: CodeUnit := 44
  const COLON: CodeUnit := 58
  const BACKSLASH: CodeUnit := 92
  const OPEN_BRACKET: CodeUnit := 91
  const CLOSE_BRACKET: CodeUnit := 93
  const OPEN_BRACE: CodeUnit := 123
  const CLOSE_BRACE: CodeUnit := 125

  // ---------------------------------------------------------------- numbers

  predicate IsDigit(u: CodeUnit) { 48 <= u <= 57 }

  /** Digits, sign, point and exponent. */
  predicate IsNumeralUnit(u: CodeUnit) {
    IsDigit(u) || u == 45 || u == 43 || u == 46 || u == 101
  }

  /** The shape of a printed number, as far as telling it from its surroundings needs. */
  predicate IsNumeral(t: Text) {
    t != [] && (IsDigit(t[0]) || t[0] == 45) && forall i :: 0 <= i < |t| ==> IsNumeralUnit(t[i])
  }

  type Numeral = t: Text | IsNumeral(t) witness [48]

  /** What may follow a value: nothing, or a comma or closing bracket. */
  predicate Delimited(rest: Text) {
    rest == [] || rest[0] == COMMA || rest[0] == CLOSE_BRACKET || rest[0] == CLOSE_BRACE
  }

  lemma NumeralEnds(m: Numeral, r: Text, n: Numeral, q: Text)
    requires m + r == n + q && Delimited(r) && Delimited(q)
    ensures m == n && r == q
  {
    var l := m + r;
    NumeralNotLonger(m, r, n, q);
    NumeralNotLonger(n, q, m, r);
    assert m == l[..|m|] && n == l[..|n|];
    assert r == l[|m|..] && q == l[|n|..];
  }

  lemma NumeralNotLonger(m: Numeral, r: Text, n: Numeral, q: Text)
    requires m + r == n + q && Delimited(r)
    ensures |n| <= |m|
  {
    assert |m| < |n| ==> IsNumeralUnit((n + q)[|m|]);
    assert |m| < |m + r| ==> (m + r)[|m|] == r[0];
  }

  // ---------------------------------------------------------------- strings

  function Hex(d: int): CodeUnit
    requires 0 <= d < 16
  {
    if d < 10 then 48 + d else 87 + d
  }

  function Hex4(u: CodeUnit): Text {
    [Hex(u / 16 / 16 / 16), Hex(u / 16 / 16 % 16), Hex(u / 16 % 16), Hex(u % 16)]
  }

  predicate IsHigh(u: CodeUnit) { 0xD800 <= u < 0xDC00 }
  predicate IsLow(u: CodeUnit) { 0xDC00 <= u < 0xE000 }

  /** Second unit of a two-unit escape, or 0 for units that have none. */
  function Short(u: CodeUnit): CodeUnit {
    if u == QUOTE then QUOTE
    else if u == BACKSLASH then BACKSLASH
    else if u == 8 then 98
    else if u == 9 then 116
    else if u == 10 then 110
    else if u == 12 then 102
    else if u == 13 then 114
    else 0
  }

  /** One code unit inside a quoted string, when it is not part of a surrogate pair. */
  function Escape(u: CodeUnit): Text {
    if Short(u) != 0 then [BACKSLASH, Short(u)]
    else if u < 32 || IsHigh(u) || IsLow(u) then [BACKSLASH, 117] + Hex4(u)
    else [u]
  }

  predicate StartsWithPair(s: Text) {
    |s| >= 2 && IsHigh(s[0]) && IsLow(s[1])
  }

  /** How many code units the first printed piece covers, and its text. */
  function PieceLength(s: Text): nat
    requires s != []
    ensures 1 <= PieceLength(s) <= |s|
  {
    if StartsWithPair(s) then 2 else 1
  }

  function Piece(s: Text): Text
    requires s != []
  {
    if StartsWithPair(s) then s[..2] else Escape(s[0])
  }

  function Escaped(s: Text): Text {
    if s == [] then [] else Piece(s) + Escaped(s[PieceLength(s)..])
  }

  /** `JSON.stringify` of a string. */
  function Quote(s: Text): Text {
    [QUOTE] + Escaped(s) + [QUOTE]
  }

  lemma HexInjective(a: int, b: int)
    requires 0 <= a < 16 && 0 <= b < 16 && Hex(a) == Hex(b)
    ensures a == b
  {
  }

  lemma Hex4Injective(u: CodeUnit, v: CodeUnit)
    requires Hex4(u) == Hex4(v)
    ensures u == v
  {
    var p, q := Hex4(u), Hex4(v);
    assert p[0] == q[0] && p[1] == q[1] && p[2] == q[2] && p[3] == q[3];
    HexInjective(u / 16 / 16 / 16, v / 16 / 16 / 16);
    HexInjective(u / 16 / 16 % 16, v / 16 / 16 % 16);
    HexInjective(u / 16 % 16, v / 16 % 16);
    HexInjective(u % 16, v % 16);
    hide Hex;
  }

  /** The classes of pieces, told apart by their first two units. */
  lemma PieceShape(s: Text)
    requires s != []
    ensures var p := Piece(s);
      if StartsWithPair(s) then |p| == 2 && p[0] == s[0] && p[1] == s[1]
      else if Short(s[0]) != 0 then p == [BACKSLASH, Short(s[0])]
      else if s[0] < 32 || IsHigh(s[0]) || IsLow(s[0]) then p == [BACKSLASH, 117] + Hex4(s[0]) && |p| == 6
      else p == [s[0]] && s[0] != BACKSLASH && s[0] != QUOTE
  {
  }

  lemma ShortInjective(u: CodeUnit, v: CodeUnit)
    requires Short(u) == Short(v) != 0
    ensures u == v && Short(u) != 117
  {
  }

  lemma PieceHead(s: Text)
    requires s != []
    ensures Piece(s) != [] && Piece(s)[0] != QUOTE
    ensures Piece(s)[0] == BACKSLASH ==> !StartsWithPair(s) && |Piece(s)| >= 2
  {
  }

  /** Pieces form a prefix code: equal texts begin with the same piece, covering the same units. */
  lemma PiecesAgree(s: Text, x: Text, t: Text, y: Text)
    requires s != [] && t != [] && Piece(s) + x == Piece(t) + y
    ensures PieceLength(s) == PieceLength(t) && s[..PieceLength(s)] == t[..PieceLength(t)] && x == y
  {
    var l := Piece(s) + x;
    PieceShape(s);
    PieceShape(t);
    PieceHead(s);
    PieceHead(t);
    assert l[0] == Piece(s)[0] && l[0] == Piece(t)[0];
    if l[0] == BACKSLASH {
      assert l[1] == Piece(s)[1] && l[1] == Piece(t)[1];
      EscapesAgree(s, x, t, y);
    } else {
      RawPiecesAgree(s, x, t, y);
    }
  }

  lemma EscapesAgree(s: Text, x: Text, t: Text, y: Text)
    requires s != [] && t != [] && Piece(s) + x == Piece(t) + y
    requires Piece(s)[0] == BACKSLASH && Piece(t)[0] == BACKSLASH && !StartsWithPair(s) && !StartsWithPair(t)
    ensures s[0] == t[0] && x == y
  {
    var l := Piece(s) + x;
    PieceShape(s);
    PieceShape(t);
    assert l[1] == Piece(s)[1] && l[1] == Piece(t)[1];
    if l[1] == 117 {
      assert l[2..6] == Hex4(s[0]) && l[2..6] == Hex4(t[0]);
      Hex4Injective(s[0], t[0]);
    } else {
      ShortInjective(s[0], t[0]);
    }
    assert x == l[|Piece(s)|..] && y == l[|Piece(t)|..];
  }

  lemma RawPiecesAgree(s: Text, x: Text, t: Text, y: Text)
    requires s != [] && t != [] && Piece(s) + x == Piece(t) + y
    requires Piece(s)[0] != BACKSLASH && Piece(t)[0] != BACKSLASH
    ensures PieceLength(s) == PieceLength(t) && s[..PieceLength(s)] == t[..PieceLength(t)] && x == y
  {
    var l := Piece(s) + x;
    PieceShape(s);
    PieceShape(t);
    assert s[0] == l[0] == t[0];
    if StartsWithPair(s) || StartsWithPair(t) {
      assert IsHigh(s[0]);
      assert StartsWithPair(s) && StartsWithPair(t);
      assert s[1] == l[1] == t[1];
    }
    assert x == l[|Piece(s)|..] && y == l[|Piece(t)|..];
  }

  /** A quoted string can be read back from the front of any text. */
  lemma {:induction false} EscapedInjective(s: Text, x: Text, t: Text, y: Text)
    requires Escaped(s) + [QUOTE] + x == Escaped(t) + [QUOTE] + y
    ensures s == t && x == y
    decreases |s|
  {
    hide Piece, PieceLength;
    if s == [] || t == [] {
      EndsTogether(s, x, t, y);
    } else {
      var s', t' := s[PieceLength(s)..], t[PieceLength(t)..];
      EscapedSplits(s, x);
      EscapedSplits(t, y);
      PiecesAgree(s, Escaped(s') + [QUOTE] + x, t, Escaped(t') + [QUOTE] + y);
      EscapedInjective(s', x, t', y);
      assert s == s[..PieceLength(s)] + s' && t == t[..PieceLength(t)] + t';
    }
  }

  lemma EscapedSplits(s: Text, x: Text)
    requires s != []
    ensures Escaped(s) + [QUOTE] + x == Piece(s) + (Escaped(s[PieceLength(s)..]) + [QUOTE] + x)
  {
    hide Piece, PieceLength;
  }

  /** Only the end of a string prints as a bare quote. */
  lemma EscapedHead(s: Text, x: Text)
    ensures (Escaped(s) + [QUOTE] + x)[0] == QUOTE <==> s == []
  {
    if s != [] {
      EscapedSplits(s, x);
      PieceHead(s);
      hide Piece, PieceLength;
      assert (Escaped(s) + [QUOTE] + x)[0] == Piece(s)[0];
    }
  }

  lemma EndsTogether(s: Text, x: Text, t: Text, y: Text)
    requires Escaped(s) + [QUOTE] + x == Escaped(t) + [QUOTE] + y
    requires s == [] || t == []
    ensures s == t && x == y
  {
    EscapedHead(s, x);
    EscapedHead(t, y);
    assert s == t == [];
    assert x == (Escaped(s) + [QUOTE] + x)[1..] && y == (Escaped(t) + [QUOTE] + y)[1..];
  }

  lemma QuoteInjective(s: Text, x: Text, t: Text, y: Text)
    requires Quote(s) + x == Quote(t) + y
    ensures s == t && x == y
  {
    hide Escaped;
    AfterQuote(s, x);
    AfterQuote(t, y);
    EscapedInjective(s, x, t, y);
  }

  lemma AfterQuote(s: Text, x: Text)
    ensures |Quote(s) + x| > 0 && (Quote(s) + x)[1..] == Escaped(s) + [QUOTE] + x
  {
    hide Escaped;
    assert Quote(s) + x == [QUOTE] + (Escaped(s) + [QUOTE] + x);
  }

  /** Printed strings and numbers hold no control character. */
  predicate Printable(t: Text) {
    forall i :: 0 <= i < |t| ==> t[i] >= 32
  }

  lemma {:induction false} EscapedPrintable(s: Text)
    ensures Printable(Escaped(s))
    decreases |s|
  {
    if s != [] {
      EscapedPrintable(s[PieceLength(s)..]);
      PiecePrintable(s);
      hide Piece;
    }
  }

  lemma PiecePrintable(s: Text)
    requires s != []
    ensures Printable(Piece(s))
  {
  }

  lemma WrappedPrintable(first: CodeUnit, t: Text, last: CodeUnit)
    requires Printable(t) && first >= 32 && last >= 32
    ensures Printable([first] + t + [last])
  {
  }

  lemma JoinedPrintable(a: Text, sep: CodeUnit, b: Text)
    requires Printable(a) && sep >= 32 && Printable(b)
    ensures Printable(a + [sep] + b) && Printable(a + ([sep] + b))
  {
    assert a + [sep] + b == a + ([sep] + b);
  }
}
