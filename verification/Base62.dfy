/** Base-62 text of random bytes, as API tokens are printed. */
module Base62 {
  newtype byte = x: int | 0 <= x < 256

  /** The bytes as one big-endian number. */
  function Value(bytes: seq<byte>): nat {
    if bytes == [] then 0 else Value(bytes[..|bytes| - 1]) * 256 + bytes[|bytes| - 1] as nat
  }

  /** The alphabet: the ten digits, then upper case, then lower case. */
  function DigitAt(d: nat): char
    requires d < 62
  {
    if d < 10 then '0' + d as char
    else if d < 36 then 'A' + (d - 10) as char
    else 'a' + (d - 36) as char
  }

  predicate InAlphabet(c: char) {
    '0' <= c <= '9' || 'A' <= c <= 'Z' || 'a' <= c <= 'z'
  }

  /** The value of a character. */
  function DigitValue(c: char): nat {
    if '0' <= c <= '9' then c as nat - '0' as nat
    else if 'A' <= c <= 'Z' then c as nat - 'A' as nat + 10
    else if 'a' <= c <= 'z' then c as nat - 'a' as nat + 36
    else 0
  }

  /** The number a text denotes in base 62. */
  function Decode(text: string): nat {
    if text == "" then 0 else Decode(text[..|text| - 1]) * 62 + DigitValue(text[|text| - 1])
  }

  /** The digits of a number, most significant first; none for zero. */
  function Digits(n: nat): string {
    if n == 0 then "" else Digits(n / 62) + [DigitAt(n % 62)]
  }

  function Encode(bytes: seq<byte>): string {
    if Value(bytes) == 0 then "0" else Digits(Value(bytes))
  }

  method Print(bytes: seq<byte>) returns (out: string)
    ensures out == Encode(bytes)
  {
    var value: nat := 0;
    for i := 0 to |bytes|
      invariant value == Value(bytes[..i])
    {
      assert bytes[..i + 1][..i] == bytes[..i];
      value := value * 256 + bytes[i] as nat;
    }
    assert bytes[..|bytes|] == bytes;
    if value == 0 { return "0"; }
    out := "";
    ghost var all := Value(bytes);
    while value > 0
      invariant Digits(value) + out == Digits(all)
    {
      hide DigitAt;
      assert Digits(value) + out == Digits(value / 62) + ([DigitAt(value % 62)] + out);
      out := [DigitAt(value % 62)] + out;
      value := value / 62;
    }
  }

  lemma DigitReadsBack(d: nat)
    requires d < 62
    ensures DigitValue(DigitAt(d)) == d
  {
  }

  lemma {:induction false} DigitsReadBack(n: nat)
    ensures Decode(Digits(n)) == n
  {
    if n != 0 {
      DigitsReadBack(n / 62);
      DigitReadsBack(n % 62);
      hide DigitValue, DigitAt;
      assert Digits(n)[..|Digits(n)| - 1] == Digits(n / 62);
      assert n == n / 62 * 62 + n % 62;
    }
  }

  /** Decoding what was printed gives back the number the bytes spell. */
  lemma RoundTrip(bytes: seq<byte>)
    ensures Decode(Encode(bytes)) == Value(bytes)
  {
    DigitsReadBack(Value(bytes));
  }

  lemma {:induction false} NoLeadingZero(n: nat)
    requires n > 0
    ensures Digits(n) != "" && Digits(n)[0] != '0'
    ensures forall i :: 0 <= i < |Digits(n)| ==> InAlphabet(Digits(n)[i])
  {
    if n >= 62 {
      NoLeadingZero(n / 62);
    } else {
      assert Digits(n / 62) == "";
    }
  }

  /** The text is never empty, has letters of the alphabet only, and starts with a zero only when it is "0". */
  lemma TextIsCanonical(bytes: seq<byte>)
    ensures Encode(bytes) != "" && forall i :: 0 <= i < |Encode(bytes)| ==> InAlphabet(Encode(bytes)[i])
    ensures Encode(bytes)[0] == '0' <==> Value(bytes) == 0
    ensures Value(bytes) == 0 ==> Encode(bytes) == "0"
  {
    if Value(bytes) > 0 { NoLeadingZero(Value(bytes)); }
  }

  lemma {:induction false} ValueInjective(a: seq<byte>, b: seq<byte>)
    requires |a| == |b| && Value(a) == Value(b)
    ensures a == b
  {
    if a != [] {
      var n := |a| - 1;
      assert Value(a[..n]) * 256 + a[n] as nat == Value(b[..n]) * 256 + b[n] as nat;
      assert a[n] == b[n] && Value(a[..n]) == Value(b[..n]);
      ValueInjective(a[..n], b[..n]);
      assert a == a[..n] + [a[n]] && b == b[..n] + [b[n]];
    }
  }

  lemma {:induction false} LeadingZeros(zeros: nat, bytes: seq<byte>)
    ensures Value(seq(zeros, i => 0 as byte) + bytes) == Value(bytes)
  {
    var padded := seq(zeros, i => 0 as byte) + bytes;
    if bytes != [] {
      assert padded[..|padded| - 1] == seq(zeros, i => 0 as byte) + bytes[..|bytes| - 1];
      LeadingZeros(zeros, bytes[..|bytes| - 1]);
    } else if zeros > 0 {
      assert padded[..|padded| - 1] == seq(zeros - 1, i => 0 as byte) + [];
      LeadingZeros(zeros - 1, []);
    }
  }

  /** Two texts are equal exactly when the bytes spell the same number; for byte strings of one length, exactly when the
    * bytes are the same.
    */
  lemma TextIsIdentity(a: seq<byte>, b: seq<byte>)
    ensures Encode(a) == Encode(b) <==> Value(a) == Value(b)
    ensures |a| == |b| ==> (Encode(a) == Encode(b) <==> a == b)
  {
    RoundTrip(a);
    RoundTrip(b);
    if |a| == |b| && Encode(a) == Encode(b) { ValueInjective(a, b); }
    hide Decode, Encode;
  }

  // ---------------------------------------------------------------- every digit

  const ALPHABET := "0123456789" + "ABCDEFGHIJKLMNOPQRSTUVWXYZ" + "abcdefghijklmnopqrstuvwxyz"

  function Power(base: nat, k: nat): (p: nat)
    ensures base > 0 ==> p > 0
  {
    if k == 0 then 1 else base * Power(base, k - 1)
  }

  /** In a list of characters in code order the `d`-th is `d` after the first. */
  lemma {:induction false} ListedFrom(list: string, first: char, d: nat)
    requires d < |list| && list[0] == first
    requires forall i :: 0 < i < |list| ==> list[i] as int == list[i - 1] as int + 1
    ensures list[d] as int == first as int + d
  {
    if d > 0 { ListedFrom(list, first, d - 1); }
  }

  lemma DigitIsListed(d: nat)
    requires d < 62
    ensures |ALPHABET| == 62 && DigitAt(d) == ALPHABET[d]
  {
    if d < 10 {
      ListedFrom("0123456789", '0', d);
    } else if d < 36 {
      ListedFrom("ABCDEFGHIJKLMNOPQRSTUVWXYZ", 'A', d - 10);
    } else {
      ListedFrom("abcdefghijklmnopqrstuvwxyz", 'a', d - 36);
    }
  }

  lemma QuotientIs(n: nat, d: nat, q: nat, r: nat)
    requires d > 0 && r < d && n == d * q + r
    ensures n / d == q && n % d == r
  {
    var k := n / d - q;
    assert n == d * (n / d) + n % d;
    assert d * k == r - n % d;
    if k >= 1 { assert d * k >= d; }
    if k <= -1 { assert d * k <= -d; }
  }

  lemma DivideTwice(n: nat, a: nat, b: nat)
    requires a > 0 && b > 0
    ensures a * b > 0 && n / a / b == n / (a * b)
  {
    var m, r := n / a, n % a;
    var q, t := m / b, m % b;
    Spread(n, m, r, a, b, q, t);
    QuotientIs(n, a * b, q, a * t + r);
  }

  lemma Spread(n: nat, m: nat, r: nat, a: nat, b: nat, q: nat, t: nat)
    requires n == a * m + r && m == b * q + t && r < a && t < b
    ensures n == a * b * q + (a * t + r) && a * t + r < a * b
  {
    assert a * m == a * (b * q) + a * t;
    assert a * t <= a * (b - 1);
  }

  lemma {:induction false} DigitsAt(n: nat, k: nat)
    requires k < |Digits(n)|
    ensures |ALPHABET| == 62 && Digits(n)[|Digits(n)| - 1 - k] == ALPHABET[n / Power(62, k) % 62]
  {
    hide DigitAt;
    DigitIsListed(n / Power(62, k) % 62);
    if k > 0 {
      DigitsAt(n / 62, k - 1);
      DivideTwice(n, 62, Power(62, k - 1));
    }
  }

  lemma {:induction false} DigitCount(n: nat)
    ensures n < Power(62, |Digits(n)|)
    ensures n > 0 ==> Digits(n) != "" && Power(62, |Digits(n)| - 1) <= n
  {
    hide DigitAt;
    if n != 0 { DigitCount(n / 62); }
  }

  lemma ZeroDigit(k: nat)
    ensures |ALPHABET| == 62 && ALPHABET[0 / Power(62, k) % 62] == '0'
  {
    QuotientIs(0, Power(62, k), 0, 0);
  }

  lemma EncodedSize(bytes: seq<byte>)
    ensures var text, n := Encode(bytes), Value(bytes);
      text != "" && n < Power(62, |text|) && (|text| > 1 ==> Power(62, |text| - 1) <= n)
  {
    DigitCount(Value(bytes));
    hide Digits, Value;
  }

  lemma EncodedDigit(bytes: seq<byte>, k: nat)
    requires k < |Encode(bytes)|
    ensures |ALPHABET| == 62 && Encode(bytes)[|Encode(bytes)| - 1 - k] == ALPHABET[Value(bytes) / Power(62, k) % 62]
  {
    hide Value, Digits, DigitAt, Power;
    if Value(bytes) > 0 { DigitsAt(Value(bytes), k); } else { ZeroDigit(k); }
  }

  /** The text has no more digits than the number needs, one at least, and each is the one the alphabet lists. */
  lemma EveryDigitIsExact(bytes: seq<byte>)
    ensures var text, n := Encode(bytes), Value(bytes);
      && text != "" && |ALPHABET| == 62
      && n < Power(62, |text|) && (|text| > 1 ==> Power(62, |text| - 1) <= n)
      && forall k {:trigger Power(62, k)} :: 0 <= k < |text| ==> text[|text| - 1 - k] == ALPHABET[n / Power(62, k) % 62]
  {
    hide *;
    DigitIsListed(0);
    EncodedSize(bytes);
    forall k: nat | k < |Encode(bytes)|
      ensures Encode(bytes)[|Encode(bytes)| - 1 - k] == ALPHABET[Value(bytes) / Power(62, k) % 62]
    {
      EncodedDigit(bytes, k);
    }
  }

  /** The number is the one the bytes spell, the first byte first. */
  lemma {:induction false} EveryByteIsExact(bytes: seq<byte>, i: nat)
    requires i < |bytes|
    ensures Value(bytes) < Power(256, |bytes|)
    ensures Value(bytes) / Power(256, |bytes| - 1 - i) % 256 == bytes[i] as nat
  {
    var front, k := bytes[..|bytes| - 1], |bytes| - 1 - i;
    ValueIsBounded(bytes);
    if k > 0 {
      EveryByteIsExact(front, i);
      DivideTwice(Value(bytes), 256, Power(256, k - 1));
      assert Value(bytes) / 256 == Value(front);
    }
  }

  lemma {:induction false} ValueIsBounded(bytes: seq<byte>)
    ensures Value(bytes) < Power(256, |bytes|)
  {
    if bytes != [] { ValueIsBounded(bytes[..|bytes| - 1]); }
  }
}
