/** Texts joined with a separator character. */
module Joined {
  /** When neither head holds the separator, the joined text determines head and tail. */
  lemma {:induction false} SplitAtSeparator<T>(sep: T, a: seq<T>, x: seq<T>, b: seq<T>, y: seq<T>)
    requires a + [sep] + x == b + [sep] + y
    requires sep !in a && sep !in b
    ensures a == b && x == y
  {
    var l, r := a + [sep] + x, b + [sep] + y;
    assert l[0] == r[0];
    if a == [] || b == [] {
      assert a == b;
      assert x == l[1..] && y == r[1..];
    } else {
      assert l[1..] == a[1..] + [sep] + x && r[1..] == b[1..] + [sep] + y;
      SplitAtSeparator(sep, a[1..], x, b[1..], y);
      assert a == [a[0]] + a[1..] && b == [b[0]] + b[1..];
    }
  }
}
