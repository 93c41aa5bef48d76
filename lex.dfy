/** The order in which the event sort compares its string keys.
    `String.prototype.localeCompare` is locale-dependent; for the ISO-8601
    date and date-time keys the plugin sorts, it is modelled as plain
    lexicographic order over character codes. */
module Lex {

  /** `a` sorts no later than `b` (`a.localeCompare(b) <= 0`). */
  predicate LexLe(a: string, b: string) {
    if a == [] then true
    else if b == [] then false
    else if a[0] != b[0] then a[0] < b[0]
    else LexLe(a[1..], b[1..])
  }

  lemma {:induction false} LexLeReflexive(a: string)
    ensures LexLe(a, a)
  {
    if a != [] {
      LexLeReflexive(a[1..]);
    }
  }

  lemma {:induction false} LexLeTotal(a: string, b: string)
    ensures LexLe(a, b) || LexLe(b, a)
  {
    if a != [] && b != [] && a[0] == b[0] {
      LexLeTotal(a[1..], b[1..]);
    }
  }

  lemma {:induction false} LexLeAntisymmetric(a: string, b: string)
    requires LexLe(a, b) && LexLe(b, a)
    ensures a == b
  {
    if a != [] && b != [] {
      LexLeAntisymmetric(a[1..], b[1..]);
      assert a == [a[0]] + a[1..] && b == [b[0]] + b[1..];
    }
  }

  lemma {:induction false} LexLeTransitive(a: string, b: string, c: string)
    requires LexLe(a, b) && LexLe(b, c)
    ensures LexLe(a, c)
  {
    if a != [] && b != [] && c != [] && a[0] == b[0] && b[0] == c[0] {
      LexLeTransitive(a[1..], b[1..], c[1..]);
    }
  }

  /** The empty key, used for an event without a start, sorts first. */
  lemma EmptyFirst(a: string)
    ensures LexLe("", a)
    ensures LexLe(a, "") <==> a == ""
  {
  }

  /** A key sorts no later than any of its extensions, so an all-day date
      "2024-05-01" sorts before the same day's date-times. */
  lemma {:induction false} PrefixFirst(a: string, b: string)
    ensures LexLe(a, a + b)
  {
    if a != [] {
      assert (a + b)[1..] == a[1..] + b;
      PrefixFirst(a[1..], b);
    }
  }
}
