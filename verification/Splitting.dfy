/** Splitting a string at a separator. */
module Splitting {

  /** The pieces between separators; there is one more piece than there are separators. */
  function Split(s: string, separator: char): (parts: seq<string>)
    ensures |parts| > 0 && forall p | p in parts :: separator !in p
  {
    if s == [] then [""]
    else
      var rest := Split(s[1..], separator);
      if s[0] == separator then [""] + rest else [[s[0]] + rest[0]] + rest[1..]
  }

  lemma {:induction false} SplitWhole(s: string, separator: char)
    requires separator !in s
    ensures Split(s, separator) == [s]
  {
    if s != [] {
      SplitWhole(s[1..], separator);
      assert s == [s[0]] + s[1..];
    }
  }

  lemma {:induction false} SplitFirst(first: string, separator: char, rest: string)
    requires separator !in first
    ensures Split(first + [separator] + rest, separator) == [first] + Split(rest, separator)
  {
    var s := first + [separator] + rest;
    if first == [] {
      assert s == [separator] + rest && s[1..] == rest;
    } else {
      SplitFirst(first[1..], separator, rest);
      assert s[0] == first[0] && s[1..] == first[1..] + [separator] + rest;
      assert first == [first[0]] + first[1..];
    }
  }

  function Join(parts: seq<string>, separator: char): string
    requires |parts| > 0
  {
    if |parts| == 1 then parts[0] else parts[0] + [separator] + Join(parts[1..], separator)
  }

  /** Nothing is lost by splitting. */
  lemma {:induction false} JoinSplit(s: string, separator: char)
    ensures Join(Split(s, separator), separator) == s
  {
    if s != [] {
      var rest, parts := Split(s[1..], separator), Split(s, separator);
      JoinSplit(s[1..], separator);
      assert s == [s[0]] + s[1..];
      if s[0] == separator {
        assert parts[1..] == rest;
      } else {
        assert parts[1..] == rest[1..];
        assert parts[0] == [s[0]] + rest[0];
      }
    }
  }

  /** A separator splits, whatever stands on its two sides. */
  lemma {:induction false} SplitConcat(a: string, separator: char, b: string)
    ensures Split(a + [separator] + b, separator) == Split(a, separator) + Split(b, separator)
  {
    var s, after := a + [separator] + b, Split(b, separator);
    if a == [] {
      assert s == [separator] + b && s[1..] == b;
    } else {
      SplitConcat(a[1..], separator, b);
      assert s[0] == a[0] && s[1..] == a[1..] + [separator] + b;
      hide Split;
      SplitCons(s, separator);
      SplitCons(a, separator);
      Prefixed(a[0], separator, Split(a[1..], separator), after);
    }
  }

  /** What the first character makes of the pieces of the others. */
  function Prepend(c: char, separator: char, rest: seq<string>): seq<string>
    requires |rest| > 0
  {
    if c == separator then [""] + rest else [[c] + rest[0]] + rest[1..]
  }

  lemma SplitCons(s: string, separator: char)
    requires s != []
    ensures Split(s, separator) == Prepend(s[0], separator, Split(s[1..], separator))
  {
  }

  lemma Prefixed(c: char, separator: char, before: seq<string>, after: seq<string>)
    requires |before| > 0
    ensures Prepend(c, separator, before + after) == Prepend(c, separator, before) + after
  {
    assert (before + after)[1..] == before[1..] + after;
  }
}
