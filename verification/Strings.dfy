/** Splitting and joining at a separator, and decimal numerals. */
module Strings {
  /** The parts of a string between the occurrences of a separator; one part more than there are separators. */
  function Split(s: string, sep: char): (parts: seq<string>)
    ensures |parts| >= 1
    ensures |parts| == 1 <==> sep !in s
    ensures |parts| == 1 ==> parts[0] == s
  {
    if s == "" then [""]
    else
      var rest := Split(s[1..], sep);
      if s[0] == sep then [""] + rest else [[s[0]] + rest[0]] + rest[1..]
  }

  function Join(parts: seq<string>, sep: char): string {
    if parts == [] then ""
    else if |parts| == 1 then parts[0]
    else parts[0] + [sep] + Join(parts[1..], sep)
  }

  ghost predicate FreeOf(parts: seq<string>, sep: char) {
    forall p | p in parts :: sep !in p
  }

  lemma JoinPrefixed(c: char, parts: seq<string>, sep: char)
    requires parts != []
    ensures Join([[c] + parts[0]] + parts[1..], sep) == [c] + Join(parts, sep)
  {
    if |parts| > 1 {
      assert ([[c] + parts[0]] + parts[1..])[1..] == parts[1..];
      assert [c] + parts[0] + [sep] + Join(parts[1..], sep) == [c] + (parts[0] + [sep] + Join(parts[1..], sep));
    }
  }

  /** Joining what was split gives the string back. */
  lemma {:induction false} JoinOfSplit(s: string, sep: char)
    ensures Join(Split(s, sep), sep) == s && FreeOf(Split(s, sep), sep)
  {
    if s != "" {
      var rest := Split(s[1..], sep);
      JoinOfSplit(s[1..], sep);
      if s[0] == sep {
        assert ([""] + rest)[1..] == rest;
        assert [sep] + s[1..] == s;
      } else {
        JoinPrefixed(s[0], rest, sep);
        assert [s[0]] + s[1..] == s;
        assert forall p | p in rest[1..] :: p in rest;
      }
    }
  }

  lemma SplitFirst(c: char, s: string, sep: char)
    ensures Split([c] + s, sep) ==
            if c == sep then [""] + Split(s, sep) else [[c] + Split(s, sep)[0]] + Split(s, sep)[1..]
  {
    assert ([c] + s)[1..] == s;
  }

  /** Splitting around a separator splits both sides. */
  lemma {:induction false} SplitAround(head: string, tail: string, sep: char)
    ensures Split(head + [sep] + tail, sep) == Split(head, sep) + Split(tail, sep)
  {
    hide Split;
    if head == "" {
      assert head + [sep] + tail == [sep] + tail;
      SplitFirst(sep, tail, sep);
      assert Split("", sep) == [""];
    } else {
      var c, rest := head[0], head[1..];
      assert head == [c] + rest;
      assert head + [sep] + tail == [c] + (rest + [sep] + tail);
      SplitAround(rest, tail, sep);
      SplitFirst(c, rest, sep);
      SplitFirst(c, rest + [sep] + tail, sep);
    }
  }

  /** What stands before a string without containing the separator becomes part of the first part. */
  lemma {:induction false} SplitPrefixed(p: string, s: string, sep: char)
    requires sep !in p
    ensures Split(p + s, sep) == [p + Split(s, sep)[0]] + Split(s, sep)[1..]
  {
    hide Split;
    var parts := Split(s, sep);
    if p == "" {
      assert p + s == s && p + parts[0] == parts[0];
      assert parts == [parts[0]] + parts[1..];
    } else {
      var c, rest := p[0], p[1..];
      assert p == [c] + rest && p + s == [c] + (rest + s);
      SplitPrefixed(rest, s, sep);
      SplitFirst(c, rest + s, sep);
      assert [c] + (rest + parts[0]) == p + parts[0];
      assert ([rest + parts[0]] + parts[1..])[1..] == parts[1..];
    }
  }

  /** Splitting what was joined gives the parts back, if there is a part and none contains the separator. */
  lemma {:induction false} SplitOfJoin(parts: seq<string>, sep: char)
    requires parts != [] && FreeOf(parts, sep)
    ensures Split(Join(parts, sep), sep) == parts
  {
    if |parts| > 1 {
      SplitAround(parts[0], Join(parts[1..], sep), sep);
      assert Split(parts[0], sep) == [parts[0]];
      SplitOfJoin(parts[1..], sep);
    }
  }

  // ---- Decimal numerals ----------------------------------------------------------------------------

  function DigitChar(d: nat): char
    requires d < 10
  {
    ('0' as int + d) as char
  }

  function Digits(n: nat): (s: string)
    ensures s != "" && '-' !in s
  {
    if n < 10 then [DigitChar(n)] else Digits(n / 10) + [DigitChar(n % 10)]
  }

  /** strconv.Itoa. */
  function Itoa(n: int): string {
    if n < 0 then "-" + Digits(-n) else Digits(n)
  }

  /** The number a string of digits denotes. */
  function Value(s: string): int {
    if s == "" then 0 else 10 * Value(s[..|s| - 1]) + (s[|s| - 1] as int - '0' as int)
  }

  lemma {:induction false} ValueOfDigits(n: nat)
    ensures Value(Digits(n)) == n
  {
    if n >= 10 {
      ValueOfDigits(n / 10);
      assert Digits(n)[..|Digits(n)| - 1] == Digits(n / 10);
    } else {
      assert Digits(n)[..0] == "";
    }
  }
}
