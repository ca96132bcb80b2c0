/** The handful of Python `str` builtins the caption generator relies on:
    `str.split` on one separator character, `str.join`, `str.strip()` with
    no argument, and `str(n)` for a non-negative integer. */
module Text {

  /** The characters Python's `str.isspace` accepts, which are the ones
      `str.strip()` removes. Only the literal examples in `Topics` depend
      on which characters these are. */
  predicate IsWs(c: char) {
    || '\t' <= c <= '\r'
    || '\U{1C}' <= c <= ' '
    || c == '\U{85}' || c == '\U{A0}' || c == '\U{1680}'
    || '\U{2000}' <= c <= '\U{200A}'
    || c == '\U{2028}' || c == '\U{2029}' || c == '\U{202F}'
    || c == '\U{205F}' || c == '\U{3000}'
  }

  /** Number of occurrences of `c` in `s` (Python's `s.count(c)`). */
  function Count(s: string, c: char): nat {
    if s == [] then 0 else (if s[0] == c then 1 else 0) + Count(s[1..], c)
  }

  /** Total length of the strings in `parts`. */
  function TotalLength(parts: seq<string>): nat {
    if parts == [] then 0 else |parts[0]| + TotalLength(parts[1..])
  }

  /** `sep.join(parts)`: every part, and one separator between each two
      neighbours, and nothing else. */
  function Join(parts: seq<string>, sep: string): (joined: string)
    ensures parts == [] ==> joined == []
    ensures parts != [] ==> |joined| == TotalLength(parts) + (|parts| - 1) * |sep|
  {
    if |parts| == 0 then []
    else if |parts| == 1 then parts[0]
    else parts[0] + sep + Join(parts[1..], sep)
  }

  /** `s.split(sep)` for a one-character separator: the pieces between the
      separators, one more than there are separators, none of them holding
      the separator, and joining them back gives `s`. */
  function Split(s: string, sep: char): (pieces: seq<string>)
    ensures |pieces| == Count(s, sep) + 1
    ensures forall i :: 0 <= i < |pieces| ==> sep !in pieces[i]
    ensures Join(pieces, [sep]) == s
  {
    if s == [] then [[]]
    else
      var rest := Split(s[1..], sep);
      if s[0] == sep then
        [[]] + rest
      else
        var pieces := [[s[0]] + rest[0]] + rest[1..];
        assert Join(pieces, [sep]) == [s[0]] + Join(rest, [sep]) by {
          if |rest| > 1 {
            assert pieces[1..] == rest[1..];
          }
        }
        pieces
  }

  /** Position of the first `c` in `s`, or `|s|` when there is none. */
  function IndexOf(s: string, c: char): (i: nat)
    ensures i <= |s|
  {
    if s == [] || s[0] == c then 0 else 1 + IndexOf(s[1..], c)
  }

  /** In `a + x`, where `a` does not hold `c` and `x` is empty or starts
      with `c`, the first `c` sits right after `a`. */
  lemma {:induction false} IndexOfAfterPrefix(a: string, x: string, c: char)
    requires c !in a
    requires x == [] || x[0] == c
    ensures IndexOf(a + x, c) == |a|
  {
    if a != [] {
      assert (a + x)[1..] == a[1..] + x;
      IndexOfAfterPrefix(a[1..], x, c);
    }
  }

  /** If `a + x == b + y`, where neither `a` nor `b` holds `c` and each of
      `x`, `y` is empty or starts with `c`, the two splits agree. */
  lemma FirstOccurrence(a: string, x: string, b: string, y: string, c: char)
    requires c !in a && c !in b
    requires x == [] || x[0] == c
    requires y == [] || y[0] == c
    requires a + x == b + y
    ensures a == b && x == y
  {
    IndexOfAfterPrefix(a, x, c);
    IndexOfAfterPrefix(b, y, c);
    assert a == (a + x)[..|a|] && b == (b + y)[..|b|];
    assert x == (a + x)[|a|..] && y == (b + y)[|b|..];
  }

  /** Joining pieces that do not hold the separator loses nothing: two
      such non-empty piece lists with the same join are the same. */
  lemma {:induction false} JoinInjective(xs: seq<string>, ys: seq<string>, sep: char)
    requires |xs| >= 1 && |ys| >= 1
    requires forall i :: 0 <= i < |xs| ==> sep !in xs[i]
    requires forall i :: 0 <= i < |ys| ==> sep !in ys[i]
    requires Join(xs, [sep]) == Join(ys, [sep])
    ensures xs == ys
  {
    var rx := if |xs| == 1 then [] else [sep] + Join(xs[1..], [sep]);
    var ry := if |ys| == 1 then [] else [sep] + Join(ys[1..], [sep]);
    assert Join(xs, [sep]) == xs[0] + rx;
    assert Join(ys, [sep]) == ys[0] + ry;
    FirstOccurrence(xs[0], rx, ys[0], ry, sep);
    if |xs| > 1 && |ys| > 1 {
      assert Join(xs[1..], [sep]) == rx[1..] == ry[1..] == Join(ys[1..], [sep]);
      JoinInjective(xs[1..], ys[1..], sep);
      assert xs == [xs[0]] + xs[1..] && ys == [ys[0]] + ys[1..];
    }
  }

  /** Splitting undoes joining: `sep.join(parts).split(sep) == parts` when
      no part holds the separator. */
  lemma SplitOfJoin(parts: seq<string>, sep: char)
    requires |parts| >= 1
    requires forall i :: 0 <= i < |parts| ==> sep !in parts[i]
    ensures Split(Join(parts, [sep]), sep) == parts
  {
    JoinInjective(Split(Join(parts, [sep]), sep), parts, sep);
  }

  /** Joining a concatenation of two non-empty lists puts one separator
      between the two joins. */
  lemma {:induction false} JoinAppend(xs: seq<string>, ys: seq<string>, sep: string)
    requires xs != [] && ys != []
    ensures Join(xs + ys, sep) == Join(xs, sep) + sep + Join(ys, sep)
  {
    if |xs| == 1 {
      assert (xs + ys)[1..] == ys;
    } else {
      assert (xs + ys)[1..] == xs[1..] + ys;
      JoinAppend(xs[1..], ys, sep);
    }
  }

  /** Number of whitespace characters at the start of `s`. */
  function LeadingWs(s: string): (n: nat)
    ensures n <= |s|
    ensures forall k :: 0 <= k < n ==> IsWs(s[k])
    ensures n < |s| ==> !IsWs(s[n])
  {
    if s != [] && IsWs(s[0]) then 1 + LeadingWs(s[1..]) else 0
  }

  /** Number of whitespace characters at the end of `s`. */
  function TrailingWs(s: string): (n: nat)
    ensures n <= |s|
    ensures forall k :: |s| - n <= k < |s| ==> IsWs(s[k])
    ensures n < |s| ==> !IsWs(s[|s| - 1 - n])
  {
    if s != [] && IsWs(s[|s| - 1]) then 1 + TrailingWs(s[..|s| - 1]) else 0
  }

  /** Every character of `s` is whitespace. */
  predicate AllWs(s: string) {
    forall k :: 0 <= k < |s| ==> IsWs(s[k])
  }

  /** `s.strip()`: the run of `s` left once the whitespace at both ends is
      cut away. It starts right after the leading whitespace, its characters
      are those of `s` unchanged and in place, everything after it is
      whitespace, and it neither starts nor ends with whitespace. It is
      empty exactly when `s` is all whitespace. */
  function Strip(s: string): (r: string)
    ensures LeadingWs(s) + |r| <= |s|
    ensures forall k :: 0 <= k < |r| ==> r[k] == s[LeadingWs(s) + k]
    ensures forall k :: LeadingWs(s) + |r| <= k < |s| ==> IsWs(s[k])
    ensures r != [] ==> !IsWs(r[0]) && !IsWs(r[|r| - 1])
    ensures r == [] <==> AllWs(s)
    ensures (s == [] || (!IsWs(s[0]) && !IsWs(s[|s| - 1]))) ==> r == s
  {
    var t := s[LeadingWs(s)..];
    t[..|t| - TrailingWs(t)]
  }

  /** Strip only removes characters: whatever it keeps was in `s`. */
  lemma StripKeepsCharacters(s: string)
    ensures forall c :: c in Strip(s) ==> c in s
  {
    forall c | c in Strip(s)
      ensures c in s
    {
      var k :| 0 <= k < |Strip(s)| && Strip(s)[k] == c;
      assert s[LeadingWs(s) + k] == c;
    }
  }

  /** Strip is idempotent. */
  lemma StripIdempotent(s: string)
    ensures Strip(Strip(s)) == Strip(s)
  {
  }

  /** The character for a decimal digit. */
  function Digit(d: nat): (c: char)
    requires d < 10
    ensures '0' <= c <= '9'
  {
    (('0' as int) + d) as char
  }

  predicate IsDigits(s: string) {
    forall k :: 0 <= k < |s| ==> '0' <= s[k] <= '9'
  }

  /** The number a string of decimal digits denotes (Python's `int(s)`),
      the reference against which `DecimalString` is proved. */
  function DecimalValue(s: string): nat
    requires IsDigits(s)
  {
    if s == [] then 0
    else 10 * DecimalValue(s[..|s| - 1]) + (s[|s| - 1] as int - '0' as int)
  }

  /** `str(n)` for a non-negative integer: its shortest decimal digits,
      without a leading zero, which denote `n`. */
  function DecimalString(n: nat): (s: string)
    ensures s != [] && IsDigits(s)
    ensures |s| > 1 ==> s[0] != '0'
    ensures DecimalValue(s) == n
  {
    if n < 10 then [Digit(n)]
    else
      var s := DecimalString(n / 10) + [Digit(n % 10)];
      assert s[..|s| - 1] == DecimalString(n / 10);
      s
  }

  /** Different numbers print differently. */
  lemma DecimalStringInjective(m: nat, n: nat)
    requires DecimalString(m) == DecimalString(n)
    ensures m == n
  {
  }
}
