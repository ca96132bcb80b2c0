/** Turning the multi-line topic box into the list of topics to caption:
    the text is split on line feeds, each line is stripped of surrounding
    whitespace, and the lines left empty are dropped, in input order. An
    empty box gives no topics at all. */
module Topics {
  import opened Text

  /** What a parsed topic looks like: not empty, no whitespace at either
      end, and on one line. */
  predicate IsTopic(t: string) {
    && t != []
    && !IsWs(t[0])
    && !IsWs(t[|t| - 1])
    && '\n' !in t
  }

  /** A box that holds nothing but line feeds and whitespace. */
  predicate Blank(s: string) {
    forall k :: 0 <= k < |s| ==> s[k] == '\n' || IsWs(s[k])
  }

  /** Every line, stripped. The ensures spell out the comprehension
      element by element so that the solver has these facts at hand. */
  function StripLines(lines: seq<string>): (stripped: seq<string>)
    ensures |stripped| == |lines|
    ensures forall j :: 0 <= j < |lines| ==> stripped[j] == Strip(lines[j])
  {
    seq(|lines|, j requires 0 <= j < |lines| => Strip(lines[j]))
  }

  /** The non-empty strings of `xs`, in order. */
  function DropEmpty(xs: seq<string>): (ys: seq<string>)
    ensures |ys| <= |xs|
    ensures forall k :: 0 <= k < |ys| ==> ys[k] != []
  {
    if xs == [] then []
    else (if xs[0] != [] then [xs[0]] else []) + DropEmpty(xs[1..])
  }

  /** `[t.strip() for t in lines if t.strip()]`: strip every line and keep
      the ones that are not empty afterwards. There are at most as many as
      lines, and none is empty or has whitespace at either end. */
  function NonBlankTopics(lines: seq<string>): (topics: seq<string>)
    ensures |topics| <= |lines|
    ensures forall k :: 0 <= k < |topics| ==>
      topics[k] != [] && !IsWs(topics[k][0]) && !IsWs(topics[k][|topics[k]| - 1])
  {
    var stripped := StripLines(lines);
    DropEmptySelects(stripped);
    DropEmpty(stripped)
  }

  /** The topics a run captions, in the order they were typed. */
  function ParseTopics(bulkInput: string): (topics: seq<string>)
    ensures |topics| <= Count(bulkInput, '\n') + 1
  {
    if bulkInput == [] then [] else NonBlankTopics(Split(bulkInput, '\n'))
  }

  /** The guard on an empty box changes nothing: splitting the empty string
      gives one empty line, which is dropped anyway. */
  lemma ParseTopicsIsFilteredLines(bulkInput: string)
    ensures ParseTopics(bulkInput) == NonBlankTopics(Split(bulkInput, '\n'))
  {
    if bulkInput == [] {
      assert Split(bulkInput, '\n') == [[]];
      assert StripLines([[]]) == [[]];
    }
  }

  /** `idx` says where each kept string came from: `ys[k]` is `xs[idx[k]]`,
      the positions increase, and every string of `xs` not taken is
      empty. */
  ghost predicate SelectsNonEmpty(xs: seq<string>, ys: seq<string>, idx: seq<nat>) {
    && |idx| == |ys|
    && (forall k :: 0 <= k < |idx| ==> idx[k] < |xs| && ys[k] == xs[idx[k]])
    && (forall k, m :: 0 <= k < m < |idx| ==> idx[k] < idx[m])
    && (forall j :: 0 <= j < |xs| && j !in idx ==> xs[j] == [])
  }

  /** The positions, from `from` on, of the non-empty strings of `xs`. */
  ghost function NonEmptyPositionsFrom(xs: seq<string>, from: nat): seq<nat>
    requires from <= |xs|
    decreases |xs| - from
  {
    if from == |xs| then []
    else (if xs[from] != [] then [from] else []) + NonEmptyPositionsFrom(xs, from + 1)
  }

  /** The positions of the non-empty strings of `xs`. */
  ghost function NonEmptyPositions(xs: seq<string>): seq<nat> {
    NonEmptyPositionsFrom(xs, 0)
  }

  /** What DropEmptySelects states of the suffix `xs[from..]`, with the
      positions counted in `xs`. */
  lemma {:induction false} DropEmptySelectsFrom(xs: seq<string>, from: nat)
    requires from <= |xs|
    ensures var ys, idx := DropEmpty(xs[from..]), NonEmptyPositionsFrom(xs, from);
      && |idx| == |ys|
      && (forall k :: 0 <= k < |idx| ==> from <= idx[k] < |xs| && ys[k] == xs[idx[k]])
      && (forall k, m :: 0 <= k < m < |idx| ==> idx[k] < idx[m])
      && (forall j :: from <= j < |xs| && j !in idx ==> xs[j] == [])
    decreases |xs| - from
  {
    if from < |xs| {
      DropEmptySelectsFrom(xs, from + 1);
      var idx', rest := NonEmptyPositionsFrom(xs, from + 1), DropEmpty(xs[from + 1..]);
      var idx, ys := NonEmptyPositionsFrom(xs, from), DropEmpty(xs[from..]);
      assert xs[from..][1..] == xs[from + 1..];
      var head: seq<nat> := if xs[from] != [] then [from] else [];
      assert idx == head + idx';
      assert ys == (if xs[from] != [] then [xs[from]] else []) + rest;
    }
  }

  /** DropEmpty keeps the non-empty strings, in order, and drops only empty
      ones. */
  lemma DropEmptySelects(xs: seq<string>)
    ensures SelectsNonEmpty(xs, DropEmpty(xs), NonEmptyPositions(xs))
  {
    DropEmptySelectsFrom(xs, 0);
    assert xs[0..] == xs;
  }

  /** Each parsed topic is a line of the box, stripped; the lines are taken
      in input order, and the lines skipped are exactly the blank ones. */
  lemma ParseTopicsSelectsLines(bulkInput: string)
    ensures var lines := Split(bulkInput, '\n');
      SelectsNonEmpty(StripLines(lines), ParseTopics(bulkInput), NonEmptyPositions(StripLines(lines)))
  {
    ParseTopicsIsFilteredLines(bulkInput);
    DropEmptySelects(StripLines(Split(bulkInput, '\n')));
  }

  /** Every parsed topic is non-empty, has no whitespace at either end and
      holds no line feed. */
  lemma ParseTopicsAreTopics(bulkInput: string)
    ensures forall k :: 0 <= k < |ParseTopics(bulkInput)| ==> IsTopic(ParseTopics(bulkInput)[k])
  {
    var lines := Split(bulkInput, '\n');
    var topics := ParseTopics(bulkInput);
    var idx := NonEmptyPositions(StripLines(lines));
    ParseTopicsSelectsLines(bulkInput);
    forall k | 0 <= k < |topics|
      ensures IsTopic(topics[k])
    {
      assert topics[k] == Strip(lines[idx[k]]);
      StripKeepsCharacters(lines[idx[k]]);
    }
  }

  /** DropEmpty gives nothing exactly when every string is empty. */
  lemma {:induction false} DropEmptyEmptyIff(xs: seq<string>)
    ensures DropEmpty(xs) == [] <==> forall j :: 0 <= j < |xs| ==> xs[j] == []
  {
    if xs != [] {
      DropEmptyEmptyIff(xs[1..]);
      assert forall j :: 1 <= j < |xs| ==> xs[1..][j - 1] == xs[j];
    }
  }

  /** Blank, unfolded at the first character. */
  lemma BlankCons(s: string)
    requires s != []
    ensures Blank(s) <==> (s[0] == '\n' || IsWs(s[0])) && Blank(s[1..])
  {
    assert forall k :: 1 <= k < |s| ==> s[1..][k - 1] == s[k];
  }

  /** AllWs, unfolded at the first character. */
  lemma AllWsCons(c: char, t: string)
    ensures AllWs([c] + t) <==> IsWs(c) && AllWs(t)
  {
    assert ([c] + t)[0] == c;
    assert forall k :: 0 <= k < |t| ==> t[k] == ([c] + t)[k + 1];
  }

  /** Every line is all whitespace. */
  predicate AllLinesWs(lines: seq<string>) {
    forall j :: 0 <= j < |lines| ==> AllWs(lines[j])
  }

  /** A box is blank exactly when every line of it is all whitespace. */
  lemma {:induction false} BlankIffLinesAllWs(s: string)
    ensures Blank(s) <==> AllLinesWs(Split(s, '\n'))
  {
    if s != [] {
      BlankIffLinesAllWs(s[1..]);
      BlankCons(s);
      var rest := Split(s[1..], '\n');
      var lines := Split(s, '\n');
      if s[0] == '\n' {
        assert lines == [[]] + rest;
        assert forall j :: 1 <= j < |lines| ==> lines[j] == rest[j - 1];
      } else {
        AllWsCons(s[0], rest[0]);
        assert lines == [[s[0]] + rest[0]] + rest[1..];
        assert forall j :: 1 <= j < |lines| ==> lines[j] == rest[j];
      }
    }
  }

  /** The run stops with its warning exactly when the box holds nothing but
      whitespace and line feeds (the empty box included). */
  lemma ParseTopicsEmptyIff(bulkInput: string)
    ensures ParseTopics(bulkInput) == [] <==> Blank(bulkInput)
  {
    var lines := Split(bulkInput, '\n');
    ParseTopicsIsFilteredLines(bulkInput);
    DropEmptyEmptyIff(StripLines(lines));
    BlankIffLinesAllWs(bulkInput);
  }

  /** DropEmpty keeps a list with no empty string as it is. */
  lemma {:induction false} DropEmptyKeepsNonEmpty(xs: seq<string>)
    requires forall k :: 0 <= k < |xs| ==> xs[k] != []
    ensures DropEmpty(xs) == xs
  {
    if xs != [] {
      DropEmptyKeepsNonEmpty(xs[1..]);
      assert xs == [xs[0]] + xs[1..];
    }
  }

  /** Topics already in parsed form pass through unchanged. */
  lemma NonBlankTopicsKeepsTopics(topics: seq<string>)
    requires forall k :: 0 <= k < |topics| ==> IsTopic(topics[k])
    ensures NonBlankTopics(topics) == topics
  {
    assert StripLines(topics) == topics;
    DropEmptyKeepsNonEmpty(topics);
  }

  /** Writing a topic list back one per line and parsing it again gives the
      same list. */
  lemma ParseTopicsOfLines(topics: seq<string>)
    requires forall k :: 0 <= k < |topics| ==> IsTopic(topics[k])
    ensures ParseTopics(Join(topics, "\n")) == topics
  {
    if topics != [] {
      SplitOfJoin(topics, '\n');
      NonBlankTopicsKeepsTopics(topics);
      ParseTopicsIsFilteredLines(Join(topics, "\n"));
    }
  }

  /** Parsing is idempotent: the topics of a box, typed back one per line,
      parse to themselves. */
  lemma ParseTopicsIdempotent(bulkInput: string)
    ensures ParseTopics(Join(ParseTopics(bulkInput), "\n")) == ParseTopics(bulkInput)
  {
    ParseTopicsAreTopics(bulkInput);
    ParseTopicsOfLines(ParseTopics(bulkInput));
  }

  /** Two topics typed on two lines give those two topics, in order. */
  lemma ParseTwoLines(a: string, b: string)
    requires IsTopic(a) && IsTopic(b)
    ensures ParseTopics(a + "\n" + b) == [a, b]
  {
    var topics := [a, b];
    ParseTopicsOfLines(topics);
    assert topics[1..] == [b];
  }

  /** "cats" and "dogs" typed on two lines give those two topics, in order. */
  lemma ParseTwoTopics()
    ensures ParseTopics("cats\ndogs") == ["cats", "dogs"]
  {
    assert IsTopic("cats");
    assert IsTopic("dogs");
    ParseTwoLines("cats", "dogs");
    assert "cats" + "\n" + "dogs" == "cats\ndogs";
  }

  /** A box of spaces and empty lines gives no topics. */
  lemma ParseBlankBox()
    ensures ParseTopics("   \n\n") == []
  {
    var box := "   \n\n";
    assert forall k :: 0 <= k < |box| ==> box[k] == ' ' || box[k] == '\n';
    assert IsWs(' ');
    ParseTopicsEmptyIff(box);
  }
}
