/** The overflow message test of `export_tiles`: a regular-expression search
    for "estimated tile count", a lazy gap, a parenthesised run of digits
    (captured), a lazy gap, "greater than", a lazy gap, "max export tile" with
    an optional "s", " count", a lazy gap and a second parenthesised, captured
    run of digits. It is modelled as a backtracking matcher over this one
    pattern, in the order Python's engine tries alternatives: a lazy gap first
    tries to match nothing and never consumes a newline, a digit run and the
    optional "s" first try to consume, and the search tries start positions
    from the left. */
module OverflowPattern {
  import opened Common
  import opened Decimal

  /** The pattern's building blocks. */
  datatype Item =
    | Char(c: char)          // a literal character
    | LazyAny                // `.*?`
    | OptionalChar(c: char)  // `c?`
    | DigitGroup             // `(\d*)`, a capturing group

  function Chars(w: string): (p: seq<Item>)
    ensures |p| == |w| && forall k :: 0 <= k < |w| ==> p[k] == Char(w[k])
  {
    seq(|w|, k requires 0 <= k < |w| => Char(w[k]))
  }

  /** `\((\d*)\)`: a parenthesised, captured run of digits. */
  const COUNT_GROUP: seq<Item> := [Char('('), DigitGroup, Char(')')]

  /** The pattern, written as the chain of its suffixes: each constant is
      what remains to match after the piece its name mentions. */
  const PATTERN: seq<Item> := Chars("estimated tile count") + AFTER_ESTIMATED
  const AFTER_ESTIMATED: seq<Item> := [LazyAny] + AFTER_ESTIMATED_LAZY
  const AFTER_ESTIMATED_LAZY: seq<Item> := COUNT_GROUP + AFTER_FIRST_COUNT
  const AFTER_FIRST_COUNT: seq<Item> := [LazyAny] + AFTER_FIRST_LAZY
  const AFTER_FIRST_LAZY: seq<Item> := Chars("greater than") + AFTER_GREATER
  const AFTER_GREATER: seq<Item> := [LazyAny] + AFTER_GREATER_LAZY
  const AFTER_GREATER_LAZY: seq<Item> := Chars("max export tile") + AFTER_TILE
  const AFTER_TILE: seq<Item> := [OptionalChar('s')] + AFTER_PLURAL
  const AFTER_PLURAL: seq<Item> := Chars(" count") + AFTER_COUNT_WORD
  const AFTER_COUNT_WORD: seq<Item> := [LazyAny] + AFTER_SECOND_LAZY
  const AFTER_SECOND_LAZY: seq<Item> := COUNT_GROUP

  /** The number of capturing groups in a pattern. */
  function Groups(p: seq<Item>): nat {
    if p == [] then 0 else (if p[0].DigitGroup? then 1 else 0) + Groups(p[1..])
  }

  predicate AllDigitStrings(caps: seq<string>) {
    forall k :: 0 <= k < |caps| ==> AllDigits(caps[k])
  }

  /** The captures of the first way (in Python's order) that `p` matches `s`
      starting exactly at position `i`, or `None`. */
  function MatchAt(s: string, i: nat, p: seq<Item>): (r: Option<seq<string>>)
    requires i <= |s|
    ensures r.Some? ==> |r.value| == Groups(p) && AllDigitStrings(r.value)
    decreases |p|, 1, |s| - i
  {
    if p == [] then Some([])
    else match p[0]
      case Char(c) =>
        if i < |s| && s[i] == c then MatchAt(s, i + 1, p[1..]) else None
      case LazyAny =>
        var shortest := MatchAt(s, i, p[1..]);
        if shortest.Some? then shortest
        else if i < |s| && s[i] != '\n' then MatchAt(s, i + 1, p)
        else None
      case OptionalChar(c) =>
        var taken := if i < |s| && s[i] == c then MatchAt(s, i + 1, p[1..]) else None;
        if taken.Some? then taken else MatchAt(s, i, p[1..])
      case DigitGroup =>
        GreedyDigits(s, i, DigitRunEnd(s, i), p[1..])
  }

  /** The end of the run of digits that starts at `i`. */
  function DigitRunEnd(s: string, i: nat): (j: nat)
    requires i <= |s|
    ensures i <= j <= |s| && AllDigits(s[i..j])
    ensures j < |s| ==> !IsDigit(s[j])
    decreases |s| - i
  {
    if i < |s| && IsDigit(s[i]) then
      var j := DigitRunEnd(s, i + 1);
      assert s[i..j] == [s[i]] + s[i + 1..j];
      j
    else i
  }

  /** `(\d*)` followed by `rest`: capture `s[i..k]`, giving back one digit at a
      time while `rest` does not match after it. */
  function GreedyDigits(s: string, i: nat, k: nat, rest: seq<Item>): (r: Option<seq<string>>)
    requires i <= k <= |s| && AllDigits(s[i..k])
    ensures r.Some? ==> |r.value| == 1 + Groups(rest) && AllDigitStrings(r.value)
    decreases |rest| + 1, 0, k
  {
    match MatchAt(s, k, rest)
    case Some(caps) => Some([s[i..k]] + caps)
    case None =>
      if k > i then
        assert AllDigits(s[i..k - 1]) by {
          assert s[i..k - 1] == s[i..k][..k - 1 - i];
          DigitsPrefix(s[i..k], k - 1 - i);
        }
        GreedyDigits(s, i, k - 1, rest)
      else None
  }

  lemma DigitsPrefix(w: string, n: nat)
    requires AllDigits(w) && n <= |w|
    ensures AllDigits(w[..n])
  {
  }

  /** `re.search` from position `start` onwards. */
  function SearchFrom(s: string, start: nat): (r: Option<seq<string>>)
    requires start <= |s|
    ensures r.Some? ==> |r.value| == Groups(PATTERN) && AllDigitStrings(r.value)
    decreases |s| - start
  {
    var m := MatchAt(s, start, PATTERN);
    if m.Some? then m
    else if start < |s| then SearchFrom(s, start + 1)
    else None
  }

  /** The two captured groups (estimated count, maximum count) of the
      overflow message, or `None` when `re.search` finds no match. */
  function OverflowCounts(msg: string): (r: Option<(string, string)>)
    ensures r.Some? ==> AllDigits(r.value.0) && AllDigits(r.value.1)
  {
    var m := SearchFrom(msg, 0);
    PatternHasTwoGroups();
    if m.Some? then Some((m.value[0], m.value[1])) else None
  }

  lemma {:induction false} GroupsAppend(p: seq<Item>, q: seq<Item>)
    ensures Groups(p + q) == Groups(p) + Groups(q)
  {
    if p == [] {
      assert p + q == q;
    } else {
      assert (p + q)[0] == p[0];
      assert (p + q)[1..] == p[1..] + q;
      GroupsAppend(p[1..], q);
    }
  }

  lemma {:induction false} CharsHaveNoGroups(w: string)
    ensures Groups(Chars(w)) == 0
  {
    if w != [] {
      assert Chars(w)[1..] == Chars(w[1..]);
      CharsHaveNoGroups(w[1..]);
    }
  }

  lemma CountGroupHasOneGroup()
    ensures Groups(COUNT_GROUP) == 1
  {
    assert COUNT_GROUP[1..][1..] == [Char(')')];
  }

  /** The pattern captures exactly two groups. */
  lemma PatternHasTwoGroups()
    ensures Groups(PATTERN) == 2
  {
    CharsHaveNoGroups("estimated tile count");
    CharsHaveNoGroups("greater than");
    CharsHaveNoGroups("max export tile");
    CharsHaveNoGroups(" count");
    CountGroupHasOneGroup();
    var lazy, s := [LazyAny], [OptionalChar('s')];
    assert Groups(lazy) == 0 && Groups(s) == 0;
    GroupsAppend(lazy, AFTER_SECOND_LAZY);
    GroupsAppend(Chars(" count"), AFTER_COUNT_WORD);
    GroupsAppend(s, AFTER_PLURAL);
    GroupsAppend(Chars("max export tile"), AFTER_TILE);
    GroupsAppend(lazy, AFTER_GREATER_LAZY);
    GroupsAppend(Chars("greater than"), AFTER_GREATER);
    GroupsAppend(lazy, AFTER_FIRST_LAZY);
    GroupsAppend(COUNT_GROUP, AFTER_FIRST_COUNT);
    GroupsAppend(lazy, AFTER_ESTIMATED_LAZY);
    GroupsAppend(Chars("estimated tile count"), AFTER_ESTIMATED);
  }

  /** A literal run matches exactly the same characters. */
  lemma {:induction false} CharsStep(s: string, i: nat, w: string, rest: seq<Item>)
    requires i + |w| <= |s| && s[i..i + |w|] == w
    ensures MatchAt(s, i, Chars(w) + rest) == MatchAt(s, i + |w|, rest)
    decreases |w|
  {
    if w != [] {
      var p := Chars(w) + rest;
      assert p[0] == Char(w[0]);
      assert p[1..] == Chars(w[1..]) + rest;
      assert s[i + 1..i + 1 + |w[1..]|] == w[1..];
      CharsStep(s, i + 1, w[1..], rest);
    } else {
      assert Chars(w) + rest == rest;
    }
  }

  /** `.*?` matches nothing when what follows it already matches. */
  lemma LazyStops(s: string, i: nat, rest: seq<Item>)
    requires i <= |s| && MatchAt(s, i, rest).Some?
    ensures MatchAt(s, i, [LazyAny] + rest) == MatchAt(s, i, rest)
  {
    assert ([LazyAny] + rest)[1..] == rest;
  }

  /** `.*?` skips a gap of ordinary characters none of which can start what
      follows it. */
  lemma {:induction false} LazySkips(s: string, i: nat, gap: string, c: char, rest: seq<Item>)
    requires i + |gap| <= |s| && s[i..i + |gap|] == gap
    requires c !in gap && '\n' !in gap && |rest| > 0 && rest[0] == Char(c)
    ensures MatchAt(s, i, [LazyAny] + rest) == MatchAt(s, i + |gap|, [LazyAny] + rest)
    decreases |gap|
  {
    if gap != [] {
      var p := [LazyAny] + rest;
      assert p[1..] == rest;
      assert s[i] == gap[0];
      assert MatchAt(s, i, rest) == None;
      assert s[i + 1..i + 1 + |gap[1..]|] == gap[1..];
      LazySkips(s, i + 1, gap[1..], c, rest);
    }
  }

  /** `s?` takes the `s` when the rest matches after it. */
  lemma OptionalTaken(s: string, i: nat, c: char, rest: seq<Item>)
    requires i < |s| && s[i] == c && MatchAt(s, i + 1, rest).Some?
    ensures MatchAt(s, i, [OptionalChar(c)] + rest) == MatchAt(s, i + 1, rest)
  {
    assert ([OptionalChar(c)] + rest)[1..] == rest;
  }

  /** `\((\d*)\)` on `(digits)` captures all the digits. */
  lemma CountGroupStep(s: string, i: nat, digits: string, rest: seq<Item>)
    requires AllDigits(digits)
    requires i + |digits| + 2 <= |s| && s[i] == '('
    requires s[i + 1..i + 1 + |digits|] == digits && s[i + 1 + |digits|] == ')'
    requires MatchAt(s, i + |digits| + 2, rest).Some?
    ensures MatchAt(s, i, COUNT_GROUP + rest) == Some([digits] + MatchAt(s, i + |digits| + 2, rest).value)
  {
    var j := i + 1 + |digits|;
    DigitRunEndAt(s, i + 1, j);
    var p := COUNT_GROUP + rest;
    assert p[0] == Char('(');
    assert p[1..][0] == DigitGroup;
    var q := [Char(')')] + rest;
    assert p[1..][1..] == q;
    assert q[1..] == rest;
    var caps := MatchAt(s, j + 1, rest).value;
    assert MatchAt(s, j, q) == Some(caps);
    assert GreedyDigits(s, i + 1, j, q) == Some([digits] + caps);
    assert MatchAt(s, i + 1, p[1..]) == Some([digits] + caps);
  }

  /** The positions of `(digits)` at the start of `s[i..]`. */
  lemma ParenLayout(s: string, i: nat, digits: string, tail: string)
    requires i <= |s| && s[i..] == "(" + (digits + (")" + tail))
    ensures i + |digits| + 2 <= |s| && s[i] == '('
    ensures s[i + 1..i + 1 + |digits|] == digits && s[i + 1 + |digits|] == ')'
    ensures s[i + |digits| + 2..] == tail
  {
    Peel(s, i, "(", digits + (")" + tail));
    Peel(s, i + 1, digits, ")" + tail);
    Peel(s, i + 1 + |digits|, ")", tail);
    assert s[i] == s[i..i + 1][0];
    assert s[i + 1 + |digits|] == s[i + 1 + |digits|..i + 2 + |digits|][0];
  }

  lemma {:induction false} DigitRunEndAt(s: string, i: nat, j: nat)
    requires i <= j < |s| && AllDigits(s[i..j]) && !IsDigit(s[j])
    ensures DigitRunEnd(s, i) == j
    decreases j - i
  {
    if i < j {
      assert s[i] == s[i..j][0];
      assert s[i + 1..j] == s[i..j][1..];
      DigitRunEndAt(s, i + 1, j);
    }
  }

  /** The overflow message in its usual wording,
      "estimated tile count of (EST) is greater than the max export tiles count of (MAX)",
      built from its tails so that each tail is a piece of the one before. */
  function OverflowMessage(est: string, max: string): string {
    "estimated tile count" + OfEstimate(est, max)
  }

  function OfEstimate(est: string, max: string): string {
    " of " + EstimatePart(est, max)
  }

  function EstimatePart(est: string, max: string): string {
    "(" + (est + (")" + IsTail(max)))
  }

  function IsTail(max: string): string {
    " is " + GreaterTail(max)
  }

  function GreaterTail(max: string): string {
    "greater than" + TheTail(max)
  }

  function TheTail(max: string): string {
    " the " + TileTail(max)
  }

  function TileTail(max: string): string {
    "max export tile" + PluralTail(max)
  }

  function PluralTail(max: string): string {
    "s" + CountTail(max)
  }

  function CountTail(max: string): string {
    " count" + OfMaximum(max)
  }

  function OfMaximum(max: string): string {
    " of " + MaximumPart(max)
  }

  function MaximumPart(max: string): string {
    "(" + (max + ")")
  }

  /** The text at `i` is `w` followed by `rest`. */
  lemma Peel(s: string, i: nat, w: string, rest: string)
    requires i <= |s| && s[i..] == w + rest
    ensures i + |w| <= |s| && s[i..i + |w|] == w && s[i + |w|..] == rest
  {
    assert s[i..i + |w|] == (w + rest)[..|w|];
    assert s[i + |w|..] == (w + rest)[|w|..];
  }

  // Matching the tails of the message, followed by any text `post`, against
  // the suffixes of the pattern, from the end of the message back to its start.

  lemma MatchMaximumPart(s: string, i: nat, max: string, post: string)
    requires AllDigits(max) && i <= |s| && s[i..] == MaximumPart(max) + post
    ensures MatchAt(s, i, AFTER_SECOND_LAZY) == Some([max])
  {
    assert s[i..] == "(" + (max + (")" + post));
    ParenLayout(s, i, max, post);
    assert MatchAt(s, i + |max| + 2, []) == Some([]);
    assert COUNT_GROUP + [] == AFTER_SECOND_LAZY;
    CountGroupStep(s, i, max, []);
    assert [max] + [] == [max];
  }

  lemma MatchOfMaximum(s: string, i: nat, max: string, post: string)
    requires AllDigits(max) && i <= |s| && s[i..] == OfMaximum(max) + post
    ensures MatchAt(s, i, AFTER_COUNT_WORD) == Some([max])
  {
    Peel(s, i, " of ", MaximumPart(max) + post);
    MatchMaximumPart(s, i + 4, max, post);
    LazySkips(s, i, " of ", '(', AFTER_SECOND_LAZY);
    LazyStops(s, i + 4, AFTER_SECOND_LAZY);
  }

  lemma MatchCountTail(s: string, i: nat, max: string, post: string)
    requires AllDigits(max) && i <= |s| && s[i..] == CountTail(max) + post
    ensures MatchAt(s, i, AFTER_PLURAL) == Some([max])
  {
    Peel(s, i, " count", OfMaximum(max) + post);
    MatchOfMaximum(s, i + 6, max, post);
    CharsStep(s, i, " count", AFTER_COUNT_WORD);
  }

  lemma MatchPluralTail(s: string, i: nat, max: string, post: string)
    requires AllDigits(max) && i <= |s| && s[i..] == PluralTail(max) + post
    ensures MatchAt(s, i, AFTER_TILE) == Some([max])
  {
    Peel(s, i, "s", CountTail(max) + post);
    assert s[i] == s[i..i + 1][0];
    MatchCountTail(s, i + 1, max, post);
    OptionalTaken(s, i, 's', AFTER_PLURAL);
  }

  lemma MatchTileTail(s: string, i: nat, max: string, post: string)
    requires AllDigits(max) && i <= |s| && s[i..] == TileTail(max) + post
    ensures MatchAt(s, i, AFTER_GREATER_LAZY) == Some([max])
  {
    Peel(s, i, "max export tile", PluralTail(max) + post);
    MatchPluralTail(s, i + 15, max, post);
    CharsStep(s, i, "max export tile", AFTER_TILE);
  }

  lemma MatchTheTail(s: string, i: nat, max: string, post: string)
    requires AllDigits(max) && i <= |s| && s[i..] == TheTail(max) + post
    ensures MatchAt(s, i, AFTER_GREATER) == Some([max])
  {
    Peel(s, i, " the ", TileTail(max) + post);
    MatchTileTail(s, i + 5, max, post);
    LazySkips(s, i, " the ", 'm', AFTER_GREATER_LAZY);
    LazyStops(s, i + 5, AFTER_GREATER_LAZY);
  }

  lemma MatchGreaterTail(s: string, i: nat, max: string, post: string)
    requires AllDigits(max) && i <= |s| && s[i..] == GreaterTail(max) + post
    ensures MatchAt(s, i, AFTER_FIRST_LAZY) == Some([max])
  {
    Peel(s, i, "greater than", TheTail(max) + post);
    MatchTheTail(s, i + 12, max, post);
    CharsStep(s, i, "greater than", AFTER_GREATER);
  }

  lemma MatchIsTail(s: string, i: nat, max: string, post: string)
    requires AllDigits(max) && i <= |s| && s[i..] == IsTail(max) + post
    ensures MatchAt(s, i, AFTER_FIRST_COUNT) == Some([max])
  {
    Peel(s, i, " is ", GreaterTail(max) + post);
    MatchGreaterTail(s, i + 4, max, post);
    LazySkips(s, i, " is ", 'g', AFTER_FIRST_LAZY);
    LazyStops(s, i + 4, AFTER_FIRST_LAZY);
  }

  lemma MatchEstimatePart(s: string, i: nat, est: string, max: string, post: string)
    requires AllDigits(est) && AllDigits(max) && i <= |s| && s[i..] == EstimatePart(est, max) + post
    ensures MatchAt(s, i, AFTER_ESTIMATED_LAZY) == Some([est, max])
  {
    assert s[i..] == "(" + (est + (")" + (IsTail(max) + post)));
    ParenLayout(s, i, est, IsTail(max) + post);
    MatchIsTail(s, i + |est| + 2, max, post);
    CountGroupStep(s, i, est, AFTER_FIRST_COUNT);
    assert COUNT_GROUP + AFTER_FIRST_COUNT == AFTER_ESTIMATED_LAZY;
    assert [est] + [max] == [est, max];
  }

  lemma MatchOfEstimate(s: string, i: nat, est: string, max: string, post: string)
    requires AllDigits(est) && AllDigits(max) && i <= |s| && s[i..] == OfEstimate(est, max) + post
    ensures MatchAt(s, i, AFTER_ESTIMATED) == Some([est, max])
  {
    Peel(s, i, " of ", EstimatePart(est, max) + post);
    MatchEstimatePart(s, i + 4, est, max, post);
    LazySkips(s, i, " of ", '(', AFTER_ESTIMATED_LAZY);
    LazyStops(s, i + 4, AFTER_ESTIMATED_LAZY);
  }

  /** The words the pattern starts with. */
  const KEYWORD: string := "estimated tile count"

  /** An occurrence of the keyword starts at `j` in `s`. */
  predicate KeywordAt(s: string, j: nat) {
    j + |KEYWORD| <= |s| && s[j..j + |KEYWORD|] == KEYWORD
  }

  /** A literal run does not match where the text differs from it. */
  lemma {:induction false} CharsMismatch(s: string, i: nat, w: string, rest: seq<Item>)
    requires i <= |s| && !(i + |w| <= |s| && s[i..i + |w|] == w)
    ensures MatchAt(s, i, Chars(w) + rest) == None
    decreases |w|
  {
    var p := Chars(w) + rest;
    assert w != [];
    assert p[0] == Char(w[0]);
    if i < |s| && s[i] == w[0] {
      assert p[1..] == Chars(w[1..]) + rest;
      if i + |w| <= |s| {
        var t :| 0 <= t < |w| && s[i..i + |w|][t] != w[t];
        assert t != 0;
        assert s[i + 1..i + |w|][t - 1] != w[1..][t - 1];
      }
      CharsMismatch(s, i + 1, w[1..], rest);
    }
  }

  /** The keyword has no proper border: shifted by `d` it disagrees with
      itself at position 0 or 1. */
  lemma KeywordShift(d: nat)
    requires 1 <= d < |KEYWORD|
    ensures KEYWORD[d] != KEYWORD[0] || (d + 1 < |KEYWORD| && KEYWORD[d + 1] != KEYWORD[1])
  {
    if d == 7 {
      assert KEYWORD[8] != KEYWORD[1];
    } else if d == 13 {
      assert KEYWORD[14] != KEYWORD[1];
    } else {
      assert KEYWORD[d] != 'e';
    }
  }

  /** No occurrence of the keyword starts before the message when none starts
      in `pre`, not even one running on into the message. */
  lemma NoKeywordBefore(pre: string, rest: string, k: nat)
    requires k < |pre| && !KeywordAt(pre, k) && KEYWORD <= rest
    ensures !KeywordAt(pre + rest, k)
  {
    var s := pre + rest;
    if k + |KEYWORD| <= |s| {
      var w := s[k..k + |KEYWORD|];
      if k + |KEYWORD| <= |pre| {
        assert w == pre[k..k + |KEYWORD|];
      } else {
        var d := |pre| - k;
        KeywordShift(d);
        assert w[d] == rest[0] == KEYWORD[0];
        if KEYWORD[d] == KEYWORD[0] {
          assert w[d + 1] == rest[1] == KEYWORD[1];
        }
      }
    }
  }

  /** The search moves past start positions where the pattern does not match. */
  lemma {:induction false} SearchSkips(s: string, j: nat, n: nat)
    requires j <= n <= |s|
    requires forall k :: j <= k < n ==> MatchAt(s, k, PATTERN) == None
    ensures SearchFrom(s, j) == SearchFrom(s, n)
    decreases n - j
  {
    if j < n {
      SearchSkips(s, j + 1, n);
    }
  }

  /** Within any text, the overflow message yields its two counts, the
      estimated count and then the maximum, provided no occurrence of
      "estimated tile count" starts in the text before it. */
  lemma OverflowMessageInText(pre: string, est: string, max: string, post: string)
    requires AllDigits(est) && AllDigits(max)
    requires forall k :: 0 <= k < |pre| ==> !KeywordAt(pre, k)
    ensures OverflowCounts(pre + OverflowMessage(est, max) + post) == Some((est, max))
  {
    var rest := OverflowMessage(est, max) + post;
    var s := pre + rest;
    assert pre + OverflowMessage(est, max) + post == s;
    assert rest == KEYWORD + (OfEstimate(est, max) + post);
    assert s[|pre|..] == rest;
    Peel(s, |pre|, KEYWORD, OfEstimate(est, max) + post);
    MatchOfEstimate(s, |pre| + 20, est, max, post);
    CharsStep(s, |pre|, KEYWORD, AFTER_ESTIMATED);
    forall k | 0 <= k < |pre|
      ensures MatchAt(s, k, PATTERN) == None
    {
      NoKeywordBefore(pre, rest, k);
      CharsMismatch(s, k, KEYWORD, AFTER_ESTIMATED);
    }
    SearchSkips(s, 0, |pre|);
    PatternHasTwoGroups();
  }

  /** A message in which "estimated tile count" starts nowhere is not the
      overflow message: `re.search` finds no match. */
  lemma NoKeywordNoMatch(msg: string)
    requires forall k :: 0 <= k < |msg| ==> !KeywordAt(msg, k)
    ensures OverflowCounts(msg).None?
  {
    assert |KEYWORD| == 20;
    forall k | 0 <= k <= |msg|
      ensures MatchAt(msg, k, PATTERN) == None
    {
      assert !KeywordAt(msg, k);
      CharsMismatch(msg, k, KEYWORD, AFTER_ESTIMATED);
    }
    SearchSkips(msg, 0, |msg|);
  }

  /** On the bare overflow message the two captures are the estimated count
      and then the maximum count, in that order. */
  lemma OverflowMessageCounts(est: string, max: string)
    requires AllDigits(est) && AllDigits(max)
    ensures OverflowCounts(OverflowMessage(est, max)) == Some((est, max))
  {
    OverflowMessageInText("", est, max, "");
    assert "" + OverflowMessage(est, max) + "" == OverflowMessage(est, max);
  }
}
