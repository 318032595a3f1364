/**
  `parsePredictionsText`: the text recognised on a photographed prediction sheet is
  split into lines; blank lines are dropped; a line matching `/name:?\s*(.+)/i`
  sets the participant's name, and any other line matching
  `/(\d+)[\.\):\s]+(\d+)[\:\-](\d+)/` adds a (match number, home, away) prediction.

  Each regular expression is modelled twice: declaratively, as the set of ways it
  can match a line (a parse), with JavaScript's backtracking priority as an order
  on parses; and operationally, as a matcher that follows the backtracking. The
  lemmas show the matcher returns the parse JavaScript picks: the leftmost start,
  and at that start the first alternative the greedy quantifiers try.
*/
module Ocr {
  import opened Wrappers
  import opened Text
  import opened Sequences

  // ---------------------------------------------------------------------------
  // character classes and runs
  // ---------------------------------------------------------------------------

  /** What `.` matches: anything but a line terminator. */
  predicate IsLineChar(c: char) {
    !IsLineTerminator(c)
  }

  /** `[\.\):\s]`: the characters between the match number and the home score. */
  predicate IsNumberSeparator(c: char) {
    c == '.' || c == ')' || c == ':' || IsSpace(c)
  }

  /** `[\:\-]`: the character between the two scores. */
  predicate IsScoreSeparator(c: char) {
    c == ':' || c == '-'
  }

  predicate AllIn(s: string, i: nat, j: nat, p: char -> bool)
    requires i <= j <= |s|
  {
    forall k :: i <= k < j ==> p(s[k])
  }

  /** The length of the longest run of characters satisfying `p` from position `i`. */
  function Run(s: string, i: nat, p: char -> bool): (n: nat)
    requires i <= |s|
    ensures i + n <= |s|
    decreases |s| - i
  {
    if i < |s| && p(s[i]) then 1 + Run(s, i + 1, p) else 0
  }

  /** The run is all `p` and stops at the end of the string or at a character outside `p`. */
  lemma {:induction false} RunSpec(s: string, i: nat, p: char -> bool)
    requires i <= |s|
    ensures AllIn(s, i, i + Run(s, i, p), p)
    ensures i + Run(s, i, p) == |s| || !p(s[i + Run(s, i, p)])
    decreases |s| - i
  {
    if i < |s| && p(s[i]) {
      RunSpec(s, i + 1, p);
    }
  }

  /** No run of `p` from `i` is longer than the one `Run` finds. */
  lemma RunMaximal(s: string, i: nat, j: nat, p: char -> bool)
    requires i <= j <= |s| && AllIn(s, i, j, p)
    ensures j <= i + Run(s, i, p)
  {
    RunSpec(s, i, p);
  }

  /** A run of `p` from `i` that stops at `j` is the longest one. */
  lemma RunExact(s: string, i: nat, j: nat, p: char -> bool)
    requires i <= j <= |s| && AllIn(s, i, j, p)
    requires j == |s| || !p(s[j])
    ensures Run(s, i, p) == j - i
  {
    RunMaximal(s, i, j, p);
    RunSpec(s, i, p);
  }

  // ---------------------------------------------------------------------------
  // /name:?\s*(.+)/i
  // ---------------------------------------------------------------------------

  /** The keyword "name", in any ASCII case, at position `p`. */
  predicate NameAt(line: string, p: nat) {
    p + 4 <= |line| && AsciiCaseInsensitiveEq(line[p..p + 4], "name")
  }

  /** `\s*(.+)` from `i`: `spaces` whitespace characters, then the capture up to `end`. */
  predicate IsCapture(line: string, i: nat, spaces: nat, end: nat) {
    && i + spaces < end <= |line|
    && AllIn(line, i, i + spaces, IsSpace)
    && AllIn(line, i + spaces, end, IsLineChar)
  }

  /** One way the name pattern matches: keyword at `start`, the colon taken or not, then `\s*(.+)`. */
  datatype NameParse = NameParse(start: nat, colon: nat, spaces: nat, end: nat) {
    function CaptureFrom(): nat {
      start + 4 + colon + spaces
    }
  }

  predicate IsNameParse(line: string, d: NameParse) {
    && NameAt(line, d.start)
    && d.colon <= 1
    && (d.colon == 1 ==> d.start + 4 < |line| && line[d.start + 4] == ':')
    && IsCapture(line, d.start + 4 + d.colon, d.spaces, d.end)
  }

  /**
    `d` is tried no later than `e`: an earlier start; at the same start the colon
    taken before skipped, then more spaces before fewer, then a longer capture.
  */
  predicate NamePrecedes(d: NameParse, e: NameParse) {
    || d.start < e.start
    || (d.start == e.start && d.colon > e.colon)
    || (d.start == e.start && d.colon == e.colon && d.spaces > e.spaces)
    || (d.start == e.start && d.colon == e.colon && d.spaces == e.spaces && d.end >= e.end)
  }

  /** Backtracking `\s*`: the largest `k <= n` after which `.` can match. */
  function GiveBackSpaces(line: string, i: nat, k: nat): (r: Option<nat>)
    requires i + k <= |line|
    ensures r.Some? ==> r.value <= k && i + r.value < |line| && IsLineChar(line[i + r.value])
    ensures forall j :: i <= j <= i + k && (r.None? || i + r.value < j) ==> !(j < |line| && IsLineChar(line[j]))
    decreases k
  {
    if i + k < |line| && IsLineChar(line[i + k]) then Some(k)
    else if k == 0 then None
    else GiveBackSpaces(line, i, k - 1)
  }

  /** `\s*(.+)` matched from `i` the way JavaScript does: greedy, backtracking only as far as needed. */
  function MatchCapture(line: string, i: nat): (r: Option<(nat, nat)>)
    requires i <= |line|
    ensures r.Some? ==> IsCapture(line, i, r.value.0, r.value.1)
  {
    var n := Run(line, i, IsSpace);
    RunSpec(line, i, IsSpace);
    match GiveBackSpaces(line, i, n)
    case None => None
    case Some(k) =>
      RunSpec(line, i + k, IsLineChar);
      Some((k, i + k + Run(line, i + k, IsLineChar)))
  }

  /** The matcher for `\s*(.+)` finds a capture exactly when one exists, and the one tried first. */
  lemma MatchCaptureSpec(line: string, i: nat)
    requires i <= |line|
    ensures MatchCapture(line, i).None? ==> forall k: nat, e: nat :: !IsCapture(line, i, k, e)
    ensures MatchCapture(line, i).Some? ==>
              var (k, e) := MatchCapture(line, i).value;
              forall k': nat, e': nat :: IsCapture(line, i, k', e') ==> k' < k || (k' == k && e' <= e)
  {
    var n := Run(line, i, IsSpace);
    forall k': nat, e': nat | IsCapture(line, i, k', e')
      ensures MatchCapture(line, i).Some?
      ensures MatchCapture(line, i).Some? ==>
                (k' < MatchCapture(line, i).value.0 || (k' == MatchCapture(line, i).value.0 && e' <= MatchCapture(line, i).value.1))
    {
      RunMaximal(line, i, i + k', IsSpace);
      assert IsLineChar(line[i + k']);
      var (k, e) := MatchCapture(line, i).value;
      if k' == k {
        RunMaximal(line, i + k, e', IsLineChar);
      }
    }
  }

  /** The name pattern tried at one start position: the colon first, then without it. */
  function MatchNameAt(line: string, p: nat): (r: Option<NameParse>)
    ensures r.Some? ==> IsNameParse(line, r.value) && r.value.start == p
  {
    if !NameAt(line, p) then None
    else if p + 4 < |line| && line[p + 4] == ':' && MatchCapture(line, p + 5).Some? then
      var (k, e) := MatchCapture(line, p + 5).value;
      Some(NameParse(p, 1, k, e))
    else
      match MatchCapture(line, p + 4)
      case None => None
      case Some((k, e)) => Some(NameParse(p, 0, k, e))
  }

  lemma MatchNameAtSpec(line: string, p: nat)
    ensures MatchNameAt(line, p).None? ==> forall e :: IsNameParse(line, e) ==> e.start != p
    ensures MatchNameAt(line, p).Some? ==> forall e :: IsNameParse(line, e) && e.start == p ==> NamePrecedes(MatchNameAt(line, p).value, e)
  {
    if NameAt(line, p) {
      MatchCaptureSpec(line, p + 4);
      if p + 4 < |line| && line[p + 4] == ':' {
        MatchCaptureSpec(line, p + 5);
      }
    }
  }

  /** Tries every start position from `p` on, left to right. */
  function MatchNameFrom(line: string, p: nat): (r: Option<NameParse>)
    ensures r.Some? ==> IsNameParse(line, r.value) && r.value.start >= p
    decreases |line| - p
  {
    if p + 4 > |line| then None
    else
      match MatchNameAt(line, p)
      case Some(d) => Some(d)
      case None => MatchNameFrom(line, p + 1)
  }

  /** `line.match(/name:?\s*(.+)/i)`. */
  function MatchName(line: string): (r: Option<NameParse>)
    ensures r.Some? ==> IsNameParse(line, r.value)
  {
    MatchNameFrom(line, 0)
  }

  lemma {:induction false} MatchNameFromSpec(line: string, p: nat)
    ensures MatchNameFrom(line, p).None? ==> forall e :: IsNameParse(line, e) ==> e.start < p
    ensures MatchNameFrom(line, p).Some? ==>
              forall e :: IsNameParse(line, e) && e.start >= p ==> NamePrecedes(MatchNameFrom(line, p).value, e)
    decreases |line| - p
  {
    MatchNameAtSpec(line, p);
    if p + 4 <= |line| && MatchNameAt(line, p).None? {
      MatchNameFromSpec(line, p + 1);
    }
  }

  /**
    The matcher agrees with the pattern's meaning: it fails exactly when no parse
    exists, and otherwise returns the parse JavaScript's backtracking tries first.
  */
  lemma MatchNameSpec(line: string)
    ensures MatchName(line).None? <==> forall e :: !IsNameParse(line, e)
    ensures MatchName(line).Some? ==> forall e :: IsNameParse(line, e) ==> NamePrecedes(MatchName(line).value, e)
  {
    MatchNameFromSpec(line, 0);
  }

  /** The captured group `(.+)` of a name parse. */
  function NameCapture(line: string, d: NameParse): string
    requires IsNameParse(line, d)
  {
    line[d.CaptureFrom()..d.end]
  }

  // ---------------------------------------------------------------------------
  // /(\d+)[\.\):\s]+(\d+)[\:\-](\d+)/
  // ---------------------------------------------------------------------------

  /**
    One way the prediction pattern matches: the match number in
    [start, numberEnd), separators up to separatorEnd, the home score up to
    homeEnd, the score separator at homeEnd, the away score up to awayEnd.
  */
  datatype PredParse = PredParse(start: nat, numberEnd: nat, separatorEnd: nat, homeEnd: nat, awayEnd: nat)

  predicate IsPredParse(line: string, d: PredParse) {
    && d.start < d.numberEnd < d.separatorEnd < d.homeEnd < d.homeEnd + 1 < d.awayEnd <= |line|
    && AllIn(line, d.start, d.numberEnd, IsDigit)
    && AllIn(line, d.numberEnd, d.separatorEnd, IsNumberSeparator)
    && AllIn(line, d.separatorEnd, d.homeEnd, IsDigit)
    && IsScoreSeparator(line[d.homeEnd])
    && AllIn(line, d.homeEnd + 1, d.awayEnd, IsDigit)
  }

  /** `d` is tried no later than `e`: an earlier start, or the same start and greedier quantifiers. */
  predicate PredPrecedes(d: PredParse, e: PredParse) {
    || d.start < e.start
    || (d.start == e.start && d.numberEnd > e.numberEnd)
    || (d.start == e.start && d.numberEnd == e.numberEnd && d.separatorEnd > e.separatorEnd)
    || (d.start == e.start && d.numberEnd == e.numberEnd && d.separatorEnd == e.separatorEnd && d.homeEnd > e.homeEnd)
    || (d.start == e.start && d.numberEnd == e.numberEnd && d.separatorEnd == e.separatorEnd && d.homeEnd == e.homeEnd
        && d.awayEnd >= e.awayEnd)
  }

  /**
    The prediction pattern tried at one start: each quantifier takes its longest
    run. Giving characters back never helps, since the next item cannot match a
    character of the run given back.
  */
  function MatchPredAt(line: string, p: nat): (r: Option<PredParse>)
    requires p <= |line|
    ensures r.Some? ==> IsPredParse(line, r.value) && r.value.start == p
  {
    var a := p + Run(line, p, IsDigit);
    var b := a + Run(line, a, IsNumberSeparator);
    var c := b + Run(line, b, IsDigit);
    if a == p || b == a || c == b || c == |line| || !IsScoreSeparator(line[c]) then None
    else
      var e := c + 1 + Run(line, c + 1, IsDigit);
      if e == c + 1 then None
      else
        RunsParse(line, PredParse(p, a, b, c, e));
        Some(PredParse(p, a, b, c, e))
  }

  /** Four runs that are each non-empty, with a score separator after the third, make a parse. */
  lemma RunsParse(line: string, d: PredParse)
    requires d.start < d.numberEnd < d.separatorEnd < d.homeEnd < d.homeEnd + 1 < d.awayEnd <= |line|
    requires d.numberEnd == d.start + Run(line, d.start, IsDigit)
    requires d.separatorEnd == d.numberEnd + Run(line, d.numberEnd, IsNumberSeparator)
    requires d.homeEnd == d.separatorEnd + Run(line, d.separatorEnd, IsDigit)
    requires IsScoreSeparator(line[d.homeEnd])
    requires d.awayEnd == d.homeEnd + 1 + Run(line, d.homeEnd + 1, IsDigit)
    ensures IsPredParse(line, d)
  {
    assert AllIn(line, d.start, d.numberEnd, IsDigit) by { RunSpec(line, d.start, IsDigit); }
    assert AllIn(line, d.numberEnd, d.separatorEnd, IsNumberSeparator) by { RunSpec(line, d.numberEnd, IsNumberSeparator); }
    assert AllIn(line, d.separatorEnd, d.homeEnd, IsDigit) by { RunSpec(line, d.separatorEnd, IsDigit); }
    assert AllIn(line, d.homeEnd + 1, d.awayEnd, IsDigit) by { RunSpec(line, d.homeEnd + 1, IsDigit); }
  }

  /** Any parse at `p` has the matcher's number, separator and home-score runs, and an away run no longer than its own. */
  lemma MatchPredAtFinds(line: string, p: nat, e: PredParse)
    requires IsPredParse(line, e) && e.start == p
    ensures MatchPredAt(line, p).Some?
    ensures var d := MatchPredAt(line, p).value;
            d.numberEnd == e.numberEnd && d.separatorEnd == e.separatorEnd && d.homeEnd == e.homeEnd && d.awayEnd >= e.awayEnd
  {
    NumberRunEnds(line, e);
    SeparatorRunEnds(line, e);
    HomeRunEnds(line, e);
    var awayEnd := e.homeEnd + 1 + Run(line, e.homeEnd + 1, IsDigit);
    RunMaximal(line, e.homeEnd + 1, e.awayEnd, IsDigit);
    MatchPredAtIs(line, p, e.numberEnd, e.separatorEnd, e.homeEnd, awayEnd);
  }

  /** The matcher's result at `p`, given the ends of its runs. */
  lemma MatchPredAtIs(line: string, p: nat, a: nat, b: nat, c: nat, z: nat)
    requires p < a < b < c < |line| && IsScoreSeparator(line[c])
    requires a == p + Run(line, p, IsDigit) && b == a + Run(line, a, IsNumberSeparator)
    requires c == b + Run(line, b, IsDigit) && c + 1 < z == c + 1 + Run(line, c + 1, IsDigit)
    ensures MatchPredAt(line, p) == Some(PredParse(p, a, b, c, z))
  {
  }

  /** In any parse, the match number is the whole digit run from the start. */
  lemma NumberRunEnds(line: string, e: PredParse)
    requires IsPredParse(line, e)
    ensures e.start + Run(line, e.start, IsDigit) == e.numberEnd
  {
    assert IsNumberSeparator(line[e.numberEnd]);
    RunExact(line, e.start, e.numberEnd, IsDigit);
  }

  /** In any parse, the separators are the whole separator run after the number. */
  lemma SeparatorRunEnds(line: string, e: PredParse)
    requires IsPredParse(line, e)
    ensures e.numberEnd + Run(line, e.numberEnd, IsNumberSeparator) == e.separatorEnd
  {
    assert IsDigit(line[e.separatorEnd]);
    RunExact(line, e.numberEnd, e.separatorEnd, IsNumberSeparator);
  }

  /** In any parse, the home score is the whole digit run after the separators. */
  lemma HomeRunEnds(line: string, e: PredParse)
    requires IsPredParse(line, e)
    ensures e.separatorEnd + Run(line, e.separatorEnd, IsDigit) == e.homeEnd
  {
    assert IsScoreSeparator(line[e.homeEnd]);
    RunExact(line, e.separatorEnd, e.homeEnd, IsDigit);
  }

  lemma MatchPredAtSpec(line: string, p: nat)
    requires p <= |line|
    ensures MatchPredAt(line, p).None? ==> forall e :: IsPredParse(line, e) ==> e.start != p
    ensures MatchPredAt(line, p).Some? ==>
              forall e :: IsPredParse(line, e) && e.start == p ==> PredPrecedes(MatchPredAt(line, p).value, e)
  {
    forall e | IsPredParse(line, e) && e.start == p
      ensures MatchPredAt(line, p).Some? && PredPrecedes(MatchPredAt(line, p).value, e)
    {
      MatchPredAtFinds(line, p, e);
    }
  }

  function MatchPredFrom(line: string, p: nat): (r: Option<PredParse>)
    requires p <= |line|
    ensures r.Some? ==> IsPredParse(line, r.value) && r.value.start >= p
    decreases |line| - p
  {
    if p == |line| then None
    else
      match MatchPredAt(line, p)
      case Some(d) => Some(d)
      case None => MatchPredFrom(line, p + 1)
  }

  /** `line.match(/(\d+)[\.\):\s]+(\d+)[\:\-](\d+)/)`. */
  function MatchPred(line: string): (r: Option<PredParse>)
    ensures r.Some? ==> IsPredParse(line, r.value)
  {
    MatchPredFrom(line, 0)
  }

  lemma {:induction false} MatchPredFromSpec(line: string, p: nat)
    requires p <= |line|
    ensures MatchPredFrom(line, p).None? ==> forall e :: IsPredParse(line, e) ==> e.start < p
    ensures MatchPredFrom(line, p).Some? ==>
              forall e :: IsPredParse(line, e) && e.start >= p ==> PredPrecedes(MatchPredFrom(line, p).value, e)
    decreases |line| - p
  {
    if p < |line| {
      MatchPredAtSpec(line, p);
      if MatchPredAt(line, p).None? {
        MatchPredFromSpec(line, p + 1);
      }
    }
  }

  /**
    The matcher agrees with the pattern's meaning: it fails exactly when no parse
    exists, and otherwise returns the parse JavaScript's backtracking tries first.
  */
  lemma MatchPredSpec(line: string)
    ensures MatchPred(line).None? <==> forall e :: !IsPredParse(line, e)
    ensures MatchPred(line).Some? ==> forall e :: IsPredParse(line, e) ==> PredPrecedes(MatchPred(line).value, e)
  {
    MatchPredFromSpec(line, 0);
  }

  // ---------------------------------------------------------------------------
  // the parser
  // ---------------------------------------------------------------------------

  datatype ParsedPrediction = ParsedPrediction(matchNumber: nat, homeScore: nat, awayScore: nat)

  datatype Extracted = Extracted(participantName: string, predictions: seq<ParsedPrediction>)

  const UnknownParticipant: string := "Unknown"

  /** The three captured digit runs, read with `parseInt`. */
  function PredictionOf(line: string, d: PredParse): ParsedPrediction
    requires IsPredParse(line, d)
  {
    ParsedPrediction(
      DigitsValue(line[d.start..d.numberEnd]),
      DigitsValue(line[d.separatorEnd..d.homeEnd]),
      DigitsValue(line[d.homeEnd + 1..d.awayEnd]))
  }

  /** What one line contributes: a name, a prediction, or nothing. */
  datatype LineResult = NameLine(name: string) | PredictionLine(prediction: ParsedPrediction) | OtherLine

  /** The name pattern is tried first; a name line is never read as a prediction. */
  function ClassifyLine(line: string): (r: LineResult)
    ensures r.NameLine? <==> MatchName(line).Some?
    ensures r.PredictionLine? <==> MatchName(line).None? && MatchPred(line).Some?
  {
    match MatchName(line)
    case Some(d) => NameLine(Trim(NameCapture(line, d)))
    case None =>
      match MatchPred(line)
      case Some(d) => PredictionLine(PredictionOf(line, d))
      case None => OtherLine
  }

  /** `text.split("\n").filter((line) => line.trim())`: lines with a non-whitespace character. */
  function NonBlankLines(text: string): (lines: seq<string>)
    ensures forall line :: line in lines <==> line in Split(text, '\n') && HasNonSpace(line)
  {
    Filter(Split(text, '\n'), HasNonSpace)
  }

  /** The kept lines stay in text order. */
  lemma NonBlankLinesInOrder(text: string)
    ensures IsSubsequence(NonBlankLines(text), Split(text, '\n'))
  {
    FilterIsSubsequence(Split(text, '\n'), HasNonSpace);
  }

  /** Each non-blank line is kept as often as the text has it, so repeated prediction lines stay repeated. */
  lemma NonBlankLinesCount(text: string)
    ensures forall line :: multiset(NonBlankLines(text))[line]
                           == if HasNonSpace(line) then multiset(Split(text, '\n'))[line] else 0
  {
    FilterMultiset(Split(text, '\n'), HasNonSpace);
  }

  /** One iteration: a name line replaces the name, a prediction line appends, any other line is skipped. */
  function Step(r: Extracted, line: string): (s: Extracted)
    ensures s.predictions == r.predictions + LinePredictions(line)
  {
    match ClassifyLine(line)
    case NameLine(name) => r.(participantName := name)
    case PredictionLine(p) => r.(predictions := r.predictions + [p])
    case OtherLine => r
  }

  /** The loop over the lines, in order. */
  function ParseLines(lines: seq<string>): (r: Extracted)
    ensures |r.predictions| <= |lines|
    decreases |lines|
  {
    if lines == [] then Extracted(UnknownParticipant, [])
    else Step(ParseLines(lines[..|lines| - 1]), lines[|lines| - 1])
  }

  /** `parsePredictionsText`: total, and at most one prediction per non-blank line. */
  function ParsePredictionsText(text: string): (r: Extracted)
    ensures |r.predictions| <= |NonBlankLines(text)|
  {
    ParseLines(NonBlankLines(text))
  }

  /** The prediction a line contributes: one for a prediction line, none otherwise. */
  function LinePredictions(line: string): (ps: seq<ParsedPrediction>)
    ensures |ps| <= 1
  {
    match ClassifyLine(line)
    case PredictionLine(p) => [p]
    case _ => []
  }

  /** The predictions of the prediction lines, in line order. */
  function PredictionsOf(lines: seq<string>): seq<ParsedPrediction> {
    if lines == [] then []
    else
      LinePredictions(lines[0]) + PredictionsOf(lines[1..])
  }

  lemma {:induction false} PredictionsOfSnoc(lines: seq<string>, line: string)
    ensures PredictionsOf(lines + [line]) == PredictionsOf(lines) + LinePredictions(line)
  {
    if lines != [] {
      var head, tail := LinePredictions(lines[0]), lines[1..];
      assert (lines + [line])[1..] == tail + [line];
      assert PredictionsOf(lines + [line]) == head + PredictionsOf(tail + [line]);
      PredictionsOfSnoc(tail, line);
      assert head + (PredictionsOf(tail) + LinePredictions(line)) == (head + PredictionsOf(tail)) + LinePredictions(line);
    }
  }

  /**
    The predictions are those of the prediction lines, one per line, in line order;
    name lines and lines matching neither pattern contribute none.
  */
  lemma {:induction false} ParseLinesPredictions(lines: seq<string>)
    ensures ParseLines(lines).predictions == PredictionsOf(lines)
    decreases |lines|
  {
    if lines != [] {
      var init, last := lines[..|lines| - 1], lines[|lines| - 1];
      ParseLinesPredictions(init);
      ParseLinesSnoc(lines);
      PredictionsOfLast(lines);
    }
  }

  lemma PredictionsOfLast(lines: seq<string>)
    requires lines != []
    ensures PredictionsOf(lines) == PredictionsOf(lines[..|lines| - 1]) + LinePredictions(lines[|lines| - 1])
  {
    var init, last := lines[..|lines| - 1], lines[|lines| - 1];
    assert lines == init + [last];
    PredictionsOfSnoc(init, last);
  }

  /** One more line adds its own prediction, if any, to those of the lines before it. */
  lemma ParseLinesSnoc(lines: seq<string>)
    requires lines != []
    ensures ParseLines(lines).predictions
            == ParseLines(lines[..|lines| - 1]).predictions + LinePredictions(lines[|lines| - 1])
  {
  }

  /** The line `i` is a name line and no later line is. */
  predicate LastNameLine(lines: seq<string>, i: nat) {
    i < |lines| && ClassifyLine(lines[i]).NameLine? && forall j :: i < j < |lines| ==> !ClassifyLine(lines[j]).NameLine?
  }

  /**
    The name is "Unknown" when no line is a name line, and otherwise the trimmed
    capture of the last name line: a later name line overrides an earlier one.
  */
  lemma {:induction false} ParseLinesName(lines: seq<string>)
    ensures (forall i :: 0 <= i < |lines| ==> !ClassifyLine(lines[i]).NameLine?) ==>
              ParseLines(lines).participantName == UnknownParticipant
    ensures forall i: nat :: LastNameLine(lines, i) ==> ParseLines(lines).participantName == ClassifyLine(lines[i]).name
    decreases |lines|
  {
    if lines != [] {
      var init := lines[..|lines| - 1];
      ParseLinesName(init);
      forall i: nat | LastNameLine(lines, i) ensures ParseLines(lines).participantName == ClassifyLine(lines[i]).name {
        if i < |lines| - 1 {
          assert LastNameLine(init, i) by {
            forall j | i < j < |init| ensures !ClassifyLine(init[j]).NameLine? {
              assert init[j] == lines[j];
            }
          }
        }
      }
      if forall i :: 0 <= i < |lines| ==> !ClassifyLine(lines[i]).NameLine? {
        forall i | 0 <= i < |init| ensures !ClassifyLine(init[i]).NameLine? {
          assert init[i] == lines[i];
        }
      }
    }
  }

  // ---------------------------------------------------------------------------
  // examples
  // ---------------------------------------------------------------------------

  /** A line without the letter n in either case is never a name line. */
  lemma NoKeyword(line: string)
    requires forall i :: 0 <= i < |line| ==> line[i] != 'n' && line[i] != 'N'
    ensures MatchName(line).None?
  {
    MatchNameSpec(line);
    forall p: nat | p + 4 <= |line| ensures !NameAt(line, p) {
      assert line[p..p + 4][0] == line[p];
      assert AsciiUpper(line[p]) != 'N';
    }
  }

  /**
    A line of one-digit number, separators, one-digit home score, score separator
    and one-digit away score reads as that prediction.
  */
  lemma SingleDigitLine(x: char, sep: string, y: char, sc: char, z: char)
    requires IsDigit(x) && IsDigit(y) && IsDigit(z) && IsScoreSeparator(sc)
    requires |sep| >= 1 && forall i :: 0 <= i < |sep| ==> IsNumberSeparator(sep[i])
    requires forall i :: 0 <= i < |sep| ==> sep[i] != 'n' && sep[i] != 'N'
    ensures ClassifyLine([x] + sep + [y, sc, z]) == PredictionLine(ParsedPrediction(DigitValue(x), DigitValue(y), DigitValue(z)))
  {
    var line := [x] + sep + [y, sc, z];
    var b := 1 + |sep|;
    NoKeyword(line);
    SingleDigitParse(x, sep, y, sc, z);
    assert line[0..1] == [x] && line[b..b + 1] == [y] && line[b + 2..b + 3] == [z];
    SingleDigitValue(x);
    SingleDigitValue(y);
    SingleDigitValue(z);
  }

  lemma SingleDigitValue(x: char)
    requires IsDigit(x)
    ensures DigitsValue([x]) == DigitValue(x)
  {
    assert [x][..0] == [];
  }

  /** The matcher's parse of such a line: one digit, the separators, then `y`, `sc` and `z`. */
  lemma SingleDigitParse(x: char, sep: string, y: char, sc: char, z: char)
    requires IsDigit(x) && IsDigit(y) && IsDigit(z) && IsScoreSeparator(sc)
    requires |sep| >= 1 && forall i :: 0 <= i < |sep| ==> IsNumberSeparator(sep[i])
    ensures MatchPred([x] + sep + [y, sc, z]) == Some(PredParse(0, 1, 1 + |sep|, 2 + |sep|, 4 + |sep|))
  {
    var line := [x] + sep + [y, sc, z];
    var b := 1 + |sep|;
    assert line[b] == y && line[b + 1] == sc && line[b + 2] == z && |line| == b + 3;
    assert line[0] == x && line[1] == sep[0];
    assert AllIn(line, 1, b, IsNumberSeparator) by {
      forall k | 1 <= k < b ensures IsNumberSeparator(line[k]) {
        assert line[k] == sep[k - 1];
      }
    }
    var e := PredParse(0, 1, b, b + 1, b + 3);
    assert IsPredParse(line, e);
    MatchPredAtFinds(line, 0, e);
    RunExact(line, b + 2, b + 3, IsDigit);
    assert MatchPredAt(line, 0) == Some(e);
  }

  /** "1. 2:1", "1) 2-1", "1: 2:1" and "1 2:1" all read as match 1, 2 to 1. */
  lemma PredictionLineExamples(line: string)
    requires line in {"1. 2:1", "1) 2-1", "1: 2:1", "1 2:1"}
    ensures ClassifyLine(line) == PredictionLine(ParsedPrediction(1, 2, 1))
  {
    if line == "1. 2:1" {
      assert line == ['1'] + ". " + ['2', ':', '1'];
      SingleDigitLine('1', ". ", '2', ':', '1');
    } else if line == "1) 2-1" {
      assert line == ['1'] + ") " + ['2', '-', '1'];
      SingleDigitLine('1', ") ", '2', '-', '1');
    } else if line == "1: 2:1" {
      assert line == ['1'] + ": " + ['2', ':', '1'];
      SingleDigitLine('1', ": ", '2', ':', '1');
    } else {
      assert line == ['1'] + " " + ['2', ':', '1'];
      SingleDigitLine('1', " ", '2', ':', '1');
    }
  }

  /** A prediction line has at least five characters, so a bare score such as "2:1" yields nothing. */
  lemma ShortLineNoPrediction(line: string)
    requires |line| < 5
    ensures MatchPred(line).None?
  {
    MatchPredSpec(line);
  }

  lemma BareScoreExample()
    ensures ClassifyLine("2:1") == OtherLine
  {
    NoKeyword("2:1");
    ShortLineNoPrediction("2:1");
  }

  /** A name line whose capture has no surrounding whitespace names exactly the capture. */
  lemma NameLineIs(line: string, d: NameParse, name: string)
    requires MatchName(line) == Some(d)
    requires line[d.CaptureFrom()..d.end] == name
    requires name == [] || (!IsSpace(name[0]) && !IsSpace(name[|name| - 1]))
    ensures ClassifyLine(line) == NameLine(name)
  {
    TrimNoOp(name);
  }

  /** "Name: John Doe" and "Name John Doe" both name John Doe; a bare "Name:" names ":". */
  lemma NameLineExamples(line: string)
    requires line in {"Name: John Doe", "Name John Doe", "Name:"}
    ensures line != "Name:" ==> ClassifyLine(line) == NameLine("John Doe")
    ensures line == "Name:" ==> ClassifyLine(line) == NameLine(":")
  {
    if line == "Name: John Doe" {
      NameColonLine(line);
    } else if line == "Name John Doe" {
      NameSpaceLine(line);
    } else {
      BareNameLine(line);
    }
  }

  lemma NameColonLine(line: string)
    requires line == "Name: John Doe"
    ensures ClassifyLine(line) == NameLine("John Doe")
  {
    NameColonExample(line);
    var name := "John Doe";
    assert line[6..14] == name;
    NameLineIs(line, NameParse(0, 1, 1, 14), name);
  }

  lemma NameSpaceLine(line: string)
    requires line == "Name John Doe"
    ensures ClassifyLine(line) == NameLine("John Doe")
  {
    NameSpaceExample(line);
    var name := "John Doe";
    assert line[5..13] == name;
    NameLineIs(line, NameParse(0, 0, 1, 13), name);
  }

  lemma BareNameLine(line: string)
    requires line == "Name:"
    ensures ClassifyLine(line) == NameLine(":")
  {
    BareNameExample(line);
    var colon := ":";
    assert line[4..5] == colon;
    NameLineIs(line, NameParse(0, 0, 0, 5), colon);
  }

  lemma NameColonExample(line: string)
    requires line == "Name: John Doe"
    ensures MatchName(line) == Some(NameParse(0, 1, 1, 14))
  {
    assert NameAt(line, 0);
    RunExact(line, 5, 6, IsSpace);
    RunExact(line, 6, 14, IsLineChar);
    assert MatchCapture(line, 5) == Some((1, 14));
  }

  lemma NameSpaceExample(line: string)
    requires line == "Name John Doe"
    ensures MatchName(line) == Some(NameParse(0, 0, 1, 13))
  {
    assert NameAt(line, 0);
    RunExact(line, 4, 5, IsSpace);
    RunExact(line, 5, 13, IsLineChar);
    assert MatchCapture(line, 4) == Some((1, 13));
  }

  lemma BareNameExample(line: string)
    requires line == "Name:"
    ensures MatchName(line) == Some(NameParse(0, 0, 0, 5))
  {
    assert NameAt(line, 0);
    RunExact(line, 5, 5, IsSpace);
    assert MatchCapture(line, 5).None?;
    RunExact(line, 4, 4, IsSpace);
    RunExact(line, 4, 5, IsLineChar);
    assert MatchCapture(line, 4) == Some((0, 5));
  }
}
