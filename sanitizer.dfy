/** The removal pattern of the main script: 24 alternatives, tried in this
    order at every position of the line. */
module Sanitizer {
  import opened Text
  import opened Markup

  const Rules: seq<Rule> := [
    SpeakerTag, Timing, AngleGroup, BracketCode, DotPause, LanguageTag, Punctuation,
    PlusLess, PlusTrailingOff, PlusSlashes, PlusQuoteSlash, PlusQuote, Ampersand,
    CodeSwitchRegion, Paren, QueryMark, PlusComma, Paralinguistic, Underscore,
    PlusPlusCaret, LessThan, GreaterThan, Plus, Colon
  ]

  /** The characters that a one-character alternative deletes wherever they stand. */
  const AlwaysRemoved: set<char> := {'.', ',', '?', '!', '(', ')', '_', '<', '>', '+', ':'}

  /** Every character at which some alternative can start. */
  const Leading: set<char> := {'*', Nak, '<', '[', '(', ':', '@', '.', ',', '?', '!', '+', '&', ')', '_', '>'}

  /** The line with every match deleted: only deletions happen, and none of
      the punctuation and bracket characters of `AlwaysRemoved` is left. */
  function RemoveNonSpokenParts(line: string): (spoken: string)
    ensures IsSubsequence(spoken, line)
    ensures |spoken| <= |line|
    ensures forall i :: 0 <= i < |spoken| ==> spoken[i] !in AlwaysRemoved
  {
    RemoveMatchesDeletes(Rules, line);
    NoAlwaysRemovedLeft(line);
    RemoveMatches(Rules, line)
  }

  lemma SpokenPartIsScan(line: string)
    ensures RemoveNonSpokenParts(line) == RemoveMatches(Rules, line)
  {
  }

  /** The alternatives that match one given character wherever it stands. */
  const OneCharRules: set<Rule> := {Punctuation, Paren, Underscore, LessThan, GreaterThan, Plus, Colon}

  lemma OneCharRuleMatches(r: Rule, t: string)
    requires r in OneCharRules && |t| > 0 && t[0] in Leaders(r)
    ensures MatchLength(r, t) == 1
  {
    match r
    case Punctuation =>
    case Paren =>
    case Underscore =>
    case LessThan =>
    case GreaterThan =>
    case Plus =>
    case Colon =>
  }

  /** The index in `Rules` of the one-character alternative for `c`. */
  function SingleCharRule(c: char): (i: nat)
    requires c in AlwaysRemoved
    ensures i < |Rules| && Rules[i] in OneCharRules && c in Leaders(Rules[i])
  {
    if c in {'.', ',', '?', '!'} then 6
    else if c in {'(', ')'} then 14
    else if c == '_' then 18
    else if c == '<' then 20
    else if c == '>' then 21
    else if c == '+' then 22
    else 23
  }

  lemma NoAlwaysRemovedLeft(line: string)
    ensures forall i :: 0 <= i < |RemoveMatches(Rules, line)| ==> RemoveMatches(Rules, line)[i] !in AlwaysRemoved
  {
    forall c | c in AlwaysRemoved ensures c !in RemoveMatches(Rules, line) {
      var i := SingleCharRule(c);
      forall t: string | |t| > 0 && t[0] == c
        ensures MatchLength(Rules[i], t) > 0
      {
        OneCharRuleMatches(Rules[i], t);
      }
      RemovesEverywhere(Rules, line, c, i);
    }
  }

  /** The only way the leading `*` of a spoken line disappears is as part of
      a well-formed speaker tag `*XYZ:\t`; otherwise it is the first
      character of the result. */
  lemma MarkerKeptUnlessTagged(line: string)
    requires |line| > 0 && line[0] == '*'
    requires !IsSpeakerTag(line)
    ensures RemoveNonSpokenParts(line) == "*" + RemoveNonSpokenParts(line[1..])
  {
    assert FirstMatch(Rules, line) == 0 by {
      forall i | 0 <= i < |Rules| ensures MatchLength(Rules[i], line) == 0 {
        assert i == 0 || '*' !in Leaders(Rules[i]);
      }
    }
  }

  /** The code-switch alternative takes the first language code that fits,
      so in `@s:eng&spa` it stops after `eng` although `eng&spa` is listed. */
  lemma CodeSwitchStopsAtEng()
    ensures LanguageTagLength("@s:eng&spa") == 6
  {
    var t := "@s:eng&spa";
    assert t[0] != ':' && t[0..] == t;
    assert t[..3] == "@s:";
    assert t[3..] == "eng&spa";
    assert t[3..][..3] == "eng";
    assert FirstPrefix(t[3..], ["eng", "eng&spa", "spa", "ita", "fra"]) == 3;
    assert t[6..] == "&spa";
    assert t[6..][..4][0] == '&';
  }

  /** ... and the ampersand alternative then deletes the `&spa` left behind,
      so the whole marker still disappears. */
  lemma CodeSwitchMarkerRemoved(t: string)
    requires t == "@s:eng&spa"
    ensures RemoveNonSpokenParts(t) == []
  {
    CodeSwitchStopsAtEng();
    DeletesWinner(Rules, t, 5);
    AmpersandRestRemoved(t[6..]);
  }

  lemma AmpersandRestRemoved(u: string)
    requires u == "&spa"
    ensures RemoveMatches(Rules, u) == []
  {
    assert AmpersandLength(u) == 4;
    DeletesWinner(Rules, u, 12);
    assert u[4..] == [];
  }

  /** One pass is not idempotent: deleting `(.)` from `[(.)/]` joins the
      retracing mark `[/]`, which a second pass then deletes. */
  lemma NotIdempotent(line: string)
    requires line == "[(.)/]"
    ensures RemoveNonSpokenParts(line) == "[/]"
    ensures RemoveNonSpokenParts(RemoveNonSpokenParts(line)) == []
  {
    OpeningBracketKept(line);
    PauseThenRestKept(line[1..]);
    SpokenPartIsScan(line);
    RetraceAloneRemoved(RemoveMatches(Rules, line));
  }

  lemma RetraceAloneRemoved(v: string)
    requires v == "[/]"
    ensures RemoveNonSpokenParts(v) == []
  {
    assert v == "[" + "/" + "]" + [];
    RetraceRemoved("/", []);
    SpokenPartIsScan([]);
  }

  lemma OpeningBracketKept(line: string)
    requires line == "[(.)/]"
    ensures RemoveMatches(Rules, line) == "[" + RemoveMatches(Rules, line[1..])
  {
    assert FirstMatch(Rules, line) == 0 by { NoAlternativeAtBracket(line); }
  }

  lemma NoAlternativeAtBracket(line: string)
    requires line == "[(.)/]"
    ensures forall i :: 0 <= i < |Rules| ==> MatchLength(Rules[i], line) == 0
  {
    BracketLedRulesMiss(line);
    BracketLedBefore(line, |Rules|);
  }

  /** The four alternatives that start with `[` do not match `[(.)/]`. */
  lemma BracketLedRulesMiss(line: string)
    requires line == "[(.)/]"
    ensures MatchLength(BracketCode, line) == 0
    ensures MatchLength(CodeSwitchRegion, line) == 0
    ensures MatchLength(QueryMark, line) == 0
    ensures MatchLength(Paralinguistic, line) == 0
  {
    assert line[..3] == "[(." && line[..4] == "[(.)" && line[..2] == "[(";
    assert Run(line, 1, IsRetraceMark) == 0;
    assert ParalinguisticOpening(line) == 0;
  }

  lemma PauseThenRestKept(u: string)
    requires u == "(.)/]"
    ensures RemoveMatches(Rules, u) == "/]"
  {
    assert u == "(" + "." + ")" + "/]";
    PauseRemoved(".", "/]");
    SpokenPartIsScan(u);
    SpokenPartIsScan("/]");
    RestKept("/]");
  }

  /** `(`, one or more `.`, `)` is deleted (`(.)`, `(...)`): `\(\.+\)`
      comes before `[()]`, so the dots go with the parentheses. */
  lemma PauseRemoved(dots: string, rest: string)
    requires |dots| > 0 && forall i :: 0 <= i < |dots| ==> dots[i] == '.'
    ensures RemoveNonSpokenParts("(" + dots + ")" + rest) == RemoveNonSpokenParts(rest)
  {
    var k := |dots|;
    var line := "(" + dots + ")" + rest;
    assert Run(line, 1, IsDot) == k by {
      assert forall i :: 1 <= i < k + 1 ==> line[i] == dots[i - 1];
      RunOfExactly(line, 1, k, IsDot);
    }
    assert line[0] == '(' && line[k + 1] == ')';
    assert MatchLength(DotPause, line) == k + 2;
    DeletesWinner(Rules, line, 4);
    assert line[k + 2..] == rest;
    SpokenPartIsScan(line);
    SpokenPartIsScan(rest);
  }

  /** `Leading` holds every character at which an alternative can start. */
  lemma LeadingCoversRules()
    ensures LedFromLeading(Rules)
  {
  }

  /** Letters and spaces never start an alternative. */
  lemma LettersNotLeading(c: char)
    requires IsAsciiLetter(c) || c == ' '
    ensures c !in Leading
  {
  }

  /** Letters and spaces only: text no alternative touches. */
  predicate IsPlain(s: string)
  {
    forall k :: 0 <= k < |s| ==> IsAsciiLetter(s[k]) || s[k] == ' '
  }

  /** A letter or a space is copied through by any alternation whose
      alternatives all start at characters of `Leading`. */
  lemma PlainFirstKept(rules: seq<Rule>, c: char, t: string)
    requires LedFromLeading(rules)
    requires IsAsciiLetter(c) || c == ' '
    ensures RemoveMatches(rules, [c] + t) == [c] + RemoveMatches(rules, t)
  {
    var s := [c] + t;
    assert s[0] == c && s[1..] == t;
    LettersNotLeading(c);
    KeepsFirst(rules, s, Leading);
  }

  /** Every alternative of `rules` starts at a character of `Leading`. */
  predicate LedFromLeading(rules: seq<Rule>)
  {
    forall i :: 0 <= i < |rules| ==> Leaders(rules[i]) <= Leading
  }

  /** A string function that copies a leading letter or space and goes on
      with the rest also copies a whole leading run of letters and spaces. */
  lemma {:induction false} CopiesPlainRun(f: string -> string, u: string, rest: string)
    requires forall c, t :: IsAsciiLetter(c) || c == ' ' ==> f([c] + t) == [c] + f(t)
    requires IsPlain(u)
    ensures f(u + rest) == u + f(rest)
    decreases |u|
  {
    if u == [] {
      assert u + rest == rest;
    } else {
      var tail := u[1..];
      assert u + rest == [u[0]] + (tail + rest);
      assert IsPlain(tail) by {
        forall k | 0 <= k < |tail| ensures IsAsciiLetter(tail[k]) || tail[k] == ' ' {
          assert tail[k] == u[k + 1];
        }
      }
      CopiesPlainRun(f, tail, rest);
      assert [u[0]] + (tail + f(rest)) == u + f(rest);
    }
  }

  /** A run of letters and spaces is copied through, whatever follows it. */
  lemma PlainKept(rules: seq<Rule>, u: string, rest: string)
    requires LedFromLeading(rules)
    requires IsPlain(u)
    ensures RemoveMatches(rules, u + rest) == u + RemoveMatches(rules, rest)
  {
    var f := s => RemoveMatches(rules, s);
    forall c, t | IsAsciiLetter(c) || c == ' ' ensures f([c] + t) == [c] + f(t) {
      PlainFirstKept(rules, c, t);
    }
    CopiesPlainRun(f, u, rest);
  }

  /** A tagged spoken line whose words sit around a retracing mark `[//]`
      keeps exactly the words: the tag and the mark are deleted, the spaces
      on both sides of the mark stay. */
  lemma TaggedRetraceLine(code: string, u: string, w: string)
    requires |code| == 3 && forall i :: 0 <= i < 3 ==> IsAsciiUpper(code[i])
    requires IsPlain(u) && IsPlain(w)
    ensures RemoveNonSpokenParts("*" + code + ":\t" + u + "[//]" + w) == u + w
  {
    var v := "[//]" + w;
    var rest := u + v;
    assert "*" + code + ":\t" + u + "[//]" + w == "*" + code + ":\t" + rest;
    TagStripped(code, rest);
    LeadingCoversRules();
    PlainKept(Rules, u, v);
    DoubleRetraceDeleted(v, w);
    PlainAlone(w);
  }

  lemma TagStripped(code: string, rest: string)
    requires |code| == 3 && forall i :: 0 <= i < 3 ==> IsAsciiUpper(code[i])
    ensures RemoveMatches(Rules, "*" + code + ":\t" + rest) == RemoveMatches(Rules, rest)
  {
    var line := "*" + code + ":\t" + rest;
    assert IsSpeakerTag(line);
    DeletesWinner(Rules, line, 0);
    assert line[6..] == rest;
  }

  lemma PlainAlone(w: string)
    requires IsPlain(w)
    ensures RemoveMatches(Rules, w) == w
  {
    LeadingCoversRules();
    forall k | 0 <= k < |w| ensures w[k] !in Leading {
      LettersNotLeading(w[k]);
    }
    RemoveMatchesUnchanged(Rules, w, Leading);
  }

  lemma DoubleRetraceDeleted(v: string, w: string)
    requires v == "[//]" + w
    ensures RemoveMatches(Rules, v) == RemoveMatches(Rules, w)
  {
    assert Run(v, 1, IsRetraceMark) == 2 by { RunOfExactly(v, 1, 2, IsRetraceMark); }
    assert MatchLength(BracketCode, v) == 4;
    DeletesWinner(Rules, v, 3);
    assert v[4..] == w;
  }

  lemma RestKept(rest: string)
    requires rest == "/]"
    ensures RemoveMatches(Rules, rest) == rest
  {
    LeadingCoversRules();
    RemoveMatchesUnchanged(Rules, rest, Leading);
  }

  /** `[`, a run of the marks `/ " ! * -`, `]` is deleted (`[/]`, `[//]`,
      `[*]`), whatever follows it. */
  lemma RetraceRemoved(marks: string, rest: string)
    requires |marks| > 0 && forall i :: 0 <= i < |marks| ==> IsRetraceMark(marks[i])
    ensures RemoveNonSpokenParts("[" + marks + "]" + rest) == RemoveNonSpokenParts(rest)
  {
    var k := |marks|;
    var line := "[" + marks + "]" + rest;
    assert Run(line, 1, IsRetraceMark) == k by {
      assert forall i :: 1 <= i < k + 1 ==> line[i] == marks[i - 1];
      RunOfExactly(line, 1, k, IsRetraceMark);
    }
    assert line[0] == '[' && line[1] == marks[0] && line[k + 1] == ']';
    assert !StartsWith(line, "[x ");
    assert MatchLength(BracketCode, line) == k + 2;
    DeletesWinner(Rules, line, 3);
    assert line[k + 2..] == rest;
    SpokenPartIsScan(line);
    SpokenPartIsScan(rest);
  }

  /** A repeat count `[x N]` is deleted, whatever follows it. */
  lemma RepeatCountRemoved(digits: string, rest: string)
    requires |digits| > 0 && forall i :: 0 <= i < |digits| ==> IsDigit(digits[i])
    ensures RemoveNonSpokenParts("[x " + digits + "]" + rest) == RemoveNonSpokenParts(rest)
  {
    var k := |digits|;
    var line := "[x " + digits + "]" + rest;
    assert Run(line, 3, IsDigit) == k by {
      assert forall i :: 3 <= i < k + 3 ==> line[i] == digits[i - 3];
      RunOfExactly(line, 3, k, IsDigit);
    }
    assert line[..3] == "[x " && line[k + 3] == ']';
    assert MatchLength(BracketCode, line) == k + 4;
    DeletesWinner(Rules, line, 3);
    assert line[k + 4..] == rest;
    SpokenPartIsScan(line);
    SpokenPartIsScan(rest);
  }

  /** A timing code `\x15…\x15` is deleted, up to its last U+0015 before a
      newline. */
  lemma TimingRemoved(line: string, m: nat)
    requires TimingMatch(line, m)
    ensures TimingLength(line) >= m
    ensures RemoveNonSpokenParts(line) == RemoveNonSpokenParts(line[TimingLength(line)..])
  {
    assert MatchLength(Timing, line) == TimingLength(line) > 0;
    DeletesWinner(Rules, line, 1);
  }

  /** An angle group `<…>` is deleted with the words inside it, up to the
      last `>` before the next `<`. */
  lemma AngleGroupRemoved(line: string, m: nat)
    requires AngleMatch(line, m)
    ensures AngleGroupLength(line) >= m
    ensures RemoveNonSpokenParts(line) == RemoveNonSpokenParts(line[AngleGroupLength(line)..])
  {
    assert MatchLength(AngleGroup, line) == AngleGroupLength(line) > 0;
    DeletesWinner(Rules, line, 2);
  }

  /** `&` and everything up to the next space is deleted (`&=sigh`, `&da`). */
  lemma AmpersandRemoved(line: string, m: nat)
    requires AmpersandMatch(line, m)
    ensures AmpersandLength(line) >= m
    ensures RemoveNonSpokenParts(line) == RemoveNonSpokenParts(line[AmpersandLength(line)..])
  {
    assert MatchLength(Ampersand, line) == AmpersandLength(line) > 0;
    DeletesWinner(Rules, line, 12);
  }

  /** A paralinguistic or error code (`[=! laughs]`, `[= ! sighs]`,
      `[* m:+ed]`) is deleted up to the last `]` before a newline. */
  lemma ParalinguisticRemoved(line: string, m: nat)
    requires ParalinguisticMatch(line, m)
    ensures ParalinguisticLength(line) >= m
    ensures RemoveNonSpokenParts(line) == RemoveNonSpokenParts(line[ParalinguisticLength(line)..])
  {
    assert MatchLength(Paralinguistic, line) == ParalinguisticLength(line) > 0;
    EarlierBracketRulesMiss(line, m);
    BracketLedBefore(line, 17);
    DeletesWinner(Rules, line, 17);
  }

  /** At a `[`, the alternatives before the `i`-th that can match are the
      `[`-led ones: `[x N]` and the retrace marks, `[- spa]`, `[?]` and the
      paralinguistic codes. */
  lemma BracketLedBefore(line: string, i: nat)
    requires |line| > 0 && line[0] == '[' && i <= |Rules|
    requires i > 3 ==> MatchLength(BracketCode, line) == 0
    requires i > 13 ==> MatchLength(CodeSwitchRegion, line) == 0
    requires i > 15 ==> MatchLength(QueryMark, line) == 0
    requires i > 17 ==> MatchLength(Paralinguistic, line) == 0
    ensures forall j :: 0 <= j < i ==> MatchLength(Rules[j], line) == 0
  {
    forall j | 0 <= j < i ensures MatchLength(Rules[j], line) == 0 {
      assert '[' !in Leaders(Rules[j]) || j == 3 || j == 13 || j == 15 || j == 17;
    }
  }

  /** The alternatives before `\[(= ?!|\*) .+]` that start with `[` miss
      its openings: `=` is no retracing mark, and `*` is followed by a space. */
  lemma EarlierBracketRulesMiss(line: string, m: nat)
    requires ParalinguisticMatch(line, m)
    ensures line[0] == '['
    ensures MatchLength(BracketCode, line) == 0
    ensures MatchLength(CodeSwitchRegion, line) == 0
    ensures MatchLength(QueryMark, line) == 0
  {
    var p := ParalinguisticOpening(line);
    assert line[1] == '=' || (line[1] == '*' && line[2] == ' ');
    assert line[..2] != "[-" && line[..2] != "[?" && line[..2] != "[x";
    assert Run(line, 1, IsRetraceMark) <= 1;
  }

  /** A code-switch region marker `[- spa]` or `[- eng]` is deleted. */
  lemma CodeSwitchRegionRemoved(language: string, rest: string)
    requires language == "spa" || language == "eng"
    ensures RemoveNonSpokenParts("[- " + language + "]" + rest) == RemoveNonSpokenParts(rest)
  {
    var line := "[- " + language + "]" + rest;
    assert line[..7] == "[- " + language + "]";
    assert line[1] == '-' && line[2] == ' ';
    assert MatchLength(CodeSwitchRegion, line) == 7;
    assert Run(line, 1, IsRetraceMark) == 1 && MatchLength(BracketCode, line) == 0;
    BracketLedBefore(line, 13);
    DeletesWinner(Rules, line, 13);
    assert line[7..] == rest;
    SpokenPartIsScan(line);
    SpokenPartIsScan(rest);
  }

  /** The unclear-word marker `[?]` is deleted. */
  lemma QueryMarkRemoved(rest: string)
    ensures RemoveNonSpokenParts("[?]" + rest) == RemoveNonSpokenParts(rest)
  {
    var line := "[?]" + rest;
    assert line[..3] == "[?]";
    assert MatchLength(QueryMark, line) == 3;
    assert Run(line, 1, IsRetraceMark) == 0 && MatchLength(BracketCode, line) == 0;
    assert MatchLength(CodeSwitchRegion, line) == 0;
    BracketLedBefore(line, 15);
    DeletesWinner(Rules, line, 15);
    assert line[3..] == rest;
    SpokenPartIsScan(line);
    SpokenPartIsScan(rest);
  }
}
