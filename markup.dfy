/** The `re.sub(pattern, '', line)` calls of both scripts, read as a
    left-to-right scan over the line. The pattern is an alternation; at each
    position the alternatives are tried in their written order, the first one
    that matches is deleted and the scan resumes after it, and when none
    matches one character is kept. Each alternative is a `Rule`, and
    `MatchLength` gives the length of its match at the start of a string, or 0
    when it does not match there (no alternative can match the empty string). */
module Markup {
  import opened Text

  /** The control character U+0015 that brackets a timing code in a `.cha` line. */
  const Nak: char := '\U{15}'

  datatype Rule =
    | SpeakerTag        // \*[A-Z]{3}:\t
    | Timing            // \x15.*\x15
    | AngleGroup        // <[^<]*>
    | SlashRetrace      // \[/+]
    | BracketCode       // \[(x [0-9]+|[/"!*-]+)]
    | DotPause          // \(\.+\)
    | LanguageTag       // :?@s:(eng|eng&spa|spa|ita|fra)(\+(eng|spa))?
    | Punctuation       // [.,?!]
    | PlusLess          // \+<
    | PlusTrailingOff   // \+\.\.[.?]
    | PlusSlashes       // \+/+
    | PlusQuoteSlash    // \+"/
    | PlusQuote         // \+"
    | Ampersand         // &=?[^ ]+
    | CodeSwitchRegion  // \[- (spa|eng)]
    | Paren             // [()]
    | QueryMark         // \[\?]
    | PlusComma         // \+,
    | Paralinguistic    // \[(= ?!|\*) .+]
    | Underscore        // _
    | PlusPlusCaret     // \+[+^]
    | LessThan          // <
    | GreaterThan       // >
    | Plus              // \+
    | Colon             // :

  /** The characters a match of the rule can start with. */
  function Leaders(r: Rule): set<char>
  {
    match r
    case SpeakerTag => {'*'}
    case Timing => {Nak}
    case AngleGroup => {'<'}
    case SlashRetrace => {'['}
    case BracketCode => {'['}
    case DotPause => {'('}
    case LanguageTag => {':', '@'}
    case Punctuation => {'.', ',', '?', '!'}
    case PlusLess => {'+'}
    case PlusTrailingOff => {'+'}
    case PlusSlashes => {'+'}
    case PlusQuoteSlash => {'+'}
    case PlusQuote => {'+'}
    case Ampersand => {'&'}
    case CodeSwitchRegion => {'['}
    case Paren => {'(', ')'}
    case QueryMark => {'['}
    case PlusComma => {'+'}
    case Paralinguistic => {'['}
    case Underscore => {'_'}
    case PlusPlusCaret => {'+'}
    case LessThan => {'<'}
    case GreaterThan => {'>'}
    case Plus => {'+'}
    case Colon => {':'}
  }

  predicate NotLessThan(c: char) { c != '<' }
  predicate NotNewline(c: char) { c != '\n' }
  predicate NotSpace(c: char) { c != ' ' }
  predicate IsSlash(c: char) { c == '/' }
  predicate IsDot(c: char) { c == '.' }

  /** `\*[A-Z]{3}:\t` at the start of `t`: an asterisk, three upper-case
      ASCII letters, a colon and a tab. */
  predicate IsSpeakerTag(t: string)
  {
    |t| >= 6 && t[0] == '*' && IsAsciiUpper(t[1]) && IsAsciiUpper(t[2]) && IsAsciiUpper(t[3])
    && t[4] == ':' && t[5] == '\t'
  }

  predicate StartsWith(t: string, p: string)
  {
    |p| <= |t| && t[..|p|] == p
  }

  /** The number of characters from position `i` on that satisfy `p`. */
  function Run(t: string, i: nat, p: char -> bool): (n: nat)
    requires i <= |t|
    ensures i + n <= |t|
    ensures forall k :: i <= k < i + n ==> p(t[k])
    ensures i + n == |t| || !p(t[i + n])
    decreases |t| - i
  {
    if i == |t| || !p(t[i]) then 0 else 1 + Run(t, i + 1, p)
  }

  lemma {:induction false} RunOfExactly(t: string, i: nat, k: nat, p: char -> bool)
    requires i + k <= |t|
    requires forall j :: i <= j < i + k ==> p(t[j])
    requires i + k == |t| || !p(t[i + k])
    ensures Run(t, i, p) == k
    decreases k
  {
    if k > 0 {
      RunOfExactly(t, i + 1, k - 1, p);
    }
  }

  /** The last position in `[lo, hi)` that holds `c`, or -1. */
  function LastIndex(t: string, c: char, lo: nat, hi: nat): (k: int)
    requires hi <= |t|
    ensures k == -1 ==> forall i :: lo <= i < hi ==> t[i] != c
    ensures k != -1 ==> lo <= k < hi && t[k] == c && forall i :: k < i < hi ==> t[i] != c
    decreases hi
  {
    if hi <= lo then -1 else if t[hi - 1] == c then hi - 1 else LastIndex(t, c, lo, hi - 1)
  }

  /** Length of the first of `alternatives` that `t` starts with, or 0. */
  function FirstPrefix(t: string, alternatives: seq<string>): (n: nat)
    ensures n <= |t|
    ensures n > 0 ==> exists i :: 0 <= i < |alternatives| && |alternatives[i]| == n && StartsWith(t, alternatives[i])
  {
    if alternatives == [] then 0
    else if StartsWith(t, alternatives[0]) then |alternatives[0]|
    else FirstPrefix(t, alternatives[1..])
  }

  // ---------------------------------------------------------------------------
  // The alternatives whose match length is not fixed. Each comes with a
  // predicate saying which lengths are matches; the matcher returns the
  // longest one, as a greedy repetition does, or 0 if there is none.

  /** `<[^<]*>`: a `<`, no further `<`, then a `>`. */
  predicate AngleMatch(t: string, m: nat)
  {
    2 <= m <= |t| && t[0] == '<' && t[m - 1] == '>' && forall i :: 1 <= i < m - 1 ==> t[i] != '<'
  }

  function AngleGroupLength(t: string): (n: nat)
    ensures n <= |t|
    ensures n > 0 ==> AngleMatch(t, n)
    ensures forall m: nat :: AngleMatch(t, m) ==> m <= n
  {
    if |t| == 0 || t[0] != '<' then 0
    else
      var k := LastIndex(t, '>', 1, 1 + Run(t, 1, NotLessThan));
      if k == -1 then 0 else k + 1
  }

  /** `\x15.*\x15`: U+0015, anything but a newline, U+0015. */
  predicate TimingMatch(t: string, m: nat)
  {
    2 <= m <= |t| && t[0] == Nak && t[m - 1] == Nak && forall i :: 1 <= i < m - 1 ==> t[i] != '\n'
  }

  function TimingLength(t: string): (n: nat)
    ensures n <= |t|
    ensures n > 0 ==> TimingMatch(t, n)
    ensures forall m: nat :: TimingMatch(t, m) ==> m <= n
  {
    if |t| == 0 || t[0] != Nak then 0
    else
      var k := LastIndex(t, Nak, 1, 1 + Run(t, 1, NotNewline));
      if k == -1 then 0 else k + 1
  }

  /** `&=?[^ ]+`: an ampersand and at least one more character, none a space. */
  predicate AmpersandMatch(t: string, m: nat)
  {
    2 <= m <= |t| && t[0] == '&' && forall i :: 1 <= i < m ==> t[i] != ' '
  }

  function AmpersandLength(t: string): (n: nat)
    ensures n <= |t|
    ensures n > 0 ==> AmpersandMatch(t, n)
    ensures forall m: nat :: AmpersandMatch(t, m) ==> m <= n
  {
    if |t| < 2 || t[0] != '&' then 0
    else if t[1] == '=' && Run(t, 2, NotSpace) > 0 then 2 + Run(t, 2, NotSpace)
    else if Run(t, 1, NotSpace) > 0 then 1 + Run(t, 1, NotSpace)
    else 0
  }

  /** The opening of `\[(= ?!|\*) .+]`: `[=!`, `[= !` or `[*`; 0 if none. */
  function ParalinguisticOpening(t: string): (p: nat)
    ensures p <= |t|
    ensures p > 0 ==> t[0] == '['
  {
    if StartsWith(t, "[= !") then 4
    else if StartsWith(t, "[=!") then 3
    else if StartsWith(t, "[*") then 2
    else 0
  }

  /** `\[(= ?!|\*) .+]`: the opening, a space, at least one character other
      than a newline, and a closing bracket. */
  predicate ParalinguisticMatch(t: string, m: nat)
  {
    var p := ParalinguisticOpening(t);
    p > 0 && p + 3 <= m <= |t| && t[p] == ' ' && t[m - 1] == ']'
    && forall i :: p + 1 <= i < m - 1 ==> t[i] != '\n'
  }

  function ParalinguisticLength(t: string): (n: nat)
    ensures n <= |t|
    ensures n > 0 ==> ParalinguisticMatch(t, n)
    ensures forall m: nat :: ParalinguisticMatch(t, m) ==> m <= n
  {
    var p := ParalinguisticOpening(t);
    if p == 0 || p == |t| || t[p] != ' ' then 0
    else
      var k := LastIndex(t, ']', p + 2, p + 1 + Run(t, p + 1, NotNewline));
      if k == -1 then 0 else k + 1
  }

  /** From position `from`, a non-empty run of characters from `marks` and
      then `close`; the run can neither be extended nor shortened, so at most
      one length matches. */
  function ClosedRunLength(t: string, from: nat, marks: char -> bool, close: char): (n: nat)
    requires from <= |t|
    ensures n <= |t|
    ensures n > 0 ==> from + 1 < n && t[n - 1] == close && forall i :: from <= i < n - 1 ==> marks(t[i])
  {
    var k := Run(t, from, marks);
    if k > 0 && from + k < |t| && t[from + k] == close then from + k + 1 else 0
  }

  predicate IsRetraceMark(c: char) { c == '/' || c == '"' || c == '!' || c == '*' || c == '-' }

  /** `\[(x [0-9]+|[/"!*-]+)]`: a repeat count such as `[x 3]`, or a run of
      retracing and quotation marks such as `[//]` or `[*]`. */
  function BracketCodeLength(t: string): (n: nat)
    ensures n <= |t|
    ensures n > 0 ==> t[0] == '['
  {
    if |t| < 2 || t[0] != '[' then 0
    else if StartsWith(t, "[x ") then ClosedRunLength(t, 3, IsDigit, ']')
    else ClosedRunLength(t, 1, IsRetraceMark, ']')
  }

  /** `:?@s:(eng|eng&spa|spa|ita|fra)(\+(eng|spa))?`. The alternation takes the
      first language code that fits and the rest is optional, so `eng` is
      always taken before `eng&spa` could be. */
  function LanguageTagLength(t: string): (n: nat)
    ensures n <= |t|
    ensures n > 0 ==> t[0] == ':' || t[0] == '@'
  {
    var c := if |t| > 0 && t[0] == ':' then 1 else 0;
    if !StartsWith(t[c..], "@s:") then 0
    else
      var l := FirstPrefix(t[c + 3..], ["eng", "eng&spa", "spa", "ita", "fra"]);
      if l == 0 then 0
      else
        var e := c + 3 + l;
        if StartsWith(t[e..], "+eng") || StartsWith(t[e..], "+spa") then e + 4 else e
  }

  function LiteralLength(t: string, p: string): (n: nat)
    requires |p| > 0
    ensures n <= |t|
    ensures n > 0 ==> t[0] == p[0]
  {
    if StartsWith(t, p) then |p| else 0
  }

  function OneOfLength(t: string, cs: set<char>): (n: nat)
    ensures n <= |t|
    ensures n > 0 ==> t[0] in cs
  {
    if |t| > 0 && t[0] in cs then 1 else 0
  }

  function SpeakerTagLength(t: string): (n: nat)
    ensures n <= |t|
    ensures n > 0 ==> t[0] == '*'
  {
    if IsSpeakerTag(t) then 6 else 0
  }

  /** `\[/+]`, the retracing mark of the exploratory pattern. */
  function SlashRetraceLength(t: string): (n: nat)
    ensures n <= |t|
    ensures n > 0 ==> t[0] == '['
  {
    if |t| > 0 && t[0] == '[' then ClosedRunLength(t, 1, IsSlash, ']') else 0
  }

  /** `\(\.+\)`: a pause. */
  function DotPauseLength(t: string): (n: nat)
    ensures n <= |t|
    ensures n > 0 ==> t[0] == '('
  {
    if |t| > 0 && t[0] == '(' then ClosedRunLength(t, 1, IsDot, ')') else 0
  }

  /** `\+\.\.[.?]`: `+...` or `+..?`. */
  function TrailingOffLength(t: string): (n: nat)
    ensures n <= |t|
    ensures n > 0 ==> t[0] == '+'
  {
    if LiteralLength(t, "+...") > 0 then 4 else LiteralLength(t, "+..?")
  }

  /** `\+/+`: a plus and a run of slashes. */
  function PlusSlashesLength(t: string): (n: nat)
    ensures n <= |t|
    ensures n > 0 ==> t[0] == '+'
  {
    if |t| > 0 && t[0] == '+' && Run(t, 1, IsSlash) > 0 then 1 + Run(t, 1, IsSlash) else 0
  }

  /** `\[- (spa|eng)]`. */
  function CodeSwitchRegionLength(t: string): (n: nat)
    ensures n <= |t|
    ensures n > 0 ==> t[0] == '['
  {
    if LiteralLength(t, "[- spa]") > 0 then 7 else LiteralLength(t, "[- eng]")
  }

  /** `\+[+^]`: `++` or `+^`. */
  function PlusPlusCaretLength(t: string): (n: nat)
    ensures n <= |t|
    ensures n > 0 ==> t[0] == '+'
  {
    if LiteralLength(t, "++") > 0 then 2 else LiteralLength(t, "+^")
  }

  /** The length of the match of `r` at the start of `t`, 0 if there is none. */
  function MatchLength(r: Rule, t: string): (n: nat)
    ensures n <= |t|
    ensures n > 0 ==> t[0] in Leaders(r)
  {
    match r
    case SpeakerTag => SpeakerTagLength(t)
    case Timing => TimingLength(t)
    case AngleGroup => AngleGroupLength(t)
    case SlashRetrace => SlashRetraceLength(t)
    case BracketCode => BracketCodeLength(t)
    case DotPause => DotPauseLength(t)
    case LanguageTag => LanguageTagLength(t)
    case Punctuation => OneOfLength(t, {'.', ',', '?', '!'})
    case PlusLess => LiteralLength(t, "+<")
    case PlusTrailingOff => TrailingOffLength(t)
    case PlusSlashes => PlusSlashesLength(t)
    case PlusQuoteSlash => LiteralLength(t, "+\"/")
    case PlusQuote => LiteralLength(t, "+\"")
    case Ampersand => AmpersandLength(t)
    case CodeSwitchRegion => CodeSwitchRegionLength(t)
    case Paren => OneOfLength(t, {'(', ')'})
    case QueryMark => LiteralLength(t, "[?]")
    case PlusComma => LiteralLength(t, "+,")
    case Paralinguistic => ParalinguisticLength(t)
    case Underscore => OneOfLength(t, {'_'})
    case PlusPlusCaret => PlusPlusCaretLength(t)
    case LessThan => OneOfLength(t, {'<'})
    case GreaterThan => OneOfLength(t, {'>'})
    case Plus => OneOfLength(t, {'+'})
    case Colon => OneOfLength(t, {':'})
  }

  /** The length of the match of the first alternative that matches at the
      start of `t`, 0 if none does. */
  function FirstMatch(rules: seq<Rule>, t: string): (n: nat)
    ensures n <= |t|
    ensures n == 0 <==> forall i :: 0 <= i < |rules| ==> MatchLength(rules[i], t) == 0
    ensures n > 0 ==> exists i :: 0 <= i < |rules| && MatchLength(rules[i], t) == n
                                  && forall j :: 0 <= j < i ==> MatchLength(rules[j], t) == 0
  {
    if rules == [] then 0
    else if MatchLength(rules[0], t) > 0 then MatchLength(rules[0], t)
    else
      var n := FirstMatch(rules[1..], t);
      if n > 0 then
        var i :| 0 <= i < |rules| - 1 && MatchLength(rules[1..][i], t) == n
                 && forall j :: 0 <= j < i ==> MatchLength(rules[1..][j], t) == 0;
        assert MatchLength(rules[i + 1], t) == n;
        n
      else n
  }

  /** An alternative that matches wins when no alternative before it matches. */
  lemma {:induction false} FirstMatchIs(rules: seq<Rule>, t: string, i: nat)
    requires i < |rules| && MatchLength(rules[i], t) > 0
    requires forall j :: 0 <= j < i ==> MatchLength(rules[j], t) == 0
    ensures FirstMatch(rules, t) == MatchLength(rules[i], t)
  {
    if i > 0 {
      assert MatchLength(rules[0], t) == 0;
      FirstMatchIs(rules[1..], t, i - 1);
    }
  }

  /** `re.sub(pattern, '', s)` for the alternation `rules`. */
  function RemoveMatches(rules: seq<Rule>, s: string): (r: string)
    ensures |r| <= |s|
    decreases |s|
  {
    if s == [] then []
    else
      var n := FirstMatch(rules, s);
      if n > 0 then RemoveMatches(rules, s[n..]) else [s[0]] + RemoveMatches(rules, s[1..])
  }

  /** Where an alternative wins, its match is deleted and the scan goes on
      after it. */
  lemma DeletesWinner(rules: seq<Rule>, t: string, i: nat)
    requires i < |rules| && MatchLength(rules[i], t) > 0
    requires forall j :: 0 <= j < i ==> MatchLength(rules[j], t) == 0
    ensures RemoveMatches(rules, t) == RemoveMatches(rules, t[MatchLength(rules[i], t)..])
  {
    FirstMatchIs(rules, t, i);
  }

  /** Which characters of `s` the scan keeps. */
  function KeptMask(rules: seq<Rule>, s: string): (keep: seq<bool>)
    ensures |keep| == |s|
    decreases |s|
  {
    if s == [] then []
    else
      var n := FirstMatch(rules, s);
      if n > 0 then seq(n, _ => false) + KeptMask(rules, s[n..]) else [true] + KeptMask(rules, s[1..])
  }

  lemma {:induction false} SelectAppend(a: string, b: string, ka: seq<bool>, kb: seq<bool>)
    requires |ka| == |a| && |kb| == |b|
    ensures Select(a + b, ka + kb) == Select(a, ka) + Select(b, kb)
    decreases |a|
  {
    if a != [] {
      SelectAppend(a[1..], b, ka[1..], kb);
      assert (a + b)[1..] == a[1..] + b;
      assert (ka + kb)[1..] == ka[1..] + kb;
    } else {
      assert a + b == b;
      assert ka + kb == kb;
    }
  }

  lemma {:induction false} SelectNone(a: string, n: nat)
    requires |a| == n
    ensures Select(a, seq(n, _ => false)) == []
    decreases n
  {
    if n > 0 {
      assert seq(n, _ => false)[1..] == seq(n - 1, _ => false);
      SelectNone(a[1..], n - 1);
    }
  }

  /** The scan only deletes: what it returns is the line with some characters
      taken out and the others kept in order, never longer than the line. */
  lemma {:induction false} RemoveMatchesDeletes(rules: seq<Rule>, s: string)
    ensures Select(s, KeptMask(rules, s)) == RemoveMatches(rules, s)
    ensures IsSubsequence(RemoveMatches(rules, s), s)
    ensures |RemoveMatches(rules, s)| <= |s|
    decreases |s|
  {
    if s != [] {
      var n := FirstMatch(rules, s);
      if n > 0 {
        RemoveMatchesDeletes(rules, s[n..]);
        assert s == s[..n] + s[n..];
        SelectAppend(s[..n], s[n..], seq(n, _ => false), KeptMask(rules, s[n..]));
        SelectNone(s[..n], n);
      } else {
        RemoveMatchesDeletes(rules, s[1..]);
      }
    }
  }

  /** Every character that survives the scan is one at which no alternative matched. */
  lemma {:induction false} SurvivorsUnmatched(rules: seq<Rule>, s: string, c: char)
    requires c in RemoveMatches(rules, s)
    ensures exists k :: 0 <= k < |s| && s[k] == c && FirstMatch(rules, s[k..]) == 0
    decreases |s|
  {
    var n := FirstMatch(rules, s);
    if n > 0 {
      SurvivorsUnmatched(rules, s[n..], c);
      var k :| 0 <= k < |s[n..]| && s[n..][k] == c && FirstMatch(rules, s[n..][k..]) == 0;
      assert s[n..][k..] == s[n + k..];
    } else if s[0] == c {
      assert s[0..] == s;
    } else {
      SurvivorsUnmatched(rules, s[1..], c);
      var k :| 0 <= k < |s[1..]| && s[1..][k] == c && FirstMatch(rules, s[1..][k..]) == 0;
      assert s[1..][k..] == s[1 + k..];
    }
  }

  /** Where an alternative matches at the start of `s`, the mask skips the
      whole match and then continues with the mask of what follows it. */
  lemma MaskAfterMatch(rules: seq<Rule>, s: string, n: nat, k: nat)
    requires k < |s| && n == FirstMatch(rules, s) > 0 && KeptMask(rules, s)[k]
    ensures n <= k && k - n < |s[n..]| && KeptMask(rules, s[n..])[k - n]
  {
    var skipped, rest := seq(n, _ => false), KeptMask(rules, s[n..]);
    assert KeptMask(rules, s) == skipped + rest;
  }

  /** Where nothing matches at the start of `s`, the mask keeps the first
      character and continues with the mask of the rest. */
  lemma MaskAfterKeep(rules: seq<Rule>, s: string, k: nat)
    requires 0 < k < |s| && FirstMatch(rules, s) == 0 && KeptMask(rules, s)[k]
    ensures KeptMask(rules, s[1..])[k - 1]
  {
    assert KeptMask(rules, s) == [true] + KeptMask(rules, s[1..]);
  }

  lemma SuffixOfSuffix(s: string, a: nat, b: nat)
    requires a <= b <= |s|
    ensures s[a..][b - a..] == s[b..]
  {
  }

  /** The scan keeps the character at position `k` only where no alternative
      matches: a kept position is one the scan reached and found unmatched. */
  lemma {:induction false} KeptPositionUnmatched(rules: seq<Rule>, s: string, k: nat)
    requires k < |s| && KeptMask(rules, s)[k]
    ensures FirstMatch(rules, s[k..]) == 0
    decreases |s|, 1
  {
    var n := FirstMatch(rules, s);
    if n > 0 {
      KeptAfterMatch(rules, s, n, k);
    } else if k == 0 {
      assert s[0..] == s;
    } else {
      KeptAfterKeep(rules, s, k);
    }
  }

  lemma {:induction false} KeptAfterMatch(rules: seq<Rule>, s: string, n: nat, k: nat)
    requires k < |s| && n == FirstMatch(rules, s) > 0 && KeptMask(rules, s)[k]
    ensures FirstMatch(rules, s[k..]) == 0
    decreases |s|, 0
  {
    MaskAfterMatch(rules, s, n, k);
    KeptPositionUnmatched(rules, s[n..], k - n);
    SuffixOfSuffix(s, n, k);
  }

  lemma {:induction false} KeptAfterKeep(rules: seq<Rule>, s: string, k: nat)
    requires 0 < k < |s| && FirstMatch(rules, s) == 0 && KeptMask(rules, s)[k]
    ensures FirstMatch(rules, s[k..]) == 0
    decreases |s|, 0
  {
    MaskAfterKeep(rules, s, k);
    KeptPositionUnmatched(rules, s[1..], k - 1);
    SuffixOfSuffix(s, 1, k);
  }

  /** A character that some alternative matches wherever it stands (a
      one-character alternative, say) never survives the scan. */
  lemma RemovesEverywhere(rules: seq<Rule>, s: string, c: char, i: nat)
    requires i < |rules|
    requires forall t: string :: |t| > 0 && t[0] == c ==> MatchLength(rules[i], t) > 0
    ensures c !in RemoveMatches(rules, s)
  {
    if c in RemoveMatches(rules, s) {
      SurvivorsUnmatched(rules, s, c);
      assert false;
    }
  }

  /** A line in which no alternative can start comes back unchanged. */
  lemma {:induction false} RemoveMatchesUnchanged(rules: seq<Rule>, s: string, leading: set<char>)
    requires forall i :: 0 <= i < |rules| ==> Leaders(rules[i]) <= leading
    requires forall k :: 0 <= k < |s| ==> s[k] !in leading
    ensures RemoveMatches(rules, s) == s
    decreases |s|
  {
    if s != [] {
      assert FirstMatch(rules, s) == 0;
      RemoveMatchesUnchanged(rules, s[1..], leading);
      assert [s[0]] + s[1..] == s;
    }
  }

  /** A character at which no alternative can start is copied. */
  lemma KeepsFirst(rules: seq<Rule>, s: string, leading: set<char>)
    requires forall i :: 0 <= i < |rules| ==> Leaders(rules[i]) <= leading
    requires |s| > 0 && s[0] !in leading
    ensures RemoveMatches(rules, s) == [s[0]] + RemoveMatches(rules, s[1..])
  {
    assert FirstMatch(rules, s) == 0;
  }
}
