/** The earlier script: its five-alternative removal pattern
    `(\*[A-Z]{3}:\t|\x15.*\x15|<[^<]*>|\[/+]|\(\.+\))`. */
module Exploratory {
  import opened Text
  import opened Markup
  import opened ChatLine

  const Rules: seq<Rule> := [SpeakerTag, Timing, AngleGroup, SlashRetrace, DotPause]

  /** Deletes speaker tags, timing codes, angle-bracket groups, `[/]`-style
      retracing marks and `(.)`-style pauses, and nothing else. */
  function RemoveNonSpokenParts(line: string): (spoken: string)
    ensures IsSubsequence(spoken, line)
    ensures |spoken| <= |line|
  {
    RemoveMatchesDeletes(Rules, line);
    RemoveMatches(Rules, line)
  }

  predicate IsUpperCode(code: string)
  {
    |code| == 3 && IsAsciiUpper(code[0]) && IsAsciiUpper(code[1]) && IsAsciiUpper(code[2])
  }

  /** A line opening with `*`, three upper-case letters, `:` and a tab: the
      speaker is those letters and the whole tag is deleted. */
  lemma TaggedLine(code: string, rest: string)
    requires IsUpperCode(code)
    ensures GetSpeaker("*" + code + ":\t" + rest) == code
    ensures RemoveNonSpokenParts("*" + code + ":\t" + rest) == RemoveNonSpokenParts(rest)
  {
    var line := "*" + code + ":\t" + rest;
    assert line[6..] == rest;
    assert MatchLength(SpeakerTag, line) == 6;
  }

  /** Any other line starting with `*` keeps its asterisk: no alternative but
      the speaker tag can start there. */
  lemma UntaggedMarkerKept(line: string)
    requires |line| > 0 && IsPartOfConversation(line)
    requires !IsSpeakerTag(line)
    ensures RemoveNonSpokenParts(line) == "*" + RemoveNonSpokenParts(line[1..])
  {
    assert FirstMatch(Rules, line) == 0 by {
      forall i | 0 <= i < |Rules| ensures MatchLength(Rules[i], line) == 0 {
        assert i == 0 || '*' !in Leaders(Rules[i]);
      }
    }
  }

  /** `[`, one or more `/`, `]` is deleted (`[/]`, `[//]`). */
  lemma RetraceRemoved(k: nat, rest: string)
    requires k > 0
    ensures RemoveNonSpokenParts("[" + seq(k, _ => '/') + "]" + rest) == RemoveNonSpokenParts(rest)
  {
    var slashes := seq(k, _ => '/');
    var line := "[" + slashes + "]" + rest;
    assert Run(line, 1, IsSlash) == k by {
      assert line[1..k + 1] == slashes;
      assert forall i :: 1 <= i < k + 1 ==> line[i] == slashes[i - 1];
      RunOfExactly(line, 1, k, IsSlash);
    }
    assert MatchLength(SlashRetrace, line) == k + 2;
    FirstMatchIs(Rules, line, 3);
    assert line[k + 2..] == rest;
  }

  /** A `[` not followed by `/` stays, so `[x 2]` and `[?]` are kept. */
  lemma OtherBracketKept(line: string)
    requires |line| > 0 && line[0] == '['
    requires |line| == 1 || line[1] != '/'
    ensures RemoveNonSpokenParts(line) == "[" + RemoveNonSpokenParts(line[1..])
  {
    assert Run(line, 1, IsSlash) == 0;
    assert FirstMatch(Rules, line) == 0 by {
      forall i | 0 <= i < |Rules| ensures MatchLength(Rules[i], line) == 0 {
        assert i == 3 || '[' !in Leaders(Rules[i]);
      }
    }
  }

  /** `(`, one or more `.`, `)` is deleted (`(.)`, `(...)`). */
  lemma PauseRemoved(k: nat, rest: string)
    requires k > 0
    ensures RemoveNonSpokenParts("(" + seq(k, _ => '.') + ")" + rest) == RemoveNonSpokenParts(rest)
  {
    var dots := seq(k, _ => '.');
    var line := "(" + dots + ")" + rest;
    assert Run(line, 1, IsDot) == k by {
      assert line[1..k + 1] == dots;
      assert forall i :: 1 <= i < k + 1 ==> line[i] == dots[i - 1];
      RunOfExactly(line, 1, k, IsDot);
    }
    assert line[0] == '(' && line[k + 1] == ')';
    assert MatchLength(DotPause, line) == k + 2;
    FirstMatchIs(Rules, line, 4);
    assert line[k + 2..] == rest;
  }

  /** At a `<` that closes with a `>`, the group up to the last `>` before the
      next `<` is deleted (the greedy match `AngleGroupLength` describes). */
  lemma AngleGroupRemoved(line: string, m: nat)
    requires AngleMatch(line, m)
    ensures AngleGroupLength(line) >= m
    ensures RemoveNonSpokenParts(line) == RemoveNonSpokenParts(line[AngleGroupLength(line)..])
  {
    assert MatchLength(AngleGroup, line) == AngleGroupLength(line) > 0;
    FirstMatchIs(Rules, line, 2);
  }

  /** A line with no `*`, `<`, `[`, `(` or U+0015 comes back unchanged. */
  lemma UnchangedWithoutMarkup(line: string)
    requires forall k :: 0 <= k < |line| ==> line[k] !in {'*', '<', '[', '(', Nak}
    ensures RemoveNonSpokenParts(line) == line
  {
    RemoveMatchesUnchanged(Rules, line, {'*', Nak, '<', '[', '('});
  }
}
