/** `get_line_summary`: sanitise a spoken line, reject it if anything
    unrecognised is left, otherwise count its words. */
module LineSummaries {
  import opened Wrappers
  import opened Text
  import opened Markup
  import opened ChatLine
  import opened Sanitizer
  import opened WordCounts

  /** The exception the script raises: the raw line and the characters of
      its sanitised form that are not recognised. */
  datatype UnknownTextPartError = UnknownTextPartError(line: string, unknownTextParts: set<char>)

  /** `ascii_letters + "ÁáÉéÍíÓóÚúüÑñ '-"`. */
  predicate IsKnownChar(c: char)
  {
    IsAsciiLetter(c) || c in {'Á', 'á', 'É', 'é', 'Í', 'í', 'Ó', 'ó', 'Ú', 'ú', 'ü', 'Ñ', 'ñ', ' ', '\'', '-'}
  }

  /** `set(spoken).difference(known)`. */
  function UnknownTextParts(spoken: string): (unknown: set<char>)
    ensures unknown == {} <==> forall i :: 0 <= i < |spoken| ==> IsKnownChar(spoken[i])
    ensures forall c :: c in unknown ==> c in spoken
  {
    var unknown := set c | c in spoken && !IsKnownChar(c);
    assert forall i :: 0 <= i < |spoken| && !IsKnownChar(spoken[i]) ==> spoken[i] in unknown;
    unknown
  }

  /** The outcome of `get_line_summary(line)`: an error carrying the raw line
      and exactly the unrecognised characters of its sanitised form whenever
      there are any, and otherwise the counts of the sanitised form. */
  function LineSummary(line: string): (r: Result<Tally, UnknownTextPartError>)
    ensures r.Failure? <==> exists i :: 0 <= i < |RemoveNonSpokenParts(line)| && !IsKnownChar(RemoveNonSpokenParts(line)[i])
    ensures r.Failure? ==> r.error.line == line
    ensures r.Failure? ==> forall c :: c in r.error.unknownTextParts <==> c in RemoveNonSpokenParts(line) && !IsKnownChar(c)
    ensures r.Success? ==> r.value == LineCounts(RemoveNonSpokenParts(line))
  {
    var spoken := RemoveNonSpokenParts(line);
    var unknownTextParts := UnknownTextParts(spoken);
    if unknownTextParts != {} then
      Failure(UnknownTextPartError(line, unknownTextParts))
    else
      assert forall i :: 0 <= i < |spoken| ==> spoken[i] !in unknownTextParts;
      Success(LineCounts(spoken))
  }

  /** `get_line_summary` itself, building the summary object with
      `get_all_line_counts`. */
  method GetLineSummary(line: string) returns (r: Result<WordCountSummary, UnknownTextPartError>)
    ensures r.Failure? <==> LineSummary(line).Failure?
    ensures r.Failure? ==> r.error == LineSummary(line).error
    ensures r.Success? ==> fresh(r.value) && r.value.Value() == LineSummary(line).value
  {
    var spokenLine := RemoveNonSpokenParts(line);
    var unknownTextParts := UnknownTextParts(spokenLine);
    if unknownTextParts != {} {
      return Failure(UnknownTextPartError(line, unknownTextParts));
    }
    var summary := GetAllLineCounts(spokenLine);
    return Success(summary);
  }

  /** A spoken line whose `*` does not open a well-formed speaker tag
      (`*`, three upper-case letters, `:`, tab) is always rejected, with `*`
      among the unknown characters. */
  lemma UntaggedLineRejected(line: string)
    requires |line| > 0 && IsPartOfConversation(line)
    requires !IsSpeakerTag(line)
    ensures LineSummary(line).Failure?
    ensures '*' in LineSummary(line).error.unknownTextParts
  {
    MarkerKeptUnlessTagged(line);
    assert RemoveNonSpokenParts(line)[0] == '*';
  }

  /** So every spoken line that is accepted carries a speaker code of three
      upper-case ASCII letters. */
  lemma AcceptedSpeakerIsTag(line: string)
    requires |line| > 0 && IsPartOfConversation(line)
    requires LineSummary(line).Success?
    ensures |GetSpeaker(line)| == 3
    ensures forall i :: 0 <= i < 3 ==> IsAsciiUpper(GetSpeaker(line)[i])
  {
    if !IsSpeakerTag(line) {
      UntaggedLineRejected(line);
    }
  }
}
