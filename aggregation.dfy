/** `process_file`: the per-speaker totals of one conversation, built line by
    line, and written out only when every line was understood. */
module Aggregation {
  import opened Wrappers
  import opened ChatLine
  import opened WordCounts
  import opened LineSummaries
  import opened SummaryRows
  import opened Listing

  /** The exceptions a conversation can raise: an unrecognised character in
      a spoken line, or an empty line, where `line[0]` raises `IndexError`. */
  datatype FileError = UnknownText(error: UnknownTextPartError) | EmptyLine

  /** The way a spoken line is summarised. The loop is specified for any
      summariser; `ProcessFile` uses `get_line_summary`, i.e. `LineSummary`. */
  type Summarizer = string -> Result<Tally, UnknownTextPartError>

  predicate IsSpoken(line: string)
  {
    |line| > 0 && IsPartOfConversation(line)
  }

  /** A line that raises nothing: a non-empty line that is either not spoken
      or whose spoken text is fully recognised. */
  predicate IsAccepted(summarize: Summarizer, line: string)
  {
    |line| > 0 && (IsPartOfConversation(line) ==> summarize(line).Success?)
  }

  /** The exception a line that is not accepted raises. */
  function LineError(summarize: Summarizer, line: string): FileError
    requires !IsAccepted(summarize, line)
  {
    if |line| == 0 then EmptyLine else UnknownText(summarize(line).error)
  }

  /** The counts a line adds to its speaker; nothing for other lines. */
  function LineTally(summarize: Summarizer, line: string): Tally
  {
    if IsSpoken(line) && summarize(line).Success? then summarize(line).value else Zero
  }

  /** One iteration of the loop: skip a line that is not spoken, otherwise
      start or extend the speaker's totals. */
  function Step(summarize: Summarizer, totals: map<string, Tally>, line: string): (r: Result<map<string, Tally>, FileError>)
    ensures r.Failure? <==> !IsAccepted(summarize, line)
    ensures r.Failure? ==> r.error == LineError(summarize, line)
  {
    if |line| == 0 then Failure(EmptyLine)
    else if !IsPartOfConversation(line) then Success(totals)
    else match summarize(line)
      case Failure(e) => Failure(UnknownText(e))
      case Success(t) =>
        var speaker := GetSpeaker(line);
        Success(totals[speaker := if speaker in totals then Plus(totals[speaker], t) else t])
  }

  /** The dictionary `word_counts_per_speaker` after the loop has read
      `lines`, or the exception that stopped it. */
  function Aggregate(summarize: Summarizer, lines: seq<string>): (r: Result<map<string, Tally>, FileError>)
    ensures r.Success? ==> |r.value| <= |lines|
  {
    if lines == [] then Success(map[])
    else
      var before := Aggregate(summarize, lines[..|lines| - 1]);
      if before.Failure? then before else Step(summarize, before.value, lines[|lines| - 1])
  }

  /** The reference totals of a speaker: the sum of the counts of that
      speaker's spoken lines. */
  function SpeakerTotal(summarize: Summarizer, lines: seq<string>, speaker: string): Tally
  {
    if lines == [] then Zero
    else
      var last := lines[|lines| - 1];
      Plus(SpeakerTotal(summarize, lines[..|lines| - 1], speaker),
           if IsSpoken(last) && GetSpeaker(last) == speaker then LineTally(summarize, last) else Zero)
  }

  /** The lines the loop does not skip: empty lines (which raise) and spoken
      lines. */
  function Conversation(lines: seq<string>): (kept: seq<string>)
    ensures forall k :: 0 <= k < |kept| ==> |kept[k]| == 0 || IsSpoken(kept[k])
    ensures forall k :: 0 <= k < |lines| && (|lines[k]| == 0 || IsSpoken(lines[k])) ==> lines[k] in kept
    ensures forall k :: 0 <= k < |kept| ==> kept[k] in lines
  {
    if lines == [] then []
    else
      var last := lines[|lines| - 1];
      Conversation(lines[..|lines| - 1]) + (if |last| == 0 || IsSpoken(last) then [last] else [])
  }

  /** The filter keeps order: a conversation split in two is filtered part
      by part, and a single line is kept exactly when it is empty or spoken. */
  lemma {:induction false} ConversationAppend(a: seq<string>, b: seq<string>)
    ensures Conversation(a + b) == Conversation(a) + Conversation(b)
    ensures |b| == 1 ==> Conversation(b) == if |b[0]| == 0 || IsSpoken(b[0]) then b else []
    decreases |b|
  {
    if b == [] {
      assert a + b == a;
    } else {
      var ab := a + b;
      assert ab[..|ab| - 1] == a + b[..|b| - 1];
      assert ab[|ab| - 1] == b[|b| - 1];
      ConversationAppend(a, b[..|b| - 1]);
      if |b| == 1 {
        assert b[..0] == [];
      }
    }
  }

  lemma PlusZero(t: Tally)
    ensures Plus(t, Zero) == t && Plus(Zero, t) == t
  {
  }

  /** The loop gets through a conversation exactly when every line of it is
      accepted. */
  lemma {:induction false} SucceedsIffAllAccepted(summarize: Summarizer, lines: seq<string>)
    ensures Aggregate(summarize, lines).Success? <==> forall k :: 0 <= k < |lines| ==> IsAccepted(summarize, lines[k])
  {
    if lines != [] {
      var prefix := lines[..|lines| - 1];
      SucceedsIffAllAccepted(summarize, prefix);
      assert forall k :: 0 <= k < |prefix| ==> prefix[k] == lines[k];
    }
  }

  /** A conversation that stops, stops with the exception of its first line
      that is not accepted. */
  lemma {:induction false} FailsAtFirstRejectedLine(summarize: Summarizer, lines: seq<string>)
    requires Aggregate(summarize, lines).Failure?
    ensures exists k ::
      && 0 <= k < |lines| && !IsAccepted(summarize, lines[k])
      && (forall j :: 0 <= j < k ==> IsAccepted(summarize, lines[j]))
      && Aggregate(summarize, lines).error == LineError(summarize, lines[k])
  {
    var prefix := lines[..|lines| - 1];
    assert forall j :: 0 <= j < |prefix| ==> prefix[j] == lines[j];
    if Aggregate(summarize, prefix).Failure? {
      FailsAtFirstRejectedLine(summarize, prefix);
      var k :| 0 <= k < |prefix| && !IsAccepted(summarize, prefix[k])
        && (forall j :: 0 <= j < k ==> IsAccepted(summarize, prefix[j]))
        && Aggregate(summarize, prefix).error == LineError(summarize, prefix[k]);
      assert !IsAccepted(summarize, lines[k]);
    } else {
      SucceedsIffAllAccepted(summarize, prefix);
      assert !IsAccepted(summarize, lines[|lines| - 1]);
    }
  }

  /** Once a prefix has raised, nothing after it is read. */
  lemma {:induction false} FailureIsFinal(summarize: Summarizer, lines: seq<string>, more: seq<string>)
    requires Aggregate(summarize, lines).Failure?
    ensures Aggregate(summarize, lines + more) == Aggregate(summarize, lines)
    decreases |more|
  {
    if more != [] {
      var all := lines + more;
      assert all[..|all| - 1] == lines + more[..|more| - 1];
      FailureIsFinal(summarize, lines, more[..|more| - 1]);
      assert Aggregate(summarize, all) == Aggregate(summarize, all[..|all| - 1]);
    } else {
      assert lines + more == lines;
    }
  }

  /** Reading line `i` either extends the prefix read so far or, if it
      raises, decides the outcome for the whole conversation. */
  lemma NextLine(summarize: Summarizer, lines: seq<string>, i: nat)
    requires i < |lines| && Aggregate(summarize, lines[..i]).Success?
    ensures Aggregate(summarize, lines[..i + 1]) == Step(summarize, Aggregate(summarize, lines[..i]).value, lines[i])
    ensures Aggregate(summarize, lines[..i + 1]).Failure? ==> Aggregate(summarize, lines) == Aggregate(summarize, lines[..i + 1])
  {
    assert lines[..i + 1][..i] == lines[..i];
    if Aggregate(summarize, lines[..i + 1]).Failure? {
      FailureIsFinal(summarize, lines[..i + 1], lines[i + 1..]);
      assert lines[..i + 1] + lines[i + 1..] == lines;
    }
  }

  /** The keys after one accepted line: the old ones, and the line's speaker
      if it is spoken. */
  lemma StepKeys(summarize: Summarizer, totals: map<string, Tally>, line: string)
    requires Step(summarize, totals, line).Success?
    ensures forall s :: s in Step(summarize, totals, line).value <==> s in totals || (IsSpoken(line) && GetSpeaker(line) == s)
  {
  }

  /** What one accepted line does to the keys and values. */
  lemma StepEffect(summarize: Summarizer, totals: map<string, Tally>, line: string)
    requires Step(summarize, totals, line).Success?
    ensures var after := Step(summarize, totals, line).value;
      && (forall s :: s in after <==> s in totals || (IsSpoken(line) && GetSpeaker(line) == s))
      && (forall s :: s in after ==>
            after[s] == Plus(if s in totals then totals[s] else Zero,
                             if IsSpoken(line) && GetSpeaker(line) == s then LineTally(summarize, line) else Zero))
  {
    var after := Step(summarize, totals, line).value;
    forall s | s in after
      ensures after[s] == Plus(if s in totals then totals[s] else Zero,
                               if IsSpoken(line) && GetSpeaker(line) == s then LineTally(summarize, line) else Zero)
    {
      if s in totals {
        PlusZero(totals[s]);
      }
      if IsSpoken(line) {
        PlusZero(LineTally(summarize, line));
      }
    }
  }

  /** The keys of the dictionary are exactly the speaker codes of the spoken
      lines. */
  lemma {:induction false} KeysAreSpeakers(summarize: Summarizer, lines: seq<string>)
    requires Aggregate(summarize, lines).Success?
    ensures forall s :: s in Aggregate(summarize, lines).value <==>
      exists k :: 0 <= k < |lines| && IsSpoken(lines[k]) && GetSpeaker(lines[k]) == s
  {
    if lines != [] {
      var prefix := lines[..|lines| - 1];
      KeysAreSpeakers(summarize, prefix);
      StepKeys(summarize, Aggregate(summarize, prefix).value, lines[|lines| - 1]);
      forall s
        ensures s in Aggregate(summarize, lines).value <==>
          exists k :: 0 <= k < |lines| && IsSpoken(lines[k]) && GetSpeaker(lines[k]) == s
      {
        assert s in Aggregate(summarize, prefix).value <==>
          exists k :: 0 <= k < |prefix| && IsSpoken(prefix[k]) && GetSpeaker(prefix[k]) == s;
        KeyAfterLastLine(Aggregate(summarize, prefix).value.Keys, Aggregate(summarize, lines).value.Keys, lines, prefix, s);
      }
    }
  }

  /** One more line adds its own speaker to the keys and no other. */
  lemma KeyAfterLastLine(before: set<string>, after: set<string>, lines: seq<string>, prefix: seq<string>, s: string)
    requires lines != [] && prefix == lines[..|lines| - 1]
    requires s in after <==> s in before || (IsSpoken(lines[|lines| - 1]) && GetSpeaker(lines[|lines| - 1]) == s)
    requires s in before <==> exists k :: 0 <= k < |prefix| && IsSpoken(prefix[k]) && GetSpeaker(prefix[k]) == s
    ensures s in after <==> exists k :: 0 <= k < |lines| && IsSpoken(lines[k]) && GetSpeaker(lines[k]) == s
  {
    if s in after {
      if s in before {
        var k :| 0 <= k < |prefix| && IsSpoken(prefix[k]) && GetSpeaker(prefix[k]) == s;
        assert lines[k] == prefix[k];
      }
    } else {
      forall k | 0 <= k < |lines| ensures !(IsSpoken(lines[k]) && GetSpeaker(lines[k]) == s) {
        if k < |prefix| {
          assert lines[k] == prefix[k];
        }
      }
    }
  }

  /** Each value of the dictionary is the sum of the counts of that speaker's
      lines; a speaker without an entry has no counts. */
  lemma {:induction false} TotalsAreSums(summarize: Summarizer, lines: seq<string>)
    requires Aggregate(summarize, lines).Success?
    ensures forall s :: s in Aggregate(summarize, lines).value ==>
      Aggregate(summarize, lines).value[s] == SpeakerTotal(summarize, lines, s)
    ensures forall s :: s !in Aggregate(summarize, lines).value ==> SpeakerTotal(summarize, lines, s) == Zero
  {
    if lines != [] {
      var prefix := lines[..|lines| - 1];
      var last := lines[|lines| - 1];
      TotalsAreSums(summarize, prefix);
      StepEffect(summarize, Aggregate(summarize, prefix).value, last);
      forall s
        ensures s in Aggregate(summarize, lines).value ==>
          Aggregate(summarize, lines).value[s] == SpeakerTotal(summarize, lines, s)
        ensures s !in Aggregate(summarize, lines).value ==> SpeakerTotal(summarize, lines, s) == Zero
      {
        var before := Aggregate(summarize, prefix).value;
        var added := if IsSpoken(last) && GetSpeaker(last) == s then LineTally(summarize, last) else Zero;
        assert SpeakerTotal(summarize, lines, s) == Plus(SpeakerTotal(summarize, prefix, s), added);
        assert SpeakerTotal(summarize, prefix, s) == if s in before then before[s] else Zero;
        PlusZero(added);
      }
    }
  }

  /** Lines that are neither spoken nor empty change nothing. */
  lemma {:induction false} OtherLinesIgnored(summarize: Summarizer, lines: seq<string>)
    ensures Aggregate(summarize, Conversation(lines)) == Aggregate(summarize, lines)
  {
    if lines != [] {
      var prefix := lines[..|lines| - 1];
      var last := lines[|lines| - 1];
      OtherLinesIgnored(summarize, prefix);
      var kept := Conversation(lines);
      if |last| == 0 || IsSpoken(last) {
        assert kept[..|kept| - 1] == Conversation(prefix);
      } else {
        assert kept == Conversation(prefix) + [] == Conversation(prefix);
        assert Aggregate(summarize, lines) == Aggregate(summarize, prefix);
      }
    }
  }

  /** The in-place update of a speaker's summary by one more line's counts. */
  method AddCounts(summary: WordCountSummary, counts: WordCountSummary)
    requires summary != counts
    modifies summary
    ensures summary.Value() == Plus(old(summary.Value()), counts.Value())
  {
    summary.wordCount := summary.wordCount + counts.wordCount;
    summary.wordCountEnglish := summary.wordCountEnglish + counts.wordCountEnglish;
    summary.wordCountSpanish := summary.wordCountSpanish + counts.wordCountSpanish;
    summary.umCount := summary.umCount + counts.umCount;
    summary.yeahCount := summary.yeahCount + counts.yeahCount;
    summary.likeCount := summary.likeCount + counts.likeCount;
    summary.puesCount := summary.puesCount + counts.puesCount;
    summary.esoCount := summary.esoCount + counts.esoCount;
  }

  /** The summary objects hold `totals`, one object per speaker. */
  ghost predicate Holds(summaries: map<string, WordCountSummary>, totals: map<string, Tally>)
    reads summaries.Values
  {
    && summaries.Keys == totals.Keys
    && (forall s :: s in summaries ==> summaries[s].Value() == totals[s])
    && (forall s, t :: s in summaries && t in summaries && s != t ==> summaries[s] != summaries[t])
  }

  /** One spoken line's counts recorded for its speaker: a new summary on
      the speaker's first line, an in-place update afterwards. */
  method Record(wordCountsPerSpeaker: map<string, WordCountSummary>, speaker: string, lineSummary: WordCountSummary,
                ghost totals: map<string, Tally>)
      returns (updated: map<string, WordCountSummary>)
    requires Holds(wordCountsPerSpeaker, totals)
    requires lineSummary !in wordCountsPerSpeaker.Values
    modifies wordCountsPerSpeaker.Values
    ensures Holds(updated, totals[speaker :=
      if speaker in totals then Plus(totals[speaker], old(lineSummary.Value())) else old(lineSummary.Value())])
    ensures speaker in wordCountsPerSpeaker ==> updated == wordCountsPerSpeaker
    ensures speaker !in wordCountsPerSpeaker ==>
      && speaker in updated && fresh(updated[speaker])
      && updated == wordCountsPerSpeaker[speaker := updated[speaker]]
    ensures forall s :: s in wordCountsPerSpeaker && s != speaker ==> unchanged(wordCountsPerSpeaker[s])
    ensures unchanged(lineSummary)
  {
    if speaker !in wordCountsPerSpeaker {
      var summary := new WordCountSummary(
        lineSummary.wordCount, lineSummary.wordCountEnglish, lineSummary.wordCountSpanish, lineSummary.umCount,
        lineSummary.yeahCount, lineSummary.likeCount, lineSummary.puesCount, lineSummary.esoCount);
      updated := wordCountsPerSpeaker[speaker := summary];
    } else {
      AddCounts(wordCountsPerSpeaker[speaker], lineSummary);
      updated := wordCountsPerSpeaker;
    }
  }

  /** The loop of `process_file` over the lines of one conversation, already
      decoded and stripped of trailing whitespace: the summaries per speaker,
      or the exception that stopped it. */
  method CountPerSpeaker(lines: seq<string>)
      returns (error: Option<FileError>, wordCountsPerSpeaker: map<string, WordCountSummary>)
    ensures error.Some? <==> Aggregate(LineSummary, lines).Failure?
    ensures error.Some? ==> error.value == Aggregate(LineSummary, lines).error
    ensures error.None? ==> Holds(wordCountsPerSpeaker, Aggregate(LineSummary, lines).value)
    ensures forall s :: s in wordCountsPerSpeaker ==> fresh(wordCountsPerSpeaker[s])
  {
    wordCountsPerSpeaker := map[];
    ghost var totals: map<string, Tally> := map[];
    for i := 0 to |lines|
      invariant Aggregate(LineSummary, lines[..i]) == Success(totals)
      invariant Holds(wordCountsPerSpeaker, totals)
      invariant forall s :: s in wordCountsPerSpeaker ==> fresh(wordCountsPerSpeaker[s])
    {
      var line := lines[i];
      NextLine(LineSummary, lines, i);
      if |line| == 0 {
        return Some(EmptyLine), wordCountsPerSpeaker;
      }
      if !IsPartOfConversation(line) {
        continue;
      }
      var lineSummary := GetLineSummary(line);
      if lineSummary.Failure? {
        return Some(UnknownText(lineSummary.error)), wordCountsPerSpeaker;
      }
      wordCountsPerSpeaker := Record(wordCountsPerSpeaker, GetSpeaker(line), lineSummary.value, totals);
      totals := Step(LineSummary, totals, line).value;
    }
    assert lines[..|lines|] == lines;
    return None, wordCountsPerSpeaker;
  }

  /** `process_file`: on an exception nothing is written; otherwise one row
      per speaker is appended, holding that speaker's totals. */
  method ProcessFile(fileName: string, lines: seq<string>, progressFile: SummaryFile)
      returns (error: Option<FileError>, ghost order: seq<string>)
    modifies progressFile
    ensures error.Some? <==> Aggregate(LineSummary, lines).Failure?
    ensures error.Some? ==> error.value == Aggregate(LineSummary, lines).error
    ensures error.Some? ==> progressFile.written == old(progressFile.written)
    ensures error.None? ==>
      && |order| == |Aggregate(LineSummary, lines).value.Keys|
      && (forall k :: 0 <= k < |order| ==> order[k] in Aggregate(LineSummary, lines).value)
      && Distinct(order)
      && |progressFile.written| == |old(progressFile.written)| + |order|
      && progressFile.written[..|old(progressFile.written)|] == old(progressFile.written)
      && (forall k :: 0 <= k < |order| ==>
            progressFile.written[|old(progressFile.written)| + k]
              == Row(order[k], fileName, Aggregate(LineSummary, lines).value[order[k]]))
  {
    var wordCountsPerSpeaker;
    error, wordCountsPerSpeaker := CountPerSpeaker(lines);
    if error.Some? {
      return error, [];
    }
    order := WriteSummaryFile(fileName, progressFile, wordCountsPerSpeaker);
  }
}
