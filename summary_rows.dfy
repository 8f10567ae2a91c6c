/** `write_summary_file`: one tab-separated row per speaker of a
    conversation, appended to the summary file. */
module SummaryRows {
  import opened Wrappers
  import opened Text
  import opened WordCounts
  import opened Listing

  /** The output file, seen as the texts written to it so far, one per
      `write` call, in order. */
  class SummaryFile {
    var written: seq<string>

    constructor ()
      ensures written == []
    {
      written := [];
    }

    /** `progress_file.write(text)`. */
    method Write(text: string)
      modifies this
      ensures written == old(written) + [text]
    {
      written := written + [text];
    }
  }

  /** The ten columns of a row: speaker, conversation, then the eight counts. */
  function Fields(speaker: string, fileName: string, t: Tally): seq<string>
  {
    [speaker, fileName, Dec(t.wordCount), Dec(t.wordCountEnglish), Dec(t.wordCountSpanish),
     Dec(t.umCount), Dec(t.yeahCount), Dec(t.likeCount), Dec(t.puesCount), Dec(t.esoCount)]
  }

  /** The line written for one speaker: the ten columns separated by tabs
      and ended by a newline. */
  function Row(speaker: string, fileName: string, t: Tally): (row: string)
    ensures |row| > 0 && row[|row| - 1] == '\n'
  {
    Join(Fields(speaker, fileName, t), '\t') + "\n"
  }

  predicate IsNumeral(s: string)
  {
    |s| > 0 && forall i :: 0 <= i < |s| ==> IsDigit(s[i])
  }

  /** Reads a row of the summary file back: the speaker, the conversation and
      the eight counts, or nothing if the text is not such a row. */
  function ParseRow(row: string): Option<(string, string, Tally)>
  {
    if |row| == 0 || row[|row| - 1] != '\n' then None
    else
      var fields := Split(row[..|row| - 1], '\t');
      if |fields| != 10 || !IsNumeral(fields[2]) || !IsNumeral(fields[3]) || !IsNumeral(fields[4])
         || !IsNumeral(fields[5]) || !IsNumeral(fields[6]) || !IsNumeral(fields[7])
         || !IsNumeral(fields[8]) || !IsNumeral(fields[9])
      then None
      else
        Some((fields[0], fields[1],
              Tally(ParseDec(fields[2]), ParseDec(fields[3]), ParseDec(fields[4]), ParseDec(fields[5]),
                    ParseDec(fields[6]), ParseDec(fields[7]), ParseDec(fields[8]), ParseDec(fields[9]))))
  }

  /** A row holds everything it was written from, as long as the speaker and
      the file name contain no tab. */
  lemma RowRoundTrip(speaker: string, fileName: string, t: Tally)
    requires forall i :: 0 <= i < |speaker| ==> speaker[i] != '\t'
    requires forall i :: 0 <= i < |fileName| ==> fileName[i] != '\t'
    ensures ParseRow(Row(speaker, fileName, t)) == Some((speaker, fileName, t))
  {
    var fields := Fields(speaker, fileName, t);
    var row := Row(speaker, fileName, t);
    assert row[..|row| - 1] == Join(fields, '\t');
    forall k | 2 <= k < 10
      ensures forall j :: 0 <= j < |fields[k]| ==> fields[k][j] != '\t'
    {
      assert IsNumeral(fields[k]);
    }
    SplitJoin(fields, '\t');
    ParseDecOfDec(t.wordCount);
    ParseDecOfDec(t.wordCountEnglish);
    ParseDecOfDec(t.wordCountSpanish);
    ParseDecOfDec(t.umCount);
    ParseDecOfDec(t.yeahCount);
    ParseDecOfDec(t.likeCount);
    ParseDecOfDec(t.puesCount);
    ParseDecOfDec(t.esoCount);
  }

  /** `write_summary_file`: one row per speaker, each speaker exactly once, in
      the dictionary's iteration order, after what the file already held. */
  method WriteSummaryFile(fileName: string, progressFile: SummaryFile, wordCountsPerSpeaker: map<string, WordCountSummary>)
      returns (ghost order: seq<string>)
    modifies progressFile
    ensures |order| == |wordCountsPerSpeaker.Keys|
    ensures forall k :: 0 <= k < |order| ==> order[k] in wordCountsPerSpeaker
    ensures Distinct(order)
    ensures |progressFile.written| == |old(progressFile.written)| + |order|
    ensures progressFile.written[..|old(progressFile.written)|] == old(progressFile.written)
    ensures forall k :: 0 <= k < |order| ==>
      progressFile.written[|old(progressFile.written)| + k] == Row(order[k], fileName, old(wordCountsPerSpeaker[order[k]].Value()))
  {
    var speakers := ListOf(wordCountsPerSpeaker.Keys);
    ghost var before := progressFile.written;
    for i := 0 to |speakers|
      invariant |progressFile.written| == |before| + i
      invariant progressFile.written[..|before|] == before
      invariant forall k :: 0 <= k < i ==>
        progressFile.written[|before| + k] == Row(speakers[k], fileName, wordCountsPerSpeaker[speakers[k]].Value())
    {
      var summary := wordCountsPerSpeaker[speakers[i]];
      progressFile.Write(Row(speakers[i], fileName, summary.Value()));
    }
    order := speakers;
  }
}
