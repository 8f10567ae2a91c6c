# Per-speaker word counts of the EN-ES Miami transcripts, in Dafny

The repository reads the CHAT transcripts (`.cha` files) of the bilingual
English–Spanish Miami corpus and writes one summary row per speaker per
conversation. For each spoken line (a line starting with `*`), it works as follows:

- it strips the transcription markup with one large regular expression;
- it rejects the line if any character it does not recognise is left;
- it counts the words and the fillers `um`/`uh`/`er`, `yeah`, `like`, `pues` and `eso`.

It adds these counts to the speaker's running totals. An earlier exploratory script has a
smaller version of the same sanitiser.

This project models that core and proves what it does:

- `Markup` is a generic engine for `re.sub(pattern, '', line)`, where the
  pattern is an alternation. `Rule` has one constructor per alternative.
  `MatchLength` is the length of the match of one alternative at the start
  of a text, following the regex's greedy quantifiers and backtracking.
  `FirstMatch` is what the alternation matches there: the first alternative
  that matches. `RemoveMatches` scans left to right. At each position it
  deletes the match, or keeps the character when nothing matches.
- `Sanitizer` holds the 24 alternatives of `remove_non_spoken_parts` in
  `src/prepare_initial_analyses.py`. `Exploratory` holds the 5 alternatives
  of its namesake in `src/exploratory_analyses.py`.
- `ChatLine` models `is_part_of_conversation` and `get_speaker`.
- `WordCounts` models `WordCountSummary` and `get_all_line_counts`.
  `WordCountSummary` is a class, because `process_file` updates its fields
  in place. `Tally` is its value.
- `LineSummaries` models `UnknownTextPartError` and `get_line_summary`.
  `LineSummary` is the specification, a function returning a `Result`.
  `GetLineSummary` is the method that builds the object.
- `Aggregation` models the loop of `process_file` in two parts. `Aggregate` is a
  specification fold over the lines. `CountPerSpeaker` and `ProcessFile` are
  the imperative loop over a `map` of `WordCountSummary` objects.
  `ProcessFile` then writes the summary file.
- `SummaryRows` models `write_summary_file` and its row format. The output file is
  a `SummaryFile` object whose `written` sequence grows with each `Write`.
- `FileNames` models `CONVERSATIONS` and `get_filenames`.
- `RetraceLines` ties the sanitiser, the character check and the counts together.
  It covers a whole tagged line with a retracing mark `[//]`.
- `Text`, `Listing` and `Wrappers` are helpers:
  - characters, decimal numerals, ASCII lower-casing, joining and splitting;
  - listing a set in some order;
  - `Option` and `Result`.

The text the loop sees is a parameter: the lines of one file, already
decoded and stripped of trailing whitespace.

The model follows the code as written, including where it departs from
what one might expect of it:

- **Sanitising is not idempotent.** `Sanitizer.NotIdempotent` shows a line
  for which sanitising twice differs from sanitising once.
- **Fillers are counted as words.** `word_count` is `len(line.split())`
  over all words, fillers included. So a line `*LAU:\thello um [//] world`
  has three words, not two. `RetraceLines.RetraceLineSummary` states that
  its counts are those of `hello um  world`.
- **No per-conversation row is written.** Only per-speaker rows are.

The timing alternative of both patterns is `\x15.*\x15`. The source
holds the control character U+0015 literally around `.*`. That character is
invisible in most editors, so the pattern looks like a bare `.*` there.

## Model

| member | source | states |
|---|---|---|
| Markup.AngleGroupLength | src/prepare_initial_analyses.py:71 | returns the longest match of `<[^<]*>` at the start (a `<`, no other `<`, a closing `>`), or 0 when there is none |
| Markup.TimingLength | src/prepare_initial_analyses.py:71 | returns the longest match of `\x15.*\x15` at the start (no newline inside), or 0 |
| Markup.AmpersandLength | src/prepare_initial_analyses.py:72 | returns the longest match of `&=?[^ ]+` at the start: everything up to the next space, at least one character after `&`, or 0 |
| Markup.ParalinguisticLength | src/prepare_initial_analyses.py:73 | returns the longest match of `\[(= ?!\|\*) .+]`: the greedy `.+` backtracks to the last `]` before any newline; 0 when there is none |
| Markup.MatchLength | src/prepare_initial_analyses.py:70-73 | one alternative's match never runs past the text and starts only at one of that alternative's leading characters |
| Markup.FirstMatch | src/prepare_initial_analyses.py:70-73 | the alternation matches nothing exactly when no alternative matches; otherwise it matches as long as some alternative does |
| Markup.FirstMatchIs | src/prepare_initial_analyses.py:70-73 | the alternation takes the first alternative that matches, left to right, not the longest |
| Markup.DeletesWinner | src/prepare_initial_analyses.py:70-101 | at a position where alternative `i` is the first to match, `re.sub` deletes its match and carries on after it |
| Markup.KeepsFirst | src/prepare_initial_analyses.py:70-101 | a first character no alternative can start with is kept, and the scan carries on after it |
| Markup.RemoveMatches | src/prepare_initial_analyses.py:70-101 | substitution by '' never makes the text longer |
| Markup.RemoveMatchesDeletes | src/prepare_initial_analyses.py:70-101 | substitution by '' only deletes: the result is the text filtered by a keep-mask, so it is a subsequence and no longer |
| Markup.SurvivorsUnmatched | src/prepare_initial_analyses.py:70-101 | every character of the result occurs, with the same value, at some position of the text where no alternative matches |
| Markup.KeptPositionUnmatched | src/prepare_initial_analyses.py:70-101 | a position the scan keeps is one where no alternative matches the text from there on; with `RemoveMatchesDeletes`, every survivor comes from such a position |
| Markup.RemovesEverywhere | src/prepare_initial_analyses.py:70-101 | a character that some alternative matches wherever it starts never survives |
| Markup.RemoveMatchesUnchanged | src/prepare_initial_analyses.py:70-101 | a text none of whose characters can start a match is returned unchanged |
| Sanitizer.RemoveNonSpokenParts | src/prepare_initial_analyses.py:69-101 | the spoken part is a subsequence of the line, no longer, and holds none of `. , ? ! ( ) _ < > + :` |
| Sanitizer.SingleCharRule | src/prepare_initial_analyses.py:72-73 | each of those eleven characters is removed by a one-character alternative (`[.,?!]`, `[()]`, `_`, `<`, `>`, `\+`, `:`) |
| Sanitizer.OneCharRuleMatches | src/prepare_initial_analyses.py:72-73 | each one-character alternative matches exactly one character wherever it can start |
| Sanitizer.NoAlwaysRemovedLeft | src/prepare_initial_analyses.py:71-73 | no `. , ? ! ( ) _ < > + :` survives sanitising, whatever the line |
| Sanitizer.MarkerKeptUnlessTagged | src/prepare_initial_analyses.py:71 | a `*` not followed by three capitals, `:` and a tab is kept, and the rest of the line is sanitised after it |
| Sanitizer.TagStripped | src/prepare_initial_analyses.py:71 | a speaker tag `*XYZ:\t` is deleted as a whole |
| Sanitizer.CodeSwitchStopsAtEng | src/prepare_initial_analyses.py:71 | on `@s:eng&spa` the language alternative stops after `eng`, the first of its options that matches |
| Sanitizer.AmpersandRestRemoved | src/prepare_initial_analyses.py:72 | the `&spa` that remains is removed by the `&=?[^ ]+` alternative |
| Sanitizer.CodeSwitchMarkerRemoved | src/prepare_initial_analyses.py:71-72 | `@s:eng&spa` disappears entirely, in two matches |
| Sanitizer.NoAlternativeAtBracket | src/prepare_initial_analyses.py:71-73 | at `[(.)/]` no alternative matches, so the `[` stays |
| Sanitizer.BracketLedRulesMiss | src/prepare_initial_analyses.py:71-73 | none of the four `[`-led alternatives matches `[(.)/]` |
| Sanitizer.OpeningBracketKept | src/prepare_initial_analyses.py:70-101 | sanitising `[(.)/]` keeps its `[` and goes on with `(.)/]` |
| Sanitizer.PauseRemoved | src/prepare_initial_analyses.py:71 | `(`, one or more `.`, `)` is deleted, whatever follows it, and sanitising goes on after it |
| Sanitizer.RestKept | src/prepare_initial_analyses.py:71-73 | `/]` is left as it is |
| Sanitizer.PauseThenRestKept | src/prepare_initial_analyses.py:70-101 | `(.)/]` sanitises to `/]` |
| Sanitizer.RetraceRemoved | src/prepare_initial_analyses.py:71 | `[`, a run of the marks `/ " ! * -`, `]` (`[/]`, `[//]`, `[*]`) is deleted, whatever follows it |
| Sanitizer.RepeatCountRemoved | src/prepare_initial_analyses.py:71 | a repeat count `[x N]` is deleted, whatever follows it |
| Sanitizer.TimingRemoved | src/prepare_initial_analyses.py:71 | a timing code is deleted up to its longest match `\x15…\x15`, and sanitising goes on after it |
| Sanitizer.AngleGroupRemoved | src/prepare_initial_analyses.py:71 | an angle group `<…>` is deleted with the words inside it, up to its longest match |
| Sanitizer.AmpersandRemoved | src/prepare_initial_analyses.py:72 | `&` and everything up to the next space (`&=sigh`, `&da`) is deleted |
| Sanitizer.CodeSwitchRegionRemoved | src/prepare_initial_analyses.py:73 | `[- spa]` and `[- eng]` are deleted, whatever follows them |
| Sanitizer.QueryMarkRemoved | src/prepare_initial_analyses.py:73 | `[?]` is deleted, whatever follows it |
| Sanitizer.EarlierBracketRulesMiss | src/prepare_initial_analyses.py:71-73 | at `[=!`, `[= !` or `[* ` the earlier `[`-led alternatives (`[x N]`/retrace marks, `[- spa]`, `[?]`) do not match |
| Sanitizer.BracketLedBefore | src/prepare_initial_analyses.py:71-73 | at a `[`, an alternative before the `i`-th can match only if it is one of the four `[`-led ones (`[x N]`/retrace marks, `[- spa]`, `[?]`, the paralinguistic codes) |
| Sanitizer.ParalinguisticRemoved | src/prepare_initial_analyses.py:73 | a code `[=! …]`, `[= ! …]` or `[* …]` is deleted up to its last `]` before a newline |
| Sanitizer.NotIdempotent | src/prepare_initial_analyses.py:69-101 | `[(.)/]` sanitises to `[/]`, which sanitises to the empty text, so sanitising is not idempotent |
| Sanitizer.LeadingCoversRules | src/prepare_initial_analyses.py:71-73 | every one of the 24 alternatives starts with one of the characters `* \x15 < [ ( : @ . , ? ! + & ) _ >` |
| Sanitizer.LettersNotLeading | src/prepare_initial_analyses.py:71-73 | no alternative starts at a letter or a space |
| Sanitizer.PlainFirstKept | src/prepare_initial_analyses.py:70-101 | a leading letter or space is copied through |
| Sanitizer.CopiesPlainRun | src/prepare_initial_analyses.py:70-101 | a text function that copies one leading letter or space copies a whole leading run of them |
| Sanitizer.PlainKept | src/prepare_initial_analyses.py:70-101 | a run of letters and spaces is copied through, whatever follows it |
| Sanitizer.PlainAlone | src/prepare_initial_analyses.py:70-101 | a text of letters and spaces is its own spoken part |
| Sanitizer.DoubleRetraceDeleted | src/prepare_initial_analyses.py:71 | a retracing mark `[//]` is deleted and the rest is sanitised after it |
| Sanitizer.TaggedRetraceLine | src/prepare_initial_analyses.py:69-101 | `*XYZ:\t` + words + `[//]` + words sanitises to the two word runs joined, with their spaces |
| Exploratory.RemoveNonSpokenParts | src/exploratory_analyses.py:34-45 | the exploratory sanitiser only deletes: a subsequence, no longer than the line |
| Exploratory.TaggedLine | src/exploratory_analyses.py:36 | a tag `*XYZ:\t` is deleted as a whole, and `get_speaker` returns its code |
| Exploratory.UntaggedMarkerKept | src/exploratory_analyses.py:36 | a `*` that does not open a speaker tag is kept |
| Exploratory.RetraceRemoved | src/exploratory_analyses.py:36 | `[` followed by one or more `/` and `]` is deleted |
| Exploratory.OtherBracketKept | src/exploratory_analyses.py:36 | a `[` not followed by `/` is kept, since only `\[/+]` starts with `[` |
| Exploratory.PauseRemoved | src/exploratory_analyses.py:36 | `(` followed by one or more `.` and `)` is deleted |
| Exploratory.AngleGroupRemoved | src/exploratory_analyses.py:36 | an angle group `<…>` is deleted, up to its longest match |
| Exploratory.UnchangedWithoutMarkup | src/exploratory_analyses.py:34-45 | a line without `* < [ (` or U+0015 is returned unchanged |
| ChatLine.IsPartOfConversation | src/prepare_initial_analyses.py:63-66 | every line opened by a speaker tag `*XYZ:\t` is part of the conversation; an empty line is outside its domain, as `line[0]` raises on it |
| ChatLine.GetSpeaker | src/prepare_initial_analyses.py:104-107 | `line[1:4]`: up to three characters, those right after the first, fewer on a short line |
| Text.Lower | src/prepare_initial_analyses.py:126 | lower-casing keeps the length and maps each ASCII capital to its small letter, leaving everything else |
| Text.ParseDecOfDec | src/prepare_initial_analyses.py:192-199 | `str(n)` of a count reads back as `n` |
| WordCounts.WordCountSummary.constructor | src/prepare_initial_analyses.py:34-44 | the new summary holds exactly the eight given counts |
| WordCounts.Words | src/prepare_initial_analyses.py:124 | `split()` yields non-empty words without whitespace |
| WordCounts.WordsOfJoin | src/prepare_initial_analyses.py:124 | words joined by single spaces split back into the same words |
| WordCounts.WordsOfWord | src/prepare_initial_analyses.py:124 | a word followed by whitespace or the end is split off whole |
| WordCounts.CountForms | src/prepare_initial_analyses.py:125-136 | a filler count never exceeds the number of words |
| WordCounts.LineCounts | src/prepare_initial_analyses.py:121-148 | `word_count` is the number of words; each filler count is at most that; the English and Spanish counts are 0 |
| WordCounts.CountFormsDisjoint | src/prepare_initial_analyses.py:127-136 | counting against disjoint spellings adds up, so each word adds to at most one filler |
| WordCounts.FillersWithinWords | src/prepare_initial_analyses.py:122-148 | the five filler counts together are at most `word_count`; the English and Spanish counts stay 0 |
| WordCounts.GetAllLineCounts | src/prepare_initial_analyses.py:121-148 | the loop over the words builds a fresh summary equal to the line's counts |
| LineSummaries.UnknownTextParts | src/prepare_initial_analyses.py:113 | the set difference is empty exactly when every character of the spoken part is recognised, and holds only characters of it |
| LineSummaries.LineSummary | src/prepare_initial_analyses.py:110-118 | raises exactly when an unrecognised character survives sanitising; the error holds the raw line and exactly those characters; otherwise the counts of the spoken part |
| LineSummaries.GetLineSummary | src/prepare_initial_analyses.py:110-118 | the method raises exactly when the specification does, with the same error, and otherwise returns a fresh summary holding its counts |
| LineSummaries.UntaggedLineRejected | src/prepare_initial_analyses.py:111-116 | a spoken line not opened by a speaker tag raises, and `*` is among the unknown parts |
| LineSummaries.AcceptedSpeakerIsTag | src/prepare_initial_analyses.py:110-118 | a spoken line that does not raise has a speaker code of three capitals |
| RetraceLines.RetraceLineSummary | src/prepare_initial_analyses.py:110-118 | `*XYZ:\t` + words + `[//]` + words is accepted, with the counts of its words, all words counted |
| SummaryRows.SummaryFile.constructor | src/prepare_initial_analyses.py:208 | a newly opened output file holds nothing |
| SummaryRows.SummaryFile.Write | src/prepare_initial_analyses.py:189 | a write appends its text and keeps what was there |
| SummaryRows.Row | src/prepare_initial_analyses.py:189-200 | a row ends with a newline |
| SummaryRows.RowRoundTrip | src/prepare_initial_analyses.py:189-200 | a row parses back into the speaker, the file name and the eight counts, for tab-free names |
| SummaryRows.WriteSummaryFile | src/prepare_initial_analyses.py:187-200 | one row per speaker, each speaker once, in some order; each row is built from that speaker's summary; earlier rows are kept |
| Aggregation.Conversation | src/prepare_initial_analyses.py:156-157 | the lines the loop does not skip are exactly the empty and the spoken lines: each kept line is an input line that is empty or spoken, and every empty or spoken input line is kept |
| Aggregation.ConversationAppend | src/prepare_initial_analyses.py:154-157 | the filter keeps the lines in their order: the filtered concatenation of two parts is the two filtered parts one after the other, and one line is kept exactly when it is empty or spoken |
| Aggregation.Step | src/prepare_initial_analyses.py:156-181 | one iteration raises exactly when the line is not accepted, and then with that line's error |
| Aggregation.Aggregate | src/prepare_initial_analyses.py:154-181 | when the loop finishes, the dictionary has at most one key per line |
| Aggregation.PlusZero | src/prepare_initial_analyses.py:162-181 | adding a line with no counts changes nothing, so starting a new entry equals adding to zero |
| Aggregation.SucceedsIffAllAccepted | src/prepare_initial_analyses.py:154-181 | the loop finishes exactly when every line is non-empty and every spoken line is recognised |
| Aggregation.FailsAtFirstRejectedLine | src/prepare_initial_analyses.py:154-181 | when it stops, it is with the error of the first line that is not accepted |
| Aggregation.FailureIsFinal | src/prepare_initial_analyses.py:154-181 | once a line has raised, later lines change nothing |
| Aggregation.NextLine | src/prepare_initial_analyses.py:154-181 | one more line is one more step of the loop; a failing step ends the file |
| Aggregation.StepEffect | src/prepare_initial_analyses.py:156-181 | a step adds the line's counts to its own speaker only, and adds that speaker as a key when new |
| Aggregation.KeysAreSpeakers | src/prepare_initial_analyses.py:160-172 | the keys are exactly the speaker codes of the spoken lines |
| Aggregation.TotalsAreSums | src/prepare_initial_analyses.py:159-181 | each speaker's entry is the sum of the counts of that speaker's lines; first line sets, later lines add |
| Aggregation.OtherLinesIgnored | src/prepare_initial_analyses.py:156-157 | dropping the lines that neither start with `*` nor are empty leaves the outcome unchanged |
| Aggregation.AddCounts | src/prepare_initial_analyses.py:173-181 | the eight `+=` updates add the line's counts to the speaker's summary in place |
| Aggregation.Record | src/prepare_initial_analyses.py:162-181 | the objects then hold the old totals with the line's counts added to its speaker's; a new speaker gets a fresh object under a new key and nothing else in the dictionary changes; a known speaker's object is updated in place and the dictionary stays the same; other speakers' objects and the line summary are unchanged |
| Aggregation.CountPerSpeaker | src/prepare_initial_analyses.py:152-181 | the imperative loop raises exactly when the specification does, with the same error, and otherwise leaves one distinct summary per speaker holding the specified totals |
| Aggregation.ProcessFile | src/prepare_initial_analyses.py:151-184 | on an error nothing is written; otherwise one row per speaker, holding that speaker's totals, is appended |
| FileNames.FileName | src/prepare_initial_analyses.py:60 | the name starts with the corpus name and ends with `.cha`, with the numeral in between |
| FileNames.FileNameParts | src/prepare_initial_analyses.py:60 | `name + str(number) + '.cha'` gives back the name and the number when the name has no digits |
| FileNames.CorpusNames | src/prepare_initial_analyses.py:22-27 | the four corpus names have no digits and differ from one another |
| FileNames.HerringSize | src/prepare_initial_analyses.py:23 | herring has 16 conversations |
| FileNames.MariaSize | src/prepare_initial_analyses.py:24 | maria has 15 conversations |
| FileNames.SastreSize | src/prepare_initial_analyses.py:25 | sastre has 13 conversations |
| FileNames.ZeledonSize | src/prepare_initial_analyses.py:26 | zeledon has 12 conversations |
| FileNames.FiftySix | src/prepare_initial_analyses.py:22-27 | the table lists 56 conversations in all |
| FileNames.DistinctNames | src/prepare_initial_analyses.py:57-60 | different (corpus, number) pairs give different file names |
| FileNames.CorpusFiles | src/prepare_initial_analyses.py:59-60 | the inner loop yields one file per number of the corpus, each number once, and every number |
| FileNames.AddCorpus | src/prepare_initial_analyses.py:58-60 | one corpus's files are appended after the earlier ones, and progress moves to the next corpus |
| FileNames.FilenamesOf | src/prepare_initial_analyses.py:57-60 | the generator yields each table entry's files, corpus by corpus, all of them and no name twice |
| FileNames.GetFilenames | src/prepare_initial_analyses.py:57-60 | 56 distinct file names, one per conversation of the table, in corpus order |
| FileNames.NoHerring4 | src/prepare_initial_analyses.py:23 | `herring4.cha` is never produced |
| Listing.ListOf | src/prepare_initial_analyses.py:188 | a set is listed with each element exactly once |

## Left out

- The download (`urllib2.urlopen` of `http://siarad.org.uk/chats/miami/`), `decode('utf-8')` and `rstrip()`: the loop receives the decoded, stripped lines as a parameter.
- Opening the output file, its header row and the `__main__` driver: `print`, `exit` and the loop over all files. `ProcessFile` takes the file object.
- The main block of the exploratory script, which reads `herring1.cha` and never raises its own `UnknownTextPartError` (a bare class there). Its `is_part_of_conversation` and `get_speaker` are the same code as in the main script, so `ChatLine` models both.
- The English and Spanish word counts: the source never computes them (they stay 0), and `FillersWithinWords` states that.
- The discarded `spoken_line.split()` at line 114, which has no effect.
- Dictionary and set iteration order:
  - speakers are written in any order, each once;
  - each corpus's numbers are listed in any order, with the corpora in the dictionary's order.
- `sastre` is `range(1, 14)`, which the source iterates in ascending order; the model treats it as a set like the others.
- Integer width: counts are unbounded naturals, as Python's integers are.
- `str.lower()` and `str.split()` are modelled on ASCII: only `A`–`Z` are lower-cased, and only the six ASCII whitespace characters separate words. The recognised-character check lets through only ASCII letters, the listed accented letters, space, `'` and `-`. So no line that reaches the counts holds other whitespace. The capitals `Á É Í Ó Ú Ñ` do reach the counts, and Python would lower-case them where the model does not. This cannot change any count, because every filler spelling is plain ASCII.
- `Aggregation.Aggregate` and the lemmas about it take the line summariser as a parameter (`Summarizer`). `CountPerSpeaker` and `ProcessFile` use `LineSummary`, the model of `get_line_summary`.
- `CountPerSpeaker`, `Record` and `AddCounts` split the one loop body of `process_file` into three methods.
- Markup.MatchLength: its own contract states only that a match stays within the text and starts at one of the alternative's leading characters. The exact lengths are stated by the per-alternative functions (`AngleGroupLength`, `TimingLength`, `AmpersandLength`, `ParalinguisticLength`) and the lemmas about specific markup.
- Sanitizer.RemoveNonSpokenParts: its contract states deletion only and the eleven characters that never survive. There is no closed-form characterisation of the output. Lemmas state, for any following text, the deletion of the speaker tag, timing codes, `<…>`, `[x N]`, the retrace marks, `(.)` pauses, `&…`, `[- spa]`/`[- eng]`, `[?]` and the paralinguistic codes. The language tag `:?@s:…` is covered only for `@s:eng&spa`. The `+` markers (`+<`, `+...`, `+..?`, `+/…`, `+"/`, `+"`, `+,`, `++`, `+^`) are covered only through the single `+` that never survives.
