/** Per-line word and filler counts: `WordCountSummary` and
    `get_all_line_counts`. */
module WordCounts {
  import opened Text

  /** The eight counts a `WordCountSummary` holds, as a value. */
  datatype Tally = Tally(
    wordCount: nat, wordCountEnglish: nat, wordCountSpanish: nat, umCount: nat,
    yeahCount: nat, likeCount: nat, puesCount: nat, esoCount: nat)

  const Zero: Tally := Tally(0, 0, 0, 0, 0, 0, 0, 0)

  /** Field-wise sum, the update `process_file` applies to a speaker's summary. */
  function Plus(a: Tally, b: Tally): Tally
  {
    Tally(a.wordCount + b.wordCount, a.wordCountEnglish + b.wordCountEnglish,
          a.wordCountSpanish + b.wordCountSpanish, a.umCount + b.umCount,
          a.yeahCount + b.yeahCount, a.likeCount + b.likeCount,
          a.puesCount + b.puesCount, a.esoCount + b.esoCount)
  }

  /** The mutable record the source keeps per line and per speaker. */
  class WordCountSummary {
    var wordCount: nat
    var wordCountEnglish: nat
    var wordCountSpanish: nat
    var umCount: nat
    var yeahCount: nat
    var likeCount: nat
    var puesCount: nat
    var esoCount: nat

    function Value(): Tally
      reads this
    {
      Tally(wordCount, wordCountEnglish, wordCountSpanish, umCount, yeahCount, likeCount, puesCount, esoCount)
    }

    constructor (wordCount: nat, wordCountEnglish: nat, wordCountSpanish: nat, umCount: nat,
                 yeahCount: nat, likeCount: nat, puesCount: nat, esoCount: nat)
      ensures Value() == Tally(wordCount, wordCountEnglish, wordCountSpanish, umCount,
                               yeahCount, likeCount, puesCount, esoCount)
    {
      this.wordCount := wordCount;
      this.wordCountEnglish := wordCountEnglish;
      this.wordCountSpanish := wordCountSpanish;
      this.umCount := umCount;
      this.yeahCount := yeahCount;
      this.likeCount := likeCount;
      this.puesCount := puesCount;
      this.esoCount := esoCount;
    }
  }

  /** The number of non-whitespace characters at the start of `s`. */
  function WordLength(s: string): (n: nat)
    ensures n <= |s|
    ensures forall i :: 0 <= i < n ==> !IsSpace(s[i])
    ensures n == |s| || IsSpace(s[n])
  {
    if s == [] || IsSpace(s[0]) then 0 else 1 + WordLength(s[1..])
  }

  /** `s.split()`: the maximal runs of non-whitespace characters, in order. */
  function Words(s: string): (words: seq<string>)
    ensures forall i :: 0 <= i < |words| ==> IsWord(words[i])
    decreases |s|
  {
    if s == [] then []
    else if IsSpace(s[0]) then Words(s[1..])
    else
      var n := WordLength(s);
      [s[..n]] + Words(s[n..])
  }

  predicate IsWord(w: string)
  {
    |w| > 0 && forall j :: 0 <= j < |w| ==> !IsSpace(w[j])
  }

  /** Words written out with single spaces between them split back into
      the same words. */
  lemma {:induction false} WordsOfJoin(words: seq<string>)
    requires forall i :: 0 <= i < |words| ==> IsWord(words[i])
    ensures Words(Join(words, ' ')) == words
  {
    if |words| == 1 {
      WordsOfWord(words[0], []);
      assert words[0] + [] == words[0];
    } else if |words| > 1 {
      var w := words[0];
      var rest := Join(words[1..], ' ');
      WordsOfJoin(words[1..]);
      WordsOfWord(w, [' '] + rest);
      assert w + [' '] + rest == w + ([' '] + rest);
      assert ([' '] + rest)[1..] == rest;
    }
  }

  lemma WordsOfWord(w: string, tail: string)
    requires IsWord(w)
    requires tail == [] || IsSpace(tail[0])
    ensures Words(w + tail) == [w] + Words(tail)
  {
    var s := w + tail;
    WordLengthOf(w, tail);
    assert s[..|w|] == w;
    assert s[|w|..] == tail;
  }

  lemma {:induction false} WordLengthOf(w: string, tail: string)
    requires forall j :: 0 <= j < |w| ==> !IsSpace(w[j])
    requires tail == [] || IsSpace(tail[0])
    ensures WordLength(w + tail) == |w|
    decreases |w|
  {
    if w == [] {
      assert w + tail == tail;
    } else {
      assert (w + tail)[1..] == w[1..] + tail;
      WordLengthOf(w[1..], tail);
    }
  }

  /** The spellings that count towards `um_count`. */
  const UmForms: set<string> := {"um", "uh", "er"}

  /** How many of `words` are, once lower-cased, one of `forms`. */
  function CountForms(words: seq<string>, forms: set<string>): (n: nat)
    ensures n <= |words|
  {
    if words == [] then 0
    else CountForms(words[..|words| - 1], forms) + (if Lower(words[|words| - 1]) in forms then 1 else 0)
  }

  /** The summary `get_all_line_counts` builds for a line. */
  function LineCounts(line: string): (t: Tally)
    ensures t.wordCount == |Words(line)|
    ensures t.wordCountEnglish == 0 && t.wordCountSpanish == 0
    ensures t.umCount <= t.wordCount && t.yeahCount <= t.wordCount && t.likeCount <= t.wordCount
    ensures t.puesCount <= t.wordCount && t.esoCount <= t.wordCount
  {
    var words := Words(line);
    Tally(|words|, 0, 0, CountForms(words, UmForms), CountForms(words, {"yeah"}),
          CountForms(words, {"like"}), CountForms(words, {"pues"}), CountForms(words, {"eso"}))
  }

  /** Counting against two disjoint lists of spellings adds up to counting
      against both together. */
  lemma {:induction false} CountFormsDisjoint(words: seq<string>, a: set<string>, b: set<string>)
    requires a !! b
    ensures CountForms(words, a) + CountForms(words, b) == CountForms(words, a + b)
  {
    if words != [] {
      CountFormsDisjoint(words[..|words| - 1], a, b);
    }
  }

  /** Each word is at most one filler, so the five filler counts together
      never exceed the word count; the language counts stay 0. */
  lemma FillersWithinWords(line: string)
    ensures var t := LineCounts(line);
      t.umCount + t.yeahCount + t.likeCount + t.puesCount + t.esoCount <= t.wordCount
    ensures LineCounts(line).wordCountEnglish == 0 && LineCounts(line).wordCountSpanish == 0
  {
    var words := Words(line);
    var withYeah := UmForms + {"yeah"};
    var withLike := withYeah + {"like"};
    var withPues := withLike + {"pues"};
    CountFormsDisjoint(words, UmForms, {"yeah"});
    CountFormsDisjoint(words, withYeah, {"like"});
    CountFormsDisjoint(words, withLike, {"pues"});
    CountFormsDisjoint(words, withPues, {"eso"});
    assert CountForms(words, withPues + {"eso"}) <= |words|;
  }

  /** `get_all_line_counts`: split the line, then one pass over the words
      with a counter per filler. */
  method GetAllLineCounts(line: string) returns (summary: WordCountSummary)
    ensures fresh(summary)
    ensures summary.Value() == LineCounts(line)
  {
    var umCount, spanishWordCount, englishWordCount := 0, 0, 0;
    var yeahCount, likeCount, puesCount, esoCount := 0, 0, 0, 0;
    var words := Words(line);
    var i := 0;
    while i < |words|
      invariant 0 <= i <= |words|
      invariant umCount == CountForms(words[..i], UmForms)
      invariant yeahCount == CountForms(words[..i], {"yeah"})
      invariant likeCount == CountForms(words[..i], {"like"})
      invariant puesCount == CountForms(words[..i], {"pues"})
      invariant esoCount == CountForms(words[..i], {"eso"})
      invariant spanishWordCount == 0 && englishWordCount == 0
    {
      var word := Lower(words[i]);
      assert words[..i + 1][..i] == words[..i];
      if word == "um" || word == "uh" || word == "er" {
        umCount := umCount + 1;
      }
      if word == "yeah" {
        yeahCount := yeahCount + 1;
      }
      if word == "like" {
        likeCount := likeCount + 1;
      }
      if word == "pues" {
        puesCount := puesCount + 1;
      }
      if word == "eso" {
        esoCount := esoCount + 1;
      }
      i := i + 1;
    }
    assert words[..|words|] == words;
    summary := new WordCountSummary(|words|, englishWordCount, spanishWordCount, umCount,
                                    yeahCount, likeCount, puesCount, esoCount);
  }
}
