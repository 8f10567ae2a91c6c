/** `CONVERSATIONS` and `get_filenames`: the transcript files of the corpus. */
module FileNames {
  import opened Text
  import opened Listing

  /** One entry of `CONVERSATIONS`: a corpus name and its conversation
      numbers. */
  datatype Corpus = Corpus(name: string, numbers: set<nat>)

  /** The table, in the dictionary's insertion order. */
  const Conversations: seq<Corpus> := [
    Corpus("herring", set i: nat | 1 <= i < 18 && i != 4),
    Corpus("maria", {1, 2, 4, 7, 10, 16, 18, 19, 20, 21, 24, 27, 30, 31, 40}),
    Corpus("sastre", set i: nat | 1 <= i < 14),
    Corpus("zeledon", {1, 2, 3, 4, 5, 6, 7, 8, 9, 11, 13, 14})
  ]

  /** `name + str(number) + '.cha'`. */
  function FileName(name: string, number: nat): (file: string)
    ensures |file| == |name| + |Dec(number)| + 4
    ensures file[..|name|] == name && file[|file| - 4..] == ".cha"
  {
    name + Dec(number) + ".cha"
  }

  predicate NoDigits(s: string)
  {
    forall i :: 0 <= i < |s| ==> !IsDigit(s[i])
  }

  /** The corpus name a file name starts with: what is left once the
      extension and the trailing digits are taken off. */
  function CorpusOf(file: string): string
  {
    if |file| < 4 then file
    else
      var stem := file[..|file| - 4];
      stem[..|stem| - TrailingDigits(stem)]
  }

  /** The conversation number a file name carries. */
  function NumberOf(file: string): nat
  {
    if |file| < 4 then 0
    else
      var stem := file[..|file| - 4];
      ParseDec(stem[|stem| - TrailingDigits(stem)..])
  }

  /** A file name gives back the corpus name and the number it was built
      from, as long as the corpus name holds no digits. */
  lemma FileNameParts(name: string, number: nat)
    requires NoDigits(name)
    ensures CorpusOf(FileName(name, number)) == name
    ensures NumberOf(FileName(name, number)) == number
  {
    var file := FileName(name, number);
    var stem := file[..|file| - 4];
    assert stem == name + Dec(number);
    TrailingDigitsAfter(name, Dec(number));
    assert stem[..|stem| - TrailingDigits(stem)] == name;
    assert stem[|stem| - TrailingDigits(stem)..] == Dec(number);
    ParseDecOfDec(number);
  }

  /** Every corpus name is free of digits and no two are the same, so file
      names can be told apart. */
  ghost predicate WellNamed(table: seq<Corpus>)
  {
    && (forall c :: 0 <= c < |table| ==> NoDigits(table[c].name))
    && (forall c, d :: 0 <= c < d < |table| ==> table[c].name != table[d].name)
  }

  lemma CorpusNames()
    ensures WellNamed(Conversations)
  {
    assert Conversations[0].name == "herring";
    assert Conversations[1].name == "maria";
    assert Conversations[2].name == "sastre";
    assert Conversations[3].name == "zeledon";
    assert "herring"[0] != "maria"[0] && "herring"[0] != "sastre"[0] && "herring"[0] != "zeledon"[0];
    assert "maria"[0] != "sastre"[0] && "maria"[0] != "zeledon"[0] && "sastre"[0] != "zeledon"[0];
  }

  /** `range(lo, hi)` as a set. */
  function Range(lo: nat, hi: nat): (r: set<nat>)
    ensures forall i :: i in r <==> lo <= i < hi
    ensures lo <= hi ==> |r| == hi - lo
    decreases hi
  {
    if hi <= lo then {} else Range(lo, hi - 1) + {hi - 1}
  }

  predicate Increasing(s: seq<nat>)
  {
    forall k :: 0 < k < |s| ==> s[k - 1] < s[k]
  }

  lemma {:induction false} IncreasingDistinct(s: seq<nat>)
    requires Increasing(s)
    ensures Distinct(s)
    ensures forall k :: 0 <= k < |s| - 1 ==> s[k] < s[|s| - 1]
  {
    if |s| > 1 {
      var prefix := s[..|s| - 1];
      IncreasingDistinct(prefix);
    }
  }

  /** A set written out in increasing order has as many elements as it lists. */
  lemma DisplaySize(s: seq<nat>, numbers: set<nat>)
    requires Increasing(s)
    requires forall n :: n in numbers <==> n in s
    ensures |numbers| == |s|
  {
    assert Elements(s) == numbers by {
      forall n | n in numbers
        ensures n in Elements(s)
      {
        var k :| 0 <= k < |s| && s[k] == n;
      }
    }
    IncreasingDistinct(s);
    ElementsOfDistinct(s);
  }

  lemma HerringSize()
    ensures |Conversations[0].numbers| == 16
  {
    assert Conversations[0].numbers == Range(1, 18) - {4};
  }

  lemma MariaSize()
    ensures |Conversations[1].numbers| == 15
  {
    var s: seq<nat> := [1, 2, 4, 7, 10, 16, 18, 19, 20, 21, 24, 27, 30, 31, 40];
    DisplaySize(s, Conversations[1].numbers);
  }

  lemma SastreSize()
    ensures |Conversations[2].numbers| == 13
  {
    assert Conversations[2].numbers == Range(1, 14);
  }

  lemma ZeledonSize()
    ensures |Conversations[3].numbers| == 12
  {
    var s: seq<nat> := [1, 2, 3, 4, 5, 6, 7, 8, 9, 11, 13, 14];
    DisplaySize(s, Conversations[3].numbers);
  }

  /** How many names the corpora before `c` contribute. */
  function CountBefore(table: seq<Corpus>, c: nat): nat
    requires c <= |table|
  {
    if c == 0 then 0 else CountBefore(table, c - 1) + |table[c - 1].numbers|
  }

  /** The table lists 16 + 15 + 13 + 12 = 56 conversations. */
  lemma FiftySix()
    ensures CountBefore(Conversations, |Conversations|) == 56
  {
    HerringSize();
    assert CountBefore(Conversations, 1) == 16;
    MariaSize();
    assert CountBefore(Conversations, 2) == 31;
    SastreSize();
    assert CountBefore(Conversations, 3) == 44;
    ZeledonSize();
  }

  /** `names[k]` is the file of conversation `origins[k].1` of corpus
      `origins[k].0`, a corpus before `c`. */
  ghost predicate Produced(table: seq<Corpus>, names: seq<string>, origins: seq<(nat, nat)>, c: nat)
  {
    && |names| == |origins|
    && forall k :: 0 <= k < |names| ==>
      && origins[k].0 < c && origins[k].0 < |table|
      && origins[k].1 in table[origins[k].0].numbers
      && names[k] == FileName(table[origins[k].0].name, origins[k].1)
  }

  /** Different (corpus, number) pairs give different file names. */
  lemma DistinctNames(table: seq<Corpus>, names: seq<string>, origins: seq<(nat, nat)>, c: nat)
    requires WellNamed(table)
    requires Produced(table, names, origins, c) && Distinct(origins)
    ensures Distinct(names)
  {
    forall j, k | 0 <= j < k < |names|
      ensures names[j] != names[k]
    {
      var (a, m) := origins[j];
      var (b, n) := origins[k];
      FileNameParts(table[a].name, m);
      FileNameParts(table[b].name, n);
    }
  }

  /** The inner loop of `get_filenames` for one corpus: a file name per
      number, in the set's iteration order (here any order). */
  method CorpusFiles(corpus: Corpus) returns (files: seq<string>, numbers: seq<nat>)
    ensures |files| == |numbers| == |corpus.numbers|
    ensures Distinct(numbers)
    ensures forall k :: 0 <= k < |numbers| ==> numbers[k] in corpus.numbers
    ensures forall k :: 0 <= k < |files| ==> files[k] == FileName(corpus.name, numbers[k])
    ensures forall n :: n in corpus.numbers ==> FileName(corpus.name, n) in files
  {
    var order := ListOf(corpus.numbers);
    files := [];
    for k := 0 to |order|
      invariant |files| == k
      invariant forall j :: 0 <= j < k ==> files[j] == FileName(corpus.name, order[j])
    {
      files := files + [FileName(corpus.name, order[k])];
    }
    numbers := order;
    EveryElementListed(order, corpus.numbers);
    forall n | n in corpus.numbers
      ensures FileName(corpus.name, n) in files
    {
      var k :| 0 <= k < |order| && order[k] == n;
      assert files[k] == FileName(corpus.name, n);
    }
  }

  /** The (corpus, number) pairs behind one corpus's files. */
  function Tagged(c: nat, numbers: seq<nat>): (pairs: seq<(nat, nat)>)
    ensures |pairs| == |numbers|
    ensures forall k :: 0 <= k < |numbers| ==> pairs[k] == (c, numbers[k])
  {
    seq(|numbers|, k requires 0 <= k < |numbers| => (c, numbers[k]))
  }

  /** What `get_filenames` has produced once the corpora before `c` are
      done: their files, corpus by corpus, no (corpus, number) twice, and
      every number of theirs. */
  ghost predicate Progress(table: seq<Corpus>, names: seq<string>, origins: seq<(nat, nat)>, c: nat)
    requires c <= |table|
  {
    && Produced(table, names, origins, c)
    && (forall j, k :: 0 <= j < k < |names| ==> origins[j].0 <= origins[k].0)
    && Distinct(origins)
    && (forall d, n :: 0 <= d < c && n in table[d].numbers ==> FileName(table[d].name, n) in names)
  }

  /** Appending the files of corpus `c` carries the progress over to `c + 1`. */
  lemma AppendCorpus(table: seq<Corpus>, names: seq<string>, origins: seq<(nat, nat)>, c: nat,
                     files: seq<string>, numbers: seq<nat>)
    requires c < |table|
    requires Progress(table, names, origins, c)
    requires |files| == |numbers| && Distinct(numbers)
    requires forall k :: 0 <= k < |numbers| ==> numbers[k] in table[c].numbers
    requires forall k :: 0 <= k < |files| ==> files[k] == FileName(table[c].name, numbers[k])
    requires forall n :: n in table[c].numbers ==> FileName(table[c].name, n) in files
    ensures Progress(table, names + files, origins + Tagged(c, numbers), c + 1)
  {
    var names', origins' := names + files, origins + Tagged(c, numbers);
    AppendProduced(table, names, origins, c, files, numbers);
    forall d, n | 0 <= d < c + 1 && n in table[d].numbers
      ensures FileName(table[d].name, n) in names'
    {
      if d < c {
        var k :| 0 <= k < |names| && names[k] == FileName(table[d].name, n);
        assert names'[k] == names[k];
      } else {
        var k :| 0 <= k < |files| && files[k] == FileName(table[d].name, n);
        assert names'[|names| + k] == files[k];
      }
    }
  }

  lemma AppendProduced(table: seq<Corpus>, names: seq<string>, origins: seq<(nat, nat)>, c: nat,
                       files: seq<string>, numbers: seq<nat>)
    requires c < |table|
    requires Progress(table, names, origins, c)
    requires |files| == |numbers| && Distinct(numbers)
    requires forall k :: 0 <= k < |numbers| ==> numbers[k] in table[c].numbers
    requires forall k :: 0 <= k < |files| ==> files[k] == FileName(table[c].name, numbers[k])
    ensures var origins' := origins + Tagged(c, numbers);
      && Produced(table, names + files, origins', c + 1)
      && (forall j, k :: 0 <= j < k < |origins'| ==> origins'[j].0 <= origins'[k].0)
      && Distinct(origins')
  {
    var names', origins' := names + files, origins + Tagged(c, numbers);
    assert forall k :: 0 <= k < |names| ==> names'[k] == names[k] && origins'[k] == origins[k];
    assert forall k :: |names| <= k < |names'| ==>
      names'[k] == files[k - |names|] && origins'[k] == (c, numbers[k - |names|]);
  }

  /** One round of the outer loop of `get_filenames`: the files of corpus
      `c` go after those of the corpora before it. */
  method AddCorpus(table: seq<Corpus>, names: seq<string>, ghost origins: seq<(nat, nat)>, c: nat)
    returns (names': seq<string>, ghost origins': seq<(nat, nat)>)
    requires c < |table|
    requires Progress(table, names, origins, c)
    ensures |names'| == |names| + |table[c].numbers|
    ensures names'[..|names|] == names
    ensures Progress(table, names', origins', c + 1)
  {
    var files, numbers := CorpusFiles(table[c]);
    AppendCorpus(table, names, origins, c, files, numbers);
    names' := names + files;
    origins' := origins + Tagged(c, numbers);
    assert names'[..|names|] == names;
  }

  /** `get_filenames` over any table: every corpus in table order, and
      within it every number once. The ghost `origins` records the corpus
      index and number behind each name. */
  method FilenamesOf(table: seq<Corpus>) returns (names: seq<string>, ghost origins: seq<(nat, nat)>)
    requires WellNamed(table)
    ensures |names| == CountBefore(table, |table|)
    ensures Progress(table, names, origins, |table|)
    ensures Distinct(names)
  {
    names, origins := [], [];
    for c := 0 to |table|
      invariant |names| == CountBefore(table, c)
      invariant Progress(table, names, origins, c)
    {
      names, origins := AddCorpus(table, names, origins, c);
    }
    DistinctNames(table, names, origins, |table|);
  }

  /** `get_filenames`: the 56 transcript files of `CONVERSATIONS`, each
      named once, corpus by corpus. */
  method GetFilenames() returns (names: seq<string>, ghost origins: seq<(nat, nat)>)
    ensures |names| == 56
    ensures Progress(Conversations, names, origins, |Conversations|)
    ensures Distinct(names)
  {
    CorpusNames();
    FiftySix();
    names, origins := FilenamesOf(Conversations);
  }

  /** `herring` skips conversation 4, so `herring4.cha` is never produced. */
  lemma NoHerring4(c: nat, n: nat)
    requires c < |Conversations| && n in Conversations[c].numbers
    ensures FileName(Conversations[c].name, n) != "herring4.cha"
  {
    CorpusNames();
    FileNameParts(Conversations[c].name, n);
    FileNameParts("herring", 4);
    assert FileName("herring", 4) == "herring4.cha";
  }
}
