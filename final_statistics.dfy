/**
 * `analyze_cleaned_dataset` (training-data/scripts/final_statistics.py): one pass
 * over the train, validation and test files of the cleaned dataset, counting
 * documents, words and sources overall and per split, then the derived metrics.
 *
 * The files are given as a map from file name to its lines; a name that is not a
 * key is a file that does not exist.
 */
module FinalStatistics {
  import opened Records
  import opened Sorting
  import opened Tally

  /** A decoded line; either key may be missing. */
  datatype StatDoc = StatDoc(wordCount: Option<nat>, source: Option<string>)

  /** `doc.get('word_count', 0)`. */
  function WordsOf(d: StatDoc): nat {
    match d.wordCount
    case Some(n) => n
    case None => 0
  }

  /** `doc.get('source', 'unknown')`. */
  function SourceOf(d: StatDoc): string {
    match d.source
    case Some(s) => s
    case None => "unknown"
  }

  /** The split files in the order read, each with its key in `stats['splits']`. */
  const Splits: seq<(string, string)> := [("train.jsonl", "train"), ("validation.jsonl", "validation"), ("test.jsonl", "test")]

  // ---------------------------------------------------------------- the counting fold

  /** The counters of lines 49-56: documents, words, source counts and the word counts in order. */
  datatype Totals = Totals(documents: nat, words: nat, sources: Counter<string>, distribution: seq<nat>)

  const Empty := Totals(0, 0, [], [])

  /** Lines 46-56 for one decoded document. */
  function Step(t: Totals, d: StatDoc): Totals {
    Totals(t.documents + 1, t.words + WordsOf(d), Inc(t.sources, SourceOf(d)), t.distribution + [WordsOf(d)])
  }

  /** The counters after the documents `ds`, one after another. */
  function Add(t: Totals, ds: seq<StatDoc>): Totals {
    if ds == [] then t else Step(Add(t, ds[..|ds| - 1]), ds[|ds| - 1])
  }

  /** `sum` of a list of counts. */
  function Sum(ws: seq<nat>): nat {
    if ws == [] then 0 else Sum(ws[..|ws| - 1]) + ws[|ws| - 1]
  }

  /** The word counts of `ds`, in order. */
  function Distribution(ds: seq<StatDoc>): (ws: seq<nat>)
    ensures |ws| == |ds|
    ensures forall i :: 0 <= i < |ds| ==> ws[i] == WordsOf(ds[i])
  {
    seq(|ds|, i requires 0 <= i < |ds| => WordsOf(ds[i]))
  }

  /** Counting consistent totals: the documents are the source counts' total and the
      length of the distribution, and the words are its sum. */
  predicate Consistent(t: Totals) {
    && Distinct(t.sources)
    && Total(t.sources) == t.documents
    && |t.distribution| == t.documents
    && Sum(t.distribution) == t.words
  }

  /** Each document adds one document, its words, one to its source's count and its
      word count at the end of the distribution; the counters stay consistent. */
  lemma AddCounts(t: Totals, ds: seq<StatDoc>)
    ensures Add(t, ds).documents == t.documents + |ds|
    ensures Add(t, ds).distribution == t.distribution + Distribution(ds)
    ensures Total(Add(t, ds).sources) == Total(t.sources) + |ds|
    ensures Consistent(t) ==> Consistent(Add(t, ds))
  {
    AddShape(t, ds);
    if Consistent(t) {
      AddConsistent(t, ds);
    }
  }

  lemma {:induction false} AddShape(t: Totals, ds: seq<StatDoc>)
    ensures Add(t, ds).documents == t.documents + |ds|
    ensures Add(t, ds).distribution == t.distribution + Distribution(ds)
    ensures Total(Add(t, ds).sources) == Total(t.sources) + |ds|
    decreases |ds|
  {
    if ds != [] {
      var p := ds[..|ds| - 1];
      var d := ds[|ds| - 1];
      AddShape(t, p);
      assert Add(t, ds) == Step(Add(t, p), d);
      DistributionSnoc(ds);
    }
  }

  lemma DistributionSnoc(ds: seq<StatDoc>)
    requires ds != []
    ensures Distribution(ds) == Distribution(ds[..|ds| - 1]) + [WordsOf(ds[|ds| - 1])]
  {
    var p := ds[..|ds| - 1];
    forall i | 0 <= i < |ds| ensures Distribution(ds)[i] == (Distribution(p) + [WordsOf(ds[|ds| - 1])])[i] {
      if i < |p| {
        assert p[i] == ds[i];
      }
    }
  }

  lemma {:induction false} AddConsistent(t: Totals, ds: seq<StatDoc>)
    requires Consistent(t)
    ensures Consistent(Add(t, ds))
    decreases |ds|
  {
    if ds != [] {
      var p := ds[..|ds| - 1];
      AddConsistent(t, p);
      StepConsistent(Add(t, p), ds[|ds| - 1]);
    }
  }

  lemma StepConsistent(t: Totals, d: StatDoc)
    requires Consistent(t)
    ensures Consistent(Step(t, d))
  {
    var w := t.distribution + [WordsOf(d)];
    assert w[..|w| - 1] == t.distribution;
  }

  /** Reading a file after another is reading their documents one after another. */
  lemma {:induction false} AddAppend(t: Totals, a: seq<StatDoc>, b: seq<StatDoc>)
    ensures Add(t, a + b) == Add(Add(t, a), b)
    decreases |b|
  {
    if b == [] {
      assert a + b == a;
    } else {
      AddAppend(t, a, b[..|b| - 1]);
      assert (a + b)[..|a + b| - 1] == a + b[..|b| - 1];
    }
  }

  /** `split_stats` of one file. */
  datatype SplitStats = SplitStats(documents: nat, words: nat, sources: Counter<string>)

  function SplitOf(ds: seq<StatDoc>): SplitStats {
    var t := Add(Empty, ds);
    SplitStats(t.documents, t.words, t.sources)
  }

  // ---------------------------------------------------------------- the files

  /** Some line of `lines` is not JSON. */
  predicate HasMalformed(lines: seq<Line<StatDoc>>) {
    exists i :: 0 <= i < |lines| && lines[i].Malformed?
  }

  /** The existing files among `splits`, in order, with their split keys. */
  function Existing(files: map<string, seq<Line<StatDoc>>>, splits: seq<(string, string)>): (ex: seq<(string, seq<Line<StatDoc>>)>)
    ensures |ex| <= |splits|
  {
    if splits == [] then []
    else
      var s := splits[|splits| - 1];
      Existing(files, splits[..|splits| - 1]) + (if s.0 in files then [(s.1, files[s.0])] else [])
  }

  /** The documents of the existing files, file after file. */
  function AllDocs(ex: seq<(string, seq<Line<StatDoc>>)>): seq<StatDoc> {
    if ex == [] then [] else AllDocs(ex[..|ex| - 1]) + Docs(ex[|ex| - 1].1)
  }

  /** `stats['splits']`, in the order the files were read. */
  function SplitTable(ex: seq<(string, seq<Line<StatDoc>>)>): (table: seq<(string, SplitStats)>)
    ensures |table| == |ex|
    ensures forall k :: 0 <= k < |ex| ==> table[k] == (ex[k].0, SplitOf(Docs(ex[k].1)))
  {
    seq(|ex|, k requires 0 <= k < |ex| => (ex[k].0, SplitOf(Docs(ex[k].1))))
  }

  /** One more existing file adds its row at the end of the table. */
  lemma SplitTableSnoc(ex: seq<(string, seq<Line<StatDoc>>)>, f: (string, seq<Line<StatDoc>>))
    ensures SplitTable(ex + [f]) == SplitTable(ex) + [(f.0, SplitOf(Docs(f.1)))]
  {
    var a := SplitTable(ex + [f]);
    var b := SplitTable(ex) + [(f.0, SplitOf(Docs(f.1)))];
    forall k | 0 <= k < |a| ensures a[k] == b[k] {
      if k < |ex| {
        assert (ex + [f])[k] == ex[k];
      }
    }
  }

  /** Some existing file holds a line that is not JSON. */
  predicate AnyMalformed(ex: seq<(string, seq<Line<StatDoc>>)>) {
    exists k :: 0 <= k < |ex| && HasMalformed(ex[k].1)
  }

  /** One more file is malformed when it is or an earlier one was. */
  lemma AnyMalformedSnoc(ex: seq<(string, seq<Line<StatDoc>>)>, f: (string, seq<Line<StatDoc>>))
    ensures AnyMalformed(ex + [f]) <==> AnyMalformed(ex) || HasMalformed(f.1)
  {
    if AnyMalformed(ex) {
      var k :| 0 <= k < |ex| && HasMalformed(ex[k].1);
      assert (ex + [f])[k] == ex[k];
    }
    if AnyMalformed(ex + [f]) {
      var k :| 0 <= k < |ex + [f]| && HasMalformed((ex + [f])[k].1);
      if k < |ex| {
        assert (ex + [f])[k] == ex[k];
      }
    }
    assert (ex + [f])[|ex|] == f;
  }

  function SumDocuments(table: seq<(string, SplitStats)>): nat {
    if table == [] then 0 else SumDocuments(table[..|table| - 1]) + table[|table| - 1].1.documents
  }

  function SumWords(table: seq<(string, SplitStats)>): nat {
    if table == [] then 0 else SumWords(table[..|table| - 1]) + table[|table| - 1].1.words
  }

  /** The overall totals are the sums of the per-split ones, and every split's source
      counts add up to its documents. */
  lemma SplitsAddUp(ex: seq<(string, seq<Line<StatDoc>>)>)
    ensures SumDocuments(SplitTable(ex)) == Add(Empty, AllDocs(ex)).documents
    ensures SumWords(SplitTable(ex)) == Add(Empty, AllDocs(ex)).words
    ensures forall k :: 0 <= k < |ex| ==>
      Total(SplitTable(ex)[k].1.sources) == SplitTable(ex)[k].1.documents
  {
    SplitDocuments(ex);
    SplitWords(ex);
    forall k | 0 <= k < |ex| ensures Total(SplitTable(ex)[k].1.sources) == SplitTable(ex)[k].1.documents {
      AddShape(Empty, Docs(ex[k].1));
    }
  }

  lemma {:induction false} SplitDocuments(ex: seq<(string, seq<Line<StatDoc>>)>)
    ensures SumDocuments(SplitTable(ex)) == Add(Empty, AllDocs(ex)).documents
    decreases |ex|
  {
    if ex != [] {
      var p := ex[..|ex| - 1];
      var f := ex[|ex| - 1];
      assert ex == p + [f];
      SplitDocuments(p);
      SplitTableSnoc(p, f);
      AddShape(Empty, AllDocs(ex));
      AddShape(Empty, AllDocs(p));
      AddShape(Empty, Docs(f.1));
    }
  }

  lemma {:induction false} SplitWords(ex: seq<(string, seq<Line<StatDoc>>)>)
    ensures SumWords(SplitTable(ex)) == Add(Empty, AllDocs(ex)).words
    decreases |ex|
  {
    if ex != [] {
      var p := ex[..|ex| - 1];
      var f := ex[|ex| - 1];
      assert ex == p + [f];
      SplitWords(p);
      SplitTableSnoc(p, f);
      AddAppend(Empty, AllDocs(p), Docs(f.1));
      AddSplit(Empty, AllDocs(p), Docs(f.1));
    }
  }

  /** The words after `b` are the words before plus those of `b`. */
  lemma {:induction false} AddSplit(t: Totals, a: seq<StatDoc>, b: seq<StatDoc>)
    ensures Add(Add(t, a), b).words == Add(t, a).words + Add(Empty, b).words
    decreases |b|
  {
    if b != [] {
      AddSplit(t, a, b[..|b| - 1]);
    }
  }

  // ---------------------------------------------------------------- derived metrics

  /** `avg` times `n` is `total`: `avg` is the mean of `n` values adding up to `total`. */
  predicate IsAverage(avg: real, total: nat, n: nat) {
    avg * n as real == total as real
  }

  /** Line 64: words per document, 0 without documents. */
  function AvgWordsPerDoc(words: nat, documents: nat): (avg: real)
    ensures documents == 0 ==> avg == 0.0
    ensures documents > 0 ==> IsAverage(avg, words, documents) && avg >= 0.0
  {
    if documents > 0 then words as real / documents as real else 0.0
  }

  /** The count of a source entry. */
  function Count(e: (string, nat)): int {
    e.1
  }

  /** `Counter.most_common(10)`: the entries by descending count, ties in insertion
      order, at most ten of them. */
  function TopSources(c: Counter<string>): (top: Counter<string>)
    ensures |top| == if |c| < 10 then |c| else 10
    ensures multiset(top) <= multiset(c)
    ensures SortedDesc(top, Count)
    ensures Dominates(top, c, Count)
  {
    var sorted := SortDesc(c, Count);
    var n := if |sorted| < 10 then |sorted| else 10;
    TakeSorted(sorted, c, Count, n);
    sorted[..n]
  }

  /** The smallest element of a non-empty list. */
  function Min(ws: seq<nat>): (m: nat)
    requires ws != []
    ensures m in ws && forall i :: 0 <= i < |ws| ==> m <= ws[i]
  {
    if |ws| == 1 then ws[0]
    else
      var m := Min(ws[..|ws| - 1]);
      assert forall i :: 0 <= i < |ws| - 1 ==> ws[..|ws| - 1][i] == ws[i];
      if ws[|ws| - 1] < m then ws[|ws| - 1] else m
  }

  /** The largest element of a non-empty list. */
  function Max(ws: seq<nat>): (m: nat)
    requires ws != []
    ensures m in ws && forall i :: 0 <= i < |ws| ==> ws[i] <= m
  {
    if |ws| == 1 then ws[0]
    else
      var m := Max(ws[..|ws| - 1]);
      assert forall i :: 0 <= i < |ws| - 1 ==> ws[..|ws| - 1][i] == ws[i];
      if ws[|ws| - 1] > m then ws[|ws| - 1] else m
  }

  function Negated(w: nat): int {
    -(w as int)
  }

  /** `sorted(ws)`: ascending order is descending order of the negated value. */
  function SortAsc(ws: seq<nat>): (r: seq<nat>)
    ensures |r| == |ws| && multiset(r) == multiset(ws)
    ensures forall i, j :: 0 <= i < j < |r| ==> Negated(r[i]) >= Negated(r[j])
  {
    SortDesc(ws, Negated)
  }

  datatype WordStats = WordStats(min: nat, max: nat, avg: real, median: nat)

  /** Lines 70-76: `word_stats`, present only for a non-empty distribution. */
  function WordStatsOf(ws: seq<nat>): (r: Option<WordStats>)
    ensures r.Some? <==> ws != []
    ensures r.Some? ==> && r.value.min in ws && r.value.max in ws && r.value.median in ws
                        && r.value.min <= r.value.median <= r.value.max
                        && IsAverage(r.value.avg, Sum(ws), |ws|)
  {
    if ws == [] then None
    else
      Some(WordStats(Min(ws), Max(ws), AvgWordsPerDoc(Sum(ws), |ws|), Median(ws)))
  }

  /** `sorted(ws)[len(ws) // 2]`: an element of `ws`. */
  function Median(ws: seq<nat>): (m: nat)
    requires ws != []
    ensures m in ws
  {
    var sorted := SortAsc(ws);
    assert sorted[|ws| / 2] in multiset(ws);
    sorted[|ws| / 2]
  }

  /** The result of `analyze_cleaned_dataset`. */
  datatype Stats = Stats(
    totalDocuments: nat, totalWords: nat, sources: Counter<string>, wordDistribution: seq<nat>,
    splits: seq<(string, SplitStats)>, estimatedTokens: real, avgWordsPerDoc: real,
    topSources: Counter<string>, wordStats: Option<WordStats>)

  /** Lines 62-76: the derived metrics on top of the counters. On consistent counters
      the word stats exist exactly when there are documents, and their average is the
      average words per document; at most ten top sources are listed. */
  function Finish(t: Totals, splits: seq<(string, SplitStats)>): (st: Stats)
    ensures |st.topSources| <= 10 && multiset(st.topSources) <= multiset(st.sources)
    ensures Consistent(t) ==>
      && |st.wordDistribution| == st.totalDocuments
      && Total(st.sources) == st.totalDocuments
      && (st.wordStats.Some? <==> st.totalDocuments > 0)
      && (st.wordStats.Some? ==> st.wordStats.value.avg == st.avgWordsPerDoc)
  {
    Stats(t.documents, t.words, t.sources, t.distribution, splits,
          t.words as real * 1.25, AvgWordsPerDoc(t.words, t.documents),
          TopSources(t.sources), WordStatsOf(t.distribution))
  }

  /** The distribution's average is the average words per document. */
  lemma AveragesAgree(ds: seq<StatDoc>)
    ensures var st := Finish(Add(Empty, ds), []);
      && |st.wordDistribution| == st.totalDocuments == |ds|
      && Total(st.sources) == st.totalDocuments
      && (st.wordStats.Some? <==> st.totalDocuments > 0)
      && (st.wordStats.Some? ==> st.wordStats.value.avg == st.avgWordsPerDoc)
  {
    AddCounts(Empty, ds);
  }

  // ---------------------------------------------------------------- the loops

  /** Lines 41-56: one split file read line by line. A line that is not JSON raises
      out of the whole analysis. */
  method ScanSplit(lines: seq<Line<StatDoc>>, t: Totals) returns (r: Result<(SplitStats, Totals)>)
    ensures r.Fail? <==> HasMalformed(lines)
    ensures r.Fail? ==> r.error == DecodeError
    ensures r.Ok? ==> r.value == (SplitOf(Docs(lines)), Add(t, Docs(lines)))
  {
    var split := Empty;
    var all := t;
    ghost var ds: seq<StatDoc> := [];
    var i := 0;
    while i < |lines|
      invariant 0 <= i <= |lines|
      invariant ds == Docs(lines[..i])
      invariant split == Add(Empty, ds) && all == Add(t, ds)
      invariant forall j :: 0 <= j < i ==> !lines[j].Malformed?
    {
      if lines[i].Malformed? {
        return Fail(DecodeError);
      }
      split, all, ds := CountLine(lines, i, t, split, all, ds);
      assert forall j :: 0 <= j < i + 1 ==> !lines[j].Malformed? by {
        assert !lines[i].Malformed?;
      }
      i := i + 1;
    }
    assert lines[..i] == lines;
    r := Ok((SplitStats(split.documents, split.words, split.sources), all));
  }

  /** Lines 47-56 for a line that decoded: a record is counted, overall and in its
      split; a blank line is skipped. */
  method CountLine(lines: seq<Line<StatDoc>>, i: nat, t: Totals, split: Totals, all: Totals, ghost ds: seq<StatDoc>)
    returns (split': Totals, all': Totals, ghost ds': seq<StatDoc>)
    requires i < |lines| && !lines[i].Malformed?
    requires ds == Docs(lines[..i]) && split == Add(Empty, ds) && all == Add(t, ds)
    ensures ds' == Docs(lines[..i + 1]) && split' == Add(Empty, ds') && all' == Add(t, ds')
  {
    ScanStep(Empty, lines, i);
    ScanStep(t, lines, i);
    ds' := Docs(lines[..i + 1]);
    split', all' := split, all;
    if lines[i].Record? {
      split' := Step(split, lines[i].doc);
      all' := Step(all, lines[i].doc);
    }
  }

  /** The counters after one more line: a record is counted, a blank line is not. */
  lemma ScanStep(t: Totals, lines: seq<Line<StatDoc>>, i: nat)
    requires i < |lines| && !lines[i].Malformed?
    ensures Add(t, Docs(lines[..i + 1])) ==
      if lines[i].Record? then Step(Add(t, Docs(lines[..i])), lines[i].doc) else Add(t, Docs(lines[..i]))
  {
    DocsPrefix(lines, i);
    AddAppend(t, Docs(lines[..i]), Found(lines[i]));
    if lines[i].Blank? {
      assert Docs(lines[..i]) + Found(lines[i]) == Docs(lines[..i]);
    }
  }

  /** Lines 92-98: the summary prints each split's and each top source's share of the
      documents, dividing by their total; with no documents, any such row raises. */
  function Report(st: Stats): Result<Stats> {
    if st.totalDocuments == 0 && (st.splits != [] || st.topSources != []) then Fail(ZeroDivision) else Ok(st)
  }

  /** `analyze_cleaned_dataset` without its file output and printing. It raises on a
      line that is not JSON, and on the share computed at line 94 when split files
      exist but none holds a record. */
  method AnalyzeCleanedDataset(files: map<string, seq<Line<StatDoc>>>) returns (r: Result<Stats>)
    ensures var ex := Existing(files, Splits);
      r.Fail? <==> AnyMalformed(ex) || (ex != [] && AllDocs(ex) == [])
    ensures var ex := Existing(files, Splits);
      r.Fail? ==> r.error == if AnyMalformed(ex) then DecodeError else ZeroDivision
    ensures r.Ok? ==> r.value == Finish(Add(Empty, AllDocs(Existing(files, Splits))), SplitTable(Existing(files, Splits)))
  {
    var t := Empty;
    var table: seq<(string, SplitStats)> := [];
    var i := 0;
    while i < |Splits|
      invariant 0 <= i <= |Splits|
      invariant t == Add(Empty, AllDocs(Existing(files, Splits[..i])))
      invariant table == SplitTable(Existing(files, Splits[..i]))
      invariant !AnyMalformed(Existing(files, Splits[..i]))
    {
      var next := ReadSplit(files, i, t, table);
      if next.Fail? {
        MalformedStops(files, i);
        return Fail(DecodeError);
      }
      t, table := next.value.0, next.value.1;
      i := i + 1;
    }
    assert Splits[..i] == Splits;
    r := Summarise(Existing(files, Splits), t, table);
  }

  /** Lines 62-98 once every split file was read without a decode error. */
  method Summarise(ex: seq<(string, seq<Line<StatDoc>>)>, t: Totals, table: seq<(string, SplitStats)>)
    returns (r: Result<Stats>)
    requires t == Add(Empty, AllDocs(ex)) && table == SplitTable(ex)
    ensures r.Fail? <==> ex != [] && AllDocs(ex) == []
    ensures r.Fail? ==> r.error == ZeroDivision
    ensures r.Ok? ==> r.value == Finish(t, table)
  {
    ReportRaises(ex);
    r := Report(Finish(t, table));
  }

  /** The summary raises exactly when some split file exists and none holds a record. */
  lemma ReportRaises(ex: seq<(string, seq<Line<StatDoc>>)>)
    ensures var st := Finish(Add(Empty, AllDocs(ex)), SplitTable(ex));
      Report(st) == if ex != [] && AllDocs(ex) == [] then Fail(ZeroDivision) else Ok(st)
  {
    AddCounts(Empty, AllDocs(ex));
  }

  /** Lines 27-58 for the `i`-th split file: skipped when missing, else scanned. */
  method ReadSplit(files: map<string, seq<Line<StatDoc>>>, i: nat, t: Totals, table: seq<(string, SplitStats)>)
    returns (r: Result<(Totals, seq<(string, SplitStats)>)>)
    requires i < |Splits|
    requires t == Add(Empty, AllDocs(Existing(files, Splits[..i])))
    requires table == SplitTable(Existing(files, Splits[..i]))
    requires !AnyMalformed(Existing(files, Splits[..i]))
    ensures r.Fail? ==> Splits[i].0 in files && HasMalformed(files[Splits[i].0])
    ensures r.Ok? ==> && r.value.0 == Add(Empty, AllDocs(Existing(files, Splits[..i + 1])))
                      && r.value.1 == SplitTable(Existing(files, Splits[..i + 1]))
                      && !AnyMalformed(Existing(files, Splits[..i + 1]))
  {
    ExistingStep(files, Splits, i);
    var (file, key) := Splits[i];
    if file !in files {
      return Ok((t, table));
    }
    r := CountFile(Existing(files, Splits[..i]), key, files[file], t, table);
  }

  /** The existing files among the first `i + 1` splits. */
  lemma ExistingStep(files: map<string, seq<Line<StatDoc>>>, splits: seq<(string, string)>, i: nat)
    requires i < |splits|
    ensures Existing(files, splits[..i + 1]) ==
      if splits[i].0 in files then Existing(files, splits[..i]) + [(splits[i].1, files[splits[i].0])]
      else Existing(files, splits[..i])
  {
    assert splits[..i + 1][..i] == splits[..i];
  }

  /** Lines 39-58 for an existing split file: its lines are scanned, and its row is
      added to the table. */
  method CountFile(ex: seq<(string, seq<Line<StatDoc>>)>, key: string, lines: seq<Line<StatDoc>>,
                   t: Totals, table: seq<(string, SplitStats)>)
    returns (r: Result<(Totals, seq<(string, SplitStats)>)>)
    requires t == Add(Empty, AllDocs(ex)) && table == SplitTable(ex) && !AnyMalformed(ex)
    ensures r.Fail? <==> HasMalformed(lines)
    ensures r.Ok? ==> && r.value.0 == Add(Empty, AllDocs(ex + [(key, lines)]))
                      && r.value.1 == SplitTable(ex + [(key, lines)])
                      && !AnyMalformed(ex + [(key, lines)])
  {
    var scanned := ScanSplit(lines, t);
    if scanned.Fail? {
      return Fail(DecodeError);
    }
    var ex' := ex + [(key, lines)];
    assert ex'[..|ex|] == ex;
    AddAppend(Empty, AllDocs(ex), Docs(lines));
    SplitTableSnoc(ex, (key, lines));
    AnyMalformedSnoc(ex, (key, lines));
    r := Ok((scanned.value.1, table + [(key, scanned.value.0)]));
  }

  /** A file that is not JSON at some line makes the whole analysis raise. */
  lemma MalformedStops(files: map<string, seq<Line<StatDoc>>>, i: nat)
    requires i < |Splits| && Splits[i].0 in files && HasMalformed(files[Splits[i].0])
    ensures AnyMalformed(Existing(files, Splits))
  {
    ExistingHas(files, Splits, i);
  }

  /** An existing file is among the existing files. */
  lemma {:induction false} ExistingHas(files: map<string, seq<Line<StatDoc>>>, splits: seq<(string, string)>, i: nat)
    requires i < |splits| && splits[i].0 in files
    ensures (splits[i].1, files[splits[i].0]) in Existing(files, splits)
    decreases |splits|
  {
    var p := splits[..|splits| - 1];
    if i < |p| {
      assert p[i] == splits[i];
      ExistingHas(files, p, i);
    }
  }
}
