/**
 * Corpus assembly in `ExpandedDataCollector` (training-data/scripts/expand_collection.py):
 * flattening the per-source groups, the greedy byte-budget packing of
 * `create_corpus_chunks`, the three slices of `create_training_splits`, and the
 * counters of `generate_enhanced_statistics`.
 *
 * The serialised size of a document (`len(json.dumps(doc).encode('utf-8'))`) is a
 * parameter, and so is the shuffled order that `random.shuffle` produces.
 */
module Corpus {
  import opened Records
  import opened Sorting
  import Tally

  /** A collected document; `category` is its `source_category`, set while chunking. */
  datatype Doc = Doc(
    source: string, filePath: string, content: string, wordCount: nat, category: Option<string>)

  /** `all_content`: a dict from source name to its documents, in insertion order. */
  type Groups = seq<(string, seq<Doc>)>

  // ---------------------------------------------------------------- flattening

  /** The documents of all groups, in dict order. */
  function Flat(groups: Groups): (ds: seq<Doc>) {
    if groups == [] then [] else Flat(groups[..|groups| - 1]) + groups[|groups| - 1].1
  }

  /** The group key of each document of `Flat(groups)`. */
  function Labels(groups: Groups): (ls: seq<string>)
    ensures |ls| == |Flat(groups)|
  {
    if groups == [] then []
    else
      var g := groups[|groups| - 1];
      Labels(groups[..|groups| - 1]) + seq(|g.1|, _ => g.0)
  }

  /** The documents with `source_category` set to their group key. */
  function Tagged(groups: Groups): (ds: seq<Doc>)
    ensures |ds| == |Flat(groups)|
    ensures forall i :: 0 <= i < |ds| ==> ds[i] == Flat(groups)[i].(category := Some(Labels(groups)[i]))
  {
    if groups == [] then []
    else
      var front := groups[..|groups| - 1];
      var g := groups[|groups| - 1];
      var tagged := seq(|g.1|, i requires 0 <= i < |g.1| => g.1[i].(category := Some(g.0)));
      var ds := Tagged(front) + tagged;
      var flat, labels := Flat(groups), Labels(groups);
      assert flat == Flat(front) + g.1;
      assert labels == Labels(front) + seq(|g.1|, _ => g.0);
      assert forall i :: 0 <= i < |ds| ==> ds[i] == flat[i].(category := Some(labels[i])) by {
        forall i | 0 <= i < |ds|
          ensures ds[i] == flat[i].(category := Some(labels[i]))
        {
          if i < |Flat(front)| {
            assert ds[i] == Tagged(front)[i];
            assert flat[i] == Flat(front)[i] && labels[i] == Labels(front)[i];
          } else {
            var j := i - |Flat(front)|;
            assert ds[i] == tagged[j];
            assert flat[i] == g.1[j] && labels[i] == g.0;
          }
        }
      }
      ds
  }

  /** Lines 404-408: flatten the groups, setting each document's `source_category`. */
  method FlattenTagged(groups: Groups) returns (all: seq<Doc>)
    ensures all == Tagged(groups)
  {
    all := [];
    var g := 0;
    while g < |groups|
      invariant 0 <= g <= |groups|
      invariant all == Tagged(groups[..g])
    {
      var (key, docs) := groups[g];
      var j := 0;
      while j < |docs|
        invariant 0 <= j <= |docs|
        invariant all == Tagged(groups[..g]) + seq(j, i requires 0 <= i < j => docs[i].(category := Some(key)))
      {
        all := all + [docs[j].(category := Some(key))];
        j := j + 1;
      }
      assert groups[..g + 1][..g] == groups[..g];
      g := g + 1;
    }
    assert groups[..g] == groups;
  }

  /** Line 411: the sort key. */
  function WordCountKey(d: Doc): int {
    d.wordCount
  }

  // ---------------------------------------------------------------- packing

  /** The serialised size of the documents of a chunk. */
  function Bytes(chunk: seq<Doc>, size: Doc -> nat): nat {
    if chunk == [] then 0 else Bytes(chunk[..|chunk| - 1], size) + size(chunk[|chunk| - 1])
  }

  /** The chunks written out one after another. */
  function Concat(chunks: seq<seq<Doc>>): seq<Doc> {
    if chunks == [] then [] else Concat(chunks[..|chunks| - 1]) + chunks[|chunks| - 1]
  }

  /** Every chunk is non-empty and within the budget unless it is a single document,
      and each chunk was closed only because the next document would not fit. */
  predicate Packed(chunks: seq<seq<Doc>>, size: Doc -> nat, budget: nat) {
    && (forall k :: 0 <= k < |chunks| ==> chunks[k] != [] && (|chunks[k]| == 1 || Bytes(chunks[k], size) <= budget))
    && (forall k :: 0 <= k < |chunks| - 1 ==> Overflows(chunks, k, size, budget))
  }

  /** Chunk `k` could not take the first document of chunk `k + 1`. */
  predicate Overflows(chunks: seq<seq<Doc>>, k: nat, size: Doc -> nat, budget: nat)
    requires k + 1 < |chunks| && chunks[k + 1] != []
  {
    Bytes(chunks[k], size) + size(chunks[k + 1][0]) > budget
  }

  lemma ConcatSnoc(chunks: seq<seq<Doc>>, c: seq<Doc>)
    ensures Concat(chunks + [c]) == Concat(chunks) + c
  {
    assert (chunks + [c])[..|chunks|] == chunks;
  }

  lemma BytesSnoc(chunk: seq<Doc>, d: Doc, size: Doc -> nat)
    ensures Bytes(chunk + [d], size) == Bytes(chunk, size) + size(d)
  {
    assert (chunk + [d])[..|chunk|] == chunk;
  }

  /** Closing the open chunk keeps the chunks packed. */
  lemma PackedSnoc(chunks: seq<seq<Doc>>, c: seq<Doc>, size: Doc -> nat, budget: nat)
    requires Packed(chunks, size, budget)
    requires c != [] && (|c| == 1 || Bytes(c, size) <= budget)
    requires chunks != [] ==> Bytes(chunks[|chunks| - 1], size) + size(c[0]) > budget
    ensures Packed(chunks + [c], size, budget)
  {
    var r := chunks + [c];
    forall k | 0 <= k < |r| - 1 ensures Overflows(r, k, size, budget) {
      assert r[k] == chunks[k];
      if k + 1 < |chunks| {
        assert Overflows(chunks, k, size, budget);
      }
    }
  }

  /** The packer's state between two documents: the closed chunks are packed, the
      open chunk fits unless it holds one document, and the last closed chunk could
      not take the open chunk's first document. */
  predicate Open(chunks: seq<seq<Doc>>, current: seq<Doc>, size: Doc -> nat, budget: nat) {
    && Packed(chunks, size, budget)
    && (chunks != [] ==> current != [] && Bytes(chunks[|chunks| - 1], size) + size(current[0]) > budget)
    && (current != [] ==> |current| == 1 || Bytes(current, size) <= budget)
  }

  /** Lines 417-429: the next document does not fit, so the open chunk is closed. */
  lemma CloseChunk(chunks: seq<seq<Doc>>, current: seq<Doc>, doc: Doc, size: Doc -> nat, budget: nat)
    requires Open(chunks, current, size, budget)
    requires current != [] && Bytes(current, size) + size(doc) > budget
    ensures Open(chunks + [current], [doc], size, budget)
    ensures Bytes([doc], size) == size(doc)
  {
    PackedSnoc(chunks, current, size, budget);
    var r := chunks + [current];
    assert r[|r| - 1] == current;
    assert [doc][..0] == [];
  }

  /** Lines 430-432: the next document fits, or the open chunk is empty. */
  lemma ExtendChunk(chunks: seq<seq<Doc>>, current: seq<Doc>, doc: Doc, size: Doc -> nat, budget: nat)
    requires Open(chunks, current, size, budget)
    requires current == [] || Bytes(current, size) + size(doc) <= budget
    ensures Open(chunks, current + [doc], size, budget)
    ensures Bytes(current + [doc], size) == Bytes(current, size) + size(doc)
  {
    BytesSnoc(current, doc, size);
    assert current != [] ==> (current + [doc])[0] == current[0];
    assert current == [] ==> |current + [doc]| == 1;
  }

  /** Lines 417-432: one document placed, either in a new chunk when it would
      overflow the open one, or at the end of the open chunk. */
  method Place(chunks: seq<seq<Doc>>, current: seq<Doc>, currentSize: nat, doc: Doc, size: Doc -> nat, budget: nat)
    returns (chunks': seq<seq<Doc>>, current': seq<Doc>, currentSize': nat)
    requires Open(chunks, current, size, budget) && currentSize == Bytes(current, size)
    ensures Open(chunks', current', size, budget) && currentSize' == Bytes(current', size)
    ensures Concat(chunks') + current' == Concat(chunks) + current + [doc]
    ensures current' != []
  {
    var docSize := size(doc);
    if currentSize + docSize > budget && current != [] {
      chunks', current', currentSize' := StartChunk(chunks, current, doc, size, budget);
    } else {
      current', currentSize' := GrowChunk(chunks, current, currentSize, doc, size, budget);
      chunks' := chunks;
    }
  }

  /** Lines 430-432: `doc` joins the open chunk. */
  method GrowChunk(chunks: seq<seq<Doc>>, current: seq<Doc>, currentSize: nat, doc: Doc, size: Doc -> nat, budget: nat)
    returns (current': seq<Doc>, currentSize': nat)
    requires Open(chunks, current, size, budget) && currentSize == Bytes(current, size)
    requires current == [] || currentSize + size(doc) <= budget
    ensures Open(chunks, current', size, budget) && currentSize' == Bytes(current', size)
    ensures current' == current + [doc]
  {
    ExtendChunk(chunks, current, doc, size, budget);
    current', currentSize' := current + [doc], currentSize + size(doc);
  }

  /** Lines 417-429: the open chunk is closed and a new one holds `doc`. */
  method StartChunk(chunks: seq<seq<Doc>>, current: seq<Doc>, doc: Doc, size: Doc -> nat, budget: nat)
    returns (chunks': seq<seq<Doc>>, current': seq<Doc>, currentSize': nat)
    requires Open(chunks, current, size, budget)
    requires current != [] && Bytes(current, size) + size(doc) > budget
    ensures Open(chunks', current', size, budget) && currentSize' == Bytes(current', size)
    ensures Concat(chunks') + current' == Concat(chunks) + current + [doc]
    ensures current' != []
  {
    CloseChunk(chunks, current, doc, size, budget);
    ConcatSnoc(chunks, current);
    chunks', current', currentSize' := chunks + [current], [doc], size(doc);
  }

  /** Lines 413-441: the greedy packer. The chunks written, in order, are the
      documents in their order; none is empty; each fits `budget` unless it holds one
      document; and a chunk is closed only when the next document would overflow it. */
  method PackChunks(docs: seq<Doc>, size: Doc -> nat, budget: nat) returns (chunks: seq<seq<Doc>>)
    ensures Concat(chunks) == docs
    ensures Packed(chunks, size, budget)
    ensures chunks == [] <==> docs == []
  {
    chunks := [];
    var current: seq<Doc> := [];
    var currentSize := 0;
    var i := 0;
    while i < |docs|
      invariant 0 <= i <= |docs|
      invariant Concat(chunks) + current == docs[..i]
      invariant currentSize == Bytes(current, size)
      invariant current == [] <==> i == 0
      invariant Open(chunks, current, size, budget)
    {
      assert docs[..i + 1] == docs[..i] + [docs[i]];
      chunks, current, currentSize := Place(chunks, current, currentSize, docs[i], size, budget);
      i := i + 1;
    }
    assert docs[..i] == docs;
    if current != [] {
      PackedSnoc(chunks, current, size, budget);
      ConcatSnoc(chunks, current);
      chunks := chunks + [current];
    }
  }

  /** `create_corpus_chunks`: tag, sort by descending word count (stably), pack into
      chunks of `chunkSizeMb` MiB. */
  method CreateCorpusChunks(groups: Groups, size: Doc -> nat, chunkSizeMb: nat) returns (chunks: seq<seq<Doc>>)
    ensures Concat(chunks) == SortDesc(Tagged(groups), WordCountKey)
    ensures multiset(Concat(chunks)) == multiset(Tagged(groups))
    ensures SortedDesc(Concat(chunks), WordCountKey)
    ensures Packed(chunks, size, chunkSizeMb * 1024 * 1024)
    ensures chunks == [] <==> Flat(groups) == []
  {
    var all := FlattenTagged(groups);
    var sorted := SortDesc(all, WordCountKey);
    chunks := PackChunks(sorted, size, chunkSizeMb * 1024 * 1024);
  }

  /** Documents of equal word count keep their dict order across the sort. */
  lemma ChunkOrderStable(groups: Groups, k: int)
    ensures WithKey(SortDesc(Tagged(groups), WordCountKey), WordCountKey, k) == WithKey(Tagged(groups), WordCountKey, k)
  {
    SortDescStable(Tagged(groups), WordCountKey, k);
  }

  // ---------------------------------------------------------------- splits

  /** Lines 457-458: `int(0.8 * n)` and `int(0.1 * n)`. */
  function TrainSize(n: nat): nat { 8 * n / 10 }
  function ValidationSize(n: nat): nat { n / 10 }

  /** Lines 460-462: three consecutive slices of the shuffled documents. */
  function Splits<T>(shuffled: seq<T>): (r: (seq<T>, seq<T>, seq<T>))
    ensures |r.0| == TrainSize(|shuffled|) && |r.1| == ValidationSize(|shuffled|)
    ensures |r.2| == |shuffled| - TrainSize(|shuffled|) - ValidationSize(|shuffled|)
    ensures r.0 + r.1 + r.2 == shuffled
  {
    var n := |shuffled|;
    var t := TrainSize(n);
    var v := ValidationSize(n);
    assert shuffled[..t] + shuffled[t..t + v] + shuffled[t + v..] == shuffled;
    (shuffled[..t], shuffled[t..t + v], shuffled[t + v..])
  }

  /** `create_training_splits`, the shuffle given as its result: every document lands
      in exactly one split. */
  lemma SplitsPartition<T>(all: seq<T>, shuffled: seq<T>)
    requires multiset(shuffled) == multiset(all)
    ensures var r := Splits(shuffled);
      multiset(r.0) + multiset(r.1) + multiset(r.2) == multiset(all)
  {
    var r := Splits(shuffled);
    calc {
      multiset(r.0) + multiset(r.1) + multiset(r.2);
      multiset(r.0 + r.1 + r.2);
      multiset(all);
    }
  }

  /** The test split is never smaller than the validation split. */
  lemma TestAtLeastValidation(n: nat)
    ensures n - TrainSize(n) - ValidationSize(n) >= ValidationSize(n)
  {
  }

  /** A thousand documents split 800 / 100 / 100. */
  lemma ThousandDocuments<T>(shuffled: seq<T>)
    requires |shuffled| == 1000
    ensures |Splits(shuffled).0| == 800 && |Splits(shuffled).1| == 100 && |Splits(shuffled).2| == 100
  {
  }

  // ---------------------------------------------------------------- statistics

  /** The text after the last '/': the final component of the path. */
  function Name(path: string): (name: string)
    ensures '/' !in name
  {
    if path == [] then []
    else if path[|path| - 1] == '/' then []
    else Name(path[..|path| - 1]) + [path[|path| - 1]]
  }

  /** The index of the last '.' of `s`, or -1. */
  function LastDot(s: string): (i: int)
    ensures -1 <= i < |s|
    ensures i >= 0 ==> s[i] == '.'
    ensures forall j :: i < j < |s| ==> s[j] != '.'
  {
    if s == [] then -1 else if s[|s| - 1] == '.' then |s| - 1 else LastDot(s[..|s| - 1])
  }

  /** `Path(p).suffix`: from the last '.' of the final component, when that dot is
      neither its first nor its last character. */
  function Suffix(path: string): (x: string)
    ensures x == [] || x[0] == '.'
    ensures '/' !in x
  {
    var name := Name(path);
    var i := LastDot(name);
    if 0 < i < |name| - 1 then name[i..] else []
  }

  /** Line 511: the suffix, or "web" for a path without one. */
  function FileType(d: Doc): (t: string)
    ensures t != []
  {
    if Suffix(d.filePath) == [] then "web" else Suffix(d.filePath)
  }

  function SumWords(docs: seq<Doc>): nat {
    if docs == [] then 0 else SumWords(docs[..|docs| - 1]) + docs[|docs| - 1].wordCount
  }

  function SumChars(docs: seq<Doc>): nat {
    if docs == [] then 0 else SumChars(docs[..|docs| - 1]) + |docs[|docs| - 1].content|
  }

  /** How many of `docs` have file type `t`. */
  function CountType(docs: seq<Doc>, t: string): nat {
    if docs == [] then 0 else CountType(docs[..|docs| - 1], t) + (if FileType(docs[|docs| - 1]) == t then 1 else 0)
  }

  /** The word counts of `docs`, in order. */
  function Sizes(docs: seq<Doc>): (s: seq<nat>)
    ensures |s| == |docs|
  {
    if docs == [] then [] else Sizes(docs[..|docs| - 1]) + [docs[|docs| - 1].wordCount]
  }

  /** `stats['sources'][source]`; `avgDocSize` is 0 for an empty group. */
  datatype SourceStats = SourceStats(documentCount: nat, wordCount: nat, avgDocSize: real)

  function GroupStats(docs: seq<Doc>): (s: SourceStats)
    ensures s.documentCount == 0 ==> s.avgDocSize == 0.0
    ensures s.documentCount > 0 ==> s.avgDocSize * s.documentCount as real == s.wordCount as real
  {
    var n := |docs|;
    var w := SumWords(docs);
    SourceStats(n, w, if n > 0 then w as real / n as real else 0.0)
  }

  datatype Stats = Stats(
    totalDocuments: nat, totalWords: nat, totalCharacters: nat, estimatedTokens: real,
    sources: seq<(string, SourceStats)>, fileTypes: Tally.Counter<string>, sizeDistribution: seq<nat>)

  /** Lines 510-513 for one group: the file-type counts and the size distribution grow
      by that group's documents. */
  method CountDocuments(docs: seq<Doc>, fileTypes: Tally.Counter<string>, sizes: seq<nat>)
    returns (fileTypes': Tally.Counter<string>, sizes': seq<nat>)
    requires Tally.Distinct(fileTypes)
    ensures Tally.Distinct(fileTypes')
    ensures Tally.Total(fileTypes') == Tally.Total(fileTypes) + |docs|
    ensures forall t :: Tally.Get(fileTypes', t) == Tally.Get(fileTypes, t) + CountType(docs, t)
    ensures sizes' == sizes + Sizes(docs)
  {
    fileTypes', sizes' := fileTypes, sizes;
    var j := 0;
    while j < |docs|
      invariant 0 <= j <= |docs|
      invariant Tally.Distinct(fileTypes')
      invariant Tally.Total(fileTypes') == Tally.Total(fileTypes) + j
      invariant forall t :: Tally.Get(fileTypes', t) == Tally.Get(fileTypes, t) + CountType(docs[..j], t)
      invariant sizes' == sizes + Sizes(docs[..j])
    {
      fileTypes', sizes' := CountOne(fileTypes', sizes', fileTypes, sizes, docs[..j], docs[j]);
      assert docs[..j + 1] == docs[..j] + [docs[j]];
      j := j + 1;
    }
    assert docs[..j] == docs;
  }

  /** Lines 511-513 for one document `d`, after the documents `seen`. */
  method CountOne(fileTypes: Tally.Counter<string>, sizes: seq<nat>,
                  ghost base: Tally.Counter<string>, ghost baseSizes: seq<nat>, ghost seen: seq<Doc>, d: Doc)
    returns (fileTypes': Tally.Counter<string>, sizes': seq<nat>)
    requires Tally.Distinct(fileTypes) && Tally.Total(fileTypes) == Tally.Total(base) + |seen|
    requires forall t :: Tally.Get(fileTypes, t) == Tally.Get(base, t) + CountType(seen, t)
    requires sizes == baseSizes + Sizes(seen)
    ensures Tally.Distinct(fileTypes') && Tally.Total(fileTypes') == Tally.Total(base) + |seen| + 1
    ensures forall t :: Tally.Get(fileTypes', t) == Tally.Get(base, t) + CountType(seen + [d], t)
    ensures sizes' == baseSizes + Sizes(seen + [d])
  {
    CountOneMore(fileTypes, base, sizes, baseSizes, seen, d);
    fileTypes' := Tally.Inc(fileTypes, FileType(d));
    sizes' := sizes + [d.wordCount];
  }

  lemma CountOneMore(
    fileTypes: Tally.Counter<string>, base: Tally.Counter<string>, sizes: seq<nat>, baseSizes: seq<nat>,
    seen: seq<Doc>, d: Doc)
    requires forall t :: Tally.Get(fileTypes, t) == Tally.Get(base, t) + CountType(seen, t)
    requires sizes == baseSizes + Sizes(seen)
    ensures forall t :: Tally.Get(Tally.Inc(fileTypes, FileType(d)), t) == Tally.Get(base, t) + CountType(seen + [d], t)
    ensures sizes + [d.wordCount] == baseSizes + Sizes(seen + [d])
  {
    assert (seen + [d])[..|seen|] == seen;
  }

  /** Lines 483-513: the counters of `generate_enhanced_statistics`. */
  method EnhancedStatistics(groups: Groups) returns (st: Stats)
    ensures st.totalDocuments == |Flat(groups)|
    ensures st.totalWords == SumWords(Flat(groups))
    ensures st.totalCharacters == SumChars(Flat(groups))
    ensures st.estimatedTokens == st.totalWords as real * 1.25
    ensures |st.sources| == |groups|
    ensures forall k :: 0 <= k < |groups| ==> st.sources[k] == (groups[k].0, GroupStats(groups[k].1))
    ensures Tally.Distinct(st.fileTypes) && Tally.Total(st.fileTypes) == st.totalDocuments
    ensures forall t :: Tally.Get(st.fileTypes, t) == CountType(Flat(groups), t)
    ensures st.sizeDistribution == Sizes(Flat(groups))
  {
    st := Stats(0, 0, 0, 0.0, [], [], []);
    var g := 0;
    while g < |groups|
      invariant 0 <= g <= |groups|
      invariant Counted(groups[..g], st)
    {
      assert groups[..g + 1] == groups[..g] + [groups[g]];
      st := CountGroup(groups[..g], groups[g], st);
      g := g + 1;
    }
    assert groups[..g] == groups;
  }

  /** The counters of lines 483-513 after the groups `groups`. */
  ghost predicate Counted(groups: Groups, st: Stats) {
    && st.totalDocuments == |Flat(groups)|
    && st.totalWords == SumWords(Flat(groups))
    && st.totalCharacters == SumChars(Flat(groups))
    && st.estimatedTokens == st.totalWords as real * 1.25
    && |st.sources| == |groups|
    && (forall k :: 0 <= k < |groups| ==> st.sources[k] == (groups[k].0, GroupStats(groups[k].1)))
    && Tally.Distinct(st.fileTypes) && Tally.Total(st.fileTypes) == st.totalDocuments
    && (forall t :: Tally.Get(st.fileTypes, t) == CountType(Flat(groups), t))
    && st.sizeDistribution == Sizes(Flat(groups))
  }

  /** Lines 494-513 for one more group. */
  method CountGroup(seen: Groups, group: (string, seq<Doc>), st: Stats) returns (st': Stats)
    requires Counted(seen, st)
    ensures Counted(seen + [group], st')
  {
    var (source, documents) := group;
    assert (seen + [group])[..|seen|] == seen;
    FlatSums(Flat(seen), documents);
    var fileTypes, sizes := CountDocuments(documents, st.fileTypes, st.sizeDistribution);
    var words := SumWords(documents);
    st' := st.(
      totalDocuments := st.totalDocuments + |documents|,
      totalWords := st.totalWords + words,
      totalCharacters := st.totalCharacters + SumChars(documents),
      estimatedTokens := st.estimatedTokens + words as real * 1.25,
      sources := st.sources + [(source, GroupStats(documents))],
      fileTypes := fileTypes,
      sizeDistribution := sizes);
  }

  /** The sums over a concatenation add up. */
  lemma FlatSums(a: seq<Doc>, b: seq<Doc>)
    ensures SumWords(a + b) == SumWords(a) + SumWords(b)
    ensures SumChars(a + b) == SumChars(a) + SumChars(b)
    ensures Sizes(a + b) == Sizes(a) + Sizes(b)
    ensures forall t :: CountType(a + b, t) == CountType(a, t) + CountType(b, t)
  {
    WordsAppend(a, b);
    CharsAppend(a, b);
    SizesAppend(a, b);
    forall t {
      TypesAppend(a, b, t);
    }
  }

  /** `a + b` without its last element, and that element. */
  lemma SnocParts(a: seq<Doc>, b: seq<Doc>)
    requires b != []
    ensures (a + b)[..|a + b| - 1] == a + b[..|b| - 1]
    ensures (a + b)[|a + b| - 1] == b[|b| - 1]
  {
  }

  lemma {:induction false} WordsAppend(a: seq<Doc>, b: seq<Doc>)
    ensures SumWords(a + b) == SumWords(a) + SumWords(b)
    decreases |b|
  {
    if b == [] {
      assert a + b == a;
    } else {
      WordsAppend(a, b[..|b| - 1]);
      SnocParts(a, b);
    }
  }

  lemma {:induction false} CharsAppend(a: seq<Doc>, b: seq<Doc>)
    ensures SumChars(a + b) == SumChars(a) + SumChars(b)
    decreases |b|
  {
    if b == [] {
      assert a + b == a;
    } else {
      CharsAppend(a, b[..|b| - 1]);
      SnocParts(a, b);
    }
  }

  lemma {:induction false} SizesAppend(a: seq<Doc>, b: seq<Doc>)
    ensures Sizes(a + b) == Sizes(a) + Sizes(b)
    decreases |b|
  {
    if b == [] {
      assert a + b == a;
    } else {
      SizesAppend(a, b[..|b| - 1]);
      SnocParts(a, b);
    }
  }

  lemma {:induction false} TypesAppend(a: seq<Doc>, b: seq<Doc>, t: string)
    ensures CountType(a + b, t) == CountType(a, t) + CountType(b, t)
    decreases |b|
  {
    if b == [] {
      assert a + b == a;
    } else {
      TypesAppend(a, b[..|b| - 1], t);
      SnocParts(a, b);
    }
  }

  /** Line 554: the average document size of the summary, which divides by the
      document total without a guard. */
  function AverageDocSize(st: Stats): (r: Result<real>)
    ensures st.totalDocuments == 0 <==> r == Fail(ZeroDivision)
    ensures r.Ok? ==> r.value * st.totalDocuments as real == st.totalWords as real
  {
    if st.totalDocuments == 0 then Fail(ZeroDivision)
    else Ok(st.totalWords as real / st.totalDocuments as real)
  }
}
