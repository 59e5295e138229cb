/**
 * The quality gate of `DatasetCleaner` (training-data/scripts/clean_dataset.py):
 * text cleaning, the broken-encoding ratio, ten ordered hard rejections, the
 * additive quality score in hundredths, and the per-document statistics.
 *
 * The regular-expression lists (spam phrases, bad path fragments, technical
 * indicators), the `\w` class and NFKC normalisation are parameters, gathered in
 * `Patterns`; the fixed rewrites of `clean_text` and the three structure regexes
 * are written out.
 */
module DatasetCleaning {
  import opened Text
  import opened Rewrite
  import opened Records
  import Tally

  /** Why a document was scored as it was; `QualityPassed` is the reason of every
      score that passed all hard checks, including scores below the threshold. */
  datatype Reason =
    | EmptyContent | EmptyAfterCleaning | BrokenEncoding | SpamContent | BadFilePath
    | TooShort | TooLong | WordsTooShort | WordsTooLong | SentencesTooShort
    | QualityPassed

  /** An input record; a key missing from the JSON object reads as "" (or an empty map). */
  datatype RawDoc = RawDoc(
    source: string, filePath: string, content: string, timestamp: string,
    metadata: map<string, string>)

  /** A kept record; `qualityScore` in hundredths. */
  datatype CleanDoc = CleanDoc(
    source: string, filePath: string, content: string, wordCount: nat,
    qualityScore: nat, timestamp: string, metadata: map<string, string>)

  /** The parts of the cleaner that are regular-expression tables or library calls. */
  datatype Patterns = Patterns(
    nfkc: string -> string,            // unicodedata.normalize('NFKC', _)
    spam: seq<string -> bool>,         // self.spam_patterns, searched in lower-cased text
    badPath: seq<string -> bool>,      // self.bad_file_patterns, searched in the lower-cased path
    tech: seq<string -> bool>,         // tech_indicators, searched case-insensitively
    isWordChar: char -> bool)          // the `\w` class

  /** A score (hundredths) and its reason. */
  datatype Verdict = Verdict(score: nat, reason: Reason)

  const MinWordCount: nat := 50
  const MaxWordCount: nat := 50000
  const MinAvgWordLength: nat := 3
  const MaxAvgWordLength: nat := 20
  const MinSentenceLength: nat := 10
  /** 0.5: the keep threshold of `process_document` and the allow-list floor. */
  const Threshold: nat := 50

  const HighQualitySources: set<string> := {
    "mdn_content", "owasp", "openai_cookbook", "langchain", "huggingface_course",
    "react_docs", "vue_docs", "nextjs_docs", "kubernetes_docs", "system_design_primer",
    "clean_code_javascript", "javascript_algorithms", "python_patterns"}

  // ---------------------------------------------------------------- encoding

  /** Outside the Basic Multilingual Plane, the replacement character, or a
      control character other than newline, carriage return and tab. */
  predicate IsBrokenChar(c: char) {
    c as int > 0xFFFF || c == '\U{FFFD}' || (c as int < 32 && c != '\n' && c != '\r' && c != '\t')
  }

  /** Number of broken characters of `s`. */
  function BrokenCount(s: string): (n: nat)
    ensures n <= |s|
  {
    if s == [] then 0 else BrokenCount(s[..|s| - 1]) + (if IsBrokenChar(s[|s| - 1]) then 1 else 0)
  }

  lemma {:induction false} BrokenCountZero(s: string)
    ensures BrokenCount(s) == 0 <==> forall i :: 0 <= i < |s| ==> !IsBrokenChar(s[i])
  {
    if s != [] {
      var t := s[..|s| - 1];
      BrokenCountZero(t);
      assert forall i :: 0 <= i < |t| ==> t[i] == s[i];
    }
  }

  /** `is_broken_encoding`: empty text, or more than a tenth of the characters broken. */
  predicate BrokenEncoded(s: string) {
    s == [] || BrokenCount(s) * 10 > |s|
  }

  /** The counting loop of `is_broken_encoding`. */
  method IsBrokenEncoding(text: string) returns (broken: bool)
    ensures broken == BrokenEncoded(text)
    ensures broken <==> text == [] || 10 * BrokenCount(text) > |text|
  {
    if text == [] {
      return true;
    }
    var count := 0;
    var i := 0;
    while i < |text|
      invariant 0 <= i <= |text|
      invariant count == BrokenCount(text[..i])
    {
      assert text[..i + 1][..i] == text[..i];
      if IsBrokenChar(text[i]) {
        count := count + 1;
      }
      i := i + 1;
    }
    assert text[..i] == text;
    broken := count * 10 > |text|;
  }

  lemma CleanTextNotBrokenWithoutBrokenChars(s: string)
    requires s != [] && forall i :: 0 <= i < |s| ==> !IsBrokenChar(s[i])
    ensures !BrokenEncoded(s)
  {
    BrokenCountZero(s);
  }

  // ---------------------------------------------------------------- clean_text

  /** Kept by the filter of line 150: ASCII and U+00A0 to U+FFFF. */
  predicate KeepChar(c: char) {
    c as int <= 0x7F || 0xA0 <= c as int <= 0xFFFF
  }

  /** Every character is in the Basic Multilingual Plane and the only whitespace is ' '. */
  predicate Tidy(s: string) {
    forall c :: c in s ==> c as int <= 0xFFFF && (IsSpace(c) ==> c == ' ')
  }

  lemma TidySub(a: string, b: string)
    requires Tidy(b) && forall c :: c in a ==> c in b
    ensures Tidy(a)
  {
  }

  /** Lines 146-154: NFKC, the character filter and the whitespace rewrites. Every
      whitespace run becomes one space, so the blank-line rewrite finds no newline. */
  function Normalise(text: string, nfkc: string -> string): (r: string)
    ensures Tidy(r)
  {
    var s := CollapseSpace(Filter(nfkc(text), KeepChar));
    assert Tidy(s);
    CollapseBlankLines(s)
  }

  /** Lines 156-162: comments, script and style blocks, then tags. */
  function StripMarkup(s: string): (r: string)
    ensures forall c :: c in r ==> c in s
  {
    RemoveTags(RemoveDelimited(RemoveDelimited(RemoveDelimited(s, "<!--", "-->", false),
      "<script", "</script>", true), "<style", "</style>", true))
  }

  /** Lines 164-168: URLs and e-mail addresses become placeholders. */
  function MaskLinks(s: string): (r: string)
    ensures Tidy(s) ==> Tidy(r)
  {
    var u := ReplaceUrls(s);
    assert Tidy(s) ==> Tidy(u) by {
      forall c | c in u && c !in s ensures c as int <= 0xFFFF && !IsSpace(c) {
        assert c in "[URL]";
      }
    }
    var e := ReplaceEmails(u);
    assert Tidy(u) ==> Tidy(e) by {
      forall c | c in e && c !in u ensures c as int <= 0xFFFF && !IsSpace(c) {
        assert c in "[EMAIL]";
      }
    }
    e
  }

  /** Lines 170-173: runs of three or more dots, and of two or more '!' or '?'. */
  function TrimPunctuation(s: string): (r: string)
    ensures forall c :: c in r ==> c in s
  {
    CollapseRun(CollapseRun(CollapseRun(s, '.', 3, "..."), '!', 2, "!"), '?', 2, "?")
  }

  lemma StagesTidy(text: string, nfkc: string -> string)
    ensures Tidy(TrimPunctuation(MaskLinks(StripMarkup(Normalise(text, nfkc)))))
  {
    var n := Normalise(text, nfkc);
    TidySub(StripMarkup(n), n);
    var k := MaskLinks(StripMarkup(n));
    TidySub(TrimPunctuation(k), k);
  }

  lemma StripTidy(s: string)
    requires Tidy(s)
    ensures Tidy(Strip(s))
    ensures '\n' !in Strip(s) && '\t' !in Strip(s) && '\r' !in Strip(s)
  {
    TidySub(Strip(s), s);
    assert IsSpace('\n') && IsSpace('\t') && IsSpace('\r');
  }

  /** `clean_text`: the rewrite chain of lines 141-175, in its order. */
  function CleanText(text: string, nfkc: string -> string): (r: string)
    ensures Tidy(r)
    ensures '\n' !in r && '\t' !in r && '\r' !in r
    ensures Trimmed(r)
    ensures text == [] ==> r == []
  {
    if text == [] then []
    else
      var s := TrimPunctuation(MaskLinks(StripMarkup(Normalise(text, nfkc))));
      StagesTidy(text, nfkc);
      var r := Strip(s);
      StripTidy(s);
      r
  }

  /** `contains_spam`: some spam pattern is found in the lower-cased text. */
  predicate ContainsSpam(text: string, spam: seq<string -> bool>) {
    AnyMatch(spam, Lower(text))
  }

  /** `is_bad_file`: some bad-path pattern is found in the lower-cased path. */
  predicate IsBadFile(filePath: string, badPath: seq<string -> bool>) {
    AnyMatch(badPath, Lower(filePath))
  }

  // ---------------------------------------------------------------- metrics

  /** Sum of the lengths of `ws`. */
  function TotalLength(ws: seq<string>): nat {
    if ws == [] then 0 else |ws[0]| + TotalLength(ws[1..])
  }

  predicate IsSentenceEnd(c: char) {
    c == '.' || c == '!' || c == '?'
  }

  /** The index of the first sentence-ending character of `s`, or |s|. */
  function FirstSentenceEnd(s: string): (i: nat)
    ensures i <= |s|
    ensures i < |s| ==> IsSentenceEnd(s[i])
    ensures forall k :: 0 <= k < i ==> !IsSentenceEnd(s[k])
  {
    if s == [] || IsSentenceEnd(s[0]) then 0 else 1 + FirstSentenceEnd(s[1..])
  }

  /** `[p.strip() for p in re.split(r'[.!?]+', s) if p.strip()]`; splitting at each
      sentence end instead of at each run only adds empty pieces, which are dropped. */
  function Sentences(s: string): (ps: seq<string>)
    ensures forall k :: 0 <= k < |ps| ==> !AllSpace(ps[k])
    decreases |s|
  {
    var i := FirstSentenceEnd(s);
    var p := Strip(s[..i]);
    var rest := if i == |s| then [] else Sentences(s[i + 1..]);
    if p == [] then rest
    else
      [p] + rest
  }

  /** Total number of words over the sentences. */
  function SentenceWords(ps: seq<string>): nat {
    if ps == [] then 0 else |Words(ps[0])| + SentenceWords(ps[1..])
  }

  /** Every kept sentence has at least one word, so the sentence average is at least one. */
  lemma {:induction false} SentenceWordsAtLeastCount(ps: seq<string>)
    requires forall k :: 0 <= k < |ps| ==> !AllSpace(ps[k])
    ensures SentenceWords(ps) >= |ps|
  {
    if ps != [] {
      SentenceWordsAtLeastCount(ps[1..]);
    }
  }

  /** `re.search(r'#+\s+\w+', s)`. */
  predicate HasHeader(s: string, isWordChar: char -> bool) {
    exists j, k | 0 <= j < |s| && 0 <= k < |s| ::
      j + 1 < k && s[j] == '#' && AllSpace(s[j + 1..k]) && isWordChar(s[k])
  }

  /** All of `s[i..j]` are word characters. */
  predicate WordRun(s: string, i: int, j: int, isWordChar: char -> bool)
    requires 0 <= i <= j <= |s|
  {
    forall t :: i <= t < j ==> isWordChar(s[t])
  }

  /** A "```" fence followed by word characters up to index `q`. */
  predicate OpensBlock(s: string, q: int, isWordChar: char -> bool)
    requires 0 <= q <= |s|
  {
    exists i | 0 <= i <= q - 3 :: OccursAt(s, "```", i) && WordRun(s, i + 3, q, isWordChar)
  }

  /** A newline followed by a "```" fence somewhere after index `q`. */
  predicate ClosesAfter(s: string, q: int) {
    exists e | q < e <= |s| - 4 :: OccursAt(s, "\n```", e)
  }

  /** `re.search(r'```\w*\n.*?\n```', s, re.DOTALL)`: a fence, word characters, a
      newline at `q`, anything, and a newline followed by a fence. */
  predicate HasCodeBlock(s: string, isWordChar: char -> bool) {
    exists q | 0 <= q < |s| :: s[q] == '\n' && OpensBlock(s, q, isWordChar) && ClosesAfter(s, q)
  }

  /** Index `j` starts a line (the MULTILINE `^`). */
  predicate LineStart(s: string, j: int)
    requires 0 <= j <= |s|
  {
    j == 0 || s[j - 1] == '\n'
  }

  /** `re.search(r'^\s*[\-\*\+]\s+', s, re.MULTILINE)`: at the start of a line,
      optional whitespace, a bullet, and whitespace. */
  predicate HasListItem(s: string) {
    exists j, k | 0 <= j < |s| && 0 <= k < |s| ::
      && j <= k && k + 1 < |s|
      && LineStart(s, j)
      && AllSpace(s[j..k])
      && (s[k] == '-' || s[k] == '*' || s[k] == '+')
      && IsSpace(s[k + 1])
  }

  /** How many of `patterns` are found in `s`. */
  function CountMatches(patterns: seq<string -> bool>, s: string): (n: nat)
    ensures n <= |patterns|
    ensures n == 0 <==> !AnyMatch(patterns, s)
  {
    if patterns == [] then 0 else (if patterns[0](s) then 1 else 0) + CountMatches(patterns[1..], s)
  }

  /** The code-block bonus needs a newline, and cleaned text has none. */
  lemma NoCodeBlockInCleanText(content: string, pat: Patterns)
    ensures !HasCodeBlock(CleanText(content, pat.nfkc), pat.isWordChar)
  {
    var s := CleanText(content, pat.nfkc);
    forall q | 0 <= q < |s| ensures s[q] != '\n' {
      assert s[q] in s;
    }
  }

  /** In text without a newline that does not start with whitespace, the list
      pattern can only match at the very start: a bullet followed by whitespace. */
  lemma ListItemAtStart(s: string)
    requires '\n' !in s
    requires s == [] || !IsSpace(s[0])
    ensures HasListItem(s) <==> |s| >= 2 && (s[0] == '-' || s[0] == '*' || s[0] == '+') && IsSpace(s[1])
  {
    forall j | 0 <= j < |s| ensures s[j] != '\n' {
      assert s[j] in s;
    }
    forall k | 0 < k <= |s| ensures !AllSpace(s[0..k]) {
      assert s[0..k][0] == s[0];
    }
    if HasListItem(s) {
      var j, k :| 0 <= j < |s| && 0 <= k < |s| && j <= k && k + 1 < |s| && LineStart(s, j)
        && AllSpace(s[j..k]) && (s[k] == '-' || s[k] == '*' || s[k] == '+') && IsSpace(s[k + 1]);
      assert j == 0;
      assert k == 0;
    }
    if |s| >= 2 && (s[0] == '-' || s[0] == '*' || s[0] == '+') && IsSpace(s[1]) {
      assert LineStart(s, 0) && AllSpace(s[0..0]);
    }
  }

  /** On cleaned text the list bonus is earned exactly by a leading bullet and space. */
  lemma ListItemInCleanText(content: string, pat: Patterns)
    ensures var s := CleanText(content, pat.nfkc);
      HasListItem(s) <==> |s| >= 2 && (s[0] == '-' || s[0] == '*' || s[0] == '+') && s[1] == ' '
  {
    var s := CleanText(content, pat.nfkc);
    ListItemAtStart(s);
    if |s| >= 2 {
      assert s[1] in s;
    }
  }

  // ---------------------------------------------------------------- scoring

  /** What the hard checks look at, computed once from the document. */
  datatype Facts = Facts(
    contentEmpty: bool, cleanEmpty: bool, broken: bool, spam: bool, badPath: bool,
    wordCount: nat, letters: nat, sentences: nat, sentenceWords: nat)

  /** The measurements `calculate_quality_score` takes of `doc`. */
  function Measure(doc: RawDoc, pat: Patterns): Facts {
    var clean := CleanText(doc.content, pat.nfkc);
    var words := Words(clean);
    var ps := Sentences(clean);
    Facts(doc.content == [], clean == [], BrokenEncoded(clean), ContainsSpam(clean, pat.spam),
          IsBadFile(doc.filePath, pat.badPath), |words|, TotalLength(words), |ps|, SentenceWords(ps))
  }

  /** The ten hard checks, each on its own; an average is compared by cross-multiplying. */
  predicate Fails(k: Reason, f: Facts) {
    match k
    case EmptyContent => f.contentEmpty
    case EmptyAfterCleaning => f.cleanEmpty
    case BrokenEncoding => f.broken
    case SpamContent => f.spam
    case BadFilePath => f.badPath
    case TooShort => f.wordCount < MinWordCount
    case TooLong => f.wordCount > MaxWordCount
    case WordsTooShort => f.wordCount > 0 && f.letters < MinAvgWordLength * f.wordCount
    case WordsTooLong => f.wordCount > 0 && f.letters > MaxAvgWordLength * f.wordCount
    case SentencesTooShort => f.sentences > 0 && f.sentenceWords < MinSentenceLength * f.sentences
    case QualityPassed => false
  }

  /** The position of each check in the order the source applies them. */
  function Rank(k: Reason): nat {
    match k
    case EmptyContent => 0
    case EmptyAfterCleaning => 1
    case BrokenEncoding => 2
    case SpamContent => 3
    case BadFilePath => 4
    case TooShort => 5
    case TooLong => 6
    case WordsTooShort => 7
    case WordsTooLong => 8
    case SentencesTooShort => 9
    case QualityPassed => 10
  }

  /** The early returns of `calculate_quality_score`: the first hard check that fails. */
  function FirstRejection(f: Facts): (r: Option<Reason>)
    ensures r.Some? ==> r.value != QualityPassed && Fails(r.value, f)
    ensures r.Some? ==> forall k :: Rank(k) < Rank(r.value) ==> !Fails(k, f)
    ensures r.None? ==> forall k :: !Fails(k, f)
  {
    if f.contentEmpty then Some(EmptyContent)
    else if f.cleanEmpty then Some(EmptyAfterCleaning)
    else if f.broken then Some(BrokenEncoding)
    else if f.spam then Some(SpamContent)
    else if f.badPath then Some(BadFilePath)
    else if f.wordCount < MinWordCount then Some(TooShort)
    else if f.wordCount > MaxWordCount then Some(TooLong)
    else if f.letters < MinAvgWordLength * f.wordCount then Some(WordsTooShort)
    else if f.letters > MaxAvgWordLength * f.wordCount then Some(WordsTooLong)
    else if f.sentences > 0 && f.sentenceWords < MinSentenceLength * f.sentences then Some(SentencesTooShort)
    else None
  }

  function Min(a: nat, b: nat): nat {
    if a <= b then a else b
  }

  /** The additive score of a document that passed every hard check, in hundredths,
      with the floor for allow-listed sources. It is not clamped to 100. */
  function Score(allowed: bool, wordCount: nat, tech: nat, header: bool, codeBlock: bool, list: bool): (s: nat)
    ensures s <= 115
    ensures allowed ==> s >= Threshold
    ensures !allowed ==> s <= 85
    ensures !codeBlock ==> s <= 95
    ensures !allowed && tech == 0 && !header && !codeBlock && !list && !(100 <= wordCount <= 10000) ==> s == 0
  {
    var raw :=
      (if allowed then 30 else 0)
      + (if 200 <= wordCount <= 5000 then 20 else if 100 <= wordCount <= 10000 then 10 else 0)
      + Min(2 * tech, 30)
      + (if header then 10 else 0)
      + (if codeBlock then 20 else 0)
      + (if list then 5 else 0);
    if allowed && raw < Threshold then Threshold else raw
  }

  /** What `calculate_quality_score` returns. */
  function Assess(doc: RawDoc, pat: Patterns): (v: Verdict)
    ensures v.reason == QualityPassed <==> FirstRejection(Measure(doc, pat)).None?
    ensures v.reason != QualityPassed ==> v.score == 0 && FirstRejection(Measure(doc, pat)) == Some(v.reason)
  {
    match FirstRejection(Measure(doc, pat))
    case Some(k) => Verdict(0, k)
    case None =>
      var clean := CleanText(doc.content, pat.nfkc);
      Verdict(
        Score(doc.source in HighQualitySources, |Words(clean)|, CountMatches(pat.tech, clean),
              HasHeader(clean, pat.isWordChar), HasCodeBlock(clean, pat.isWordChar), HasListItem(clean)),
        QualityPassed)
  }

  /** Since the code-block bonus can never be earned, no score exceeds 0.95. */
  lemma ScoreAtMost95(doc: RawDoc, pat: Patterns)
    ensures Assess(doc, pat).score <= 95
  {
    NoCodeBlockInCleanText(doc.content, pat);
  }

  /** An allow-listed document reaches the threshold exactly when it passes the hard checks. */
  lemma AllowListedPassesThreshold(doc: RawDoc, pat: Patterns)
    requires doc.source in HighQualitySources
    ensures Assess(doc, pat).score >= Threshold <==> forall k :: !Fails(k, Measure(doc, pat))
  {
  }

  /** Lines 250-353 of `calculate_quality_score`: the score accumulator. */
  method PassingScore(allowed: bool, wordCount: nat, tech: nat, header: bool, codeBlock: bool, list: bool)
    returns (score: nat)
    ensures score == Score(allowed, wordCount, tech, header, codeBlock, list)
  {
    score := 0;
    if allowed {
      score := score + 30;
    }
    if 200 <= wordCount <= 5000 {
      score := score + 20;
    } else if 100 <= wordCount <= 10000 {
      score := score + 10;
    }
    score := score + Min(2 * tech, 30);
    if header {
      score := score + 10;
    }
    if codeBlock {
      score := score + 20;
    }
    if list {
      score := score + 5;
    }
    if allowed && score < Threshold {
      score := Threshold;
    }
  }

  /** Lines 199-248 of `calculate_quality_score`: the hard checks as early returns,
      also handing back the cleaned text they computed. */
  method HardChecks(doc: RawDoc, pat: Patterns) returns (rejection: Option<Reason>, clean: string)
    ensures rejection == FirstRejection(Measure(doc, pat))
    ensures clean == CleanText(doc.content, pat.nfkc)
  {
    var content := doc.content;
    clean := CleanText(content, pat.nfkc);
    if content == [] {
      return Some(EmptyContent), clean;
    }
    if clean == [] {
      return Some(EmptyAfterCleaning), clean;
    }
    var broken := IsBrokenEncoding(clean);
    if broken {
      return Some(BrokenEncoding), clean;
    }
    if ContainsSpam(clean, pat.spam) {
      return Some(SpamContent), clean;
    }
    if IsBadFile(doc.filePath, pat.badPath) {
      return Some(BadFilePath), clean;
    }
    var words := Words(clean);
    var wordCount := |words|;
    if wordCount < MinWordCount {
      return Some(TooShort), clean;
    }
    if wordCount > MaxWordCount {
      return Some(TooLong), clean;
    }
    var letters := TotalLength(words);
    if letters < MinAvgWordLength * wordCount {
      return Some(WordsTooShort), clean;
    }
    if letters > MaxAvgWordLength * wordCount {
      return Some(WordsTooLong), clean;
    }
    var ps := Sentences(clean);
    if ps != [] && SentenceWords(ps) < MinSentenceLength * |ps| {
      return Some(SentencesTooShort), clean;
    }
    rejection := None;
  }

  /** `calculate_quality_score`: the hard checks, then the score accumulator of lines 250-355. */
  method CalculateQualityScore(doc: RawDoc, pat: Patterns) returns (score: nat, reason: Reason)
    ensures Verdict(score, reason) == Assess(doc, pat)
    ensures reason != QualityPassed ==> score == 0 && Fails(reason, Measure(doc, pat))
    ensures reason == QualityPassed ==> forall k :: !Fails(k, Measure(doc, pat))
  {
    var rejection, clean := HardChecks(doc, pat);
    if rejection.Some? {
      return 0, rejection.value;
    }
    score := PassingScore(doc.source in HighQualitySources, |Words(clean)|, CountMatches(pat.tech, clean),
      HasHeader(clean, pat.isWordChar), HasCodeBlock(clean, pat.isWordChar), HasListItem(clean));
    reason := QualityPassed;
  }

  // ---------------------------------------------------------------- process_document

  /** A document whose score reaches the threshold passed every hard check, so its
      cleaned text is non-empty and has at least `MinWordCount` words. */
  lemma PassedHardChecks(doc: RawDoc, pat: Patterns)
    requires Assess(doc, pat).score >= Threshold
    ensures forall k :: !Fails(k, Measure(doc, pat))
    ensures var clean := CleanText(doc.content, pat.nfkc);
      clean != [] && |Words(clean)| >= MinWordCount
  {
    assert !Fails(EmptyAfterCleaning, Measure(doc, pat)) && !Fails(TooShort, Measure(doc, pat));
  }

  /** What `process_document` returns for `doc`: a cleaned document exactly when the
      score reaches the threshold. */
  function Outcome(doc: RawDoc, pat: Patterns): (out: Option<CleanDoc>)
    ensures out.Some? <==> Assess(doc, pat).score >= Threshold
    ensures out.Some? ==> out.value.content != [] && out.value.wordCount >= MinWordCount
  {
    var v := Assess(doc, pat);
    if v.score >= Threshold then
      var clean := CleanText(doc.content, pat.nfkc);
      PassedHardChecks(doc, pat);
      Some(CleanDoc(doc.source, doc.filePath, clean, |Words(clean)|, v.score, doc.timestamp, doc.metadata))
    else None
  }

  /** A kept document carries the cleaned text, its word count and the score, and
      keeps the source, path, timestamp and metadata of the input. */
  lemma KeptDocument(doc: RawDoc, pat: Patterns)
    requires Outcome(doc, pat).Some?
    ensures var d := Outcome(doc, pat).value;
      && d.content == CleanText(doc.content, pat.nfkc)
      && d.wordCount == |Words(d.content)|
      && d.qualityScore == Assess(doc, pat).score >= Threshold
      && d.source == doc.source && d.filePath == doc.filePath
      && d.timestamp == doc.timestamp && d.metadata == doc.metadata
  {
  }

  lemma OutcomeOfVerdict(doc: RawDoc, pat: Patterns, score: nat, reason: Reason, clean: string)
    requires Verdict(score, reason) == Assess(doc, pat) && clean == CleanText(doc.content, pat.nfkc)
    ensures score >= Threshold ==>
      && clean != []
      && Outcome(doc, pat) == Some(CleanDoc(doc.source, doc.filePath, clean, |Words(clean)|, score, doc.timestamp, doc.metadata))
    ensures score < Threshold ==> Outcome(doc, pat) == None
  {
    if score >= Threshold {
      PassedHardChecks(doc, pat);
    }
  }

  /** A document whose cleaned text holds spam is filtered out whatever its source,
      counted under `spam_content` or an earlier check. */
  lemma SpamNeverKept(doc: RawDoc, pat: Patterns)
    requires ContainsSpam(CleanText(doc.content, pat.nfkc), pat.spam)
    ensures Outcome(doc, pat).None?
    ensures Rank(Assess(doc, pat).reason) <= Rank(SpamContent)
  {
    assert Fails(SpamContent, Measure(doc, pat));
  }

  /** A document from a bad path is filtered out whatever its source, counted under
      `bad_file_path` or an earlier check. */
  lemma BadFileNeverKept(doc: RawDoc, pat: Patterns)
    requires IsBadFile(doc.filePath, pat.badPath)
    ensures Outcome(doc, pat).None?
    ensures Rank(Assess(doc, pat).reason) <= Rank(BadFilePath)
  {
    assert Fails(BadFilePath, Measure(doc, pat));
  }

  /** The reason `process_document` counts `doc` under when it filters it out. */
  function Rejection(doc: RawDoc, pat: Patterns): Option<Reason> {
    var v := Assess(doc, pat);
    if v.score < Threshold then Some(v.reason) else None
  }

  /** The reasons counted for the filtered documents of `docs`, in order. */
  function Rejections(docs: seq<RawDoc>, pat: Patterns): seq<Reason> {
    Collect(docs, d => Rejection(d, pat))
  }

  /** Counting the reasons of one document: its reason when it is filtered out. */
  lemma CountedReason(c: Tally.Counter<Reason>, doc: RawDoc, pat: Patterns)
    ensures Tally.IncAll(c, Rejections([doc], pat)) ==
      if Outcome(doc, pat).None? then Tally.Inc(c, Assess(doc, pat).reason) else c
  {
    assert [doc][..0] == [];
    var ks := Rejections([doc], pat);
    assert ks == Present(Rejection(doc, pat));
    if Outcome(doc, pat).None? {
      assert ks == [Assess(doc, pat).reason] && ks[..0] == [];
    } else {
      assert ks == [];
    }
  }

  /** Every document is either kept or counted under a reason, never both. */
  lemma KeptOrCounted(docs: seq<RawDoc>, pat: Patterns)
    ensures |Survivors(docs, pat)| + |Rejections(docs, pat)| == |docs|
  {
    CollectPartition(docs, d => Outcome(d, pat), d => Rejection(d, pat));
  }

  /** The documents of `docs` that `process_document` keeps, in order. */
  function Survivors(docs: seq<RawDoc>, pat: Patterns): (out: seq<CleanDoc>)
    ensures |out| <= |docs|
  {
    Collect(docs, d => Outcome(d, pat))
  }

  /** `retention_rate` of `create_quality_report`: kept over total, 0 when nothing was read. */
  function Retention(kept: nat, total: nat): (r: real)
    requires kept <= total
    ensures 0.0 <= r <= 1.0
    ensures total == 0 ==> r == 0.0
    ensures total > 0 ==> r * total as real == kept as real
  {
    if total > 0 then kept as real / total as real else 0.0
  }

  /** The cleaner and its `self.stats` dictionary. */
  class DatasetCleaner {
    var totalInput: nat
    var filteredOut: nat
    var qualityKept: nat
    var reasons: Tally.Counter<Reason>

    ghost predicate Valid()
      reads this
    {
      && totalInput == filteredOut + qualityKept
      && Tally.Total(reasons) == filteredOut
      && Tally.Distinct(reasons)
    }

    constructor ()
      ensures Valid()
      ensures totalInput == 0 && filteredOut == 0 && qualityKept == 0 && reasons == []
    {
      totalInput, filteredOut, qualityKept, reasons := 0, 0, 0, [];
    }

    /** `process_document`: one more input, then either one more kept document or one
        more filtered one counted under its reason. */
    method ProcessDocument(doc: RawDoc, pat: Patterns) returns (out: Option<CleanDoc>)
      requires Valid()
      modifies this
      ensures Valid()
      ensures out == Outcome(doc, pat)
      ensures totalInput == old(totalInput) + 1
      ensures out.Some? ==>
        && qualityKept == old(qualityKept) + 1 && filteredOut == old(filteredOut)
        && reasons == old(reasons)
      ensures out.None? ==>
        && qualityKept == old(qualityKept) && filteredOut == old(filteredOut) + 1
        && reasons == Tally.Inc(old(reasons), Assess(doc, pat).reason)
    {
      var score, reason := CalculateQualityScore(doc, pat);
      var clean := CleanText(doc.content, pat.nfkc);
      OutcomeOfVerdict(doc, pat, score, reason, clean);
      if score < Threshold || clean == [] {
        // a score of at least 0.5 implies a non-empty cleaned text, so the
        // `empty_after_cleaning` fallback of the source never gets counted here
        Reject(if score < Threshold then reason else EmptyAfterCleaning);
        return None;
      }
      out := Some(CleanDoc(doc.source, doc.filePath, clean, |Words(clean)|, score, doc.timestamp, doc.metadata));
      Accept();
    }

    /** The counters of a filtered document: one more input, one more filtered,
        one more under `reason`. */
    method Reject(reason: Reason)
      requires Valid()
      modifies this
      ensures Valid()
      ensures totalInput == old(totalInput) + 1 && qualityKept == old(qualityKept)
      ensures filteredOut == old(filteredOut) + 1 && reasons == Tally.Inc(old(reasons), reason)
    {
      totalInput := totalInput + 1;
      filteredOut := filteredOut + 1;
      reasons := Tally.Inc(reasons, reason);
    }

    /** The counters of a kept document: one more input, one more kept. */
    method Accept()
      requires Valid()
      modifies this
      ensures Valid()
      ensures totalInput == old(totalInput) + 1 && qualityKept == old(qualityKept) + 1
      ensures filteredOut == old(filteredOut) && reasons == old(reasons)
    {
      totalInput := totalInput + 1;
      qualityKept := qualityKept + 1;
    }

    /** Lines 416-431 of `clean_dataset`: one line of a split file. A blank line or
        one that is not JSON is skipped without being counted. */
    method ReadLine(line: Line<RawDoc>, pat: Patterns) returns (kept: seq<CleanDoc>)
      requires Valid()
      modifies this
      ensures Valid()
      ensures kept == Survivors(Found(line), pat)
      ensures totalInput == old(totalInput) + |Found(line)|
      ensures qualityKept == old(qualityKept) + |kept|
      ensures reasons == Tally.IncAll(old(reasons), Rejections(Found(line), pat))
    {
      if line.Record? {
        var doc := line.doc;
        assert Found(line) == [doc] && [doc][..0] == [];
        CountedReason(reasons, doc, pat);
        var out := ProcessDocument(doc, pat);
        kept := Present(out);
      } else {
        kept := [];
      }
    }

    /** The per-line loop of `clean_dataset` (lines 413-431) for one split file. */
    method CleanSplit(lines: seq<Line<RawDoc>>, pat: Patterns) returns (out: seq<CleanDoc>)
      requires Valid()
      modifies this
      ensures Valid()
      ensures out == Survivors(Docs(lines), pat)
      ensures totalInput == old(totalInput) + |Docs(lines)|
      ensures qualityKept == old(qualityKept) + |out|
      ensures reasons == Tally.IncAll(old(reasons), Rejections(Docs(lines), pat))
    {
      out := [];
      var i := 0;
      while i < |lines|
        invariant 0 <= i <= |lines|
        invariant Valid()
        invariant out == Survivors(Docs(lines[..i]), pat)
        invariant totalInput == old(totalInput) + |Docs(lines[..i])|
        invariant qualityKept == old(qualityKept) + |out|
        invariant reasons == Tally.IncAll(old(reasons), Rejections(Docs(lines[..i]), pat))
      {
        var kept := ReadLine(lines[i], pat);
        DocsPrefix(lines, i);
        CollectAppend(Docs(lines[..i]), Found(lines[i]), d => Outcome(d, pat));
        CollectAppend(Docs(lines[..i]), Found(lines[i]), d => Rejection(d, pat));
        Tally.IncAllAppend(old(reasons), Rejections(Docs(lines[..i]), pat), Rejections(Found(lines[i]), pat));
        out := out + kept;
        i := i + 1;
      }
      assert lines[..i] == lines;
    }
  }
}
