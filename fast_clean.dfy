/**
 * The second, faster gate `FastCleaner` (training-data/scripts/fast_clean.py):
 * a junk test by pattern and character proportions, a shorter rewrite chain, the
 * ordered keep decision, and the per-file counters.
 *
 * The junk regular expressions are parameters; the three proportion tests are
 * compared by cross-multiplying, so `count > len * 0.05` is `count * 20 > len`.
 */
module FastCleaning {
  import opened Text
  import opened Rewrite
  import opened Records

  /** An input record with the defaults of `doc.get(key, '')` applied. */
  datatype Doc = Doc(source: string, filePath: string, content: string, metadata: map<string, string>)

  /** A record written to the cleaned split. */
  datatype Cleaned = Cleaned(
    source: string, filePath: string, content: string, wordCount: nat, metadata: map<string, string>)

  const MinWords: nat := 30
  const MaxWords: nat := 20000
  /** `len(content.strip()) < 50` rejects. */
  const MinStrippedLength: nat := 50

  /** The character removed at line 87; every glyph of its class is U+FFFD. */
  const Replacement: char := '\U{FFFD}'

  const GoodSources: set<string> := {
    "mdn_content", "owasp", "openai_cookbook", "langchain", "huggingface_course",
    "react_docs", "vue_docs", "nextjs_docs", "kubernetes_docs", "system_design_primer",
    "clean_code_javascript", "javascript_algorithms", "python_patterns", "web_fundamentals"}

  const TechKeywords: seq<string> := [
    "function", "class", "import", "const", "let", "def", "public", "private",
    "algorithm", "implementation", "documentation", "example", "tutorial", "guide",
    "API", "method", "parameter", "return", "error", "testing", "security"]

  // ---------------------------------------------------------------- is_junk

  /** `is_junk`: a junk pattern found in the lower-cased text, more than 5% replacement
      characters, or more than 10% '<'. */
  predicate IsJunk(content: string, junk: seq<string -> bool>) {
    || AnyMatch(junk, Lower(content))
    || CountChar(content, Replacement) * 20 > |content|
    || CountChar(content, '<') * 10 > |content|
  }

  /** `is_junk` ignores ASCII case: the patterns search lower-cased text, and
      lower-casing keeps the length and the counts of U+FFFD and '<'. */
  lemma JunkIgnoresCase(content: string, junk: seq<string -> bool>)
    ensures IsJunk(Lower(content), junk) == IsJunk(content, junk)
  {
    LowerIdempotent(content);
    CountCharLower(content, Replacement);
    CountCharLower(content, '<');
  }

  // ---------------------------------------------------------------- clean_text

  predicate NotReplacement(c: char) {
    c != Replacement
  }

  /** `clean_text`: tags, URLs, whitespace runs, runs of three or more newlines,
      replacement characters, then `strip()`. */
  function FastCleanText(text: string): (r: string)
    ensures Trimmed(r)
    ensures forall c :: c in r ==> c != Replacement && (IsSpace(c) ==> c == ' ')
    ensures '\n' !in r
  {
    var spaced := CollapseSpace(ReplaceUrls(RemoveTags(text)));
    var r := Strip(Filter(CollapseRun(spaced, '\n', 3, "\n\n"), NotReplacement));
    assert IsSpace('\n');
    r
  }

  /** Every whitespace run is a single space by line 83, so the newline rule of
      line 84 never changes anything. */
  lemma NewlineRuleIsInert(text: string)
    ensures var spaced := CollapseSpace(ReplaceUrls(RemoveTags(text)));
      CollapseRun(spaced, '\n', 3, "\n\n") == spaced
  {
    var spaced := CollapseSpace(ReplaceUrls(RemoveTags(text)));
    assert IsSpace('\n');
    CollapseRunAbsent(spaced, '\n', 3, "\n\n");
  }

  // ---------------------------------------------------------------- should_keep

  /** Some technical keyword is a substring of the lower-cased content. */
  predicate HasKeyword(content: string) {
    exists k | 0 <= k < |TechKeywords| :: Contains(Lower(content), TechKeywords[k])
  }

  /** `should_keep`: the checks of lines 97-121 in their order. A document is kept
      exactly when it passes every check; only documents from outside the
      allow-list need a keyword. */
  predicate ShouldKeep(doc: Doc, junk: seq<string -> bool>)
    ensures ShouldKeep(doc, junk) <==>
      && doc.content != []
      && |Strip(doc.content)| >= MinStrippedLength
      && MinWords <= |Words(doc.content)| <= MaxWords
      && !IsJunk(doc.content, junk)
      && (doc.source in GoodSources || HasKeyword(doc.content))
  {
    if doc.content == [] || |Strip(doc.content)| < MinStrippedLength then false
    else if |Words(doc.content)| < MinWords || |Words(doc.content)| > MaxWords then false
    else if IsJunk(doc.content, junk) then false
    else if doc.source in GoodSources then true
    else HasKeyword(doc.content)
  }

  /** The stripped-length check implies the emptiness check: text with at least 50
      non-surrounding characters is never empty. */
  lemma ShortContentRejected(doc: Doc, junk: seq<string -> bool>)
    requires |Strip(doc.content)| < MinStrippedLength
    ensures !ShouldKeep(doc, junk)
  {
  }

  /** Lower-cased text holds no upper-case ASCII letter, so the keyword "API" never matches. */
  lemma UpperCaseKeywordNeverMatches(content: string)
    ensures !Contains(Lower(content), "API")
  {
    var l := Lower(content);
    forall i | 0 <= i <= |l| - 3 ensures !OccursAt(l, "API", i) {
      assert !('A' <= l[i] <= 'Z');
      assert l[i..i + 3][0] == l[i] != "API"[0];
    }
  }

  /** A keyword match is a match of one of the twenty lower-case keywords. */
  lemma HasKeywordIgnoresApi(content: string)
    ensures HasKeyword(content) <==>
      exists k | 0 <= k < |TechKeywords| :: TechKeywords[k] != "API" && Contains(Lower(content), TechKeywords[k])
  {
    UpperCaseKeywordNeverMatches(content);
  }

  // ---------------------------------------------------------------- process_file

  /** Lines 143-157: the record written for `doc`, if any. */
  function Emit(doc: Doc, junk: seq<string -> bool>): (out: Option<Cleaned>)
    ensures out.Some? ==> ShouldKeep(doc, junk)
    ensures out.Some? ==> out.value.content == FastCleanText(doc.content)
    ensures out.Some? ==> out.value.content != [] && out.value.wordCount == |Words(out.value.content)| >= MinWords
    ensures out.Some? ==> WellFormed(out.value)
    ensures ShouldKeep(doc, junk) && |Words(FastCleanText(doc.content))| >= MinWords ==> out.Some?
  {
    if ShouldKeep(doc, junk) then
      var content := FastCleanText(doc.content);
      if content != [] && |Words(content)| >= MinWords then
        Some(Cleaned(doc.source, doc.filePath, content, |Words(content)|, doc.metadata))
      else None
    else None
  }

  /** The records written for `docs`, in order. */
  function Written(docs: seq<Doc>, junk: seq<string -> bool>): (out: seq<Cleaned>)
    ensures |out| <= |docs|
  {
    Collect(docs, d => Emit(d, junk))
  }

  /** What a written record looks like. */
  predicate WellFormed(c: Cleaned) {
    && c.content != []
    && c.wordCount == |Words(c.content)| >= MinWords
    && '\n' !in c.content
    && Trimmed(c.content)
  }

  /** Every written record is non-empty, stripped, free of newlines, and carries
      its own word count of at least `MinWords`. */
  lemma WrittenWellFormed(docs: seq<Doc>, junk: seq<string -> bool>)
    ensures forall c :: c in Written(docs, junk) ==> WellFormed(c)
  {
    CollectAll(docs, d => Emit(d, junk), WellFormed);
  }

  /** Lines 136-160: one line of the file, counted when it decodes, and the record
      written for it. */
  method ReadLine(line: Line<Doc>, junk: seq<string -> bool>) returns (processed: nat, written: seq<Cleaned>)
    ensures processed == |Found(line)|
    ensures written == Written(Found(line), junk)
  {
    processed, written := 0, [];
    if line.Record? {
      var doc := line.doc;
      assert Found(line) == [doc] && [doc][..0] == [];
      processed := 1;
      written := Present(Emit(doc, junk));
    }
  }

  /** Lines 129-160: the loop over the lines of one file, counting the decoded ones. */
  method ReadFile(lines: seq<Line<Doc>>, junk: seq<string -> bool>) returns (processed: nat, written: seq<Cleaned>)
    ensures processed == |Docs(lines)|
    ensures written == Written(Docs(lines), junk)
  {
    processed, written := 0, [];
    var i := 0;
    while i < |lines|
      invariant 0 <= i <= |lines|
      invariant processed == |Docs(lines[..i])|
      invariant written == Written(Docs(lines[..i]), junk)
    {
      var n, w := ReadLine(lines[i], junk);
      DocsPrefix(lines, i);
      CollectAppend(Docs(lines[..i]), Found(lines[i]), d => Emit(d, junk));
      processed := processed + n;
      written := written + w;
      i := i + 1;
    }
    assert lines[..i] == lines;
  }

  /** `self.stats` of the cleaner. */
  class FastCleaner {
    var total: nat
    var kept: nat
    var filtered: nat

    ghost predicate Valid()
      reads this
    {
      total == kept + filtered
    }

    constructor ()
      ensures Valid() && total == 0 && kept == 0 && filtered == 0
    {
      total, kept, filtered := 0, 0, 0;
    }

    /** `process_file`: the records written for the decoded lines, and the counters.
        Blank lines and lines that are not JSON are not counted. With no decoded
        line the log message divides by zero before `self.stats` changes. */
    method ProcessFile(lines: seq<Line<Doc>>, junk: seq<string -> bool>) returns (res: Result<seq<Cleaned>>)
      requires Valid()
      modifies this
      ensures Valid()
      ensures Docs(lines) == [] ==>
        && res == Fail(ZeroDivision)
        && total == old(total) && kept == old(kept) && filtered == old(filtered)
      ensures Docs(lines) != [] ==>
        && res == Ok(Written(Docs(lines), junk))
        && total == old(total) + |Docs(lines)|
        && kept == old(kept) + |res.value|
        && filtered == old(filtered) + |Docs(lines)| - |res.value|
    {
      var processed, written := ReadFile(lines, junk);
      if processed == 0 {
        return Fail(ZeroDivision);
      }
      total := total + processed;
      kept := kept + |written|;
      filtered := filtered + (processed - |written|);
      res := Ok(written);
    }

    /** The retention rate of the summary (line 188): kept over total, which raises
        when nothing was processed. */
    function RetentionRate(): (r: Result<real>)
      reads this
      requires Valid()
      ensures total == 0 <==> r == Fail(ZeroDivision)
      ensures r.Ok? ==> 0.0 <= r.value <= 1.0 && r.value * total as real == kept as real
    {
      if total == 0 then Fail(ZeroDivision) else Ok(kept as real / total as real)
    }
  }
}
