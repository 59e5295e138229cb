/**
 * The string parsers and the statistics of `DataCollector`
 * (training-data/scripts/assemble.py): front matter, YouTube video ids, content
 * normalisation, the WebVTT transcript transform, the record of one file and the
 * totals over the collected files.
 */
module Assembly {
  import opened Text
  import opened Rewrite
  import opened Records

  // ---------------------------------------------------------------- _extract_metadata

  /** `line.split(':', 1)` with both halves stripped, when the line holds a ':': the
      key is the stripped text before the first ':', the value the stripped rest. */
  function PairOf(line: string): (r: Option<(string, string)>)
    ensures r.Some? <==> ':' in line
    ensures r.Some? ==> exists i | 0 <= i < |line| ::
      && line[i] == ':' && ':' !in line[..i]
      && r.value == (Strip(line[..i]), Strip(line[i + 1..]))
    ensures r.Some? ==> ':' !in r.value.0
    ensures r.Some? ==> |r.value.0| + |r.value.1| < |line|
  {
    var i := IndexOf(line, ':');
    if i == |line| then None
    else
      var key := Strip(line[..i]);
      assert ':' !in line[..i];
      Some((key, Strip(line[i + 1..])))
  }

  /** Already stripped text is its own strip. */
  lemma StripTrimmed(s: string)
    requires Trimmed(s)
    ensures Strip(s) == s
  {
    if s != [] {
      assert DropSpaceEnd(s) == s;
    }
  }

  /** Writing a stripped key without ':' and a stripped value as `key:value` and parsing
      the line gives the pair back. */
  lemma PairOfRoundTrip(key: string, value: string)
    requires ':' !in key && Trimmed(key) && Trimmed(value)
    ensures PairOf(key + ":" + value) == Some((key, value))
  {
    var line := key + ":" + value;
    assert line[|key|] == ':';
    assert forall j :: 0 <= j < |key| ==> line[j] == key[j];
    assert IndexOf(line, ':') == |key|;
    assert line[..|key|] == key && line[|key| + 1..] == value;
    StripTrimmed(key);
    StripTrimmed(value);
  }

  /** Lines 228-231: the pairs in order put into a dict, a later key overwriting an earlier one. */
  function Assign(pairs: seq<(string, string)>): map<string, string> {
    if pairs == [] then map[]
    else
      var last := pairs[|pairs| - 1];
      Assign(pairs[..|pairs| - 1])[last.0 := last.1]
  }

  /** A key is present exactly when some pair sets it. */
  lemma {:induction false} AssignKeys(pairs: seq<(string, string)>, key: string)
    ensures key in Assign(pairs) <==> exists j :: 0 <= j < |pairs| && pairs[j].0 == key
    decreases |pairs|
  {
    if pairs != [] {
      var p := pairs[..|pairs| - 1];
      AssignKeys(p, key);
      assert forall j :: 0 <= j < |p| ==> p[j] == pairs[j];
    }
  }

  /** A key's value is the one of the last pair that sets it. */
  lemma {:induction false} AssignLastWins(pairs: seq<(string, string)>, j: nat)
    requires j < |pairs|
    requires forall j' :: j < j' < |pairs| ==> pairs[j'].0 != pairs[j].0
    ensures pairs[j].0 in Assign(pairs) && Assign(pairs)[pairs[j].0] == pairs[j].1
    decreases |pairs|
  {
    var p := pairs[..|pairs| - 1];
    if j < |p| {
      assert forall j' :: j < j' < |p| ==> p[j'] == pairs[j'];
      AssignLastWins(p, j);
    }
  }

  /** The pairs of the front-matter lines, in line order. */
  function LinePairs(lines: seq<string>): seq<(string, string)> {
    Collect(lines, PairOf)
  }

  /** `_extract_metadata` as a value: empty unless `content` opens with `---` and a
      closing `---` follows at index 3 or later; then the pairs of the lines between. */
  function FrontMatter(content: string): (m: map<string, string>)
    ensures m != map[] ==> StartsWith(content, "---") && exists i :: 3 <= i && OccursAt(content, "---", i)
  {
    if !StartsWith(content, "---") then map[]
    else
      var e := Find(content, "---", 3);
      if e > 0 then Assign(LinePairs(SplitOn(Strip(content[3..e]), '\n'))) else map[]
  }

  lemma LinePairsStep(lines: seq<string>, i: nat)
    requires i < |lines|
    ensures LinePairs(lines[..i + 1]) == LinePairs(lines[..i]) + Present(PairOf(lines[i]))
  {
    assert lines[..i + 1][..i] == lines[..i];
  }

  lemma AssignSnoc(pairs: seq<(string, string)>, x: (string, string))
    ensures Assign(pairs + [x]) == Assign(pairs)[x.0 := x.1]
  {
    assert (pairs + [x])[..|pairs|] == pairs;
  }

  /** Lines 217-235: `_extract_metadata`. */
  method ExtractMetadata(content: string) returns (metadata: map<string, string>)
    ensures metadata == FrontMatter(content)
  {
    metadata := map[];
    if !StartsWith(content, "---") {
      return;
    }
    var e := Find(content, "---", 3);
    if e > 0 {
      metadata := ParseFrontMatter(SplitOn(Strip(content[3..e]), '\n'));
    }
  }

  /** Lines 228-231: the loop that fills the metadata dict. */
  method ParseFrontMatter(lines: seq<string>) returns (metadata: map<string, string>)
    ensures metadata == Assign(LinePairs(lines))
  {
    metadata := map[];
    var i := 0;
    while i < |lines|
      invariant 0 <= i <= |lines|
      invariant metadata == Assign(LinePairs(lines[..i]))
    {
      var pair := PairOf(lines[i]);
      LinePairsStep(lines, i);
      if pair.Some? {
        assert Present(pair) == [pair.value];
        AssignSnoc(LinePairs(lines[..i]), pair.value);
        metadata := metadata[pair.value.0 := pair.value.1];
        assert LinePairs(lines[..i + 1]) == LinePairs(lines[..i]) + [pair.value];
        assert metadata == Assign(LinePairs(lines[..i + 1]));
      } else {
        assert LinePairs(lines[..i + 1]) == LinePairs(lines[..i]) + [];
        assert LinePairs(lines[..i + 1]) == LinePairs(lines[..i]);
        assert metadata == Assign(LinePairs(lines[..i + 1]));
      }
      i := i + 1;
    }
    assert lines[..i] == lines;
  }

  // ---------------------------------------------------------------- _extract_video_id

  /** The characters of `s` before its first `c`. */
  function TakeUntil(s: string, c: char): (r: string)
    ensures c !in r && StartsWith(s, r)
    ensures |r| == |s| || s[|r|] == c
    ensures s != [] && s[0] != c ==> r != []
  {
    s[..IndexOf(s, c)]
  }

  /** `prefix + '([^' + stop + ']+)'` matches at `i`: the prefix occurs there and a
      character other than `stop` follows it. */
  predicate MatchAt(s: string, prefix: string, stop: char, i: int) {
    OccursAt(s, prefix, i) && i + |prefix| < |s| && s[i + |prefix|] != stop
  }

  /** `re.search(prefix + '([^' + stop + ']+)', s).group(1)` from index `start`, or ""
      when nothing matches: the leftmost match, its group running up to the next `stop`. */
  function Capture(s: string, prefix: string, stop: char, start: nat): (r: string)
    ensures r == "" <==> forall i :: start <= i ==> !MatchAt(s, prefix, stop, i)
    ensures r != "" ==> exists i :: && start <= i && MatchAt(s, prefix, stop, i)
                                    && (forall j :: start <= j < i ==> !MatchAt(s, prefix, stop, j))
                                    && r == TakeUntil(s[i + |prefix|..], stop)
    ensures stop !in r
    decreases |s| - start
  {
    if start + |prefix| >= |s| then ""
    else if s[start..start + |prefix|] == prefix && s[start + |prefix|] != stop then
      assert MatchAt(s, prefix, stop, start);
      TakeUntil(s[start + |prefix|..], stop)
    else Capture(s, prefix, stop, start + 1)
  }

  const WatchPrefix := "youtube.com/watch?v="
  const ShortPrefix := "youtu.be/"
  const EmbedPrefix := "youtube.com/embed/"

  /** The three URL shapes tried in order. */
  predicate WatchMatches(url: string) { exists i | 0 <= i < |url| :: MatchAt(url, WatchPrefix, '&', i) }
  predicate ShortMatches(url: string) { exists i | 0 <= i < |url| :: MatchAt(url, ShortPrefix, '?', i) }
  predicate EmbedMatches(url: string) { exists i | 0 <= i < |url| :: MatchAt(url, EmbedPrefix, '?', i) }

  /** A captured group is a piece of `s` that directly follows an occurrence of `prefix`. */
  lemma {:induction false} CaptureFollowsPrefix(s: string, prefix: string, stop: char, start: nat)
    ensures var r := Capture(s, prefix, stop, start);
      r != "" ==> exists i :: start <= i && OccursAt(s, prefix + r, i)
    decreases |s| - start
  {
    if start + |prefix| < |s| {
      if s[start..start + |prefix|] == prefix && s[start + |prefix|] != stop {
        var r := TakeUntil(s[start + |prefix|..], stop);
        assert s[start..start + |prefix| + |r|] == prefix + r;
        assert OccursAt(s, prefix + r, start);
      } else {
        CaptureFollowsPrefix(s, prefix, stop, start + 1);
      }
    }
  }

  /** `_extract_video_id`: the group of the first pattern that matches, else "". A
      non-empty id is a piece of the URL that directly follows one of the three prefixes. */
  function ExtractVideoId(url: string): (id: string)
    ensures id != "" ==>
      exists i :: 0 <= i && (OccursAt(url, WatchPrefix + id, i) || OccursAt(url, ShortPrefix + id, i) || OccursAt(url, EmbedPrefix + id, i))
  {
    CaptureFollowsPrefix(url, WatchPrefix, '&', 0);
    CaptureFollowsPrefix(url, ShortPrefix, '?', 0);
    CaptureFollowsPrefix(url, EmbedPrefix, '?', 0);
    var w := Capture(url, WatchPrefix, '&', 0);
    if w != "" then w
    else
      var b := Capture(url, ShortPrefix, '?', 0);
      if b != "" then b else Capture(url, EmbedPrefix, '?', 0)
  }

  /** The id is empty exactly when no shape matches; a `watch?v=` match wins and its
      id stops before '&'; otherwise a `youtu.be/` match wins; the other ids stop before '?'. */
  lemma VideoIdOrder(url: string)
    ensures ExtractVideoId(url) == "" <==> !WatchMatches(url) && !ShortMatches(url) && !EmbedMatches(url)
    ensures WatchMatches(url) ==> ExtractVideoId(url) == Capture(url, WatchPrefix, '&', 0) && '&' !in ExtractVideoId(url)
    ensures !WatchMatches(url) && ShortMatches(url) ==> ExtractVideoId(url) == Capture(url, ShortPrefix, '?', 0)
    ensures !WatchMatches(url) ==> '?' !in ExtractVideoId(url)
  {
    var w := Capture(url, WatchPrefix, '&', 0);
    var b := Capture(url, ShortPrefix, '?', 0);
    if WatchMatches(url) {
      var i :| MatchAt(url, WatchPrefix, '&', i);
      assert w != "";
    }
    if ShortMatches(url) {
      var i :| MatchAt(url, ShortPrefix, '?', i);
      assert b != "";
    }
    if EmbedMatches(url) {
      var i :| MatchAt(url, EmbedPrefix, '?', i);
      assert Capture(url, EmbedPrefix, '?', 0) != "";
    }
  }

  // ---------------------------------------------------------------- _clean_content

  /** No three newlines in a row. */
  predicate NoBlankRun(s: string) {
    forall i :: 0 <= i < |s| - 2 ==> !(s[i] == '\n' && s[i + 1] == '\n' && s[i + 2] == '\n')
  }

  /** No two spaces in a row. */
  predicate NoDoubleSpace(s: string) {
    forall i :: 0 <= i < |s| - 1 ==> !(s[i] == ' ' && s[i + 1] == ' ')
  }

  /** `_clean_content`: runs of three or more newlines become two, runs of two or more
      spaces one, HTML comments go, and the result is stripped. */
  function CleanContent(content: string): (r: string)
    ensures Trimmed(r)
    ensures forall c :: c in r ==> c in content
  {
    Strip(RemoveDelimited(Collapsed(content), "<!--", "-->", false))
  }

  /** Lines 240-241: the two run rules. */
  function Collapsed(content: string): (r: string)
    ensures forall c :: c in r ==> c in content
  {
    CollapseRun(CollapseRun(content, '\n', 3, "\n\n"), ' ', 2, " ")
  }

  /** After the newline rule no three newlines are adjacent. */
  lemma {:induction false} NewlineRunsCollapsed(s: string)
    ensures NoBlankRun(CollapseRun(s, '\n', 3, "\n\n"))
    decreases |s|
  {
    var r := CollapseRun(s, '\n', 3, "\n\n");
    if s != [] {
      if s[0] == '\n' {
        var run := TakeRun(s, '\n');
        var piece := if |run| >= 3 then "\n\n" else run;
        var rest := CollapseRun(s[|run|..], '\n', 3, "\n\n");
        NewlineRunsCollapsed(s[|run|..]);
        assert r == piece + rest;
        assert rest != [] ==> rest[0] == s[|run|] != '\n';
        forall i | 0 <= i < |r| - 2 ensures !(r[i] == '\n' && r[i + 1] == '\n' && r[i + 2] == '\n') {
          if i >= |piece| {
            var j := i - |piece|;
            assert r[i] == rest[j] && r[i + 1] == rest[j + 1] && r[i + 2] == rest[j + 2];
          } else {
            assert r[|piece|] == rest[0];
          }
        }
      } else {
        var rest := CollapseRun(s[1..], '\n', 3, "\n\n");
        NewlineRunsCollapsed(s[1..]);
        assert r == [s[0]] + rest;
        forall i | 0 <= i < |r| - 2 ensures !(r[i] == '\n' && r[i + 1] == '\n' && r[i + 2] == '\n') {
          if i > 0 {
            assert r[i] == rest[i - 1] && r[i + 1] == rest[i] && r[i + 2] == rest[i + 1];
          }
        }
      }
    }
  }

  /** After the space rule no two spaces are adjacent. */
  lemma {:induction false} SpaceRunsCollapsed(s: string)
    ensures NoDoubleSpace(CollapseRun(s, ' ', 2, " "))
    decreases |s|
  {
    var r := CollapseRun(s, ' ', 2, " ");
    if s != [] {
      if s[0] == ' ' {
        var run := TakeRun(s, ' ');
        var piece := if |run| >= 2 then " " else run;
        var rest := CollapseRun(s[|run|..], ' ', 2, " ");
        SpaceRunsCollapsed(s[|run|..]);
        assert |piece| == 1;
        assert r == piece + rest;
        assert rest != [] ==> rest[0] == s[|run|] != ' ';
        forall i | 0 <= i < |r| - 1 ensures !(r[i] == ' ' && r[i + 1] == ' ') {
          if i >= 1 {
            assert r[i] == rest[i - 1] && r[i + 1] == rest[i];
          } else {
            assert r[1] == rest[0];
          }
        }
      } else {
        var rest := CollapseRun(s[1..], ' ', 2, " ");
        SpaceRunsCollapsed(s[1..]);
        assert r == [s[0]] + rest;
        forall i | 0 <= i < |r| - 1 ensures !(r[i] == ' ' && r[i + 1] == ' ') {
          if i > 0 {
            assert r[i] == rest[i - 1] && r[i + 1] == rest[i];
          }
        }
      }
    }
  }

  lemma NoBlankRunSuffix(s: string, k: int)
    requires 0 <= k <= |s| && NoBlankRun(s)
    ensures NoBlankRun(s[k..])
  {
    var t := s[k..];
    forall i | 0 <= i < |t| - 2 ensures !(t[i] == '\n' && t[i + 1] == '\n' && t[i + 2] == '\n') {
      assert t[i] == s[k + i] && t[i + 1] == s[k + i + 1] && t[i + 2] == s[k + i + 2];
    }
  }

  /** The space rule never brings three newlines together. */
  lemma {:induction false} SpaceRuleKeepsNewlines(s: string)
    requires NoBlankRun(s)
    ensures NoBlankRun(CollapseRun(s, ' ', 2, " "))
    decreases |s|
  {
    var r := CollapseRun(s, ' ', 2, " ");
    if s != [] {
      if s[0] == ' ' {
        var run := TakeRun(s, ' ');
        var piece := if |run| >= 2 then " " else run;
        var rest := CollapseRun(s[|run|..], ' ', 2, " ");
        NoBlankRunSuffix(s, |run|);
        SpaceRuleKeepsNewlines(s[|run|..]);
        assert r == piece + rest;
        forall i | 0 <= i < |r| - 2 ensures !(r[i] == '\n' && r[i + 1] == '\n' && r[i + 2] == '\n') {
          if i >= |piece| {
            var j := i - |piece|;
            assert r[i] == rest[j] && r[i + 1] == rest[j + 1] && r[i + 2] == rest[j + 2];
          } else {
            assert r[i] == ' ';
          }
        }
      } else {
        var rest := CollapseRun(s[1..], ' ', 2, " ");
        NoBlankRunSuffix(s, 1);
        SpaceRuleKeepsNewlines(s[1..]);
        assert r == [s[0]] + rest;
        forall i | 0 <= i < |r| - 2 ensures !(r[i] == '\n' && r[i + 1] == '\n' && r[i + 2] == '\n') {
          if i > 0 {
            assert r[i] == rest[i - 1] && r[i + 1] == rest[i] && r[i + 2] == rest[i + 1];
          } else if s[0] == '\n' && rest != [] && rest[0] == '\n' {
            assert s[1] == '\n';
            var rest2 := CollapseRun(s[2..], ' ', 2, " ");
            assert s[1..][1..] == s[2..];
            assert rest == [s[1]] + rest2;
            if |rest| > 1 {
              assert rest[1] == rest2[0] == s[2];
            }
          }
        }
      }
    }
  }

  lemma ContainsSuffix(s: string, p: string, k: int)
    requires 0 <= k <= |s| && Contains(s[k..], p)
    ensures Contains(s, p)
  {
    var j :| 0 <= j <= |s[k..]| - |p| && OccursAt(s[k..], p, j);
    assert s[k..][j..j + |p|] == s[k + j..k + j + |p|];
    assert OccursAt(s, p, k + j);
  }

  /** A run rewrite keeps every prefix that avoids the run character. */
  lemma {:induction false} RunRuleKeepsPrefix(s: string, c: char, min: nat, rep: string, p: string)
    requires rep != [] && forall i :: 0 <= i < |rep| ==> rep[i] == c
    requires c !in p && StartsWith(CollapseRun(s, c, min, rep), p)
    ensures StartsWith(s, p)
    decreases |s|
  {
    if p != [] {
      var r := CollapseRun(s, c, min, rep);
      assert s != [] && r[0] == s[0] == p[0] != c;
      var rest := CollapseRun(s[1..], c, min, rep);
      assert r == [s[0]] + rest;
      assert rest[..|p| - 1] == r[..|p|][1..] == p[1..];
      RunRuleKeepsPrefix(s[1..], c, min, rep, p[1..]);
      assert s[..|p|] == [s[0]] + s[1..][..|p| - 1];
    }
  }

  /** An occurrence in `piece + rest` that starts past `piece` is one in `rest`. */
  lemma OccursPast(piece: string, rest: string, p: string, i: int)
    requires |piece| <= i && OccursAt(piece + rest, p, i)
    ensures OccursAt(rest, p, i - |piece|) && Contains(rest, p)
  {
    assert (piece + rest)[i..i + |p|] == rest[i - |piece|..i - |piece| + |p|];
    assert OccursAt(rest, p, i - |piece|);
  }

  /** A run rewrite creates no occurrence of a text that avoids the run character. */
  lemma {:induction false} RunRuleCreatesNothing(s: string, c: char, min: nat, rep: string, p: string)
    requires rep != [] && forall i :: 0 <= i < |rep| ==> rep[i] == c
    requires p != [] && c !in p && Contains(CollapseRun(s, c, min, rep), p)
    ensures Contains(s, p)
    decreases |s|
  {
    var r := CollapseRun(s, c, min, rep);
    var i :| 0 <= i <= |r| - |p| && OccursAt(r, p, i);
    if s[0] == c {
      var run := TakeRun(s, c);
      var piece := if |run| >= min then rep else run;
      assert r == piece + CollapseRun(s[|run|..], c, min, rep);
      assert r[i] == p[0] != c;
      OccursPast(piece, CollapseRun(s[|run|..], c, min, rep), p, i);
      RunRuleCreatesNothing(s[|run|..], c, min, rep, p);
      ContainsSuffix(s, p, |run|);
    } else if i == 0 {
      RunRuleKeepsPrefix(s, c, min, rep, p);
      assert OccursAt(s, p, 0);
    } else {
      assert r == [s[0]] + CollapseRun(s[1..], c, min, rep);
      OccursPast([s[0]], CollapseRun(s[1..], c, min, rep), p, i);
      RunRuleCreatesNothing(s[1..], c, min, rep, p);
      ContainsSuffix(s, p, 1);
    }
  }

  /** `strip()` returns a slice of its argument. */
  lemma {:induction false} StripIsSlice(s: string) returns (a: nat)
    ensures a + |Strip(s)| <= |s| && Strip(s) == s[a..a + |Strip(s)|]
    decreases |s|
  {
    if s != [] && IsSpace(s[0]) {
      var b := StripIsSlice(s[1..]);
      a := b + 1;
      assert s[1..][b..b + |Strip(s)|] == s[a..a + |Strip(s)|];
    } else {
      a := 0;
    }
  }

  /** Without an HTML comment in the input, the run rules leave no three newlines
      and no two spaces in a row, and create no comment either. */
  lemma CollapsedRuns(content: string)
    requires !Contains(content, "<!--")
    ensures NoBlankRun(Collapsed(content)) && NoDoubleSpace(Collapsed(content))
    ensures !Contains(Collapsed(content), "<!--")
  {
    var a := CollapseRun(content, '\n', 3, "\n\n");
    NewlineRunsCollapsed(content);
    SpaceRuleKeepsNewlines(a);
    SpaceRunsCollapsed(a);
    if Contains(a, "<!--") {
      RunRuleCreatesNothing(content, '\n', 3, "\n\n", "<!--");
    }
    if Contains(Collapsed(content), "<!--") {
      RunRuleCreatesNothing(a, ' ', 2, " ", "<!--");
    }
  }

  /** Stripping keeps both run properties, being a slice. */
  lemma StripKeepsRuns(b: string)
    requires NoBlankRun(b) && NoDoubleSpace(b)
    ensures NoBlankRun(Strip(b)) && NoDoubleSpace(Strip(b))
  {
    var r := Strip(b);
    var k := StripIsSlice(b);
    forall i | 0 <= i < |r| - 2 ensures !(r[i] == '\n' && r[i + 1] == '\n' && r[i + 2] == '\n') {
      assert r[i] == b[k + i] && r[i + 1] == b[k + i + 1] && r[i + 2] == b[k + i + 2];
    }
    forall i | 0 <= i < |r| - 1 ensures !(r[i] == ' ' && r[i + 1] == ' ') {
      assert r[i] == b[k + i] && r[i + 1] == b[k + i + 1];
    }
  }

  /** Without an HTML comment in the input, the cleaned content has no three newlines
      and no two spaces in a row. */
  lemma CleanContentRuns(content: string)
    requires !Contains(content, "<!--")
    ensures NoBlankRun(CleanContent(content)) && NoDoubleSpace(CleanContent(content))
  {
    var b := Collapsed(content);
    CollapsedRuns(content);
    assert RemoveDelimited(b, "<!--", "-->", false) == b;
    StripKeepsRuns(b);
  }

  // ---------------------------------------------------------------- _process_vtt_file

  /** Lines 150-155: a cue line with its tags removed and stripped; timing lines,
      blank lines and the `WEBVTT` header give nothing. */
  function VttLine(line: string): (r: Option<string>)
    ensures r.None? <==> Contains(line, "-->") || AllSpace(line) || StartsWith(line, "WEBVTT")
    ensures r.Some? ==> r.value == Strip(RemoveTags(line))
  {
    if Contains(line, "-->") || Strip(line) == [] || StartsWith(line, "WEBVTT") then None
    else Some(Strip(RemoveTags(line)))
  }

  /** Lines 158-159: the kept lines joined by spaces, every whitespace run made one space. */
  function Transcript(cleanLines: seq<string>): (text: string)
    ensures forall i :: 0 <= i < |text| && IsSpace(text[i]) ==> text[i] == ' '
    ensures forall i :: 0 <= i < |text| - 1 ==> !(IsSpace(text[i]) && IsSpace(text[i + 1]))
  {
    CollapseSpace(Join(" ", cleanLines))
  }

  /** Lines 146-159: the text saved for one subtitle file. */
  method ProcessVtt(content: string) returns (text: string)
    ensures text == Transcript(Collect(SplitOn(content, '\n'), VttLine))
  {
    var lines := SplitOn(content, '\n');
    var cleanLines: seq<string> := [];
    var i := 0;
    while i < |lines|
      invariant 0 <= i <= |lines|
      invariant cleanLines == Collect(lines[..i], VttLine)
    {
      assert lines[..i + 1][..i] == lines[..i];
      var line := lines[i];
      if !(Contains(line, "-->") || Strip(line) == [] || StartsWith(line, "WEBVTT")) {
        cleanLines := cleanLines + [Strip(RemoveTags(line))];
      }
      i := i + 1;
    }
    assert lines[..i] == lines;
    text := CollapseSpace(Join(" ", cleanLines));
  }

  // ---------------------------------------------------------------- _process_single_file

  /** The record of one documentation file. */
  datatype FileDoc = FileDoc(
    source: string, filePath: string, content: string, metadata: map<string, string>,
    wordCount: nat, timestamp: string)

  /** `_process_single_file`: the clock reading is the `timestamp` parameter. */
  method ProcessSingleFile(filePath: string, source: string, content: string, timestamp: string) returns (doc: FileDoc)
    ensures doc.source == source && doc.filePath == filePath && doc.timestamp == timestamp
    ensures doc.content == CleanContent(content) && doc.metadata == FrontMatter(content)
    ensures doc.wordCount == |Words(doc.content)|
  {
    var metadata := ExtractMetadata(content);
    var clean := CleanContent(content);
    doc := FileDoc(source, filePath, clean, metadata, |Words(clean)|, timestamp);
  }

  // ---------------------------------------------------------------- _generate_statistics

  /** The collected files, grouped by repository key in dict order. */
  type Collected = seq<(string, seq<FileDoc>)>

  /** Dict keys are distinct. */
  predicate DistinctKeys(groups: Collected) {
    forall i, j :: 0 <= i < j < |groups| ==> groups[i].0 != groups[j].0
  }

  /** `sum(doc['word_count'] for doc in documents)`. */
  function WordSum(docs: seq<FileDoc>): nat {
    if docs == [] then 0 else WordSum(docs[..|docs| - 1]) + docs[|docs| - 1].wordCount
  }

  /** The number of documents over all groups. */
  function DocCount(groups: Collected): nat {
    if groups == [] then 0 else DocCount(groups[..|groups| - 1]) + |groups[|groups| - 1].1|
  }

  /** The words over all groups. */
  function WordTotal(groups: Collected): nat {
    if groups == [] then 0 else WordTotal(groups[..|groups| - 1]) + WordSum(groups[|groups| - 1].1)
  }

  datatype SourceStats = SourceStats(documentCount: nat, wordCount: nat)

  /** `stats['sources']` after the groups in order. */
  function SourceTable(groups: Collected): map<string, SourceStats> {
    if groups == [] then map[]
    else
      var g := groups[|groups| - 1];
      SourceTable(groups[..|groups| - 1])[g.0 := SourceStats(|g.1|, WordSum(g.1))]
  }

  /** Each source gets its own group's count and word sum, and nothing else is listed. */
  lemma {:induction false} SourceTableEntries(groups: Collected)
    requires DistinctKeys(groups)
    ensures forall k :: 0 <= k < |groups| ==>
      groups[k].0 in SourceTable(groups)
      && SourceTable(groups)[groups[k].0] == SourceStats(|groups[k].1|, WordSum(groups[k].1))
    ensures forall s :: s in SourceTable(groups) ==> exists k :: 0 <= k < |groups| && groups[k].0 == s
    decreases |groups|
  {
    if groups != [] {
      var p := groups[..|groups| - 1];
      SourceTableEntries(p);
      assert forall k :: 0 <= k < |p| ==> p[k] == groups[k];
    }
  }

  /** The totals are the sums of the per-source entries, one group after another. */
  lemma {:induction false} TotalsAreSums(a: Collected, b: Collected)
    ensures DocCount(a + b) == DocCount(a) + DocCount(b)
    ensures WordTotal(a + b) == WordTotal(a) + WordTotal(b)
    decreases |b|
  {
    if b == [] {
      assert a + b == a;
    } else {
      var c := b[..|b| - 1];
      TotalsAreSums(a, c);
      assert (a + b)[..|a + b| - 1] == a + c;
    }
  }

  /** `_generate_statistics`: the totals and the per-source entries. */
  method GenerateStatistics(groups: Collected) returns (totalDocuments: nat, totalWords: nat, sources: map<string, SourceStats>)
    ensures totalDocuments == DocCount(groups) && totalWords == WordTotal(groups)
    ensures sources == SourceTable(groups)
  {
    totalDocuments, totalWords, sources := 0, 0, map[];
    var i := 0;
    while i < |groups|
      invariant 0 <= i <= |groups|
      invariant totalDocuments == DocCount(groups[..i]) && totalWords == WordTotal(groups[..i])
      invariant sources == SourceTable(groups[..i])
    {
      assert groups[..i + 1][..i] == groups[..i];
      var (source, documents) := groups[i];
      var wordCount := SumWordCounts(documents);
      totalDocuments := totalDocuments + |documents|;
      totalWords := totalWords + wordCount;
      sources := sources[source := SourceStats(|documents|, wordCount)];
      i := i + 1;
    }
    assert groups[..i] == groups;
  }

  /** Line 293: the generator sum over one group. */
  method SumWordCounts(docs: seq<FileDoc>) returns (total: nat)
    ensures total == WordSum(docs)
  {
    total := 0;
    var i := 0;
    while i < |docs|
      invariant 0 <= i <= |docs|
      invariant total == WordSum(docs[..i])
    {
      assert docs[..i + 1][..i] == docs[..i];
      total := total + docs[i].wordCount;
      i := i + 1;
    }
    assert docs[..i] == docs;
  }
}
