/**
 * The fixed regular-expression substitutions (`re.sub`) that the cleaners chain
 * together, each written out as a left-to-right scan that finds the same
 * leftmost matches the `re` engine finds. Every rewrite states where the
 * characters of its output come from: the input, or the literal it inserts.
 */
module Rewrite {
  import opened Text

  /** Keeps the characters satisfying `keep`: a `re.sub` of a single character class by ''. */
  function Filter(s: string, keep: char -> bool): (r: string)
    ensures forall i :: 0 <= i < |r| ==> keep(r[i])
    ensures forall c :: c in r ==> c in s
    ensures forall c :: c in s && keep(c) ==> c in r
  {
    if s == [] then [] else (if keep(s[0]) then [s[0]] else []) + Filter(s[1..], keep)
  }

  /** `re.sub(r'\s+', ' ', s)`: every maximal whitespace run becomes one space. */
  function CollapseSpace(s: string): (r: string)
    ensures forall c :: c in r ==> c in s || c == ' '
    ensures forall i :: 0 <= i < |r| && IsSpace(r[i]) ==> r[i] == ' '
    ensures forall i :: 0 <= i < |r| - 1 ==> !(IsSpace(r[i]) && IsSpace(r[i + 1]))
    ensures r == [] <==> s == []
    ensures r != [] ==> (IsSpace(r[0]) <==> IsSpace(s[0]))
    decreases |s|
  {
    if s == [] then []
    else if IsSpace(s[0]) then
      var w := TakeSpace(s);
      [' '] + CollapseSpace(s[|w|..])
    else [s[0]] + CollapseSpace(s[1..])
  }

  /** The rewrite `\n\s*\n\s*\n` -> "\n\n" inside one maximal whitespace run: a run
      holding three or more newlines keeps what precedes its first newline and what
      follows its last one, with "\n\n" between. */
  function BlankRun(run: string): string {
    if CountChar(run, '\n') >= 3 then
      run[..IndexOf(run, '\n')] + "\n\n" + run[LastIndexOf(run, '\n') + 1..]
    else run
  }

  /** `re.sub(r'\n\s*\n\s*\n', '\n\n', s)`; a match lies inside one whitespace run, so
      the rewrite works run by run. Without a newline in `s` it changes nothing. */
  function CollapseBlankLines(s: string): (r: string)
    ensures '\n' !in s ==> r == s
    decreases |s|
  {
    if s == [] then []
    else if IsSpace(s[0]) then
      var run := TakeSpace(s);
      assert s == run + s[|run|..];
      assert '\n' !in s ==> CountChar(run, '\n') == 0 by {
        if '\n' in run {
          var k :| 0 <= k < |run| && run[k] == '\n';
          assert s[k] == '\n';
        }
      }
      BlankRun(run) + CollapseBlankLines(s[|run|..])
    else
      assert s == [s[0]] + s[1..];
      [s[0]] + CollapseBlankLines(s[1..])
  }

  /** `s` with, when `fold` is set, ASCII letters lower-cased (the IGNORECASE flag). */
  function Fold(s: string, fold: bool): string {
    if fold then Lower(s) else s
  }

  lemma ContainsTail(s: string, p: string)
    requires s != [] && !Contains(s, p)
    ensures !Contains(s[1..], p)
  {
    forall i | 0 <= i <= |s[1..]| - |p| ensures !OccursAt(s[1..], p, i) {
      assert !OccursAt(s, p, i + 1);
      assert s[1..][i..i + |p|] == s[i + 1..i + 1 + |p|];
    }
  }

  /** `re.sub(open + '.*?' + close, '', s, flags=re.DOTALL)`: a block from `open` to the
      first `close` after it is dropped; an `open` with no `close` after it stays. */
  function RemoveDelimited(s: string, open: string, close: string, fold: bool): (r: string)
    requires open != []
    ensures forall c :: c in r ==> c in s
    ensures !fold && !Contains(s, open) ==> r == s
    decreases |s|
  {
    if s == [] then []
    else
      var k := if StartsWith(Fold(s, fold), open) then Find(Fold(s, fold), close, |open|) else -1;
      if k >= 0 then
        var r := RemoveDelimited(s[k + |close|..], open, close, fold);
        assert !fold ==> OccursAt(s, open, 0);
        r
      else
        assert !Contains(s, open) ==> !Contains(s[1..], open) by {
          if !Contains(s, open) { ContainsTail(s, open); }
        }
        [s[0]] + RemoveDelimited(s[1..], open, close, fold)
  }

  /** No `<[^>]+>` match is left in `s`: every '<' is followed directly by '>' or by
      no '>' at all. */
  predicate NoTag(s: string) {
    forall i | 0 <= i < |s| && s[i] == '<' :: (i + 1 < |s| && s[i + 1] == '>') || '>' !in s[i + 1..]
  }

  /** `re.sub(r'<[^>]+>', '', s)`: a '<' followed by at least one character and then
      the first '>' is dropped together with them. No match is left afterwards, and
      text without '<' is unchanged. */
  function RemoveTags(s: string): (r: string)
    ensures forall c :: c in r ==> c in s
    ensures NoTag(r)
    ensures '<' !in s ==> r == s
    ensures s != [] && s[0] != '<' ==> r != [] && r[0] == s[0]
    decreases |s|
  {
    if s == [] then []
    else
      var k := IndexOf(s, '>');
      if s[0] == '<' && 2 <= k < |s| then RemoveTags(s[k + 1..])
      else
        var rest := RemoveTags(s[1..]);
        var r := [s[0]] + rest;
        NoTagCons(s, rest);
        r
  }

  /** Putting back a kept first character in front of the rewritten remainder leaves no match. */
  lemma NoTagCons(s: string, rest: string)
    requires s != [] && NoTag(rest)
    requires forall c :: c in rest ==> c in s[1..]
    requires s[1..] != [] && s[1] != '<' ==> rest != [] && rest[0] == s[1]
    requires s[0] == '<' ==> (|s| > 1 && s[1] == '>') || '>' !in s[1..]
    ensures NoTag([s[0]] + rest)
  {
    var r := [s[0]] + rest;
    assert r[1..] == rest;
    forall i | 0 <= i < |r| && r[i] == '<'
      ensures (i + 1 < |r| && r[i + 1] == '>') || '>' !in r[i + 1..]
    {
      if i > 0 {
        assert r[i] == rest[i - 1] && r[i + 1..] == rest[i..];
      }
    }
  }

  /** Text with no tag left is a fixed point of `RemoveTags`. */
  lemma {:induction false} NoTagFixed(s: string)
    requires NoTag(s)
    ensures RemoveTags(s) == s
    decreases |s|
  {
    if s != [] {
      assert NoTag(s[1..]) by {
        forall i | 0 <= i < |s[1..]| && s[1..][i] == '<'
          ensures (i + 1 < |s[1..]| && s[1..][i + 1] == '>') || '>' !in s[1..][i + 1..]
        {
          assert s[i + 1] == '<' && s[1..][i + 1..] == s[i + 2..];
        }
      }
      NoTagFixed(s[1..]);
      if s[0] == '<' {
        if '>' !in s[1..] {
          assert IndexOf(s, '>') == |s|;
        }
      }
    }
  }

  /** Removing tags twice removes nothing more. */
  lemma RemoveTagsIdempotent(s: string)
    ensures RemoveTags(RemoveTags(s)) == RemoveTags(s)
  {
    NoTagFixed(RemoveTags(s));
  }

  /** Length of the `https?://` prefix of `s`, or 0 when there is none. */
  function UrlPrefix(s: string): nat {
    if StartsWith(s, "https://") then 8 else if StartsWith(s, "http://") then 7 else 0
  }

  /** `re.sub(r'https?://[^\s]+', '[URL]', s)`. */
  function ReplaceUrls(s: string): (r: string)
    ensures forall c :: c in r ==> c in s || c in "[URL]"
    decreases |s|
  {
    if s == [] then []
    else
      var p := UrlPrefix(s);
      if 0 < p < |s| && !IsSpace(s[p]) then
        var w := TakeWord(s[p..]);
        "[URL]" + ReplaceUrls(s[p + |w|..])
      else [s[0]] + ReplaceUrls(s[1..])
  }

  /** A whitespace-free token in which `\S+@\S+\.\S+` matches; the match then starts at
      the token's start and, the last `\S+` being greedy, runs to its end. */
  predicate LooksLikeEmail(t: string) {
    exists a, d | 1 <= a && a + 2 <= d <= |t| - 2 :: t[a] == '@' && t[d] == '.'
  }

  /** `re.sub(r'\S+@\S+\.\S+', '[EMAIL]', s)`, token by token. */
  function ReplaceEmails(s: string): (r: string)
    ensures forall c :: c in r ==> c in s || c in "[EMAIL]"
    decreases |s|
  {
    if s == [] then []
    else if IsSpace(s[0]) then [s[0]] + ReplaceEmails(s[1..])
    else
      var t := TakeWord(s);
      (if LooksLikeEmail(t) then "[EMAIL]" else t) + ReplaceEmails(s[|t|..])
  }

  /** The longest prefix of `s` made only of `c`. */
  function TakeRun(s: string, c: char): (w: string)
    ensures |w| <= |s| && w == s[..|w|]
    ensures forall i :: 0 <= i < |w| ==> w[i] == c
    ensures |w| == |s| || s[|w|] != c
    ensures s != [] && s[0] == c ==> w != []
  {
    if s != [] && s[0] == c then [c] + TakeRun(s[1..], c) else []
  }

  /** `re.sub(c + '{' + min + ',}', rep, s)`: every maximal run of `c` of length at
      least `min` becomes `rep`, itself a non-empty run of `c`. */
  function CollapseRun(s: string, c: char, min: nat, rep: string): (r: string)
    requires rep != [] && forall i :: 0 <= i < |rep| ==> rep[i] == c
    ensures forall x :: x in r ==> x in s
    ensures r == [] <==> s == []
    ensures s != [] ==> r[0] == s[0]
    decreases |s|
  {
    if s == [] then []
    else if s[0] == c then
      var run := TakeRun(s, c);
      (if |run| >= min then rep else run) + CollapseRun(s[|run|..], c, min, rep)
    else [s[0]] + CollapseRun(s[1..], c, min, rep)
  }

  /** Where `c` does not occur, `CollapseRun` changes nothing. */
  lemma {:induction false} CollapseRunAbsent(s: string, c: char, min: nat, rep: string)
    requires rep != [] && forall i :: 0 <= i < |rep| ==> rep[i] == c
    requires c !in s
    ensures CollapseRun(s, c, min, rep) == s
    decreases |s|
  {
    if s != [] {
      CollapseRunAbsent(s[1..], c, min, rep);
      assert s == [s[0]] + s[1..];
    }
  }
}
