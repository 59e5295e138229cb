/**
 * String primitives shared by every cleaner: Python's notion of whitespace,
 * `str.split()`, `str.strip()`, `str.split(sep)`, `str.find`, `str.lower()`
 * (ASCII letters only) and substring search, written over `seq<char>`.
 */
module Text {

  /** Python's `str.isspace()`, which is also what the `\s` class of `re` matches on str patterns. */
  predicate IsSpace(c: char) {
    || c == ' '
    || ('\t' <= c <= '\r')
    || ('\U{1C}' <= c <= '\U{1F}')
    || c == '\U{85}' || c == '\U{A0}' || c == '\U{1680}'
    || ('\U{2000}' <= c <= '\U{200A}')
    || c == '\U{2028}' || c == '\U{2029}' || c == '\U{202F}' || c == '\U{205F}' || c == '\U{3000}'
  }

  /** Every character of `s` satisfies `IsSpace`. */
  predicate AllSpace(s: string) {
    forall i :: 0 <= i < |s| ==> IsSpace(s[i])
  }

  /** No character of `s` is whitespace. */
  predicate NoSpace(s: string) {
    forall i :: 0 <= i < |s| ==> !IsSpace(s[i])
  }

  /** The set of characters occurring in `s`. */
  function Chars(s: string): set<char> {
    set c | c in s
  }

  lemma CharsConcat(a: string, b: string)
    ensures Chars(a + b) == Chars(a) + Chars(b)
  {
    assert forall c :: c in a + b <==> c in a || c in b;
  }

  lemma CharsSlice(s: string, i: int, j: int)
    requires 0 <= i <= j <= |s|
    ensures Chars(s[i..j]) <= Chars(s)
  {
    forall c | c in s[i..j] ensures c in s {
      var k :| 0 <= k < j - i && s[i..j][k] == c;
      assert s[i + k] == c;
    }
  }

  /** The longest prefix of `s` that holds no whitespace. */
  function TakeWord(s: string): (w: string)
    ensures |w| <= |s| && w == s[..|w|]
    ensures NoSpace(w)
    ensures |w| == |s| || IsSpace(s[|w|])
  {
    if s != [] && !IsSpace(s[0]) then [s[0]] + TakeWord(s[1..]) else []
  }

  /** The longest prefix of `s` that is all whitespace. */
  function TakeSpace(s: string): (w: string)
    ensures |w| <= |s| && w == s[..|w|]
    ensures AllSpace(w)
    ensures |w| == |s| || !IsSpace(s[|w|])
  {
    if s != [] && IsSpace(s[0]) then [s[0]] + TakeSpace(s[1..]) else []
  }

  /** `s` with its leading whitespace removed. */
  function DropSpace(s: string): (r: string)
    ensures |r| <= |s| && r == s[|s| - |r|..]
    ensures AllSpace(s[..|s| - |r|])
    ensures r == [] || !IsSpace(r[0])
  {
    s[|TakeSpace(s)|..]
  }

  /** The characters of `s` that are not whitespace, in order. */
  function Unspaced(s: string): string {
    if s == [] then [] else (if IsSpace(s[0]) then [] else [s[0]]) + Unspaced(s[1..])
  }

  lemma {:induction false} UnspacedAppend(a: string, b: string)
    ensures Unspaced(a + b) == Unspaced(a) + Unspaced(b)
    decreases |a|
  {
    if a == [] {
      assert a + b == b;
    } else {
      var head := if IsSpace(a[0]) then [] else [a[0]];
      assert (a + b)[0] == a[0] && (a + b)[1..] == a[1..] + b;
      assert Unspaced(a + b) == head + Unspaced(a[1..] + b);
      UnspacedAppend(a[1..], b);
      AppendAssoc(head, Unspaced(a[1..]), Unspaced(b));
    }
  }

  lemma {:induction false} UnspacedNoSpace(w: string)
    requires NoSpace(w)
    ensures Unspaced(w) == w
    decreases |w|
  {
    if w != [] {
      UnspacedNoSpace(w[1..]);
    }
  }

  /** Python's `s.split()`: the maximal runs of non-whitespace characters, in order.
      Each word is non-empty and whitespace-free, there is none exactly for blank
      text, and the words together are the non-whitespace characters of `s`. */
  function Words(s: string): (ws: seq<string>)
    ensures forall k :: 0 <= k < |ws| ==> ws[k] != [] && NoSpace(ws[k])
    ensures ws == [] <==> AllSpace(s)
    ensures Concat(ws) == Unspaced(s)
    decreases |s|
  {
    if s == [] then []
    else if IsSpace(s[0]) then
      AllSpaceSplit(s, 1);
      Words(s[1..])
    else
      var w := TakeWord(s);
      var rest := Words(s[|w|..]);
      assert s == w + s[|w|..];
      UnspacedAppend(w, s[|w|..]);
      UnspacedNoSpace(w);
      assert ([w] + rest)[1..] == rest;
      [w] + rest
  }

  /** A take of a word stops at whitespace, so what follows that whitespace does not matter. */
  lemma {:induction false} TakeWordBeforeSpace(a: string, t: string)
    requires t != [] && IsSpace(t[0])
    ensures TakeWord(a + t) == TakeWord(a)
    decreases |a|
  {
    if a != [] && !IsSpace(a[0]) {
      assert (a + t)[1..] == a[1..] + t;
      TakeWordBeforeSpace(a[1..], t);
    }
  }

  /** A whitespace character separates words: the words of `a + [c] + b` are those of
      `a` followed by those of `b`. With `WordsOfWord` this fixes `Words` on every string. */
  lemma {:induction false} WordsSplitAtSpace(a: string, c: char, b: string)
    requires IsSpace(c)
    ensures Words(a + [c] + b) == Words(a) + Words(b)
    decreases |a|
  {
    if a == [] {
      SplitAtSpaceFirst(c, b);
    } else if IsSpace(a[0]) {
      WordsSplitAtSpace(a[1..], c, b);
      SplitAtSpaceSkip(a, c, b);
    } else {
      WordsSplitAtSpace(a[|TakeWord(a)|..], c, b);
      SplitAtSpaceWord(a, c, b);
    }
  }

  /** The separator alone in front of `b` adds no word. */
  lemma SplitAtSpaceFirst(c: char, b: string)
    requires IsSpace(c)
    ensures Words([] + [c] + b) == Words([]) + Words(b)
  {
    assert [] + [c] + b == [c] + b && ([c] + b)[1..] == b;
  }

  /** Leading whitespace of `a` adds no word on either side. */
  lemma SplitAtSpaceSkip(a: string, c: char, b: string)
    requires IsSpace(c) && a != [] && IsSpace(a[0])
    requires Words(a[1..] + [c] + b) == Words(a[1..]) + Words(b)
    ensures Words(a + [c] + b) == Words(a) + Words(b)
  {
    assert (a + [c] + b)[1..] == a[1..] + [c] + b;
  }

  /** A word at the start of `a` comes first on both sides. */
  lemma SplitAtSpaceWord(a: string, c: char, b: string)
    requires IsSpace(c) && a != [] && !IsSpace(a[0])
    requires Words(a[|TakeWord(a)|..] + [c] + b) == Words(a[|TakeWord(a)|..]) + Words(b)
    ensures Words(a + [c] + b) == Words(a) + Words(b)
  {
    var w := TakeWord(a);
    var rest := a[|w|..];
    WordsAfterWord(a, c, b);
    AppendAssoc([w], Words(rest), Words(b));
  }

  lemma AppendAssoc<T>(x: seq<T>, y: seq<T>, z: seq<T>)
    ensures x + (y + z) == (x + y) + z
  {
  }

  /** A word at the start of `a` is the word at the start of `a + [c] + b`. */
  lemma WordsAfterWord(a: string, c: char, b: string)
    requires IsSpace(c) && a != [] && !IsSpace(a[0])
    ensures var w := TakeWord(a);
      && Words(a) == [w] + Words(a[|w|..])
      && Words(a + [c] + b) == [w] + Words(a[|w|..] + [c] + b)
  {
    var s := a + [c] + b;
    TakeWordBeforeSpace(a, [c] + b);
    assert s == a + ([c] + b);
    var w := TakeWord(a);
    assert s[|w|..] == a[|w|..] + [c] + b;
  }

  /** A non-empty whitespace-free string is a single word. */
  lemma WordsOfWord(w: string)
    requires w != [] && NoSpace(w)
    ensures Words(w) == [w]
  {
    assert TakeWord(w) == w;
    assert w[|w|..] == [];
  }

  /** `s` with trailing whitespace removed. */
  function DropSpaceEnd(s: string): (r: string)
    ensures |r| <= |s| && r == s[..|r|]
    ensures AllSpace(s[|r|..])
    ensures r == [] || !IsSpace(r[|r| - 1])
  {
    if s != [] && IsSpace(s[|s| - 1]) then
      var t := s[..|s| - 1];
      var r := DropSpaceEnd(t);
      assert forall k :: |r| <= k < |s| - 1 ==> s[k] == t[|r|..][k - |r|];
      assert s[..|r|] == t[..|r|];
      r
    else s
  }

  lemma InSlice(s: string, i: int, j: int)
    requires 0 <= i <= j <= |s|
    ensures forall c :: c in s[i..j] ==> c in s
  {
    forall c | c in s[i..j] ensures c in s {
      var k :| 0 <= k < j - i && s[i..j][k] == c;
      assert s[i + k] == c;
    }
  }

  lemma AllSpaceSplit(s: string, i: int)
    requires 0 <= i <= |s|
    ensures AllSpace(s) <==> AllSpace(s[..i]) && AllSpace(s[i..])
  {
    if AllSpace(s[..i]) && AllSpace(s[i..]) {
      forall k | 0 <= k < |s| ensures IsSpace(s[k]) {
        if k < i { assert s[k] == s[..i][k]; } else { assert s[k] == s[i..][k - i]; }
      }
    }
  }

  /** `s` neither starts nor ends with whitespace. */
  predicate Trimmed(s: string) {
    s == [] || (!IsSpace(s[0]) && !IsSpace(s[|s| - 1]))
  }

  /** Python's `s.strip()`: neither starts nor ends with whitespace, empty exactly
      when `s` is all whitespace, and made of characters of `s`. */
  function Strip(s: string): (r: string)
    ensures |r| <= |s|
    ensures Trimmed(r)
    ensures r == [] <==> AllSpace(s)
    ensures forall c :: c in r ==> c in s
    decreases |s|
  {
    if s != [] && IsSpace(s[0]) then
      AllSpaceSplit(s, 1);
      Strip(s[1..])
    else
      var r := DropSpaceEnd(s);
      assert r != [] ==> r[0] == s[0];
      AllSpaceSplit(s, |r|);
      r
  }

  /** `Strip` drops the leading whitespace, then the trailing whitespace: what it
      cuts is whitespace, from both ends only. */
  lemma {:induction false} StripDropsBothEnds(s: string)
    ensures Strip(s) == DropSpaceEnd(DropSpace(s))
    decreases |s|
  {
    if s != [] && IsSpace(s[0]) {
      StripDropsBothEnds(s[1..]);
      var w := TakeSpace(s[1..]);
      assert TakeSpace(s) == [s[0]] + w;
      assert s[1 + |w|..] == s[1..][|w|..];
    }
  }

  /** `p` is a prefix of `s` (Python's `s.startswith(p)`). */
  predicate StartsWith(s: string, p: string) {
    |p| <= |s| && s[..|p|] == p
  }

  /** `p` occurs in `s` at index `i`. */
  predicate OccursAt(s: string, p: string, i: int) {
    0 <= i && i + |p| <= |s| && s[i..i + |p|] == p
  }

  /** Python's `p in s` for strings. */
  predicate Contains(s: string, p: string) {
    exists i | 0 <= i <= |s| - |p| :: OccursAt(s, p, i)
  }

  /** Python's `s.find(p, start)` for `0 <= start`: the least index at or after `start`
      where `p` occurs, or -1. */
  function Find(s: string, p: string, start: nat): (r: int)
    ensures r == -1 || (start <= r && OccursAt(s, p, r))
    ensures r == -1 ==> forall i :: start <= i ==> !OccursAt(s, p, i)
    ensures r != -1 ==> forall i :: start <= i < r ==> !OccursAt(s, p, i)
    decreases |s| - start
  {
    if start + |p| > |s| then -1
    else if s[start..start + |p|] == p then start
    else Find(s, p, start + 1)
  }

  /** The index of the first occurrence of `c` in `s`, or |s|. */
  function IndexOf(s: string, c: char): (r: nat)
    ensures r <= |s|
    ensures r < |s| ==> s[r] == c
    ensures forall i :: 0 <= i < r ==> s[i] != c
  {
    if s == [] then 0 else if s[0] == c then 0 else 1 + IndexOf(s[1..], c)
  }

  /** The index of the last occurrence of `c` in `s`, or -1. */
  function LastIndexOf(s: string, c: char): (r: int)
    ensures -1 <= r < |s|
    ensures r >= 0 ==> s[r] == c
    ensures forall i :: r < i < |s| ==> s[i] != c
  {
    if s == [] then -1 else if s[|s| - 1] == c then |s| - 1 else LastIndexOf(s[..|s| - 1], c)
  }

  /** Python's `s.split(sep)` for a one-character separator: never empty, and the
      pieces joined with `sep` give `s` back. */
  function SplitOn(s: string, sep: char): (parts: seq<string>)
    ensures parts != []
    ensures forall k :: 0 <= k < |parts| ==> sep !in parts[k]
    ensures Join([sep], parts) == s
    decreases |s|
  {
    var i := IndexOf(s, sep);
    if i == |s| then [s]
    else
      var rest := SplitOn(s[i + 1..], sep);
      assert s == s[..i] + [sep] + s[i + 1..];
      [s[..i]] + rest
  }

  /** Python's `sep.join(parts)`. */
  function Join(sep: string, parts: seq<string>): string {
    if parts == [] then []
    else if |parts| == 1 then parts[0]
    else parts[0] + sep + Join(sep, parts[1..])
  }

  /** A character outside the separator occurs in a join exactly when it occurs in one of the parts. */
  lemma {:induction false} InJoin(sep: string, parts: seq<string>, c: char)
    requires c !in sep
    ensures c in Join(sep, parts) <==> exists k :: 0 <= k < |parts| && c in parts[k]
    decreases |parts|
  {
    if |parts| > 1 {
      var rest := parts[1..];
      InJoin(sep, rest, c);
      assert forall k :: 0 <= k < |rest| ==> rest[k] == parts[k + 1];
      if c in Join(sep, rest) {
        var k :| 0 <= k < |rest| && c in rest[k];
        assert c in parts[k + 1];
      }
    }
  }

  /** Python's `''.join(parts)`. */
  function Concat(parts: seq<string>): string {
    if parts == [] then [] else parts[0] + Concat(parts[1..])
  }

  /** ASCII upper-case letters map to lower case; every other character is kept. */
  function LowerChar(c: char): (l: char)
    ensures !('A' <= l <= 'Z')
  {
    if 'A' <= c <= 'Z' then (c as int + 32) as char else c
  }

  /** Python's `s.lower()`, restricted to ASCII case mapping. */
  function Lower(s: string): (r: string)
    ensures |r| == |s|
    ensures forall i :: 0 <= i < |r| ==> r[i] == LowerChar(s[i]) && !('A' <= r[i] <= 'Z')
  {
    seq(|s|, i requires 0 <= i < |s| => LowerChar(s[i]))
  }

  lemma {:induction false} LowerIdempotent(s: string)
    ensures Lower(Lower(s)) == Lower(s)
  {
    assert forall i :: 0 <= i < |s| ==> LowerChar(LowerChar(s[i])) == LowerChar(s[i]);
  }

  /** Lower-casing keeps the count of a character that is not an ASCII letter. */
  lemma {:induction false} CountCharLower(s: string, c: char)
    requires !('A' <= c <= 'Z') && !('a' <= c <= 'z')
    ensures CountChar(Lower(s), c) == CountChar(s, c)
    decreases |s|
  {
    if s != [] {
      assert Lower(s)[1..] == Lower(s[1..]);
      assert Lower(s)[0] == c <==> s[0] == c;
      CountCharLower(s[1..], c);
    }
  }

  /** Python's `s.count(c)` for one character. */
  function CountChar(s: string, c: char): (n: nat)
    ensures n <= |s|
    ensures n == 0 <==> c !in s
  {
    if s == [] then 0 else (if s[0] == c then 1 else 0) + CountChar(s[1..], c)
  }

  /** `any(p(s) for p in patterns)`: the pattern loops of the cleaners, each regular
      expression being given as a predicate on the text it searches. */
  function AnyMatch(patterns: seq<string -> bool>, s: string): (r: bool)
    ensures r <==> exists k :: 0 <= k < |patterns| && patterns[k](s)
  {
    if patterns == [] then false
    else patterns[0](s) || AnyMatch(patterns[1..], s)
  }
}
