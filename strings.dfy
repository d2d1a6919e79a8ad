/** The parts of Python's `str` behaviour that the pipeline relies on:
    character classes (over ASCII), `strip`, `split`/`join`, the word count
    `len(s.split())` and `os.path.basename`. */
module Strings {

  /** `str.isspace()` and the regular-expression class `\s` on ASCII:
      tab, line feed, vertical tab, form feed, carriage return, the four
      information separators U+001C..U+001F and the space. */
  predicate IsSpace(c: char) {
    ('\t' <= c <= '\r') || ('\U{1C}' <= c <= ' ')
  }

  /** The regular-expression class `\w` on ASCII. */
  predicate IsWordChar(c: char) {
    ('a' <= c <= 'z') || ('A' <= c <= 'Z') || ('0' <= c <= '9') || c == '_'
  }

  predicate IsUpperChar(c: char) { 'A' <= c <= 'Z' }

  predicate IsLowerChar(c: char) { 'a' <= c <= 'z' }

  /** `str.isupper()`: at least one cased character and no lower-case one. */
  predicate IsUpper(s: string) {
    (exists i :: 0 <= i < |s| && IsUpperChar(s[i])) &&
    (forall i :: 0 <= i < |s| ==> !IsLowerChar(s[i]))
  }

  predicate AllSpace(s: string) {
    forall i :: 0 <= i < |s| ==> IsSpace(s[i])
  }

  /** Neither the first nor the last character is whitespace. */
  predicate NoEdgeSpace(s: string) {
    s == [] || (!IsSpace(s[0]) && !IsSpace(s[|s| - 1]))
  }

  /** The index of the first non-whitespace character at or after `i`, or
      the length of `s` when there is none. */
  function SkipSpace(s: string, i: nat): (n: nat)
    requires i <= |s|
    ensures i <= n <= |s|
    ensures forall j :: i <= j < n ==> IsSpace(s[j])
    ensures n < |s| ==> !IsSpace(s[n])
    decreases |s| - i
  {
    if i < |s| && IsSpace(s[i]) then SkipSpace(s, i + 1) else i
  }

  /** The end of `s[lo..hi]` once its trailing whitespace is removed. */
  function SkipSpaceBack(s: string, lo: nat, hi: nat): (n: nat)
    requires lo <= hi <= |s|
    ensures lo <= n <= hi
    ensures forall j :: n <= j < hi ==> IsSpace(s[j])
    ensures n > lo ==> !IsSpace(s[n - 1])
    decreases hi - lo
  {
    if hi > lo && IsSpace(s[hi - 1]) then SkipSpaceBack(s, lo, hi - 1) else hi
  }

  /** `str.strip()`: `s` without its leading and trailing whitespace; what is
      removed on either side is whitespace only, and what is kept is the
      infix of `s` that starts at its first non-whitespace character. */
  function Strip(s: string): (r: string)
    ensures NoEdgeSpace(r)
    ensures |r| <= |s|
    ensures var k := SkipSpace(s, 0);
      k + |r| <= |s| && r == s[k..k + |r|] && AllSpace(s[..k]) && AllSpace(s[k + |r|..])
  {
    var lo := SkipSpace(s, 0);
    var hi := SkipSpaceBack(s, lo, |s|);
    s[lo..hi]
  }

  /** `sep.join(parts)`. */
  function Join(sep: string, parts: seq<string>): string
    decreases |parts|
  {
    if parts == [] then ""
    else if |parts| == 1 then parts[0]
    else parts[0] + sep + Join(sep, parts[1..])
  }

  /** `s.split(c)` for a one-character separator: the maximal runs between
      occurrences of `c`, so there is always at least one part and no part
      contains `c`. */
  function Split(s: string, c: char): (parts: seq<string>)
    ensures |parts| >= 1
    ensures forall i :: 0 <= i < |parts| ==> c !in parts[i]
    decreases |s|
  {
    if s == [] then [""]
    else
      var rest := Split(s[1..], c);
      if s[0] == c then [""] + rest
      else [[s[0]] + rest[0]] + rest[1..]
  }

  /** Joining two non-empty lists of parts puts one separator between them. */
  lemma {:induction false} JoinAppend(sep: string, a: seq<string>, b: seq<string>)
    requires a != [] && b != []
    ensures Join(sep, a + b) == Join(sep, a) + sep + Join(sep, b)
    decreases |a|
  {
    if |a| == 1 {
      assert a + b == [a[0]] + b;
      assert (a + b)[1..] == b;
    } else {
      assert (a + b)[1..] == a[1..] + b;
      JoinAppend(sep, a[1..], b);
    }
  }

  /** Round trip: joining the parts of a split with the separator gives the text back. */
  lemma {:induction false} JoinSplit(s: string, c: char)
    ensures Join([c], Split(s, c)) == s
    decreases |s|
  {
    if s != [] {
      var rest := Split(s[1..], c);
      JoinSplit(s[1..], c);
      if s[0] == c {
        JoinAppend([c], [""], rest);
      } else if |rest| == 1 {
        assert Split(s, c) == [[s[0]] + rest[0]];
      } else {
        var parts := Split(s, c);
        assert parts[1..] == rest[1..];
        assert Join([c], rest) == rest[0] + [c] + Join([c], rest[1..]);
      }
    }
  }

  /** Round trip the other way: splitting a join of parts free of the separator
      gives the parts back. */
  lemma {:induction false} SplitJoin(parts: seq<string>, c: char)
    requires parts != []
    requires forall i :: 0 <= i < |parts| ==> c !in parts[i]
    ensures Split(Join([c], parts), c) == parts
    decreases |parts|, |parts[0]|
  {
    var p := parts[0];
    if p == [] {
      if |parts| > 1 {
        SplitJoin(parts[1..], c);
        assert Join([c], parts) == [c] + Join([c], parts[1..]);
        assert Join([c], parts)[1..] == Join([c], parts[1..]);
      }
    } else {
      var tail := [p[1..]] + parts[1..];
      assert tail[1..] == parts[1..];
      SplitJoin(tail, c);
      assert Join([c], parts) == [p[0]] + Join([c], tail) by {
        if |parts| > 1 {
          assert Join([c], tail) == p[1..] + [c] + Join([c], parts[1..]);
        }
        assert p == [p[0]] + p[1..];
      }
      assert Join([c], parts)[1..] == Join([c], tail);
      assert [p[0]] + p[1..] == p;
      assert [p] + parts[1..] == parts;
    }
  }

  /** Counts the words of `s` when the character before `s` was a word
      character (`inWord`) or not. */
  function CountWords(s: string, inWord: bool): nat
    decreases |s|
  {
    if s == [] then 0
    else if IsSpace(s[0]) then CountWords(s[1..], false)
    else (if inWord then 0 else 1) + CountWords(s[1..], true)
  }

  /** `len(s.split())`: the number of maximal runs of non-whitespace. */
  function WordCount(s: string): nat {
    CountWords(s, false)
  }

  /** Whether the text ends inside a word, given whether it started inside one. */
  function EndsInWord(s: string, inWord: bool): bool {
    if s == [] then inWord else !IsSpace(s[|s| - 1])
  }

  lemma {:induction false} CountWordsAppend(a: string, b: string, inWord: bool)
    ensures CountWords(a + b, inWord) == CountWords(a, inWord) + CountWords(b, EndsInWord(a, inWord))
    decreases |a|
  {
    if a == [] {
      assert a + b == b;
    } else {
      assert (a + b)[0] == a[0];
      assert (a + b)[1..] == a[1..] + b;
      CountWordsAppend(a[1..], b, !IsSpace(a[0]));
      assert EndsInWord(a[1..], !IsSpace(a[0])) == EndsInWord(a, inWord);
    }
  }

  lemma {:induction false} CountWordsAfterSpace(w: string, b: string, inWord: bool)
    requires w != [] && AllSpace(w)
    ensures CountWords(w + b, inWord) == WordCount(b)
    decreases |w|
  {
    assert (w + b)[1..] == w[1..] + b;
    if |w| > 1 {
      CountWordsAfterSpace(w[1..], b, false);
    } else {
      assert w[1..] + b == b;
    }
  }

  /** Whitespace between two texts separates their words: the word counts add up. */
  lemma WordCountSeparated(a: string, sep: string, b: string)
    requires sep != [] && AllSpace(sep)
    ensures WordCount(a + sep + b) == WordCount(a) + WordCount(b)
  {
    assert a + sep + b == a + (sep + b);
    CountWordsAppend(a, sep + b, false);
    CountWordsAfterSpace(sep, b, EndsInWord(a, false));
  }

  lemma {:induction false} CountWordsNoSpace(w: string, inWord: bool)
    requires forall i :: 0 <= i < |w| ==> !IsSpace(w[i])
    ensures CountWords(w, inWord) == if w == [] || inWord then 0 else 1
    decreases |w|
  {
    if w != [] {
      CountWordsNoSpace(w[1..], true);
    }
  }

  lemma {:induction false} CountWordsAllSpace(sp: string, inWord: bool)
    requires AllSpace(sp)
    ensures CountWords(sp, inWord) == 0
    decreases |sp|
  {
    if sp != [] {
      CountWordsAllSpace(sp[1..], false);
    }
  }

  /** The base cases of `len(s.split())`: a non-empty text without
      whitespace is one word, and whitespace alone is none. With
      `WordCountSeparated` this determines the count of every text. */
  lemma WordCountBase(w: string, sp: string)
    requires w != [] && forall i :: 0 <= i < |w| ==> !IsSpace(w[i])
    requires AllSpace(sp)
    ensures WordCount(w) == 1
    ensures WordCount(sp) == 0
  {
    CountWordsNoSpace(w, false);
    CountWordsAllSpace(sp, false);
  }

  /** Where the last path component of `path[..i]` starts: just after the
      last '/' before `i`, or 0. */
  function NameStart(path: string, i: nat): (k: nat)
    requires i <= |path|
    ensures k <= i
    ensures forall j :: k <= j < i ==> path[j] != '/'
    ensures k > 0 ==> path[k - 1] == '/'
    decreases i
  {
    if i == 0 || path[i - 1] == '/' then i else NameStart(path, i - 1)
  }

  /** `os.path.basename`: the longest suffix of `path` that holds no `/`. */
  function Basename(path: string): string {
    path[NameStart(path, |path|)..]
  }

  /** The base name holds no '/', is a suffix of the path, and is either the
      whole path or preceded by a '/'. */
  lemma BasenameSpec(path: string)
    ensures var name := Basename(path);
      '/' !in name && |name| <= |path| && name == path[|path| - |name|..] &&
      (|name| < |path| ==> path[|path| - |name| - 1] == '/')
  {
  }
}
