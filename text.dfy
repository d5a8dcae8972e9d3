/**
 * String primitives shared by every stage of the pipeline: an ASCII model of
 * the Rust `str` methods the generator relies on (`trim`, `starts_with`,
 * `find`, `split`, `join`, `lines`, `replace`, `to_lowercase`, ...).
 *
 * Strings are sequences of characters and an index into a string is a
 * character index; for the ASCII text this model is about it coincides with
 * Rust's byte offsets.
 */
module Text {

  type String = seq<char>

  datatype Option<T> = None | Some(value: T)

  // ---------------------------------------------------------------------
  // Characters
  // ---------------------------------------------------------------------

  /** ASCII model of `char::is_whitespace`. */
  predicate IsWhitespace(c: char) {
    c == ' ' || c == '\t' || c == '\n' || c == '\r' || c == '\U{B}' || c == '\U{C}'
  }

  /** ASCII model of `char::is_alphanumeric`. */
  predicate IsAlphanumeric(c: char) {
    ('a' <= c <= 'z') || ('A' <= c <= 'Z') || ('0' <= c <= '9')
  }

  predicate IsDigit(c: char) {
    '0' <= c <= '9'
  }

  /** ASCII model of `char::to_lowercase`. */
  function LowerChar(c: char): (r: char)
    ensures !('A' <= r <= 'Z')
    ensures IsAlphanumeric(r) <==> IsAlphanumeric(c)
    ensures IsWhitespace(r) <==> IsWhitespace(c)
    ensures !('A' <= c <= 'Z') ==> r == c
  {
    if 'A' <= c <= 'Z' then (c as int + 32) as char else c
  }

  /** ASCII model of `str::to_lowercase`. */
  function ToLower(s: String): (r: String)
    ensures |r| == |s|
    ensures forall i :: 0 <= i < |s| ==> r[i] == LowerChar(s[i])
  {
    seq(|s|, i requires 0 <= i < |s| => LowerChar(s[i]))
  }

  // ---------------------------------------------------------------------
  // Prefixes, suffixes and trimming
  // ---------------------------------------------------------------------

  predicate StartsWith(s: String, p: String) {
    |p| <= |s| && s[..|p|] == p
  }

  predicate EndsWith(s: String, p: String) {
    |p| <= |s| && s[|s| - |p|..] == p
  }

  /** The index of the first non-whitespace character at or after `i`, or `|s|`. */
  function SkipWhitespace(s: String, i: nat): (k: nat)
    requires i <= |s|
    ensures i <= k <= |s|
    ensures forall j :: i <= j < k ==> IsWhitespace(s[j])
    ensures k < |s| ==> !IsWhitespace(s[k])
    decreases |s| - i
  {
    if i < |s| && IsWhitespace(s[i]) then SkipWhitespace(s, i + 1) else i
  }

  /** The index just after the last non-whitespace character before `j`, or 0. */
  function SkipWhitespaceBack(s: String, j: nat): (k: nat)
    requires j <= |s|
    ensures k <= j
    ensures forall i :: k <= i < j ==> IsWhitespace(s[i])
    ensures k > 0 ==> !IsWhitespace(s[k - 1])
  {
    if j > 0 && IsWhitespace(s[j - 1]) then SkipWhitespaceBack(s, j - 1) else j
  }

  /** `str::trim_start`: drops the leading whitespace and nothing else. */
  function TrimStart(s: String): String
  {
    s[SkipWhitespace(s, 0)..]
  }

  /** `str::trim_end`: drops the trailing whitespace and nothing else. */
  function TrimEnd(s: String): String
  {
    s[..SkipWhitespaceBack(s, |s|)]
  }

  /** `str::trim`. */
  function Trim(s: String): String
  {
    TrimEnd(TrimStart(s))
  }

  /** The index after the repetitions of `p` that start at `i`. */
  function SkipMatches(s: String, p: String, i: nat): (k: nat)
    requires |p| > 0 && i <= |s|
    ensures i <= k <= |s| && !MatchAt(s, p, k)
    decreases |s| - i
  {
    if MatchAt(s, p, i) then SkipMatches(s, p, i + |p|) else i
  }

  /** The index before the repetitions of `p` that end at `j`. */
  function SkipMatchesBack(s: String, p: String, j: nat): (k: nat)
    requires |p| > 0 && j <= |s|
    ensures k <= j
  {
    if |p| <= j && MatchAt(s, p, j - |p|) then SkipMatchesBack(s, p, j - |p|) else j
  }

  /** `str::trim_start_matches` with a non-empty string pattern: strips every repetition of `p` at the front. */
  function TrimStartMatches(s: String, p: String): String
    requires |p| > 0
  {
    s[SkipMatches(s, p, 0)..]
  }

  /** `str::trim_end_matches` with a non-empty string pattern: strips every repetition of `p` at the back. */
  function TrimEndMatches(s: String, p: String): String
    requires |p| > 0
  {
    s[..SkipMatchesBack(s, p, |s|)]
  }

  /** The number of `'#'`s `s` starts with. */
  function HashRun(s: String): (n: nat)
    ensures n <= |s|
    ensures forall k :: 0 <= k < n ==> s[k] == '#'
    ensures n < |s| ==> s[n] != '#'
  {
    if s != [] && s[0] == '#' then 1 + HashRun(s[1..]) else 0
  }

  /** A run of `'#'`s not followed by another `'#'` is the hash run. */
  lemma {:induction false} HashRunUnique(s: String, n: nat)
    requires n <= |s| && (forall k :: 0 <= k < n ==> s[k] == '#')
    requires n == |s| || s[n] != '#'
    ensures HashRun(s) == n
  {
    if n > 0 {
      HashRunUnique(s[1..], n - 1);
    }
  }

  /** A concatenation starts with its left part. */
  lemma StartsWithConcat(a: String, b: String)
    ensures StartsWith(a + b, a)
  {
    assert (a + b)[..|a|] == a;
  }

  /** A prefix of `x` is a prefix of anything `x` starts. */
  lemma StartsWithExtend(x: String, y: String, p: String)
    requires StartsWith(x, p)
    ensures StartsWith(x + y, p)
  {
    assert (x + y)[..|p|] == x[..|p|];
  }

  /** Putting the same text in front keeps a prefix a prefix. */
  lemma StartsWithPrepend(h: String, s: String, p: String)
    requires StartsWith(s, p)
    ensures StartsWith(h + s, h + p)
  {
    assert (h + s)[..|h + p|] == h + s[..|p|];
  }

  /** A concatenation ends with its right part. */
  lemma EndsWithConcat(a: String, b: String)
    ensures EndsWith(a + b, b)
  {
    assert (a + b)[|a|..] == b;
  }

  lemma AppendAssoc<T>(a: seq<T>, b: seq<T>, c: seq<T>)
    ensures (a + b) + c == a + (b + c)
  {
  }

  // ---------------------------------------------------------------------
  // Searching
  // ---------------------------------------------------------------------

  /** `p` occurs in `s` at index `j`. */
  predicate MatchAt(s: String, p: String, j: nat) {
    j + |p| <= |s| && s[j..j + |p|] == p
  }

  /** The first index at or after `from` where `p` occurs (`str::find` on `s[from..]`, made absolute). */
  function FindFrom(s: String, p: String, from: nat): (r: Option<nat>)
    requires from <= |s|
    ensures r.Some? ==> from <= r.value && MatchAt(s, p, r.value)
    ensures r.Some? ==> forall j :: from <= j < r.value ==> !MatchAt(s, p, j)
    ensures r.None? ==> forall j :: from <= j <= |s| ==> !MatchAt(s, p, j)
    decreases |s| - from
  {
    if MatchAt(s, p, from) then Some(from)
    else if from == |s| then None
    else FindFrom(s, p, from + 1)
  }

  /** `str::find`. */
  function Find(s: String, p: String): (r: Option<nat>)
    ensures r.Some? ==> MatchAt(s, p, r.value) && forall j :: 0 <= j < r.value ==> !MatchAt(s, p, j)
    ensures r.None? ==> forall j :: 0 <= j <= |s| ==> !MatchAt(s, p, j)
  {
    FindFrom(s, p, 0)
  }

  /** Each character an occurrence covers is a character of the pattern. */
  lemma MatchCovers(s: String, p: String, q: nat, k: nat)
    requires MatchAt(s, p, q) && q <= k < q + |p|
    ensures s[k] in p
  {
    assert s[k] == s[q..q + |p|][k - q];
  }

  /** Searching from `i` finds what searching from `j` does when nothing occurs in between. */
  lemma {:induction false} FindFromSkip(s: String, p: String, i: nat, j: nat)
    requires i <= j <= |s|
    requires forall q :: i <= q < j ==> !MatchAt(s, p, q)
    ensures FindFrom(s, p, i) == FindFrom(s, p, j)
    decreases j - i
  {
    if i < j {
      FindFromSkip(s, p, i + 1, j);
    }
  }

  /** Searching `a + b` past `a` is searching `b`, shifted by `|a|`. */
  lemma {:induction false} FindFromShift(a: String, b: String, p: String, from: nat)
    requires from <= |b|
    ensures FindFrom(a + b, p, |a| + from) ==
      var f := FindFrom(b, p, from);
      if f.Some? then Some(|a| + f.value) else None
    decreases |b| - from
  {
    if from + |p| <= |b| {
      assert (a + b)[|a| + from..|a| + from + |p|] == b[from..from + |p|];
    }
    if from < |b| {
      FindFromShift(a, b, p, from + 1);
    }
  }

  /** An occurrence cannot cover a character that is not in the pattern. */
  lemma MissNoMatch(s: String, p: String, q: nat, k: nat)
    requires q <= k < q + |p| && k < |s| && s[k] !in p
    ensures !MatchAt(s, p, q)
  {
    if MatchAt(s, p, q) {
      MatchCovers(s, p, q, k);
    }
  }

  /** No occurrence of `pat` can start inside `p`, whatever text follows it. */
  predicate Barren(p: String, pat: String) {
    && (forall q :: 0 <= q < |p| ==> !MatchAt(p, pat, q))
    && (p == [] || p[|p| - 1] !in pat)
  }

  lemma BarrenNoMatch(p: String, r: String, pat: String)
    requires Barren(p, pat)
    ensures forall q :: 0 <= q < |p| ==> !MatchAt(p + r, pat, q)
  {
    forall q | 0 <= q < |p| ensures !MatchAt(p + r, pat, q) {
      if q + |pat| <= |p| {
        assert (p + r)[q..q + |pat|] == p[q..q + |pat|];
        assert !MatchAt(p, pat, q);
      } else {
        assert (p + r)[|p| - 1] == p[|p| - 1];
        MissNoMatch(p + r, pat, q, |p| - 1);
      }
    }
  }

  /** The text before the first `pat`, followed by a non-empty text without its characters, is barren. */
  lemma BarrenSplice(s: String, pat: String, start: nat, rep: String)
    requires |pat| > 0 && start <= |s| && forall q :: 0 <= q < start ==> !MatchAt(s, pat, q)
    requires |rep| > 0 && forall k :: 0 <= k < |rep| ==> rep[k] !in pat
    ensures Barren(s[..start] + rep, pat)
  {
    var p := s[..start] + rep;
    forall q | 0 <= q < |p| ensures !MatchAt(p, pat, q) {
      if q + |pat| <= start {
        assert p[q..q + |pat|] == s[q..q + |pat|];
        assert !MatchAt(s, pat, q);
      } else {
        var k := if q < start then start else q;
        assert p[k] == rep[k - start];
        MissNoMatch(p, pat, q, k);
      }
    }
    assert p[|p| - 1] == rep[|rep| - 1];
  }

  /** `str::contains`. */
  predicate Contains(s: String, p: String) {
    Find(s, p).Some?
  }

  lemma ContainsIff(s: String, p: String)
    ensures Contains(s, p) <==> exists j :: 0 <= j <= |s| && MatchAt(s, p, j)
  {
  }

  // ---------------------------------------------------------------------
  // Splitting and joining
  // ---------------------------------------------------------------------

  /** `parts.join(sep)`. */
  function Join(parts: seq<String>, sep: String): String
  {
    if |parts| == 0 then []
    else if |parts| == 1 then parts[0]
    else parts[0] + sep + Join(parts[1..], sep)
  }

  /** `s.split(sep)` for a single-character separator: the pieces between separators, empty ones included. */
  function Split(s: String, sep: char): (parts: seq<String>)
    ensures |parts| >= 1
    ensures forall i :: 0 <= i < |parts| ==> sep !in parts[i]
    ensures Join(parts, [sep]) == s
    decreases |s|
  {
    match Find(s, [sep])
    case None =>
      forall j | 0 <= j < |s| ensures s[j] != sep {
        assert !MatchAt(s, [sep], j) && s[j..j + 1] == [s[j]];
      }
      [s]
    case Some(k) =>
      forall j | 0 <= j < k ensures s[..k][j] != sep {
        assert !MatchAt(s, [sep], j) && s[j..j + 1] == [s[j]];
      }
      assert s[k..k + 1] == [sep];
      var rest := Split(s[k + 1..], sep);
      assert s == s[..k] + [sep] + s[k + 1..];
      [s[..k]] + rest
  }

  /** A slice grown by one element at its end. */
  lemma SliceExtend<T>(s: seq<T>, a: nat, b: nat)
    requires a <= b < |s|
    ensures s[a..b + 1] == s[a..b] + [s[b]]
  {
  }

  /** The text between the `'\n'`s, without the final carriage return of a `"\r\n"` ending. */
  function StripCr(line: String): (r: String)
    ensures '\n' !in line ==> '\n' !in r
  {
    if |line| > 0 && line[|line| - 1] == '\r' then line[..|line| - 1] else line
  }

  /**
   * `str::lines`: the text split at `'\n'` (and `"\r\n"`); a final line ending
   * does not start an extra empty line, and the empty text has no lines.
   */
  function Lines(s: String): (ls: seq<String>)
    ensures forall i :: 0 <= i < |ls| ==> '\n' !in ls[i]
    decreases |s|
  {
    if s == [] then []
    else
      match Find(s, "\n")
      case None =>
        forall j | 0 <= j < |s| ensures s[j] != '\n' {
          assert !MatchAt(s, "\n", j) && s[j..j + 1] == [s[j]];
        }
        [s]
      case Some(k) =>
        forall j | 0 <= j < k ensures s[..k][j] != '\n' {
          assert !MatchAt(s, "\n", j) && s[j..j + 1] == [s[j]];
        }
        [StripCr(s[..k])] + Lines(s[k + 1..])
  }

  /** Every line followed by `'\n'`: what `push_str(line); push('\n')` over `ls` builds. */
  function Unlines(ls: seq<String>): String
  {
    if |ls| == 0 then [] else Unlines(ls[..|ls| - 1]) + ls[|ls| - 1] + "\n"
  }

  lemma UnlinesCons(l: String, ls: seq<String>)
    ensures Unlines([l] + ls) == l + "\n" + Unlines(ls)
    decreases |ls|
  {
    if |ls| > 0 {
      var last := ls[|ls| - 1];
      assert ([l] + ls)[..|ls|] == [l] + ls[..|ls| - 1];
      UnlinesCons(l, ls[..|ls| - 1]);
    }
  }

  lemma UnlinesAppend(ls: seq<String>, l: String)
    ensures Unlines(ls + [l]) == Unlines(ls) + l + "\n"
  {
    assert (ls + [l])[..|ls|] == ls;
  }

  /** The text of the first `i + 1` lines is that of the first `i`, then line `i`. */
  lemma UnlinesStep(ls: seq<String>, i: nat)
    requires i < |ls|
    ensures Unlines(ls[..i + 1]) == Unlines(ls[..i]) + ls[i] + "\n"
  {
    assert ls[..i + 1] == ls[..i] + [ls[i]];
    UnlinesAppend(ls[..i], ls[i]);
  }

  /** The text of the lines from `i` on: line `i`, its newline, then the text of the rest. */
  lemma UnlinesFrom(ls: seq<String>, i: nat)
    requires i < |ls|
    ensures Unlines(ls[i..]) == ls[i] + "\n" + Unlines(ls[i + 1..])
  {
    assert ls[i..] == [ls[i]] + ls[i + 1..];
    UnlinesCons(ls[i], ls[i + 1..]);
  }

  /** A line as `lines` yields it: no `'\n'` inside and no `'\r'` at the end. */
  predicate IsPlainLine(l: String) {
    '\n' !in l && (l == [] || l[|l| - 1] != '\r')
  }

  /** A line without `'\n'`, then `'\n'`, then more text: `lines` yields that line first. */
  lemma LinesCons(l: String, t: String)
    requires '\n' !in l
    ensures Lines(l + "\n" + t) == [StripCr(l)] + Lines(t)
  {
    var s := l + "\n" + t;
    assert MatchAt(s, "\n", |l|);
    forall j | 0 <= j < |l| ensures !MatchAt(s, "\n", j) {
      assert s[j] == l[j];
    }
    assert Find(s, "\n") == Some(|l|);
    assert s[..|l|] == l;
    assert s[|l| + 1..] == t;
  }

  /** Writing lines out one per `'\n'` and reading them back with `lines` gives them back. */
  lemma {:induction false} LinesUnlines(ls: seq<String>)
    requires forall i :: 0 <= i < |ls| ==> IsPlainLine(ls[i])
    ensures Lines(Unlines(ls)) == ls
    decreases |ls|
  {
    if |ls| > 0 {
      var l, rest := ls[0], ls[1..];
      assert ls == [l] + rest;
      assert IsPlainLine(l);
      UnlinesCons(l, rest);
      LinesCons(l, Unlines(rest));
      LinesUnlines(rest);
    }
  }

  // ---------------------------------------------------------------------
  // Replacement and formatting
  // ---------------------------------------------------------------------

  /** `str::replace` with a non-empty pattern: every non-overlapping occurrence, left to right. */
  function ReplaceAll(s: String, pat: String, rep: String): (r: String)
    requires |pat| > 0
    ensures !Contains(s, pat) ==> r == s
    decreases |s|
  {
    match Find(s, pat)
    case None => s
    case Some(k) => s[..k] + rep + ReplaceAll(s[k + |pat|..], pat, rep)
  }

  /** `str::replacen(pat, rep, 1)`: the first occurrence only. */
  function ReplaceFirst(s: String, pat: String, rep: String): String {
    match Find(s, pat)
    case None => s
    case Some(k) => s[..k] + rep + s[k + |pat|..]
  }

  /** `c.to_string().repeat(n)`. */
  function Repeat(c: char, n: nat): (r: String)
    ensures |r| == n && forall i :: 0 <= i < n ==> r[i] == c
  {
    seq(n, _ => c)
  }

  function DigitChar(d: nat): (c: char)
    requires d < 10
    ensures IsDigit(c)
  {
    ('0' as int + d) as char
  }

  /** The decimal text of `n`, as `format!("{}", n)` writes it. */
  function NatToString(n: nat): (r: String)
    ensures |r| >= 1
    ensures forall i :: 0 <= i < |r| ==> IsDigit(r[i])
  {
    if n < 10 then [DigitChar(n)] else NatToString(n / 10) + [DigitChar(n % 10)]
  }

  /** Different numbers have different decimal texts. */
  lemma {:induction false} NatToStringInjective(a: nat, b: nat)
    requires NatToString(a) == NatToString(b)
    ensures a == b
  {
    var sa, sb := NatToString(a), NatToString(b);
    assert DigitChar(a % 10) == sa[|sa| - 1] == sb[|sb| - 1] == DigitChar(b % 10);
    if a >= 10 && b >= 10 {
      assert NatToString(a / 10) == sa[..|sa| - 1] == sb[..|sb| - 1] == NatToString(b / 10);
      NatToStringInjective(a / 10, b / 10);
    }
  }
}
