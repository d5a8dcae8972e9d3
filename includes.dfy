/**
 * The include resolver of the Markdown pre-processor: a line
 * `Include: [label](path.md)` is replaced by the text of that file, itself
 * resolved, with its headings moved under the heading in effect at the
 * directive. The file system is a map from path to what reading that path
 * gives; include chains are followed for at most `fuel` levels, since the
 * source has no cycle guard.
 */
module Includes {
  import opened Text
  import opened Search

  /** What reading a file gives: its text, or the message of the I/O error. */
  datatype ReadResult = Content(text: String) | Failure(message: String)

  /** The message of reading a path that names no file. */
  const NotFound: String := "No such file or directory (os error 2)"

  /** What marks a directive line, after trimming. */
  const IncludeMark: String := "Include:"

  /** Content starting with this marker is never spliced in. */
  const PrivateMark: String := "PRIVATE_NEVER_AS_IS"

  /** `fs::read_to_string` over a file system given as a map; a path outside it names no file. */
  function ReadFile(files: map<String, ReadResult>, path: String): ReadResult {
    if path in files then files[path] else Failure(NotFound)
  }

  /** `Path::join` on POSIX paths: an absolute path replaces the base, otherwise one `'/'` separates them. */
  function JoinPath(base: String, path: String): (r: String)
    ensures EndsWith(r, path)
  {
    if StartsWith(path, "/") || base == [] then path
    else if EndsWith(base, "/") then base + path
    else base + "/" + path
  }

  /** The index of the last `'/'` before `j`, if there is one. */
  function LastSlash(s: String, j: nat): (r: Option<nat>)
    requires j <= |s|
    ensures r.Some? ==> r.value < j && s[r.value] == '/' && '/' !in s[r.value + 1..j]
    ensures r.None? ==> '/' !in s[..j]
  {
    if j == 0 then None
    else if s[j - 1] == '/' then Some(j - 1)
    else
      var r := LastSlash(s, j - 1);
      assert s[..j] == s[..j - 1] + [s[j - 1]];
      assert r.Some? ==> s[r.value + 1..j] == s[r.value + 1..j - 1] + [s[j - 1]];
      r
  }

  /**
   * `Path::parent` of a path naming a file (no trailing `'/'`): the text
   * before its last `'/'`, `"/"` for a file in the root, `""` for a bare name;
   * the root and the empty path have none.
   */
  function ParentPath(p: String): (r: Option<String>)
    ensures r.Some? ==> |r.value| < |p|
  {
    if p == [] || p == "/" then None
    else
      match LastSlash(p, |p|)
      case None => Some("")
      case Some(k) => if k == 0 then Some("/") else Some(p[..k])
  }

  /** The text between the first `'('` of the line and the first `')'` after it. */
  function IncludePath(line: String): Option<String> {
    match Find(line, "(")
    case None => None
    case Some(start) =>
      match Find(line[start..], ")")
      case None => None
      case Some(end) =>
        CloseAfterOpen(line, start, end);
        Some(line[start + 1..start + end])
  }

  /** The `')'` found in `line[start..]` is not the `'('` at its front. */
  lemma CloseAfterOpen(line: String, start: nat, end: nat)
    requires Find(line, "(") == Some(start) && Find(line[start..], ")") == Some(end)
    ensures 1 <= end && start + end < |line| && line[start] == '(' && line[start + end] == ')'
  {
    assert line[start..start + 1] == "(";
    assert line[start..][end..end + 1] == ")";
    assert line[start + end] == ')';
  }

  /** The path found between the first `'('` and the first `')'` after it. */
  lemma IncludePathAt(line: String, start: nat, end: nat)
    requires Find(line, "(") == Some(start) && Find(line[start..], ")") == Some(end)
    ensures 1 <= end && start + end < |line|
    ensures IncludePath(line) == Some(line[start + 1..start + end])
  {
    CloseAfterOpen(line, start, end);
  }

  /**
   * The level of a heading, read from the trimmed line: its run of `'#'`s,
   * when whitespace or the end of the line follows it.
   */
  function HeadingLevel(trimmed: String): Option<nat> {
    if StartsWith(trimmed, "#") then
      var level := HashRun(trimmed);
      if level > 0 && (level == |trimmed| || IsWhitespace(trimmed[level])) then Some(level) else None
    else None
  }

  /** The level a heading is written at: in included text, level 1 lands on the parent's level (at least 1). */
  function Relevel(level: nat, parentLevel: nat, included: bool): nat {
    if included then level + (if parentLevel > 1 then parentLevel else 1) - 1 else level
  }

  /** The line that stands for a file that could not be read. */
  function ErrorLine(path: String, message: String): String {
    "**Error: Could not include '" + path + "': " + message + "**\n"
  }

  /** The parent directory of an included file, the base path when it has none. */
  function ParentOr(full: String, base: String): String {
    match ParentPath(full)
    case None => base
    case Some(p) => p
  }

  lemma TrimShorter(s: String)
    ensures |Trim(s)| <= |s|
  {
  }

  /** What one line adds to the output, and the heading level and first-H1 flag after it. */
  datatype Outcome = Outcome(piece: String, level: nat, skipped: bool)

  /** The output so far, and the heading level and first-H1 flag it leaves. */
  datatype Scan = Scan(out: String, level: nat, skipped: bool)

  /**
   * A heading line: in included text the first level-1 heading is dropped;
   * every other heading is written at its re-levelled level, followed by the
   * untrimmed line from index `h` on.
   */
  function HeadingOutcome(parentLevel: nat, included: bool, level: nat, skipped: bool, line: String, h: nat): Outcome
    requires h <= |line|
  {
    if included && h == 1 && !skipped then Outcome("", level, true)
    else
      var effective := Relevel(h, parentLevel, included);
      Outcome(Repeat('#', effective) + line[h..] + "\n", effective, skipped)
  }

  /**
   * A directive naming a `.md` file: an error line when it cannot be read, the
   * directive itself when the file is private, else the file resolved one
   * level down, under the heading level in effect, followed by `'\n'`.
   */
  function FileOutcome(files: map<String, ReadResult>, base: String, path: String, line: String,
                       level: nat, skipped: bool, fuel: nat): Option<Outcome>
    decreases fuel, 0, 0
  {
    var full := JoinPath(base, path);
    match ReadFile(files, full)
    case Failure(message) => Some(Outcome(ErrorLine(path, message), level, skipped))
    case Content(content) =>
      if StartsWith(content, PrivateMark) then Some(Outcome(line + "\n", level, skipped))
      else if fuel == 0 then None
      else
        Spliced(Expand(files, content, ParentOr(full, base), level, true, fuel - 1), level, skipped)
  }

  /** The resolved text of an included file followed by `'\n'`, if it was resolved. */
  function Spliced(processed: Option<String>, level: nat, skipped: bool): Option<Outcome> {
    match processed
    case None => None
    case Some(text) => Some(Outcome(text + "\n", level, skipped))
  }

  /**
   * Once a directive names a `.md` file, exactly one of three things happens:
   * an unreadable file gives the error line, a private file keeps the
   * directive line and nothing of the file, and any other file is resolved
   * one level down under the heading level in effect at the directive.
   */
  lemma DirectiveOutcomes(files: map<String, ReadResult>, base: String, path: String, line: String,
                          level: nat, skipped: bool, fuel: nat, full: String, read: ReadResult)
    requires full == JoinPath(base, path) && read == ReadFile(files, full)
    ensures read.Failure? ==>
      FileOutcome(files, base, path, line, level, skipped, fuel) == Some(Outcome(ErrorLine(path, read.message), level, skipped))
    ensures read.Content? && StartsWith(read.text, PrivateMark) ==>
      FileOutcome(files, base, path, line, level, skipped, fuel) == Some(Outcome(line + "\n", level, skipped))
    ensures read.Content? && !StartsWith(read.text, PrivateMark) && fuel > 0 ==>
      FileOutcome(files, base, path, line, level, skipped, fuel)
        == Spliced(Expand(files, read.text, ParentOr(full, base), level, true, fuel - 1), level, skipped)
    ensures read.Content? && !StartsWith(read.text, PrivateMark) && fuel == 0 ==>
      FileOutcome(files, base, path, line, level, skipped, fuel).None?
  {
  }

  /** What one line of `process_includes_recursive` contributes; `None` when an include chain outruns `fuel`. */
  function LineOutcome(files: map<String, ReadResult>, base: String, parentLevel: nat, included: bool,
                       level: nat, skipped: bool, line: String, fuel: nat): Option<Outcome>
    decreases fuel, 1, 0
  {
    var trimmed := Trim(line);
    match HeadingLevel(trimmed)
    case Some(h) =>
      TrimShorter(line);
      Some(HeadingOutcome(parentLevel, included, level, skipped, line, h))
    case None =>
      var verbatim := Some(Outcome(line + "\n", level, skipped));
      if !StartsWith(trimmed, IncludeMark) then verbatim
      else
        match IncludePath(line)
        case None => verbatim
        case Some(path) => if EndsWith(path, ".md") then FileOutcome(files, base, path, line, level, skipped, fuel) else verbatim
  }

  /**
   * A line is a heading when its trimmed text is one; otherwise it is a
   * directive when its trimmed text starts with `Include:` and it names a
   * `.md` path; every other line is copied with `'\n'`.
   */
  lemma LineOutcomes(files: map<String, ReadResult>, base: String, parentLevel: nat, included: bool,
                     level: nat, skipped: bool, line: String, fuel: nat, trimmed: String)
    requires trimmed == Trim(line)
    ensures |trimmed| <= |line|
    ensures HeadingLevel(trimmed).Some? ==>
      LineOutcome(files, base, parentLevel, included, level, skipped, line, fuel)
        == Some(HeadingOutcome(parentLevel, included, level, skipped, line, HeadingLevel(trimmed).value))
    ensures HeadingLevel(trimmed).None? && StartsWith(trimmed, IncludeMark)
            && IncludePath(line).Some? && EndsWith(IncludePath(line).value, ".md") ==>
      LineOutcome(files, base, parentLevel, included, level, skipped, line, fuel)
        == FileOutcome(files, base, IncludePath(line).value, line, level, skipped, fuel)
    ensures HeadingLevel(trimmed).None? && !(StartsWith(trimmed, IncludeMark)
            && IncludePath(line).Some? && EndsWith(IncludePath(line).value, ".md")) ==>
      LineOutcome(files, base, parentLevel, included, level, skipped, line, fuel)
        == Some(Outcome(line + "\n", level, skipped))
  {
    TrimShorter(line);
  }

  /** The first `i` lines processed in order. */
  function Run(files: map<String, ReadResult>, lines: seq<String>, i: nat, base: String,
               parentLevel: nat, included: bool, fuel: nat): Option<Scan>
    requires i <= |lines|
    decreases fuel, 2, i
  {
    if i == 0 then Some(Scan("", parentLevel, false))
    else
      match Run(files, lines, i - 1, base, parentLevel, included, fuel)
      case None => None
      case Some(scan) =>
        match LineOutcome(files, base, parentLevel, included, scan.level, scan.skipped, lines[i - 1], fuel)
        case None => None
        case Some(o) => Some(Scan(scan.out + o.piece, o.level, o.skipped))
  }

  /** One more line: the scan so far extended by that line's outcome. */
  lemma RunStep(files: map<String, ReadResult>, lines: seq<String>, i: nat, base: String,
                parentLevel: nat, included: bool, fuel: nat, scan: Scan, o: Option<Outcome>)
    requires i < |lines|
    requires Run(files, lines, i, base, parentLevel, included, fuel) == Some(scan)
    requires o == LineOutcome(files, base, parentLevel, included, scan.level, scan.skipped, lines[i], fuel)
    ensures o.None? ==> Run(files, lines, i + 1, base, parentLevel, included, fuel).None?
    ensures o.Some? ==> Run(files, lines, i + 1, base, parentLevel, included, fuel)
                          == Some(Scan(scan.out + o.value.piece, o.value.level, o.value.skipped))
  {
  }

  /** `process_includes_recursive` on `text`, following include chains at most `fuel` deep. */
  function Expand(files: map<String, ReadResult>, text: String, base: String,
                  parentLevel: nat, included: bool, fuel: nat): Option<String>
    decreases fuel, 3, 0
  {
    var lines := Lines(text);
    match Run(files, lines, |lines|, base, parentLevel, included, fuel)
    case None => None
    case Some(scan) => Some(scan.out)
  }

  /** Once a line outruns the fuel, so does every longer prefix. */
  lemma {:induction false} RunStaysNone(files: map<String, ReadResult>, lines: seq<String>, i: nat, j: nat,
                                        base: String, parentLevel: nat, included: bool, fuel: nat)
    requires i <= j <= |lines|
    requires Run(files, lines, i, base, parentLevel, included, fuel).None?
    ensures Run(files, lines, j, base, parentLevel, included, fuel).None?
    decreases j
  {
    if i < j {
      RunStaysNone(files, lines, i, j - 1, base, parentLevel, included, fuel);
    }
  }

  /** The directive branch of `process_includes_recursive` for a `.md` path. */
  method IncludeFile(files: map<String, ReadResult>, basePath: String, path: String, line: String,
                     currentLevel: nat, firstH1Skipped: bool, fuel: nat) returns (o: Option<Outcome>)
    ensures o == FileOutcome(files, basePath, path, line, currentLevel, firstH1Skipped, fuel)
    decreases fuel, 0
  {
    var fullPath := JoinPath(basePath, path);
    var read := ReadFile(files, fullPath);
    DirectiveOutcomes(files, basePath, path, line, currentLevel, firstH1Skipped, fuel, fullPath, read);
    if read.Failure? {
      return Some(Outcome(ErrorLine(path, read.message), currentLevel, firstH1Skipped));
    }
    if StartsWith(read.text, PrivateMark) {
      return Some(Outcome(line + "\n", currentLevel, firstH1Skipped));
    }
    if fuel == 0 {
      return None;
    }
    var parent := ParentOr(fullPath, basePath);
    var processed := ProcessIncludesRecursive(files, read.text, parent, currentLevel, true, fuel - 1);
    if processed.None? {
      return None;
    }
    return Some(Outcome(processed.value + "\n", currentLevel, firstH1Skipped));
  }

  /** The heading test of `process_includes_recursive`: a run of `'#'`s followed by whitespace or nothing. */
  method ReadHeading(trimmed: String) returns (level: Option<nat>)
    ensures level == HeadingLevel(trimmed)
  {
    level := None;
    if StartsWith(trimmed, "#") {
      var count := HashRun(trimmed);
      if count > 0 && (count == |trimmed| || IsWhitespace(trimmed[count])) {
        level := Some(count);
      }
    }
  }

  /** The `.md` path a directive line names, if it is one. */
  method ReadDirective(line: String, trimmed: String) returns (path: Option<String>)
    ensures path.Some? <==> StartsWith(trimmed, IncludeMark) && IncludePath(line).Some? && EndsWith(IncludePath(line).value, ".md")
    ensures path.Some? ==> path == IncludePath(line)
  {
    path := None;
    if StartsWith(trimmed, IncludeMark) {
      var start := Find(line, "(");
      if start.Some? {
        var end := Find(line[start.value..], ")");
        if end.Some? {
          IncludePathAt(line, start.value, end.value);
          var found := line[start.value + 1..start.value + end.value];
          if EndsWith(found, ".md") {
            path := Some(found);
          }
        }
      }
    }
  }

  /** One line of `process_includes_recursive`: what it appends, and the heading level and first-H1 flag after it. */
  method ProcessLine(files: map<String, ReadResult>, basePath: String, parentLevel: nat, isIncluded: bool,
                     currentLevel: nat, firstH1Skipped: bool, line: String, fuel: nat) returns (o: Option<Outcome>)
    ensures o == LineOutcome(files, basePath, parentLevel, isIncluded, currentLevel, firstH1Skipped, line, fuel)
    decreases fuel, 1
  {
    var trimmed := Trim(line);
    LineOutcomes(files, basePath, parentLevel, isIncluded, currentLevel, firstH1Skipped, line, fuel, trimmed);
    var heading := ReadHeading(trimmed);
    if heading.Some? {
      var level := heading.value;
      if isIncluded && level == 1 && !firstH1Skipped {
        return Some(Outcome("", currentLevel, true));
      }
      var effectiveLevel := if isIncluded then level + (if parentLevel > 1 then parentLevel else 1) - 1 else level;
      return Some(Outcome(Repeat('#', effectiveLevel) + line[level..] + "\n", effectiveLevel, firstH1Skipped));
    }
    var path := ReadDirective(line, trimmed);
    if path.Some? {
      o := IncludeFile(files, basePath, path.value, line, currentLevel, firstH1Skipped, fuel);
    } else {
      o := Some(Outcome(line + "\n", currentLevel, firstH1Skipped));
    }
  }

  /**
   * `process_includes_recursive`: every line in order, headings re-levelled
   * in included text, directives replaced by the resolved file; `None` when
   * an include chain is deeper than `fuel`.
   */
  method ProcessIncludesRecursive(files: map<String, ReadResult>, markdown: String, basePath: String,
                                  parentLevel: nat, isIncluded: bool, fuel: nat) returns (r: Option<String>)
    ensures r == Expand(files, markdown, basePath, parentLevel, isIncluded, fuel)
    decreases fuel, 2
  {
    var lines := Lines(markdown);
    var result: String := "";
    var currentLevel := parentLevel;
    var firstH1Skipped := false;
    var i := 0;
    while i < |lines|
      invariant i <= |lines|
      invariant Run(files, lines, i, basePath, parentLevel, isIncluded, fuel) == Some(Scan(result, currentLevel, firstH1Skipped))
    {
      var o := ProcessLine(files, basePath, parentLevel, isIncluded, currentLevel, firstH1Skipped, lines[i], fuel);
      RunStep(files, lines, i, basePath, parentLevel, isIncluded, fuel, Scan(result, currentLevel, firstH1Skipped), o);
      if o.None? {
        RunStaysNone(files, lines, i + 1, |lines|, basePath, parentLevel, isIncluded, fuel);
        return None;
      }
      result := result + o.value.piece;
      currentLevel := o.value.level;
      firstH1Skipped := o.value.skipped;
      i := i + 1;
    }
    return Some(result);
  }

  /** `process_includes`: the top-level document, whose headings keep their levels. */
  method ProcessIncludes(files: map<String, ReadResult>, markdown: String, basePath: String, fuel: nat) returns (r: Option<String>)
    ensures r == Expand(files, markdown, basePath, 0, false, fuel)
  {
    r := ProcessIncludesRecursive(files, markdown, basePath, 0, false, fuel);
  }

  // ---------------------------------------------------------------------
  // Properties
  // ---------------------------------------------------------------------

  /** A line that does not start with whitespace is only trimmed at its end. */
  lemma TrimUnindented(l: String)
    requires l == [] || !IsWhitespace(l[0])
    ensures |Trim(l)| <= |l| && Trim(l) == l[..|Trim(l)|]
    ensures Trim(l) == l[..SkipWhitespaceBack(l, |l|)]
  {
    assert SkipWhitespace(l, 0) == 0;
    assert TrimStart(l) == l;
  }

  /**
   * A line the top-level pass copies as it is: no directive, and, when it
   * reads as a heading once trimmed, no leading whitespace. Other lines may
   * be indented.
   */
  predicate PlainLine(l: String) {
    !StartsWith(Trim(l), IncludeMark) && (HeadingLevel(Trim(l)).Some? ==> l != [] && !IsWhitespace(l[0]))
  }

  /** At top level a plain line, heading or not, indented or not, comes out as itself followed by `'\n'`. */
  lemma PlainLineKept(files: map<String, ReadResult>, base: String, level: nat, skipped: bool, l: String, fuel: nat)
    requires PlainLine(l)
    ensures LineOutcome(files, base, 0, false, level, skipped, l, fuel).Some?
    ensures LineOutcome(files, base, 0, false, level, skipped, l, fuel).value.piece == l + "\n"
    ensures LineOutcome(files, base, 0, false, level, skipped, l, fuel).value.skipped == skipped
  {
    var t := Trim(l);
    LineOutcomes(files, base, 0, false, level, skipped, l, fuel, t);
    if HeadingLevel(t).Some? {
      TrimUnindented(l);
      var h := HeadingLevel(t).value;
      assert forall k :: 0 <= k < h ==> l[k] == t[k];
      assert Repeat('#', h) + l[h..] == l;
    }
  }

  /** The top-level pass over plain lines gives each line back followed by `'\n'`, and never drops a heading. */
  lemma {:induction false} RunPlain(files: map<String, ReadResult>, lines: seq<String>, i: nat, base: String, fuel: nat)
    requires i <= |lines|
    requires forall k :: 0 <= k < |lines| ==> PlainLine(lines[k])
    ensures Run(files, lines, i, base, 0, false, fuel).Some?
    ensures Run(files, lines, i, base, 0, false, fuel).value.out == Unlines(lines[..i])
    ensures !Run(files, lines, i, base, 0, false, fuel).value.skipped
  {
    if i > 0 {
      RunPlain(files, lines, i - 1, base, fuel);
      var scan := Run(files, lines, i - 1, base, 0, false, fuel).value;
      var line := lines[i - 1];
      assert PlainLine(line);
      var o := LineOutcome(files, base, 0, false, scan.level, scan.skipped, line, fuel);
      PlainLineKept(files, base, scan.level, scan.skipped, line, fuel);
      RunStep(files, lines, i - 1, base, 0, false, fuel, scan, o);
      UnlinesStep(lines, i - 1);
    }
  }

  /**
   * A top-level document without directives and without indented lines is
   * copied line by line, each line followed by `'\n'`; headings keep their
   * levels.
   */
  lemma ExpandPlain(files: map<String, ReadResult>, text: String, base: String, fuel: nat)
    requires forall k :: 0 <= k < |Lines(text)| ==> PlainLine(Lines(text)[k])
    ensures Expand(files, text, base, 0, false, fuel) == Some(Unlines(Lines(text)))
  {
    var lines := Lines(text);
    RunPlain(files, lines, |lines|, base, fuel);
    assert lines[..|lines|] == lines;
  }

  /** Matching a one-character pattern is meeting that character. */
  lemma CharMatch(s: String, c: char, j: nat)
    ensures MatchAt(s, [c], j) <==> j < |s| && s[j] == c
  {
    if j < |s| {
      assert s[j..j + 1] == [s[j]];
    }
  }

  /** `find` of one character: its first position, and none exactly when it does not occur. */
  lemma FindChar(s: String, c: char)
    ensures Find(s, [c]).Some? ==>
      Find(s, [c]).value < |s| && s[Find(s, [c]).value] == c && c !in s[..Find(s, [c]).value]
    ensures Find(s, [c]).None? <==> c !in s
  {
    var f := Find(s, [c]);
    if f.Some? {
      CharMatch(s, c, f.value);
      forall k | 0 <= k < f.value ensures s[k] != c {
        CharMatch(s, c, k);
      }
    } else {
      forall k | 0 <= k < |s| ensures s[k] != c {
        CharMatch(s, c, k);
      }
    }
  }

  /** The first `c` of `a + [c] + b`, when `a` holds none, is the one after `a`. */
  lemma FindCharAfter(a: String, c: char, b: String)
    requires c !in a
    ensures Find(a + [c] + b, [c]) == Some(|a|)
  {
    var s := a + [c] + b;
    forall q | 0 <= q < |a| ensures !MatchAt(s, [c], q) {
      CharMatch(s, c, q);
      assert s[q] == a[q];
    }
    assert s == a + ([c] + b);
    FindShift(a, [c] + b, [c]);
    CharMatch([c] + b, c, 0);
  }

  /** The directive's path is what lies between the first `'('` and the first `')'` after it. */
  lemma IncludePathOf(pre: String, path: String, post: String)
    requires '(' !in pre && ')' !in path
    ensures IncludePath(pre + "(" + path + ")" + post) == Some(path)
  {
    var line := pre + "(" + path + ")" + post;
    assert line == pre + ['('] + (path + ")" + post);
    FindCharAfter(pre, '(', path + ")" + post);
    var tail := line[|pre|..];
    assert tail == ("(" + path) + [')'] + post;
    FindCharAfter("(" + path, ')', post);
    assert line[|pre| + 1..|pre| + |path| + 1] == path;
  }

  /** Conversely, a path found is enclosed by the first `'('` and the `')'` that follows it. */
  lemma IncludePathShape(line: String)
    requires IncludePath(line).Some?
    ensures Find(line, "(").Some?
    ensures var start, path := Find(line, "(").value, IncludePath(line).value;
      && start + |path| + 2 <= |line|
      && line == line[..start] + "(" + path + ")" + line[start + |path| + 2..]
      && '(' !in line[..start] && ')' !in path
  {
    var start := Find(line, "(").value;
    var end := Find(line[start..], ")").value;
    IncludePathAt(line, start, end);
    FindChar(line, '(');
    FindChar(line[start..], ')');
    var path := line[start + 1..start + end];
    forall k | 0 <= k < |path| ensures path[k] != ')' {
      assert path[k] == line[start..][k + 1];
      assert line[start..][..end][k + 1] == line[start..][k + 1];
    }
    assert line == line[..start] + "(" + path + ")" + line[start + |path| + 2..];
  }

  /** A heading the test recognises on a line that is not indented: `'#'`s, then whitespace or the end. */
  lemma HeadingShape(l: String, h: nat)
    requires l == [] || !IsWhitespace(l[0])
    requires HeadingLevel(Trim(l)) == Some(h)
    ensures 1 <= h <= |l| && (forall k :: 0 <= k < h ==> l[k] == '#') && (h < |l| ==> IsWhitespace(l[h]))
  {
    TrimUnindented(l);
    var t := Trim(l);
    assert forall k :: 0 <= k < h ==> l[k] == t[k];
    if h < |t| {
      assert l[h] == t[h];
    }
  }

  /** Conversely, `'#'`s followed by whitespace or the end make a heading of that level. */
  lemma HeadingOf(out: String, e: nat)
    requires 1 <= e <= |out| && (forall k :: 0 <= k < e ==> out[k] == '#')
    requires e < |out| ==> IsWhitespace(out[e])
    ensures HeadingLevel(Trim(out)) == Some(e)
  {
    TrimUnindented(out);
    var t := Trim(out);
    assert !IsWhitespace(out[e - 1]);
    assert e <= |t|;
    assert forall k :: 0 <= k < e ==> t[k] == out[k];
    assert e < |t| ==> t[e] == out[e];
    HashRunUnique(t, e);
    assert t[..1] == "#";
  }

  /**
   * A heading line that is not indented and not dropped comes out as a
   * heading of the re-levelled level (`h + max(parentLevel, 1) - 1` in
   * included text, `h` at top level) with the same text after its `'#'`s,
   * and that level is then in effect.
   */
  lemma HeadingRelevelled(files: map<String, ReadResult>, base: String, parentLevel: nat, included: bool,
                          level: nat, skipped: bool, line: String, fuel: nat, h: nat)
    requires line == [] || !IsWhitespace(line[0])
    requires HeadingLevel(Trim(line)) == Some(h)
    requires !(included && h == 1 && !skipped)
    ensures var o := LineOutcome(files, base, parentLevel, included, level, skipped, line, fuel);
      var e := Relevel(h, parentLevel, included);
      && o.Some? && o.value.level == e && o.value.skipped == skipped
      && |o.value.piece| > e && o.value.piece[|o.value.piece| - 1] == '\n'
      && HeadingLevel(Trim(o.value.piece[..|o.value.piece| - 1])) == Some(e)
      && o.value.piece[e..|o.value.piece| - 1] == line[h..]
  {
    LineOutcomes(files, base, parentLevel, included, level, skipped, line, fuel, Trim(line));
    HeadingShape(line, h);
    var e := Relevel(h, parentLevel, included);
    var out := Repeat('#', e) + line[h..];
    assert e < |out| ==> out[e] == line[h];
    HeadingOf(out, e);
    var piece := out + "\n";
    assert piece[..|piece| - 1] == out;
    assert piece[e..|piece| - 1] == line[h..];
  }

  /**
   * How one line moves the first-H1 flag and the level in effect, and which
   * line contributes nothing: exactly a level-1 heading of included text met
   * while the flag is still down.
   */
  lemma LineState(files: map<String, ReadResult>, base: String, parentLevel: nat, included: bool,
                  level: nat, skipped: bool, line: String, fuel: nat)
    requires LineOutcome(files, base, parentLevel, included, level, skipped, line, fuel).Some?
    ensures var o := LineOutcome(files, base, parentLevel, included, level, skipped, line, fuel).value;
      var dropped := included && HeadingLevel(Trim(line)) == Some(1) && !skipped;
      && (o.skipped <==> skipped || (included && HeadingLevel(Trim(line)) == Some(1)))
      && (o.piece == [] <==> dropped)
      && o.level == (if HeadingLevel(Trim(line)).None? || dropped then level
                     else Relevel(HeadingLevel(Trim(line)).value, parentLevel, included))
  {
    var trimmed := Trim(line);
    LineOutcomes(files, base, parentLevel, included, level, skipped, line, fuel, trimmed);
    if HeadingLevel(trimmed).None? && StartsWith(trimmed, IncludeMark)
       && IncludePath(line).Some? && EndsWith(IncludePath(line).value, ".md") {
      var path := IncludePath(line).value;
      var full := JoinPath(base, path);
      DirectiveOutcomes(files, base, path, line, level, skipped, fuel, full, ReadFile(files, full));
    }
  }

  /** Some line before `i` is a level-1 heading. */
  ghost predicate H1Before(lines: seq<String>, i: nat)
    requires i <= |lines|
  {
    exists k :: 0 <= k < i && HeadingLevel(Trim(lines[k])) == Some(1)
  }

  lemma H1BeforeStep(lines: seq<String>, i: nat)
    requires i < |lines|
    ensures H1Before(lines, i + 1) <==> H1Before(lines, i) || HeadingLevel(Trim(lines[i])) == Some(1)
  {
    if H1Before(lines, i + 1) && !H1Before(lines, i) {
      var k :| 0 <= k < i + 1 && HeadingLevel(Trim(lines[k])) == Some(1);
      assert k == i;
    }
  }

  /**
   * The heading level in effect after the first `i` lines, read off the lines
   * alone: that of the last heading written out, else the parent's.
   */
  ghost function LevelAt(lines: seq<String>, i: nat, parentLevel: nat, included: bool): nat
    requires i <= |lines|
  {
    if i == 0 then parentLevel
    else
      match HeadingLevel(Trim(lines[i - 1]))
      case None => LevelAt(lines, i - 1, parentLevel, included)
      case Some(h) =>
        if included && h == 1 && !H1Before(lines, i - 1) then LevelAt(lines, i - 1, parentLevel, included)
        else Relevel(h, parentLevel, included)
  }

  /**
   * The loop's state after `i` lines: the first-H1 flag is up exactly when
   * included text has had a level-1 heading, and the level in effect is
   * that of the last heading written out.
   */
  lemma {:induction false} RunState(files: map<String, ReadResult>, lines: seq<String>, i: nat, base: String,
                                    parentLevel: nat, included: bool, fuel: nat)
    requires i <= |lines| && Run(files, lines, i, base, parentLevel, included, fuel).Some?
    ensures Run(files, lines, i, base, parentLevel, included, fuel).value.skipped <==> included && H1Before(lines, i)
    ensures Run(files, lines, i, base, parentLevel, included, fuel).value.level == LevelAt(lines, i, parentLevel, included)
  {
    if i > 0 {
      var prev := Run(files, lines, i - 1, base, parentLevel, included, fuel);
      assert prev.Some?;
      RunState(files, lines, i - 1, base, parentLevel, included, fuel);
      var scan := prev.value;
      var o := LineOutcome(files, base, parentLevel, included, scan.level, scan.skipped, lines[i - 1], fuel);
      RunStep(files, lines, i - 1, base, parentLevel, included, fuel, scan, o);
      LineState(files, base, parentLevel, included, scan.level, scan.skipped, lines[i - 1], fuel);
      H1BeforeStep(lines, i - 1);
    }
  }

  /** In included text, a line adds nothing to the output exactly when it is the first level-1 heading. */
  lemma DropsFirstH1(files: map<String, ReadResult>, lines: seq<String>, i: nat, base: String,
                     parentLevel: nat, fuel: nat)
    requires i < |lines| && Run(files, lines, i + 1, base, parentLevel, true, fuel).Some?
    ensures Run(files, lines, i, base, parentLevel, true, fuel).Some?
    ensures Run(files, lines, i + 1, base, parentLevel, true, fuel).value.out
              == Run(files, lines, i, base, parentLevel, true, fuel).value.out
            <==> HeadingLevel(Trim(lines[i])) == Some(1) && !H1Before(lines, i)
  {
    var prev := Run(files, lines, i, base, parentLevel, true, fuel);
    assert prev.Some?;
    RunState(files, lines, i, base, parentLevel, true, fuel);
    var scan := prev.value;
    var o := LineOutcome(files, base, parentLevel, true, scan.level, scan.skipped, lines[i], fuel);
    RunStep(files, lines, i, base, parentLevel, true, fuel, scan, o);
    LineState(files, base, parentLevel, true, scan.level, scan.skipped, lines[i], fuel);
    assert scan.out + o.value.piece == scan.out <==> o.value.piece == [];
  }

  /**
   * The heading text is cut from the untrimmed line at the trimmed line's
   * level, so an indented heading gains `'#'`s: at top level `"  ## x"`
   * comes out as `"#### x"`, a level-4 heading, while level 2 is recorded.
   */
  lemma IndentedHeadingGrows(files: map<String, ReadResult>, base: String, level: nat, skipped: bool, fuel: nat)
    ensures LineOutcome(files, base, 0, false, level, skipped, "  ## x", fuel) == Some(Outcome("#### x\n", 2, skipped))
    ensures HeadingLevel(Trim("#### x")) == Some(4)
  {
    var line := "  ## x";
    assert SkipWhitespace(line, 2) == 2;
    assert SkipWhitespace(line, 0) == 2;
    assert TrimStart(line) == "## x";
    assert SkipWhitespaceBack("## x", 4) == 4;
    assert Trim(line) == "## x";
    HeadingOf("## x", 2);
    LineOutcomes(files, base, 0, false, level, skipped, line, fuel, Trim(line));
    assert Repeat('#', 2) + line[2..] + "\n" == "#### x\n";
    HeadingOf("#### x", 4);
  }

  // ---------------------------------------------------------------------
  // Fuel only bounds the depth of include chains
  // ---------------------------------------------------------------------

  lemma {:induction false} FileMore(files: map<String, ReadResult>, base: String, path: String, line: String,
                                    level: nat, skipped: bool, fuel: nat, more: nat)
    requires fuel <= more && FileOutcome(files, base, path, line, level, skipped, fuel).Some?
    ensures FileOutcome(files, base, path, line, level, skipped, more) == FileOutcome(files, base, path, line, level, skipped, fuel)
    decreases fuel, 0
  {
    var full := JoinPath(base, path);
    var read := ReadFile(files, full);
    DirectiveOutcomes(files, base, path, line, level, skipped, fuel, full, read);
    DirectiveOutcomes(files, base, path, line, level, skipped, more, full, read);
    if read.Content? && !StartsWith(read.text, PrivateMark) {
      ExpandMore(files, read.text, ParentOr(full, base), level, true, fuel - 1, more - 1);
    }
  }

  lemma {:induction false} LineMore(files: map<String, ReadResult>, base: String, parentLevel: nat, included: bool,
                                    level: nat, skipped: bool, line: String, fuel: nat, more: nat)
    requires fuel <= more && LineOutcome(files, base, parentLevel, included, level, skipped, line, fuel).Some?
    ensures LineOutcome(files, base, parentLevel, included, level, skipped, line, more)
              == LineOutcome(files, base, parentLevel, included, level, skipped, line, fuel)
    decreases fuel, 1
  {
    var trimmed := Trim(line);
    LineOutcomes(files, base, parentLevel, included, level, skipped, line, fuel, trimmed);
    LineOutcomes(files, base, parentLevel, included, level, skipped, line, more, trimmed);
    if HeadingLevel(trimmed).None? && StartsWith(trimmed, IncludeMark)
       && IncludePath(line).Some? && EndsWith(IncludePath(line).value, ".md") {
      FileMore(files, base, IncludePath(line).value, line, level, skipped, fuel, more);
    }
  }

  lemma {:induction false} RunMore(files: map<String, ReadResult>, lines: seq<String>, i: nat, base: String,
                                   parentLevel: nat, included: bool, fuel: nat, more: nat)
    requires i <= |lines| && fuel <= more && Run(files, lines, i, base, parentLevel, included, fuel).Some?
    ensures Run(files, lines, i, base, parentLevel, included, more) == Run(files, lines, i, base, parentLevel, included, fuel)
    decreases fuel, 2, i
  {
    if i > 0 {
      var prev := Run(files, lines, i - 1, base, parentLevel, included, fuel);
      assert prev.Some?;
      RunMore(files, lines, i - 1, base, parentLevel, included, fuel, more);
      var scan := prev.value;
      var o := LineOutcome(files, base, parentLevel, included, scan.level, scan.skipped, lines[i - 1], fuel);
      RunStep(files, lines, i - 1, base, parentLevel, included, fuel, scan, o);
      LineMore(files, base, parentLevel, included, scan.level, scan.skipped, lines[i - 1], fuel, more);
      RunStep(files, lines, i - 1, base, parentLevel, included, more, scan, o);
    }
  }

  /** A document resolved within some fuel resolves to the same text with more: fuel only cuts off include chains. */
  lemma {:induction false} ExpandMore(files: map<String, ReadResult>, text: String, base: String,
                                      parentLevel: nat, included: bool, fuel: nat, more: nat)
    requires fuel <= more && Expand(files, text, base, parentLevel, included, fuel).Some?
    ensures Expand(files, text, base, parentLevel, included, more) == Expand(files, text, base, parentLevel, included, fuel)
    decreases fuel, 3
  {
    var lines := Lines(text);
    RunMore(files, lines, |lines|, base, parentLevel, included, fuel, more);
  }

  // ---------------------------------------------------------------------
  // Directive lines
  // ---------------------------------------------------------------------

  /** A line ended by `'\n'` is the first line of the text it starts. */
  lemma LinesCons(a: String, rest: String)
    requires '\n' !in a && (a == [] || a[|a| - 1] != '\r')
    ensures Lines(a + "\n" + rest) == [a] + Lines(rest)
  {
    var s := a + "\n" + rest;
    FindCharAfter(a, '\n', rest);
    assert s[..|a|] == a && s[|a| + 1..] == rest;
  }

  /** A text without `'\n'` is one line. */
  lemma LinesSingle(s: String)
    requires s != [] && '\n' !in s
    ensures Lines(s) == [s]
  {
    FindChar(s, '\n');
  }

  /** A one-line document is that line's contribution. */
  lemma SingleLine(files: map<String, ReadResult>, text: String, base: String, parentLevel: nat, included: bool,
                   fuel: nat, o: Option<Outcome>)
    requires text != [] && '\n' !in text
    requires o == LineOutcome(files, base, parentLevel, included, parentLevel, false, text, fuel)
    ensures o.None? ==> Expand(files, text, base, parentLevel, included, fuel).None?
    ensures o.Some? ==> Expand(files, text, base, parentLevel, included, fuel) == Some(o.value.piece)
  {
    var lines := Lines(text);
    LinesSingle(text);
    assert lines == [text] && lines[0] == text && |lines| == 1;
    ExpandIsRun(files, text, base, parentLevel, included, fuel);
    RunStep(files, lines, 0, base, parentLevel, included, fuel, Scan("", parentLevel, false), o);
    assert o.Some? ==> "" + o.value.piece == o.value.piece;
  }

  lemma ExpandIsRun(files: map<String, ReadResult>, text: String, base: String, parentLevel: nat, included: bool, fuel: nat)
    ensures var r := Run(files, Lines(text), |Lines(text)|, base, parentLevel, included, fuel);
      Expand(files, text, base, parentLevel, included, fuel) == if r.None? then None else Some(r.value.out)
  {
  }

  /**
   * A directive `Include: [name](path)`: a `.md` path is read and resolved,
   * any other path leaves the line as it is.
   */
  lemma DirectiveLine(files: map<String, ReadResult>, base: String, parentLevel: nat, included: bool,
                      level: nat, skipped: bool, name: String, path: String, line: String, fuel: nat)
    requires '(' !in name && ')' !in path
    requires line == "Include: [" + name + "](" + path + ")"
    ensures LineOutcome(files, base, parentLevel, included, level, skipped, line, fuel)
              == if EndsWith(path, ".md") then FileOutcome(files, base, path, line, level, skipped, fuel)
                 else Some(Outcome(line + "\n", level, skipped))
  {
    DirectiveRead(name, path, line);
    LineOutcomes(files, base, parentLevel, included, level, skipped, line, fuel, line);
  }

  /** How the include pass reads a directive line: untouched by trimming, marked, not a heading, naming `path`. */
  lemma DirectiveRead(name: String, path: String, line: String)
    requires '(' !in name && ')' !in path
    requires line == "Include: [" + name + "](" + path + ")"
    ensures Trim(line) == line && StartsWith(line, IncludeMark) && HeadingLevel(line).None?
    ensures IncludePath(line) == Some(path)
  {
    var pre := "Include: [" + name + "]";
    assert line == pre + "(" + path + ")" + "";
    IncludePathOf(pre, path, "");
    DirectiveTrim(line);
    assert line[..8] == IncludeMark;
  }

  lemma DirectiveTrim(line: String)
    requires |line| > 0 && line[0] == 'I' && line[|line| - 1] == ')'
    ensures Trim(line) == line && HeadingLevel(line).None?
  {
    TrimUnindented(line);
    assert SkipWhitespaceBack(line, |line|) == |line|;
  }

  /** A document that is one directive naming an unreadable `.md` file becomes the error line. */
  lemma UnreadableReported(files: map<String, ReadResult>, base: String, parentLevel: nat, included: bool,
                           name: String, path: String, line: String, fuel: nat)
    requires '(' !in name && ')' !in path && '\n' !in line && EndsWith(path, ".md")
    requires line == "Include: [" + name + "](" + path + ")"
    requires ReadFile(files, JoinPath(base, path)).Failure?
    ensures Expand(files, line, base, parentLevel, included, fuel)
              == Some(ErrorLine(path, ReadFile(files, JoinPath(base, path)).message))
  {
    var full := JoinPath(base, path);
    var read := ReadFile(files, full);
    DirectiveLine(files, base, parentLevel, included, parentLevel, false, name, path, line, fuel);
    DirectiveOutcomes(files, base, path, line, parentLevel, false, fuel, full, read);
    var o := LineOutcome(files, base, parentLevel, included, parentLevel, false, line, fuel);
    SingleLine(files, line, base, parentLevel, included, fuel, o);
  }

  /** A `.md` file absent from the file system is reported as "No such file or directory". */
  lemma MissingFileReported(files: map<String, ReadResult>, base: String, parentLevel: nat, included: bool,
                            name: String, path: String, line: String, fuel: nat)
    requires '(' !in name && ')' !in path && '\n' !in line && EndsWith(path, ".md")
    requires line == "Include: [" + name + "](" + path + ")"
    requires JoinPath(base, path) !in files
    ensures Expand(files, line, base, parentLevel, included, fuel) == Some(ErrorLine(path, NotFound))
  {
    UnreadableReported(files, base, parentLevel, included, name, path, line, fuel);
  }

  /** A document that is one directive whose path does not end in `.md` is copied as it is. */
  lemma NonMarkdownKept(files: map<String, ReadResult>, base: String, parentLevel: nat, included: bool,
                        name: String, path: String, line: String, fuel: nat)
    requires '(' !in name && ')' !in path && '\n' !in line && !EndsWith(path, ".md")
    requires line == "Include: [" + name + "](" + path + ")"
    ensures Expand(files, line, base, parentLevel, included, fuel) == Some(line + "\n")
  {
    DirectiveLine(files, base, parentLevel, included, parentLevel, false, name, path, line, fuel);
    var o := LineOutcome(files, base, parentLevel, included, parentLevel, false, line, fuel);
    SingleLine(files, line, base, parentLevel, included, fuel, o);
  }

  /** A document that is one directive naming a private file is copied as it is: nothing of the file appears. */
  lemma PrivateFileKept(files: map<String, ReadResult>, base: String, parentLevel: nat, included: bool,
                        name: String, path: String, line: String, fuel: nat)
    requires '(' !in name && ')' !in path && '\n' !in line && EndsWith(path, ".md")
    requires line == "Include: [" + name + "](" + path + ")"
    requires ReadFile(files, JoinPath(base, path)).Content?
    requires StartsWith(ReadFile(files, JoinPath(base, path)).text, PrivateMark)
    ensures Expand(files, line, base, parentLevel, included, fuel) == Some(line + "\n")
  {
    var full := JoinPath(base, path);
    var read := ReadFile(files, full);
    DirectiveLine(files, base, parentLevel, included, parentLevel, false, name, path, line, fuel);
    DirectiveOutcomes(files, base, path, line, parentLevel, false, fuel, full, read);
    var o := LineOutcome(files, base, parentLevel, included, parentLevel, false, line, fuel);
    SingleLine(files, line, base, parentLevel, included, fuel, o);
  }

  /**
   * A document that is one directive naming a readable, non-private `.md`
   * file becomes that file resolved one level down, under the level in
   * effect, followed by `'\n'`.
   */
  lemma IncludedSpliced(files: map<String, ReadResult>, base: String, parentLevel: nat, included: bool,
                        name: String, path: String, line: String, fuel: nat, resolved: String)
    requires '(' !in name && ')' !in path && '\n' !in line && EndsWith(path, ".md")
    requires line == "Include: [" + name + "](" + path + ")"
    requires ReadFile(files, JoinPath(base, path)).Content?
    requires !StartsWith(ReadFile(files, JoinPath(base, path)).text, PrivateMark)
    requires fuel > 0
    requires Expand(files, ReadFile(files, JoinPath(base, path)).text, ParentOr(JoinPath(base, path), base),
                    parentLevel, true, fuel - 1) == Some(resolved)
    ensures Expand(files, line, base, parentLevel, included, fuel) == Some(resolved + "\n")
  {
    var full := JoinPath(base, path);
    var read := ReadFile(files, full);
    DirectiveLine(files, base, parentLevel, included, parentLevel, false, name, path, line, fuel);
    DirectiveOutcomes(files, base, path, line, parentLevel, false, fuel, full, read);
    var o := LineOutcome(files, base, parentLevel, included, parentLevel, false, line, fuel);
    SingleLine(files, line, base, parentLevel, included, fuel, o);
  }
}
