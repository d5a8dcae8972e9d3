/**
 * `{{lastUpdate:<path>}}` tokens in the Markdown source, each replaced by
 * the modification date of the file it names. File timestamps are not read:
 * they come in as a map from path to date.
 */
module LastUpdate {
  import opened Text
  import opened Search

  const TokenStart: String := "{{lastUpdate:"

  const TokenEnd: String := "}}"

  /** A calendar date, as the file's modification time reads in local time. */
  datatype Date = Date(year: nat, month: nat, day: nat)

  /** `n` in decimal, zero-padded to at least `width` digits. */
  function Padded(n: nat, width: nat): (r: String)
    ensures forall k :: 0 <= k < |r| ==> IsDigit(r[k])
  {
    var digits := NatToString(n);
    if |digits| < width then Repeat('0', width - |digits|) + digits else digits
  }

  /** chrono's `%Y-%m-%d`. */
  function DateText(d: Date): (r: String)
    ensures |r| > 0 && forall k :: 0 <= k < |r| ==> IsDigit(r[k]) || r[k] == '-'
  {
    Padded(d.year, 4) + "-" + Padded(d.month, 2) + "-" + Padded(d.day, 2)
  }

  /**
   * What replaces a token naming `path`: the modification date of that
   * file, or `unknown` when there is no such file or it has no modification
   * time. `mtimes` holds the dates of the files that have one.
   */
  function Stamp(mtimes: map<String, Date>, path: String): String {
    if path in mtimes then DateText(mtimes[path]) else "unknown"
  }

  /** A character a stamp can hold: a digit, a `-` or a letter of `unknown`. */
  predicate StampChar(c: char) {
    IsDigit(c) || c == '-' || c in "unknown"
  }

  /** No stamp character occurs in `{{lastUpdate:`. */
  lemma StampCharOutside(c: char)
    requires StampChar(c)
    ensures c !in TokenStart
  {
  }

  lemma StampChars(mtimes: map<String, Date>, path: String)
    ensures |Stamp(mtimes, path)| > 0
    ensures forall k :: 0 <= k < |Stamp(mtimes, path)| ==> StampChar(Stamp(mtimes, path)[k])
  {
  }

  /** No stamp is empty or has a character of `{{lastUpdate:`. */
  lemma StampOutside(mtimes: map<String, Date>, path: String)
    ensures |Stamp(mtimes, path)| > 0
    ensures forall k :: 0 <= k < |Stamp(mtimes, path)| ==> Stamp(mtimes, path)[k] !in TokenStart
  {
    StampChars(mtimes, path);
    var st := Stamp(mtimes, path);
    forall k | 0 <= k < |st| ensures st[k] !in TokenStart {
      StampCharOutside(st[k]);
    }
  }

  /** No stamp holds a `'{'`. */
  lemma StampBraceless(mtimes: map<String, Date>, path: String)
    ensures forall k :: 0 <= k < |Stamp(mtimes, path)| ==> Stamp(mtimes, path)[k] != '{'
  {
    StampChars(mtimes, path);
  }

  /** The number of `'{'`s: each replacement removes at least two. */
  function Braces(s: String): nat {
    if s == [] then 0 else (if s[0] == '{' then 1 else 0) + Braces(s[1..])
  }

  lemma {:induction false} BracesConcat(a: String, b: String)
    ensures Braces(a + b) == Braces(a) + Braces(b)
  {
    if a == [] {
      assert a + b == b;
    } else {
      assert (a + b)[1..] == a[1..] + b;
      BracesConcat(a[1..], b);
    }
  }

  lemma {:induction false} BracesNone(s: String)
    requires forall k :: 0 <= k < |s| ==> s[k] != '{'
    ensures Braces(s) == 0
  {
    if s != [] {
      BracesNone(s[1..]);
    }
  }

  /** A token begins with two `'{'`s. */
  lemma TokenOpens(s: String, start: nat)
    requires MatchAt(s, TokenStart, start)
    ensures s[start] == '{' && s[start + 1] == '{'
  {
    assert s[start] == s[start..start + |TokenStart|][0];
    assert s[start + 1] == s[start..start + |TokenStart|][1];
  }

  lemma BracesOpen(t: String)
    requires |t| >= 2 && t[0] == '{' && t[1] == '{'
    ensures Braces(t) >= 2
  {
    assert t[1..][0] == '{';
  }

  /** Putting fewer `'{'`s in place of a piece of text lowers the count. */
  lemma BracesSplice(a: String, t: String, b: String, rep: String)
    requires Braces(rep) < Braces(t)
    ensures Braces(a + rep + b) < Braces(a + t + b)
  {
    BracesConcat(a, t);
    BracesConcat(a + t, b);
    BracesConcat(a, rep);
    BracesConcat(a + rep, b);
  }

  /** Rewriting a token removes `'{'`s. */
  lemma TokenBraces(s: String, start: nat, stop: nat, rep: String)
    requires start + 2 <= stop + |TokenEnd| <= |s| && s[start] == '{' && s[start + 1] == '{'
    requires forall k :: 0 <= k < |rep| ==> rep[k] != '{'
    ensures Braces(s[..start] + rep + s[stop + |TokenEnd|..]) < Braces(s)
  {
    BracesNone(rep);
    var token := s[start..stop + |TokenEnd|];
    SliceThree(s, start, stop + |TokenEnd|);
    BracesOpen(token);
    BracesSplice(s[..start], token, s[stop + |TokenEnd|..], rep);
  }

  /** The path a token at `span` names: the text between `{{lastUpdate:` and `}}`. */
  function TokenPath(s: String, span: Span): String
    requires span.start + |TokenStart| <= span.stop <= |s|
  {
    s[span.start + |TokenStart|..span.stop]
  }

  /** The text with the token at `span` replaced by `rep`. */
  function Rewritten(s: String, span: Span, rep: String): String
    requires span.start <= span.stop && span.stop + |TokenEnd| <= |s|
  {
    s[..span.start] + rep + s[span.stop + |TokenEnd|..]
  }

  /**
   * One round of `substitute_last_update_variables`' loop: when the first
   * `{{lastUpdate:` has a `}}` after it, the token, up to the first such
   * `}}`, is replaced by the stamp of the path between them; otherwise the
   * loop ends.
   */
  function NextRewrite(s: String, mtimes: map<String, Date>): Option<String> {
    match FindSpan(s, TokenStart, TokenEnd)
    case None => None
    case Some(span) => Some(Rewritten(s, span, Stamp(mtimes, TokenPath(s, span))))
  }

  /** Putting a text without `'{'`s in place of a token removes `'{'`s. */
  lemma RewrittenBraces(s: String, span: Span, rep: String)
    requires span.start + |TokenStart| <= span.stop && span.stop + |TokenEnd| <= |s|
    requires s[span.start] == '{' && s[span.start + 1] == '{'
    requires forall k :: 0 <= k < |rep| ==> rep[k] != '{'
    ensures Braces(Rewritten(s, span, rep)) < Braces(s)
  {
    TokenBraces(s, span.start, span.stop, rep);
  }

  /** Each round removes `'{'`s, so the loop ends. */
  lemma NextRewriteBraces(s: String, mtimes: map<String, Date>)
    ensures NextRewrite(s, mtimes).Some? ==> Braces(NextRewrite(s, mtimes).value) < Braces(s)
  {
    match FindSpan(s, TokenStart, TokenEnd)
    case None =>
    case Some(span) =>
      var path := TokenPath(s, span);
      StampBraceless(mtimes, path);
      TokenOpens(s, span.start);
      RewrittenBraces(s, span, Stamp(mtimes, path));
  }

  /** `substitute_last_update_variables`, as a function of the text: rounds until the loop ends. */
  function LastUpdated(s: String, mtimes: map<String, Date>): String
    decreases Braces(s)
  {
    match NextRewrite(s, mtimes)
    case None => s
    case Some(next) =>
      NextRewriteBraces(s, mtimes);
      LastUpdated(next, mtimes)
  }

  /** Replacing the first occurrence of a first closed token's whole text rewrites that token. */
  lemma ReplaceToken(s: String, start: nat, offset: nat, path: String, rep: String)
    requires Find(s, TokenStart) == Some(start)
    requires start + |TokenStart| <= |s| && Find(s[start + |TokenStart|..], TokenEnd) == Some(offset)
    requires path == s[start + |TokenStart|..start + |TokenStart| + offset]
    ensures start + |TokenStart| + offset + |TokenEnd| <= |s|
    ensures ReplaceFirst(s, TokenStart + path + TokenEnd, rep) ==
      Rewritten(s, Span(start, start + |TokenStart| + offset), rep)
  {
    ReplaceSpan(s, TokenStart, TokenEnd, rep, start, offset);
  }

  /** A round at a closed first token keeps the final text and removes `'{'`s. */
  lemma RoundStep(s: String, mtimes: map<String, Date>, span: Span, path: String, rep: String)
    requires FindSpan(s, TokenStart, TokenEnd) == Some(span)
    requires path == TokenPath(s, span) && rep == Stamp(mtimes, path)
    ensures Braces(Rewritten(s, span, rep)) < Braces(s)
    ensures LastUpdated(Rewritten(s, span, rep), mtimes) == LastUpdated(s, mtimes)
  {
    LastUpdatedStep(s, mtimes, span, rep);
    NextRewriteBraces(s, mtimes);
  }

  /** The loop body, in the source's terms, where the first token is closed. */
  lemma LoopStep(s: String, mtimes: map<String, Date>, start: nat, offset: nat, stop: nat,
                 path: String, rep: String, pattern: String)
    requires Find(s, TokenStart) == Some(start)
    requires start + |TokenStart| <= |s| && Find(s[start + |TokenStart|..], TokenEnd) == Some(offset)
    requires stop == start + |TokenStart| + offset <= |s| && path == s[start + |TokenStart|..stop]
    requires rep == Stamp(mtimes, path) && pattern == TokenStart + path + TokenEnd
    ensures Braces(ReplaceFirst(s, pattern, rep)) < Braces(s)
    ensures LastUpdated(ReplaceFirst(s, pattern, rep), mtimes) == LastUpdated(s, mtimes)
  {
    FindSpanAt(s, TokenStart, TokenEnd, start, s[start + |TokenStart|..], offset);
    assert path == TokenPath(s, Span(start, stop));
    RoundStep(s, mtimes, Span(start, stop), path, rep);
    ReplaceToken(s, start, offset, path, rep);
  }

  /**
   * `substitute_last_update_variables`: while `result` has a token closed
   * by a `}}`, the first occurrence of the token's whole text is replaced.
   */
  method SubstituteLastUpdateVariables(markdown: String, mtimes: map<String, Date>) returns (result: String)
    ensures result == LastUpdated(markdown, mtimes)
  {
    result := markdown;
    while true
      invariant LastUpdated(result, mtimes) == LastUpdated(markdown, mtimes)
      decreases Braces(result)
    {
      var found := Find(result, TokenStart);
      if found.None? {
        break;
      }
      var start := found.value;
      var afterStart := start + |TokenStart|;
      var endFound := Find(result[afterStart..], TokenEnd);
      if endFound.None? {
        FindSpanUnclosed(result, TokenStart, TokenEnd, start, result[afterStart..]);
        break;
      }
      var stop := afterStart + endFound.value;
      var filePath := result[afterStart..stop];
      var dateStr := Stamp(mtimes, filePath);
      var fullPattern := TokenStart + filePath + TokenEnd;
      LoopStep(result, mtimes, start, endFound.value, stop, filePath, dateStr, fullPattern);
      result := ReplaceFirst(result, fullPattern, dateStr);
    }
  }

  /** The text holds no token closed by a `}}`: its first token, if any, has no `}}` after it. */
  predicate Settled(s: String) {
    match Find(s, TokenStart)
    case None => true
    case Some(start) => forall j :: start + |TokenStart| <= j <= |s| ==> !MatchAt(s, TokenEnd, j)
  }

  /** The loop ends exactly on settled text. */
  lemma NextRewriteNone(s: String, mtimes: map<String, Date>)
    ensures NextRewrite(s, mtimes).None? <==> Settled(s)
  {
    FindSpanNone(s, TokenStart, TokenEnd);
  }

  lemma {:induction false} LastUpdatedSettled(s: String, mtimes: map<String, Date>)
    ensures Settled(LastUpdated(s, mtimes))
    decreases Braces(s)
  {
    NextRewriteBraces(s, mtimes);
    NextRewriteNone(s, mtimes);
    match NextRewrite(s, mtimes)
    case None =>
    case Some(next) => LastUpdatedSettled(next, mtimes);
  }

  /** Rewriting never adds `'{'`s. */
  lemma {:induction false} LastUpdatedBraces(s: String, mtimes: map<String, Date>)
    ensures Braces(LastUpdated(s, mtimes)) <= Braces(s)
    decreases Braces(s)
  {
    NextRewriteBraces(s, mtimes);
    match NextRewrite(s, mtimes)
    case None =>
    case Some(next) => LastUpdatedBraces(next, mtimes);
  }

  /** The text comes back unchanged exactly when it is settled: in particular without any token. */
  lemma LastUpdatedUnchanged(s: String, mtimes: map<String, Date>)
    ensures LastUpdated(s, mtimes) == s <==> Settled(s)
    ensures !Contains(s, TokenStart) ==> LastUpdated(s, mtimes) == s
  {
    NextRewriteNone(s, mtimes);
    NextRewriteBraces(s, mtimes);
    match NextRewrite(s, mtimes)
    case None =>
    case Some(next) => LastUpdatedBraces(next, mtimes);
  }

  /** Rewriting twice is rewriting once. */
  lemma LastUpdatedIdempotent(s: String, mtimes: map<String, Date>)
    ensures LastUpdated(LastUpdated(s, mtimes), mtimes) == LastUpdated(s, mtimes)
  {
    LastUpdatedSettled(s, mtimes);
    LastUpdatedUnchanged(LastUpdated(s, mtimes), mtimes);
  }

  /** No token can start inside `p`, whatever text follows it. */
  predicate Inert(p: String) {
    Barren(p, TokenStart)
  }

  /** Behind `p`, a token of `r` names the same path... */
  lemma TokenPathBehind(p: String, r: String, start: nat, stop: nat)
    requires start + |TokenStart| <= stop <= |r|
    ensures TokenPath(p + r, Span(|p| + start, |p| + stop)) == TokenPath(r, Span(start, stop))
  {
    assert (p + r)[|p| + start + |TokenStart|..|p| + stop] == r[start + |TokenStart|..stop];
  }

  /** ...and is rewritten as it is in `r`. */
  lemma RewrittenBehind(p: String, r: String, rep: String, start: nat, stop: nat)
    requires start <= stop && stop + |TokenEnd| <= |r|
    ensures Rewritten(p + r, Span(|p| + start, |p| + stop), rep) == p + Rewritten(r, Span(start, stop), rep)
  {
    SplicedBehind(p, r, start, stop + |TokenEnd|, |p| + start, |p| + stop + |TokenEnd|, rep);
  }

  /** Where the first token of `p + r` is that of `r`, shifted, so is the round. */
  lemma RoundBehind(p: String, r: String, mtimes: map<String, Date>, start: nat, stop: nat)
    requires FindSpan(r, TokenStart, TokenEnd) == Some(Span(start, stop))
    requires FindSpan(p + r, TokenStart, TokenEnd) == Some(Span(|p| + start, |p| + stop))
    ensures NextRewrite(r, mtimes).Some?
    ensures NextRewrite(p + r, mtimes) == Some(p + NextRewrite(r, mtimes).value)
  {
    TokenPathBehind(p, r, start, stop);
    RewrittenBehind(p, r, Stamp(mtimes, TokenPath(r, Span(start, stop))), start, stop);
  }

  /** A round on `p + r` is the round on `r`, behind `p`. */
  lemma InertRound(p: String, r: String, mtimes: map<String, Date>)
    requires Inert(p)
    ensures NextRewrite(p + r, mtimes) ==
      var n := NextRewrite(r, mtimes);
      if n.Some? then Some(p + n.value) else None
  {
    match FindSpan(r, TokenStart, TokenEnd)
    case None =>
      FindSpanShiftedNone(p, r, TokenStart, TokenEnd);
    case Some(span) =>
      FindSpanShiftedSome(p, r, TokenStart, TokenEnd, span.start, span.stop);
      RoundBehind(p, r, mtimes, span.start, span.stop);
  }

  /** An inert prefix comes through the rewriting unchanged. */
  lemma {:induction false} InertPrefix(p: String, r: String, mtimes: map<String, Date>)
    requires Inert(p)
    ensures LastUpdated(p + r, mtimes) == p + LastUpdated(r, mtimes)
    decreases Braces(r)
  {
    InertRound(p, r, mtimes);
    NextRewriteBraces(r, mtimes);
    match NextRewrite(r, mtimes)
    case None =>
    case Some(next) => InertPrefix(p, next, mtimes);
  }

  /** At a closed first token, the rewriting goes on from the text with that token rewritten. */
  lemma LastUpdatedStep(s: String, mtimes: map<String, Date>, span: Span, rep: String)
    requires FindSpan(s, TokenStart, TokenEnd) == Some(span)
    requires rep == Stamp(mtimes, TokenPath(s, span))
    ensures LastUpdated(s, mtimes) == LastUpdated(Rewritten(s, span, rep), mtimes)
  {
  }

  /** The text up to a first token, followed by a stamp, is inert. */
  lemma StampedHeadInert(s: String, start: nat, rep: String, mtimes: map<String, Date>, path: String)
    requires Find(s, TokenStart) == Some(start)
    requires rep == Stamp(mtimes, path)
    ensures Inert(s[..start] + rep)
  {
    StampOutside(mtimes, path);
    BarrenSplice(s, TokenStart, start, rep);
  }

  /** The rewriting at a closed first token, at `span`. */
  lemma LastUpdatedAt(s: String, mtimes: map<String, Date>, span: Span)
    requires Find(s, TokenStart) == Some(span.start)
    requires FindSpan(s, TokenStart, TokenEnd) == Some(span)
    ensures span.stop + |TokenEnd| <= |s|
    ensures LastUpdated(s, mtimes) ==
      s[..span.start] + Stamp(mtimes, TokenPath(s, span)) + LastUpdated(s[span.stop + |TokenEnd|..], mtimes)
  {
    var path := TokenPath(s, span);
    var rep := Stamp(mtimes, path);
    LastUpdatedStep(s, mtimes, span, rep);
    StampedHeadInert(s, span.start, rep, mtimes, path);
    InertPrefix(s[..span.start] + rep, s[span.stop + |TokenEnd|..], mtimes);
  }

  /**
   * Tokens are rewritten left to right: the text before the first closed
   * token stays, the token becomes the stamp of the path it names, taken as
   * written, and the text after the token is rewritten on its own.
   */
  lemma LastUpdatedLeftToRight(s: String, mtimes: map<String, Date>, span: Span)
    requires FindSpan(s, TokenStart, TokenEnd) == Some(span)
    ensures span.stop + |TokenEnd| <= |s|
    ensures LastUpdated(s, mtimes) ==
      s[..span.start] + Stamp(mtimes, TokenPath(s, span)) + LastUpdated(s[span.stop + |TokenEnd|..], mtimes)
  {
    FindSpanFirst(s, TokenStart, TokenEnd, span);
    LastUpdatedAt(s, mtimes, span);
  }
}
