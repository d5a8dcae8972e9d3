/**
 * Facts about searching a text: how a search behaves behind a prefix in
 * which the pattern cannot start, and where `replacen` of a delimited
 * span found by two searches acts.
 */
module Search {
  import opened Text

  /** When no `p` starts inside `a`, searching `a + b` is searching `b`, shifted by `|a|`. */
  lemma FindShift(a: String, b: String, p: String)
    requires forall q :: 0 <= q < |a| ==> !MatchAt(a + b, p, q)
    ensures Find(a + b, p) ==
      var f := Find(b, p);
      if f.Some? then Some(|a| + f.value) else None
  {
    FindFromSkip(a + b, p, 0, |a|);
    FindFromShift(a, b, p, 0);
  }

  /** An occurrence in `s[a..]` is an occurrence in `s`, `a` further on. */
  lemma SliceMatch(s: String, p: String, a: nat, j: nat)
    requires a <= |s|
    ensures MatchAt(s[a..], p, j) <==> MatchAt(s, p, a + j)
  {
    if a + j + |p| <= |s| {
      assert s[a..][j..j + |p|] == s[a + j..a + j + |p|];
    }
  }

  /** Searching the rest of `s` from `a` finds nothing exactly when no `p` starts at or after `a`. */
  lemma FindRestNone(s: String, p: String, a: nat)
    requires a <= |s|
    ensures Find(s[a..], p).None? <==> forall j :: a <= j <= |s| ==> !MatchAt(s, p, j)
  {
    var f := Find(s[a..], p);
    if f.Some? {
      SliceMatch(s, p, a, f.value);
    } else {
      forall j | a <= j <= |s| ensures !MatchAt(s, p, j) {
        SliceMatch(s, p, a, j - a);
      }
    }
  }

  lemma SliceSplit<T>(s: seq<T>, a: nat, b: nat, c: nat)
    requires a <= b <= c <= |s|
    ensures s[a..c] == s[a..b] + s[b..c]
  {
  }

  lemma SliceThree<T>(s: seq<T>, i: nat, j: nat)
    requires i <= j <= |s|
    ensures s == s[..i] + s[i..j] + s[j..]
  {
  }

  /** The span `left + inner + right` read off `s` at `i` occurs there. */
  lemma SpanMatch(s: String, left: String, right: String, i: nat, offset: nat)
    requires MatchAt(s, left, i)
    requires MatchAt(s[i + |left|..], right, offset)
    ensures i + |left| + offset + |right| <= |s|
    ensures MatchAt(s, left + s[i + |left|..i + |left| + offset] + right, i)
  {
    var stop := i + |left| + offset;
    assert s[i + |left|..][offset..offset + |right|] == s[stop..stop + |right|];
    SliceSplit(s, i, i + |left|, stop);
    SliceSplit(s, i, stop, stop + |right|);
  }

  /**
   * For the first `left` at `i` and the first `right` in the rest, at
   * `offset` past the end of that `left`, the whole span
   * `left + inner + right` occurs first at `i`.
   */
  lemma SpanFirst(s: String, left: String, right: String, i: nat, offset: nat)
    requires Find(s, left) == Some(i) && i + |left| <= |s|
    requires Find(s[i + |left|..], right) == Some(offset)
    ensures i + |left| + offset + |right| <= |s|
    ensures Find(s, left + s[i + |left|..i + |left| + offset] + right) == Some(i)
  {
    SpanMatch(s, left, right, i, offset);
    var full := left + s[i + |left|..i + |left| + offset] + right;
    assert full[..|left|] == left;
    forall q | 0 <= q < i ensures !MatchAt(s, full, q) {
      assert !MatchAt(s, left, q);
      if q + |full| <= |s| {
        assert s[q..q + |full|][..|left|] == s[q..q + |left|];
      }
    }
    FindFromSkip(s, full, 0, i);
  }

  /** `replacen(pat, rep, 1)` with the first `pat` at `k`, up to `j`, replaces exactly that occurrence. */
  lemma ReplaceFound(s: String, pat: String, rep: String, k: nat, j: nat)
    requires Find(s, pat) == Some(k) && j == k + |pat|
    ensures ReplaceFirst(s, pat, rep) == s[..k] + rep + s[j..]
  {
  }

  /** `replacen(left + inner + right, rep, 1)` on that span replaces exactly it. */
  lemma ReplaceSpan(s: String, left: String, right: String, rep: String, i: nat, offset: nat)
    requires Find(s, left) == Some(i) && i + |left| <= |s|
    requires Find(s[i + |left|..], right) == Some(offset)
    ensures i + |left| + offset + |right| <= |s|
    ensures ReplaceFirst(s, left + s[i + |left|..i + |left| + offset] + right, rep)
      == s[..i] + rep + s[i + |left| + offset + |right|..]
  {
    var full := left + s[i + |left|..i + |left| + offset] + right;
    SpanFirst(s, left, right, i, offset);
    ReplaceFound(s, full, rep, i, i + |left| + offset + |right|);
  }

  /** A delimited span: its `left` starts at `start`, its `right` at `stop`. */
  datatype Span = Span(start: nat, stop: nat)

  /** The first `left` in `s` and the first `right` after its end, if both occur. */
  function FindSpan(s: String, left: String, right: String): (r: Option<Span>)
    ensures r.Some? ==> MatchAt(s, left, r.value.start) && r.value.start + |left| <= r.value.stop
    ensures r.Some? ==> MatchAt(s, right, r.value.stop)
  {
    match Find(s, left)
    case None => None
    case Some(start) =>
      var after := start + |left|;
      match Find(s[after..], right)
      case None => None
      case Some(offset) =>
        SliceMatch(s, right, after, offset);
        Some(Span(start, after + offset))
  }

  /** A span starts at the first `left`. */
  lemma FindSpanFirst(s: String, left: String, right: String, span: Span)
    requires FindSpan(s, left, right) == Some(span)
    ensures Find(s, left) == Some(span.start)
  {
  }

  /** The span whose `right` is found `offset` into the `tail` after the first `left`. */
  lemma FindSpanAt(s: String, left: String, right: String, start: nat, tail: String, offset: nat)
    requires Find(s, left) == Some(start)
    requires start + |left| <= |s| && tail == s[start + |left|..]
    requires Find(tail, right) == Some(offset)
    ensures FindSpan(s, left, right) == Some(Span(start, start + |left| + offset))
  {
  }

  /** No span when the first `left` has no `right` in the `tail` after it. */
  lemma FindSpanUnclosed(s: String, left: String, right: String, start: nat, tail: String)
    requires Find(s, left) == Some(start)
    requires start + |left| <= |s| && tail == s[start + |left|..]
    requires Find(tail, right).None?
    ensures FindSpan(s, left, right).None?
  {
  }

  /** There is no span exactly when no `left` has a `right` at or after its end. */
  lemma FindSpanNone(s: String, left: String, right: String)
    ensures FindSpan(s, left, right).None? <==>
      (Find(s, left).None? ||
       forall j :: Find(s, left).value + |left| <= j <= |s| ==> !MatchAt(s, right, j))
  {
    match Find(s, left)
    case None =>
    case Some(start) => FindRestNone(s, right, start + |left|);
  }

  /** Behind a prefix in which no `left` can start, the span is the span of the rest, shifted. */
  lemma FindSpanBehind(p: String, r: String, left: String, right: String)
    requires Barren(p, left)
    ensures FindSpan(p + r, left, right) ==
      var sp := FindSpan(r, left, right);
      if sp.Some? then Some(Span(|p| + sp.value.start, |p| + sp.value.stop)) else None
  {
    BarrenNoMatch(p, r, left);
    FindShift(p, r, left);
    var found := Find(r, left);
    if found.Some? {
      FindSpanShifted(p, r, left, right, found.value);
    }
  }

  /** With the first `left` of `p + r` the first of `r`, shifted, so is the span. */
  lemma FindSpanShifted(p: String, r: String, left: String, right: String, start: nat)
    requires Find(r, left) == Some(start)
    requires Find(p + r, left) == Some(|p| + start)
    ensures FindSpan(p + r, left, right) ==
      var sp := FindSpan(r, left, right);
      if sp.Some? then Some(Span(|p| + sp.value.start, |p| + sp.value.stop)) else None
  {
    var tail := r[start + |left|..];
    assert (p + r)[|p| + start + |left|..] == tail;
    var closed := Find(tail, right);
    if closed.Some? {
      FindSpanAt(r, left, right, start, tail, closed.value);
      FindSpanAt(p + r, left, right, |p| + start, tail, closed.value);
    } else {
      FindSpanUnclosed(r, left, right, start, tail);
      FindSpanUnclosed(p + r, left, right, |p| + start, tail);
    }
  }

  /** Splicing `rep` into `p + r` behind `p`, at `i2 = |p| + i` up to `j2 = |p| + j`, is splicing it into `r`. */
  lemma SplicedBehind(p: String, r: String, i: nat, j: nat, i2: nat, j2: nat, rep: String)
    requires i <= j <= |r| && i2 == |p| + i && j2 == |p| + j
    ensures (p + r)[..i2] + rep + (p + r)[j2..] == p + (r[..i] + rep + r[j..])
  {
    assert (p + r)[..i2] == p + r[..i];
    assert (p + r)[j2..] == r[j..];
    AppendAssoc(p, r[..i], rep);
    AppendAssoc(p, r[..i] + rep, r[j..]);
  }

  /** Behind a prefix in which no `left` can start, a span of the rest is found shifted. */
  lemma FindSpanShiftedSome(p: String, r: String, left: String, right: String, start: nat, stop: nat)
    requires Barren(p, left)
    requires FindSpan(r, left, right) == Some(Span(start, stop))
    ensures FindSpan(p + r, left, right) == Some(Span(|p| + start, |p| + stop))
  {
    FindSpanBehind(p, r, left, right);
  }

  /** Behind a prefix in which no `left` can start, no span in the rest means no span at all. */
  lemma FindSpanShiftedNone(p: String, r: String, left: String, right: String)
    requires Barren(p, left)
    requires FindSpan(r, left, right).None?
    ensures FindSpan(p + r, left, right).None?
  {
    FindSpanBehind(p, r, left, right);
  }
}
