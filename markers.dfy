/**
 * Achievement markers in the Markdown source: a `<!` on a line turns the
 * text after it into an achievement span.
 */
module Markers {
  import opened Text

  const MarkerOpen: String := "<span class=\"achievement-marker\">"

  const MarkerClose: String := "</span>"

  /**
   * One line of `transform_achievement_markers`: from the first `"<!"` on,
   * the text after the marker with its leading whitespace trimmed becomes an
   * achievement span; a line without a marker, or with only whitespace
   * after it, is left as it is.
   */
  function MarkerLine(line: String): String {
    match Find(line, "<!")
    case None => line
    case Some(p) =>
      var body := TrimStart(line[p + 2..]);
      if body != [] then line[..p] + MarkerOpen + body + MarkerClose else line
  }

  function MarkerLines(lines: seq<String>): (out: seq<String>)
    ensures |out| == |lines| && forall k :: 0 <= k < |lines| ==> out[k] == MarkerLine(lines[k])
  {
    seq(|lines|, k requires 0 <= k < |lines| => MarkerLine(lines[k]))
  }

  /**
   * A line changes exactly when it holds a `"<!"` followed by some
   * non-whitespace; it then becomes the text before the first `"<!"`, the
   * span opening, the text after the marker from its first non-whitespace
   * character on, and the span closing.
   */
  lemma MarkerLineShape(line: String)
    ensures Find(line, "<!").None? ==> MarkerLine(line) == line
    ensures Find(line, "<!").Some? ==>
      var p := Find(line, "<!").value;
      && ((forall k :: p + 2 <= k < |line| ==> IsWhitespace(line[k])) <==> MarkerLine(line) == line)
      && (MarkerLine(line) != line ==>
            exists d :: p + 2 <= d < |line| && (forall k :: p + 2 <= k < d ==> IsWhitespace(line[k]))
              && !IsWhitespace(line[d]) && MarkerLine(line) == line[..p] + MarkerOpen + line[d..] + MarkerClose)
  {
    if Find(line, "<!").Some? {
      var p := Find(line, "<!").value;
      var after := line[p + 2..];
      var d := SkipWhitespace(after, 0);
      if d < |after| {
        assert TrimStart(after) == after[d..] == line[p + 2 + d..];
        MarkerSpanned(line, p, after[d..]);
        MarkerBang(line, p);
        SpanDiffers(line, p, line[p + 2 + d..]);
        assert !IsWhitespace(line[p + 2 + d]) && after[d] == line[p + 2 + d];
      } else {
        MarkerBlank(line, p);
      }
    }
  }

  /** Some non-whitespace after the marker: the line becomes the span around the trimmed text. */
  lemma MarkerSpanned(line: String, p: nat, body: String)
    requires Find(line, "<!") == Some(p) && body == TrimStart(line[p + 2..]) && body != []
    ensures MarkerLine(line) == line[..p] + MarkerOpen + body + MarkerClose
  {
  }

  /** The marker's second character. */
  lemma MarkerBang(line: String, p: nat)
    requires Find(line, "<!") == Some(p)
    ensures p + 2 <= |line| && line[p + 1] == '!'
  {
    assert MatchAt(line, "<!", p);
    assert line[p + 1] == line[p..p + 2][1];
  }

  /** A span put where the marker's `'!'` stood cannot give the line back. */
  lemma SpanDiffers(line: String, p: nat, rest: String)
    requires p + 2 <= |line| && line[p + 1] == '!'
    ensures line[..p] + MarkerOpen + rest + MarkerClose != line
  {
    var r := line[..p] + MarkerOpen + rest + MarkerClose;
    assert r[p + 1] == MarkerOpen[1] == 's';
  }

  /** Only whitespace after the marker: the line stays as it is. */
  lemma MarkerBlank(line: String, p: nat)
    requires Find(line, "<!") == Some(p)
    requires SkipWhitespace(line[p + 2..], 0) == |line[p + 2..]|
    ensures MarkerLine(line) == line
    ensures forall k :: p + 2 <= k < |line| ==> IsWhitespace(line[k])
  {
    var after := line[p + 2..];
    assert TrimStart(after) == [];
    forall k | p + 2 <= k < |line| ensures IsWhitespace(line[k]) {
      assert line[k] == after[k - p - 2];
    }
  }

  /** The loop body of `transform_achievement_markers`, before the line's `'\n'`. */
  method MarkLine(line: String) returns (piece: String)
    ensures piece == MarkerLine(line)
  {
    piece := line;
    var found := Find(line, "<!");
    if found.Some? {
      var markerPos := found.value;
      var before, after := line[..markerPos], line[markerPos..];
      var markerText := TrimStart(after[2..]);
      assert after[2..] == line[markerPos + 2..];
      if markerText != [] {
        piece := before + MarkerOpen + markerText + MarkerClose;
      }
    }
  }

  /** `transform_achievement_markers`: every line, transformed, with a `'\n'` after it. */
  method TransformAchievementMarkers(markdown: String) returns (result: String)
    ensures result == Unlines(MarkerLines(Lines(markdown)))
  {
    var lines := Lines(markdown);
    ghost var out := MarkerLines(lines);
    result := "";
    for i := 0 to |lines|
      invariant result == Unlines(out[..i])
    {
      var piece := MarkLine(lines[i]);
      UnlinesStep(out, i);
      result := result + piece + "\n";
    }
    assert out[..|lines|] == out;
  }
}
