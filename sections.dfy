/**
 * Byte-offset sections of rendered HTML (src/parser/sections.rs).
 *
 * `ExtractSections` scans an HTML string for `<h2>...</h2>` pairs and returns
 * one `Section` per pair, whose ranges tile the rest of the string and whose
 * ids repeat a title's slug with a per-slug counter.
 */
module Sections {
  import opened Text
  import opened Slugs

  /** One `<h2>` block of the HTML: `[start, end)` in character offsets. */
  datatype Section = Section(id: String, title: String, start: nat, end: nat)

  /** An `<h2>` found by the scan: where its opening tag starts and where the first `</h2>` after it starts. */
  datatype Heading = Heading(start: nat, close: nat)

  /** `<h2>` starts at `j`, spelled out character by character. */
  predicate IsOpenAt(html: String, j: nat) {
    j + 4 <= |html| && html[j] == '<' && html[j + 1] == 'h' && html[j + 2] == '2' && html[j + 3] == '>'
  }

  /** `</h2>` starts at `j`, spelled out character by character. */
  predicate IsCloseAt(html: String, j: nat) {
    j + 5 <= |html| && html[j] == '<' && html[j + 1] == '/' && html[j + 2] == 'h' && html[j + 3] == '2' && html[j + 4] == '>'
  }

  /** `html[from..].find("<h2>")`, made absolute. */
  function FindOpen(html: String, from: nat): (r: Option<nat>)
    requires from <= |html|
    ensures r.Some? ==> from <= r.value && IsOpenAt(html, r.value)
    decreases |html| - from
  {
    if IsOpenAt(html, from) then Some(from)
    else if from == |html| then None
    else FindOpen(html, from + 1)
  }

  /** `html[from..].find("</h2>")`, made absolute. */
  function FindClose(html: String, from: nat): (r: Option<nat>)
    requires from <= |html|
    ensures r.Some? ==> from <= r.value && IsCloseAt(html, r.value)
    decreases |html| - from
  {
    if IsCloseAt(html, from) then Some(from)
    else if from == |html| then None
    else FindClose(html, from + 1)
  }

  lemma OpenIsMatch(html: String, j: nat)
    ensures IsOpenAt(html, j) <==> MatchAt(html, "<h2>", j)
  {
    if j + 4 <= |html| {
      if IsOpenAt(html, j) {
        assert html[j..j + 4] == "<h2>";
      }
      if MatchAt(html, "<h2>", j) {
        assert html[j..j + 4][1] == html[j + 1];
        assert html[j..j + 4][2] == html[j + 2];
        assert html[j..j + 4][3] == html[j + 3];
      }
    }
  }

  lemma CloseIsMatch(html: String, j: nat)
    ensures IsCloseAt(html, j) <==> MatchAt(html, "</h2>", j)
  {
    if j + 5 <= |html| {
      if IsCloseAt(html, j) {
        assert html[j..j + 5] == "</h2>";
      }
      if MatchAt(html, "</h2>", j) {
        assert html[j..j + 5][1] == html[j + 1];
        assert html[j..j + 5][2] == html[j + 2];
        assert html[j..j + 5][3] == html[j + 3];
        assert html[j..j + 5][4] == html[j + 4];
      }
    }
  }

  /** The tag searches are `str::find` with the tag as pattern. */
  lemma {:induction false} FindOpenIsFind(html: String, from: nat)
    requires from <= |html|
    ensures FindOpen(html, from) == FindFrom(html, "<h2>", from)
    decreases |html| - from
  {
    OpenIsMatch(html, from);
    if !IsOpenAt(html, from) && from < |html| {
      FindOpenIsFind(html, from + 1);
    }
  }

  lemma {:induction false} FindCloseIsFind(html: String, from: nat)
    requires from <= |html|
    ensures FindClose(html, from) == FindFrom(html, "</h2>", from)
    decreases |html| - from
  {
    CloseIsMatch(html, from);
    if !IsCloseAt(html, from) && from < |html| {
      FindCloseIsFind(html, from + 1);
    }
  }

  /**
   * The headings the scan of `extract_sections` finds from offset `from` on:
   * the next `<h2>`, the first `</h2>` after it, and the scan resumes after
   * that `</h2>`; an `<h2>` with no `</h2>` after it ends the scan.
   */
  function Headings(html: String, from: nat): seq<Heading>
    requires from <= |html|
    decreases |html| - from
  {
    match FindOpen(html, from)
    case None => []
    case Some(s) =>
      match FindClose(html, s)
      case None => []
      case Some(e) => [Heading(s, e)] + Headings(html, e + 5)
  }

  /** The text between a heading's tags (empty for offsets that are not a heading's). */
  function TitleOf(html: String, h: Heading): String {
    if h.start + 4 <= h.close <= |html| then html[h.start + 4..h.close] else []
  }

  /** A heading found at `h.start`: its opening tag, and its closing tag is the first one after it. */
  predicate WellFormed(html: String, h: Heading) {
    && IsOpenAt(html, h.start)
    && FindClose(html, h.start) == Some(h.close)
  }

  /** One step of the scan: an `<h2>` and a `</h2>` after it make the first heading. */
  lemma ScanStep(html: String, from: nat, s: nat, e: nat)
    requires from <= |html|
    requires FindOpen(html, from) == Some(s) && FindClose(html, s) == Some(e)
    ensures Headings(html, from) != [] && Headings(html, from)[0] == Heading(s, e)
  {
  }

  /** The first heading of the scan from `from` is the next `<h2>` and the first `</h2>` after it. */
  lemma FirstHeading(html: String, from: nat)
    requires from <= |html| && Headings(html, from) != []
    ensures FindOpen(html, from) == Some(Headings(html, from)[0].start)
    ensures FindClose(html, Headings(html, from)[0].start) == Some(Headings(html, from)[0].close)
  {
  }

  /** The first heading lies after `from`, its tags do not overlap, and the scan resumes after it. */
  lemma HeadingsTail(html: String, from: nat)
    requires from <= |html| && Headings(html, from) != []
    ensures from <= Headings(html, from)[0].start
    ensures Headings(html, from)[0].start + 4 <= Headings(html, from)[0].close
    ensures Headings(html, from)[0].close + 5 <= |html|
    ensures Headings(html, from) == [Headings(html, from)[0]] + Headings(html, Headings(html, from)[0].close + 5)
  {
  }

  /** Every heading of the scan lies after `from` and inside the text, with its title between its tags. */
  lemma {:induction false} HeadingBounds(html: String, from: nat, i: nat)
    requires from <= |html| && i < |Headings(html, from)|
    ensures from <= Headings(html, from)[i].start
    ensures Headings(html, from)[i].start + 4 <= Headings(html, from)[i].close
    ensures Headings(html, from)[i].close + 5 <= |html|
    decreases |html| - from
  {
    HeadingsTail(html, from);
    if i > 0 {
      var hs := Headings(html, from);
      assert hs[i] == Headings(html, hs[0].close + 5)[i - 1];
      HeadingBounds(html, hs[0].close + 5, i - 1);
    }
  }

  /** Every heading of the scan is an `<h2>` closed by the first `</h2>` after it. */
  lemma {:induction false} HeadingWellFormed(html: String, from: nat, i: nat)
    requires from <= |html| && i < |Headings(html, from)|
    ensures WellFormed(html, Headings(html, from)[i])
    decreases |html| - from
  {
    HeadingsTail(html, from);
    var hs := Headings(html, from);
    if i == 0 {
      FirstHeading(html, from);
    } else {
      assert hs[i] == Headings(html, hs[0].close + 5)[i - 1];
      HeadingWellFormed(html, hs[0].close + 5, i - 1);
    }
  }

  /** Each heading's closing tag ends before the next heading starts. */
  lemma {:induction false} HeadingsConsecutive(html: String, from: nat, i: nat)
    requires from <= |html| && i + 1 < |Headings(html, from)|
    ensures Headings(html, from)[i].close + 5 <= Headings(html, from)[i + 1].start
    decreases |html| - from
  {
    HeadingsTail(html, from);
    var hs := Headings(html, from);
    var e := hs[0].close;
    assert hs[i + 1] == Headings(html, e + 5)[i];
    if i == 0 {
      HeadingBounds(html, e + 5, 0);
    } else {
      assert hs[i] == Headings(html, e + 5)[i - 1];
      HeadingsConsecutive(html, e + 5, i - 1);
    }
  }

  /** The starts of the headings strictly increase, and no two headings overlap. */
  lemma {:induction false} HeadingsOrdered(html: String, from: nat, i: nat, j: nat)
    requires from <= |html| && i < j < |Headings(html, from)|
    ensures Headings(html, from)[i].close + 5 <= Headings(html, from)[j].start
    decreases j - i
  {
    HeadingsConsecutive(html, from, i);
    if i + 1 < j {
      HeadingBounds(html, from, i + 1);
      HeadingsOrdered(html, from, i + 1, j);
    }
  }

  /** No `<h2>` is left at `at`, or the next one has no `</h2>` after it. */
  predicate NothingToScan(html: String, at: nat)
    requires at <= |html|
  {
    match FindOpen(html, at)
    case None => true
    case Some(s) => FindClose(html, s).None?
  }

  /** The scan finds nothing exactly when no `<h2>` is left or the next one is never closed. */
  lemma HeadingsEmptyIff(html: String, from: nat)
    requires from <= |html|
    ensures Headings(html, from) == [] <==> NothingToScan(html, from)
  {
  }

  /** How often `x` occurs in `xs`. */
  function Occurrences(xs: seq<String>, x: String): nat {
    if |xs| == 0 then 0
    else Occurrences(xs[..|xs| - 1], x) + (if xs[|xs| - 1] == x then 1 else 0)
  }

  /**
   * The id `extract_sections` gives the `i`-th heading, whose slug is
   * `slugs[i]`: the bare slug the first time, `<slug>-k` the k-th time after.
   */
  function CountedId(slugs: seq<String>, i: nat): String
    requires i < |slugs|
  {
    NumberedId(slugs[i], Occurrences(slugs[..i], slugs[i]))
  }

  /** `base` the first time (`n == 0`), `format!("{}-{}", base, n)` after. */
  function NumberedId(base: String, n: nat): String {
    if n == 0 then base else base + "-" + NatToString(n)
  }

  /** How many times `base` has been used as an id so far; zero when never. */
  function CountOf(counts: map<String, nat>, base: String): nat {
    if base in counts then counts[base] else 0
  }

  /** The slugs of the titles of the headings found from `from`. */
  function SlugsOf(html: String, hs: seq<Heading>): (r: seq<String>)
    ensures |r| == |hs|
  {
    seq(|hs|, i requires 0 <= i < |hs| => Slugify(TitleOf(html, hs[i])))
  }

  lemma {:induction false} OccurrencesZero(xs: seq<String>, x: String)
    ensures Occurrences(xs, x) == 0 <==> x !in xs
    decreases |xs|
  {
    if |xs| > 0 {
      OccurrencesZero(xs[..|xs| - 1], x);
      assert xs == xs[..|xs| - 1] + [xs[|xs| - 1]];
    }
  }

  lemma {:induction false} OccurrencesGrow(xs: seq<String>, i: nat, j: nat)
    requires i < j <= |xs|
    ensures Occurrences(xs[..j], xs[i]) >= Occurrences(xs[..i], xs[i]) + 1
    decreases j
  {
    assert xs[..j][..j - 1] == xs[..j - 1];
    if j - 1 > i {
      OccurrencesGrow(xs, i, j - 1);
    } else {
      assert xs[..j][j - 1] == xs[i];
    }
  }

  /** The id is the bare slug exactly when the slug has not been seen before. */
  lemma CountedIdBare(slugs: seq<String>, i: nat)
    requires i < |slugs|
    ensures CountedId(slugs, i) == slugs[i] <==> slugs[i] !in slugs[..i]
  {
    OccurrencesZero(slugs[..i], slugs[i]);
  }

  /** Two headings with the same slug never get the same id. */
  lemma CountedIdsDistinctPerSlug(slugs: seq<String>, i: nat, j: nat)
    requires i < j < |slugs| && slugs[i] == slugs[j]
    ensures CountedId(slugs, i) != CountedId(slugs, j)
  {
    OccurrencesGrow(slugs, i, j);
    NumberedIdInjective(slugs[i], Occurrences(slugs[..i], slugs[i]), Occurrences(slugs[..j], slugs[j]));
  }

  /** Different counts give different ids for the same slug. */
  lemma NumberedIdInjective(base: String, m: nat, n: nat)
    requires m != n
    ensures NumberedId(base, m) != NumberedId(base, n)
  {
    if m != 0 && n != 0 && NumberedId(base, m) == NumberedId(base, n) {
      var b := base + "-";
      assert NatToString(m) == NumberedId(base, m)[|b|..];
      assert NatToString(n) == NumberedId(base, n)[|b|..];
      NatToStringInjective(m, n);
    }
  }

  lemma CountedIdsCanCollide()
    ensures CountedId(["test", "test", "test-1"], 1) == "test-1"
    ensures CountedId(["test", "test", "test-1"], 2) == "test-1"
  {
    var slugs: seq<String> := ["test", "test", "test-1"];
    assert slugs[..1] == ["test"];
    assert Occurrences(slugs[..1], "test") == 1 by {
      assert ["test"][..0] == [];
    }
    assert slugs[..2] == ["test", "test"];
    assert Occurrences(slugs[..2], "test-1") == 0 by {
      OccurrencesZero(slugs[..2], "test-1");
    }
  }

  lemma {:induction false} OccurrencesCons(x: String, xs: seq<String>, k: String)
    ensures Occurrences([x] + xs, k) == Occurrences(xs, k) + (if x == k then 1 else 0)
    decreases |xs|
  {
    if |xs| > 0 {
      assert ([x] + xs)[..|xs|] == [x] + xs[..|xs| - 1];
      OccurrencesCons(x, xs[..|xs| - 1], k);
    } else {
      assert ([x] + xs)[..0] == [];
    }
  }

  /**
   * The sections the first loop of `extract_sections` collects from the
   * headings `hs`, whose slugs are `slugs`, when the counts of the slugs seen
   * before are `counts`; every end is still 0.
   */
  function Numbered(html: String, hs: seq<Heading>, slugs: seq<String>, counts: map<String, nat>): (r: seq<Section>)
    requires |slugs| == |hs|
    ensures |r| == |hs|
    decreases |hs|
  {
    if hs == [] then []
    else
      var n := CountOf(counts, slugs[0]);
      [Section(NumberedId(slugs[0], n), TitleOf(html, hs[0]), hs[0].start, 0)]
        + Numbered(html, hs[1..], slugs[1..], counts[slugs[0] := n + 1])
  }

  /** Counting a slug once more in the map is the same as seeing it once more before. */
  lemma CountShift(counts: map<String, nat>, base: String, tail: seq<String>, x: String)
    ensures CountOf(counts[base := CountOf(counts, base) + 1], x) + Occurrences(tail, x) ==
      CountOf(counts, x) + Occurrences([base] + tail, x)
  {
    OccurrencesCons(base, tail, x);
  }

  /** The `k`-th section collected: its heading's start and title, and its slug numbered after the ones before it. */
  lemma {:induction false} NumberedAt(html: String, hs: seq<Heading>, slugs: seq<String>, counts: map<String, nat>, k: nat)
    requires |slugs| == |hs| && k < |hs|
    ensures Numbered(html, hs, slugs, counts)[k] ==
      Section(NumberedId(slugs[k], CountOf(counts, slugs[k]) + Occurrences(slugs[..k], slugs[k])), TitleOf(html, hs[k]), hs[k].start, 0)
    decreases |hs|
  {
    if k == 0 {
      assert slugs[..0] == [];
    } else {
      var counts' := counts[slugs[0] := CountOf(counts, slugs[0]) + 1];
      NumberedAt(html, hs[1..], slugs[1..], counts', k - 1);
      assert slugs[..k] == [slugs[0]] + slugs[1..][..k - 1];
      CountShift(counts, slugs[0], slugs[1..][..k - 1], slugs[k]);
    }
  }

  /** The first section collected, then the rest collected with the first slug counted once more. */
  lemma NumberedCons(html: String, hs: seq<Heading>, slugs: seq<String>, counts: map<String, nat>,
                     title: String, base: String, n: nat, rest: seq<Section>)
    requires |slugs| == |hs| > 0
    requires title == TitleOf(html, hs[0]) && base == slugs[0] && n == CountOf(counts, base)
    requires rest == Numbered(html, hs[1..], slugs[1..], counts[base := n + 1])
    ensures Numbered(html, hs, slugs, counts) == [Section(NumberedId(base, n), title, hs[0].start, 0)] + rest
  {
  }

  lemma NumberedCongruence(html: String, hs: seq<Heading>, hs': seq<Heading>, slugs: seq<String>, slugs': seq<String>,
                           counts: map<String, nat>)
    requires |slugs| == |hs| && hs == hs' && slugs == slugs'
    ensures Numbered(html, hs, slugs, counts) == Numbered(html, hs', slugs', counts)
  {
  }

  lemma SlugsOfCons(html: String, hs: seq<Heading>)
    requires hs != []
    ensures SlugsOf(html, hs)[0] == Slugify(TitleOf(html, hs[0]))
    ensures SlugsOf(html, hs)[1..] == SlugsOf(html, hs[1..])
  {
  }

  /** One step of the first loop: the section of the next heading, then the rest counted with its slug counted once more. */
  lemma NumberedStep(html: String, from: nat, s: nat, e: nat, counts: map<String, nat>, title: String, base: String, n: nat)
    requires from <= |html|
    requires FindOpen(html, from) == Some(s) && FindClose(html, s) == Some(e)
    requires s + 4 <= e && title == html[s + 4..e] && base == Slugify(title) && n == CountOf(counts, base)
    ensures e + 5 <= |html|
    ensures Numbered(html, Headings(html, from), SlugsOf(html, Headings(html, from)), counts) ==
      [Section(NumberedId(base, n), title, s, 0)]
        + Numbered(html, Headings(html, e + 5), SlugsOf(html, Headings(html, e + 5)), counts[base := n + 1])
  {
    var hs := Headings(html, from);
    assert hs != [] && hs[0] == Heading(s, e) by {
      ScanStep(html, from, s, e);
    }
    var tail := Headings(html, e + 5);
    assert hs[1..] == tail && e + 5 <= |html| by {
      HeadingsTail(html, from);
    }
    var slugs := SlugsOf(html, hs);
    assert slugs[0] == base && slugs[1..] == SlugsOf(html, tail) by {
      SlugsOfCons(html, hs);
      assert TitleOf(html, hs[0]) == title;
    }
    var counts' := counts[base := n + 1];
    NumberedCongruence(html, hs[1..], tail, slugs[1..], SlugsOf(html, tail), counts');
    NumberedCons(html, hs, slugs, counts, title, base, n, Numbered(html, tail, SlugsOf(html, tail), counts'));
  }

  /** The first loop's invariant: what is collected, followed by what the scan from `from` collects with `counts`, is everything. */
  predicate ScanInvariant(html: String, all: seq<Section>, sections: seq<Section>, from: nat, counts: map<String, nat>) {
    from <= |html| && sections + Numbered(html, Headings(html, from), SlugsOf(html, Headings(html, from)), counts) == all
  }

  /** The first loop's invariant survives one step. */
  lemma ScanInvariantStep(html: String, all: seq<Section>, sections: seq<Section>, from: nat, counts: map<String, nat>,
                          s: nat, e: nat, title: String, base: String, n: nat,
                          sections': seq<Section>, from': nat, counts': map<String, nat>)
    requires ScanInvariant(html, all, sections, from, counts)
    requires FindOpen(html, from) == Some(s) && FindClose(html, s) == Some(e)
    requires s + 4 <= e && title == html[s + 4..e] && base == Slugify(title) && n == CountOf(counts, base)
    requires sections' == sections + [Section(NumberedId(base, n), title, s, 0)]
    requires from' == e + 5 && counts' == counts[base := n + 1]
    ensures ScanInvariant(html, all, sections', from', counts')
  {
    NumberedStep(html, from, s, e, counts, title, base, n);
    AppendAssoc(sections, [Section(NumberedId(base, n), title, s, 0)],
      Numbered(html, Headings(html, e + 5), SlugsOf(html, Headings(html, e + 5)), counts[base := n + 1]));
  }

  /** A `</h2>` cannot start inside an `<h2>`. */
  lemma OpenCloseApart(html: String, s: nat, e: nat)
    requires IsOpenAt(html, s) && IsCloseAt(html, e) && s <= e
    ensures s + 4 <= e
  {
  }

  /** Every section's end set to the next section's start, and the last one's to `n`. */
  function Patched(ss: seq<Section>, n: nat): (r: seq<Section>)
    ensures |r| == |ss|
  {
    seq(|ss|, i requires 0 <= i < |ss| => ss[i].(end := if i + 1 < |ss| then ss[i + 1].start else n))
  }

  /** What `extract_sections` returns: the numbered headings, each ending where the next one starts. */
  function Extracted(html: String): seq<Section> {
    var hs := Headings(html, 0);
    Patched(Numbered(html, hs, SlugsOf(html, hs), map[]), |html|)
  }

  /**
   * The first loop of `extract_sections`: finds the headings one after the
   * other and numbers their slugs; every end is left at 0.
   */
  method ScanHeadings(html: String) returns (sections: seq<Section>)
    ensures sections == Numbered(html, Headings(html, 0), SlugsOf(html, Headings(html, 0)), map[])
  {
    ghost var all := Numbered(html, Headings(html, 0), SlugsOf(html, Headings(html, 0)), map[]);
    sections := [];
    var idCounts: map<String, nat> := map[];
    var searchStart := 0;
    while true
      invariant ScanInvariant(html, all, sections, searchStart, idCounts)
      decreases |html| - searchStart
    {
      var h2 := FindOpen(html, searchStart);
      if h2.None? {
        break;
      }
      var absoluteStart := h2.value;
      var h2End := FindClose(html, absoluteStart);
      if h2End.None? {
        break;
      }
      OpenCloseApart(html, absoluteStart, h2End.value);
      var title := html[absoluteStart + 4..h2End.value];
      var baseId := Slugify(title);
      var count := CountOf(idCounts, baseId);
      var id := NumberedId(baseId, count);
      ghost var sections0, searchStart0, idCounts0 := sections, searchStart, idCounts;
      idCounts := idCounts[baseId := count + 1];
      sections := sections + [Section(id, title, absoluteStart, 0)];
      searchStart := h2End.value + 5;
      ScanInvariantStep(html, all, sections0, searchStart0, idCounts0, absoluteStart, h2End.value, title, baseId, count,
        sections, searchStart, idCounts);
    }
    assert sections == all by {
      HeadingsEmptyIff(html, searchStart);
    }
  }

  /** The second loop of `extract_sections`: every section ends where the next one starts, the last one at `n`. */
  method SetEnds(scanned: seq<Section>, n: nat) returns (sections: seq<Section>)
    ensures sections == Patched(scanned, n)
  {
    sections := scanned;
    for i := 0 to |sections|
      invariant |sections| == |scanned|
      invariant forall k :: 0 <= k < i ==> sections[k] == Patched(scanned, n)[k]
      invariant forall k :: i <= k < |sections| ==> sections[k] == scanned[k]
    {
      var end := if i + 1 < |sections| then sections[i + 1].start else n;
      sections := sections[i := sections[i].(end := end)];
    }
  }

  /** `extract_sections`. */
  method ExtractSections(html: String) returns (sections: seq<Section>)
    ensures sections == Extracted(html)
  {
    sections := ScanHeadings(html);
    sections := SetEnds(sections, |html|);
  }

  /** Numbering from no counts: the `k`-th section's id is its slug numbered after the same slugs before it. */
  lemma NumberedFresh(html: String, hs: seq<Heading>, slugs: seq<String>, k: nat)
    requires |slugs| == |hs| && k < |hs|
    ensures Numbered(html, hs, slugs, map[])[k] == Section(CountedId(slugs, k), TitleOf(html, hs[k]), hs[k].start, 0)
  {
    NumberedAt(html, hs, slugs, map[], k);
    assert CountOf(map[], slugs[k]) == 0;
  }

  /** The `i`-th section extracted: its heading's start and title, and its slug numbered after the same slugs before it. */
  lemma ExtractedHeading(html: String, i: nat)
    requires i < |Headings(html, 0)|
    ensures |Extracted(html)| == |Headings(html, 0)|
    ensures Extracted(html)[i].start == Headings(html, 0)[i].start
    ensures Extracted(html)[i].title == TitleOf(html, Headings(html, 0)[i])
    ensures Extracted(html)[i].id == CountedId(SlugsOf(html, Headings(html, 0)), i)
  {
    var hs := Headings(html, 0);
    NumberedFresh(html, hs, SlugsOf(html, hs), i);
  }

  /** The sections tile the text from the first `<h2>` on: each ends where the next starts, the last at the end of the text. */
  lemma ExtractedTiles(html: String, i: nat)
    requires i < |Extracted(html)|
    ensures IsOpenAt(html, Extracted(html)[i].start)
    ensures Extracted(html)[i].start < Extracted(html)[i].end <= |html|
    ensures i + 1 < |Extracted(html)| ==> Extracted(html)[i].end == Extracted(html)[i + 1].start
    ensures i + 1 == |Extracted(html)| ==> Extracted(html)[i].end == |html|
  {
    var hs := Headings(html, 0);
    ExtractedHeading(html, i);
    SectionBounds(html, i);
    if i + 1 < |hs| {
      ExtractedHeading(html, i + 1);
    }
  }

  /** A heading lies before the next heading's start, or before the end of the text for the last one. */
  lemma SectionBounds(html: String, i: nat)
    requires i < |Headings(html, 0)|
    ensures IsOpenAt(html, Headings(html, 0)[i].start)
    ensures i + 1 < |Headings(html, 0)| ==> Headings(html, 0)[i].start < Headings(html, 0)[i + 1].start <= |html|
    ensures Headings(html, 0)[i].start < |html|
  {
    HeadingWellFormed(html, 0, i);
    HeadingBounds(html, 0, i);
    if i + 1 < |Headings(html, 0)| {
      HeadingsConsecutive(html, 0, i);
      HeadingBounds(html, 0, i + 1);
    }
  }
}
