/**
 * The skill-matrix recognizer and renderer: a heading whose text names a
 * skill matrix, followed by a pipe table whose header names a skill column
 * and a level column, is replaced by an HTML `<table class="skill-matrix">`.
 */
module SkillMatrix {
  import opened Text
  import opened Search

  // ---------------------------------------------------------------------
  // Vocabularies
  // ---------------------------------------------------------------------

  /** Words whose presence in a heading's lowercased text marks a skill matrix. */
  const HeadingKeywords: seq<String> := ["skill", "matrix", "competenc", "proficienc"]

  /** Header words of the skill (name) column. */
  const SkillColumns: seq<String> :=
    ["skill", "skills", "name", "competency", "technology", "tool", "area", "topic", "category", "item"]

  /** Header words of the value (level) column. */
  const ValueColumns: seq<String> :=
    ["level", "rating", "score", "value", "proficiency", "experience", "expertise", "grade", "rank"]

  /** Header words of the notes column. */
  const NotesColumns: seq<String> := ["note", "notes", "description", "comment", "details", "info"]

  // ---------------------------------------------------------------------
  // The heading test
  // ---------------------------------------------------------------------

  /** One or more `'#'`s followed by whitespace or the end: the text starts with `'#'` and that is its hash run. */
  lemma HashRunBefore(t: String, n: nat)
    requires 1 <= n <= |t| && (forall k :: 0 <= k < n ==> t[k] == '#')
    requires n == |t| || IsWhitespace(t[n])
    ensures StartsWith(t, "#") && HashRun(t) == n
  {
    HashRunUnique(t, n);
    assert t[..1] == [t[0]];
  }

  /** Some keyword from the `k`-th on occurs in `text`: the source's `any` over the keywords. */
  predicate HasKeyword(text: String, keywords: seq<String>, k: nat)
    decreases |keywords| - k
  {
    k < |keywords| && (Contains(text, keywords[k]) || HasKeyword(text, keywords, k + 1))
  }

  lemma {:induction false} HasKeywordIff(text: String, keywords: seq<String>, k: nat)
    ensures HasKeyword(text, keywords, k) <==> exists j :: k <= j < |keywords| && Contains(text, keywords[j])
    decreases |keywords| - k
  {
    if k < |keywords| {
      HasKeywordIff(text, keywords, k + 1);
    }
  }

  /** The heading text after the hashes, trimmed and lowercased, names a skill matrix. */
  predicate NamesSkillMatrix(rest: String) {
    HasKeyword(ToLower(Trim(rest)), HeadingKeywords, 0)
  }

  /**
   * The test on the trimmed line: a run of `'#'`s, then whitespace or
   * nothing, then a text naming a skill matrix. (The run cannot be empty once
   * the text starts with `'#'`, so the source's test of an empty run never
   * rejects a line.)
   */
  predicate IsHeadingText(t: String) {
    StartsWith(t, "#") &&
    var n := HashRun(t);
    (n == |t| || IsWhitespace(t[n])) && NamesSkillMatrix(t[n..])
  }

  /** `is_skill_matrix_heading`. */
  predicate IsSkillMatrixHeading(line: String) {
    IsHeadingText(Trim(line))
  }

  /**
   * The heading test, stated without counting: the trimmed line splits into
   * one or more `'#'`s and a rest that is empty or starts with whitespace and
   * names a skill matrix.
   */
  lemma HeadingIff(t: String)
    ensures IsHeadingText(t) <==>
      exists n :: 1 <= n <= |t| && (forall k :: 0 <= k < n ==> t[k] == '#')
        && (n == |t| || IsWhitespace(t[n])) && NamesSkillMatrix(t[n..])
  {
    if IsHeadingText(t) {
      var n := HashRun(t);
      assert t[0] == t[..1][0] == '#';
      assert 1 <= n;
      assert NamesSkillMatrix(t[n..]);
    }
    if exists n :: 1 <= n <= |t| && (forall k :: 0 <= k < n ==> t[k] == '#')
         && (n == |t| || IsWhitespace(t[n])) && NamesSkillMatrix(t[n..])
    {
      var n :| 1 <= n <= |t| && (forall k :: 0 <= k < n ==> t[k] == '#')
         && (n == |t| || IsWhitespace(t[n])) && NamesSkillMatrix(t[n..]);
      HashRunBefore(t, n);
    }
  }

  /** A heading needs whitespace after its hashes: `#NoSpace` is not one. */
  lemma HeadingNeedsSpace()
    ensures !IsSkillMatrixHeading("#NoSpace")
  {
    var t := "#NoSpace";
    assert Trim(t) == t;
    assert HashRun(t[1..]) == 0;
  }

  // ---------------------------------------------------------------------
  // Column roles
  // ---------------------------------------------------------------------

  /** The cells of a table row: its text between `'|'`s, each trimmed (the empty pieces at the ends included). */
  function Cells(row: String): (cells: seq<String>)
    ensures |cells| == |Split(row, '|')|
    ensures forall k :: 0 <= k < |cells| ==> cells[k] == Trim(Split(row, '|')[k])
  {
    var parts := Split(row, '|');
    seq(|parts|, k requires 0 <= k < |parts| => Trim(parts[k]))
  }

  /** The missing cells of a short row read as empty. */
  function Cell(cells: seq<String>, k: nat): String {
    if k < |cells| then cells[k] else ""
  }

  datatype Role = SkillRole | ValueRole | NotesRole

  function Vocabulary(role: Role): seq<String> {
    match role
    case SkillRole => SkillColumns
    case ValueRole => ValueColumns
    case NotesRole => NotesColumns
  }

  /** A lowercased header that is, or starts with, a word of the vocabulary. */
  predicate Matches(lower: String, vocabulary: seq<String>) {
    exists w :: w in vocabulary && (lower == w || StartsWith(lower, w))
  }

  predicate Claims(cell: String, role: Role) {
    Matches(ToLower(cell), Vocabulary(role))
  }

  /** Cell `j` is taken by neither `a` nor `b`. */
  predicate Free(j: nat, a: Option<nat>, b: Option<nat>) {
    a != Some(j) && b != Some(j)
  }

  /** The lowest-index cell that claims `role` and is not taken by another role's column `a` or `b`. */
  function FirstFree(cells: seq<String>, role: Role, a: Option<nat>, b: Option<nat>): (r: Option<nat>)
    ensures r.Some? ==> r.value < |cells| && Free(r.value, a, b) && Claims(cells[r.value], role)
    ensures r.Some? ==> forall j :: 0 <= j < r.value && Free(j, a, b) ==> !Claims(cells[j], role)
    ensures r.None? ==> forall j :: 0 <= j < |cells| && Free(j, a, b) ==> !Claims(cells[j], role)
  {
    if cells == [] then None
    else
      var last := |cells| - 1;
      var r := FirstFree(cells[..last], role, a, b);
      if r.Some? then r
      else if Free(last, a, b) && Claims(cells[last], role) then Some(last)
      else None
  }

  /** Only which of the cells are free matters. */
  lemma {:induction false} FirstFreeSameFree(cells: seq<String>, role: Role,
                                             a: Option<nat>, b: Option<nat>, a': Option<nat>, b': Option<nat>)
    requires forall j :: 0 <= j < |cells| ==> (Free(j, a, b) <==> Free(j, a', b'))
    ensures FirstFree(cells, role, a, b) == FirstFree(cells, role, a', b')
  {
    if cells != [] {
      FirstFreeSameFree(cells[..|cells| - 1], role, a, b, a', b');
    }
  }

  /** Looking at one more cell. */
  lemma FirstFreeStep(cells: seq<String>, role: Role, a: Option<nat>, b: Option<nat>, i: nat)
    requires i < |cells|
    ensures FirstFree(cells[..i + 1], role, a, b) ==
      var r := FirstFree(cells[..i], role, a, b);
      if r.Some? then r else if Free(i, a, b) && Claims(cells[i], role) then Some(i) else None
  {
    assert cells[..i + 1][..i] == cells[..i];
  }

  /** `TableColumns`: the index and header text of each role's column. */
  datatype TableColumns = TableColumns(
    skillIdx: nat, valueIdx: nat, notesIdx: Option<nat>,
    skillHeader: String, valueHeader: String, notesHeader: Option<String>)

  /** The columns a header row's cells name; there is no table without a skill and a value column. */
  function Detected(cells: seq<String>): Option<TableColumns> {
    var s := FirstFree(cells, SkillRole, None, None);
    var v := FirstFree(cells, ValueRole, s, None);
    var n := FirstFree(cells, NotesRole, s, v);
    if s.Some? && v.Some? then
      Some(TableColumns(s.value, v.value, n, cells[s.value], cells[v.value], if n.Some? then Some(cells[n.value]) else None))
    else
      None
  }

  /** Cell `s` is the first to claim a skill word, and no other cell claims a level word. */
  predicate LoneSkill(cells: seq<String>, s: int) {
    && 0 <= s < |cells| && Claims(cells[s], SkillRole)
    && (forall j :: 0 <= j < s ==> !Claims(cells[j], SkillRole))
    && (forall j :: 0 <= j < |cells| && j != s ==> !Claims(cells[j], ValueRole))
  }

  /**
   * The skill column is the first cell claiming a skill word, the value
   * column the first other cell claiming a level word, the notes column the
   * first cell besides those two claiming a notes word; each keeps its
   * header's text, and no cell has two roles. There is a table exactly when
   * some cell claims a skill word and a cell other than the first of those
   * claims a level word.
   */
  lemma DetectedRoles(cells: seq<String>)
    ensures var r := Detected(cells);
      r.Some? ==>
        var c := r.value;
        && c.skillIdx < |cells| && c.valueIdx < |cells| && c.skillIdx != c.valueIdx
        && Claims(cells[c.skillIdx], SkillRole) && c.skillHeader == cells[c.skillIdx]
        && (forall j :: 0 <= j < c.skillIdx ==> !Claims(cells[j], SkillRole))
        && Claims(cells[c.valueIdx], ValueRole) && c.valueHeader == cells[c.valueIdx]
        && (forall j :: 0 <= j < c.valueIdx && j != c.skillIdx ==> !Claims(cells[j], ValueRole))
        && (c.notesIdx.Some? <==> c.notesHeader.Some?)
        && (c.notesIdx.Some? ==>
              && c.notesIdx.value < |cells| && c.notesIdx.value != c.skillIdx && c.notesIdx.value != c.valueIdx
              && Claims(cells[c.notesIdx.value], NotesRole) && c.notesHeader.value == cells[c.notesIdx.value])
        && (forall j :: (0 <= j < |cells| && j != c.skillIdx && j != c.valueIdx
              && (c.notesIdx.None? || j < c.notesIdx.value)) ==> !Claims(cells[j], NotesRole))
    ensures Detected(cells).None? <==>
      (forall j :: 0 <= j < |cells| ==> !Claims(cells[j], SkillRole)) || exists s :: LoneSkill(cells, s)
  {
    var s := FirstFree(cells, SkillRole, None, None);
    var v := FirstFree(cells, ValueRole, s, None);
    if s.Some? && v.None? {
      assert LoneSkill(cells, s.value);
    }
    if s.Some? && exists s' :: LoneSkill(cells, s') {
      var s' :| LoneSkill(cells, s');
      assert s' == s.value;
    }
  }

  /** The roles after one more cell: it takes the first role still open that it claims. */
  function Assign(cell: String, i: nat, s: Option<nat>, v: Option<nat>, n: Option<nat>): (Option<nat>, Option<nat>, Option<nat>) {
    if s.None? && Claims(cell, SkillRole) then (Some(i), v, n)
    else if v.None? && Claims(cell, ValueRole) then (s, Some(i), n)
    else if n.None? && Claims(cell, NotesRole) then (s, v, Some(i))
    else (s, v, n)
  }

  /** One cell more keeps each role at its first free claiming cell. */
  lemma AssignStep(cells: seq<String>, i: nat, s: Option<nat>, v: Option<nat>, n: Option<nat>)
    requires i < |cells|
    requires s == FirstFree(cells[..i], SkillRole, None, None)
    requires v == FirstFree(cells[..i], ValueRole, s, None)
    requires n == FirstFree(cells[..i], NotesRole, s, v)
    ensures var (s', v', n') := Assign(cells[i], i, s, v, n);
      && s' == FirstFree(cells[..i + 1], SkillRole, None, None)
      && v' == FirstFree(cells[..i + 1], ValueRole, s', None)
      && n' == FirstFree(cells[..i + 1], NotesRole, s', v')
  {
    var (s', v', n') := Assign(cells[i], i, s, v, n);
    FirstFreeSameFree(cells[..i], ValueRole, s, None, s', None);
    FirstFreeSameFree(cells[..i], NotesRole, s, v, s', v');
    FirstFreeStep(cells, SkillRole, None, None, i);
    FirstFreeStep(cells, ValueRole, s', None, i);
    FirstFreeStep(cells, NotesRole, s', v', i);
  }

  /**
   * `detect_columns`: one pass over the header's cells, each cell taking at
   * most one role, tried in the order skill, value, notes.
   */
  method DetectColumns(headerRow: String) returns (r: Option<TableColumns>)
    ensures r == Detected(Cells(headerRow))
  {
    var cols := Cells(headerRow);
    var skillIdx: Option<nat> := None;
    var valueIdx: Option<nat> := None;
    var notesIdx: Option<nat> := None;
    var skillHeader: String := "";
    var valueHeader: String := "";
    var notesHeader: Option<String> := None;
    for i := 0 to |cols|
      invariant skillIdx == FirstFree(cols[..i], SkillRole, None, None)
      invariant valueIdx == FirstFree(cols[..i], ValueRole, skillIdx, None)
      invariant notesIdx == FirstFree(cols[..i], NotesRole, skillIdx, valueIdx)
      invariant skillIdx.Some? ==> skillHeader == cols[skillIdx.value]
      invariant valueIdx.Some? ==> valueHeader == cols[valueIdx.value]
      invariant notesHeader == if notesIdx.Some? then Some(cols[notesIdx.value]) else None
    {
      var col := cols[i];
      AssignStep(cols, i, skillIdx, valueIdx, notesIdx);
      if skillIdx.None? && Claims(col, SkillRole) {
        skillIdx := Some(i);
        skillHeader := col;
      } else if valueIdx.None? && Claims(col, ValueRole) {
        valueIdx := Some(i);
        valueHeader := col;
      } else if notesIdx.None? && Claims(col, NotesRole) {
        notesIdx := Some(i);
        notesHeader := Some(col);
      }
    }
    assert cols[..|cols|] == cols;
    if skillIdx.Some? && valueIdx.Some? {
      r := Some(TableColumns(skillIdx.value, valueIdx.value, notesIdx, skillHeader, valueHeader, notesHeader));
    } else {
      r := None;
    }
  }

  // ---------------------------------------------------------------------
  // Notes
  // ---------------------------------------------------------------------

  const WipSpan: String := "<span class=\"wip-marker\">WIP</span>"

  /** `style_notes`. */
  function StyleNotes(notes: String): String {
    if StartsWith(ToLower(notes), "wip") then
      WipSpan + TrimStart(TrimStartMatches(notes[3..], " -"))
    else notes
  }

  /** `m` whole repetitions of `" -"` follow one another in `s` from index `from`. */
  predicate DashPairs(s: String, from: nat, m: nat)
    decreases m
  {
    m == 0 || (MatchAt(s, " -", from) && DashPairs(s, from + 2, m - 1))
  }

  /** The number of `" -"` repetitions at `i`: skipping them resumes after exactly that many pairs. */
  function DashPairCount(s: String, i: nat): (m: nat)
    requires i <= |s|
    ensures i + 2 * m == SkipMatches(s, " -", i) && DashPairs(s, i, m)
    decreases |s| - i
  {
    if MatchAt(s, " -", i) then 1 + DashPairCount(s, i + 2) else 0
  }

  /** Skipping `" -"` repetitions in `s[a..]` from `j` stops where skipping them in `s` from `a + j` does. */
  lemma {:induction false} SkipPairsShift(s: String, a: nat, j: nat)
    requires a + j <= |s|
    ensures SkipMatches(s[a..], " -", j) == SkipMatches(s, " -", a + j) - a
    decreases |s| - a - j
  {
    SliceMatch(s, " -", a, j);
    if MatchAt(s, " -", a + j) {
      SkipPairsShift(s, a, j + 2);
    }
  }

  /**
   * Where WIP notes resume: right after the three letters come exactly `m`
   * whole `" -"` pairs and no further pair, then whitespace up to `d`, and
   * `d` is the end or a character that is not whitespace.
   */
  predicate WipCut(notes: String, m: nat, d: nat) {
    && 3 + 2 * m <= d <= |notes|
    && DashPairs(notes, 3, m)
    && !MatchAt(notes, " -", 3 + 2 * m)
    && (forall k :: 3 + 2 * m <= k < d ==> IsWhitespace(notes[k]))
    && (d == |notes| || !IsWhitespace(notes[d]))
  }

  /** Two runs of whole pairs from the same index, each with no pair after it, are equally long. */
  lemma {:induction false} DashPairsUnique(s: String, from: nat, m: nat, n: nat)
    requires DashPairs(s, from, m) && !MatchAt(s, " -", from + 2 * m)
    requires DashPairs(s, from, n) && !MatchAt(s, " -", from + 2 * n)
    ensures m == n
    decreases m
  {
    if m > 0 && n > 0 {
      DashPairsUnique(s, from + 2, m - 1, n - 1);
    }
  }

  /** Notes have one WIP cut at most. */
  lemma WipCutUnique(notes: String, m: nat, d: nat, m': nat, d': nat)
    requires WipCut(notes, m, d) && WipCut(notes, m', d')
    ensures m == m' && d == d'
  {
    DashPairsUnique(notes, 3, m, m');
  }

  /** Whitespace skipped in a suffix `s[e..]` is whitespace of `s` at the shifted indices. */
  lemma WhitespaceShift(s: String, e: nat) returns (d: nat)
    requires e <= |s|
    ensures e <= d <= |s| && TrimStart(s[e..]) == s[d..]
    ensures forall k :: e <= k < d ==> IsWhitespace(s[k])
    ensures d == |s| || !IsWhitespace(s[d])
  {
    var v := s[e..];
    var b := SkipWhitespace(v, 0);
    d := e + b;
    assert v[b..] == s[d..];
    forall k | e <= k < d ensures IsWhitespace(s[k]) {
      assert s[k] == v[k - e];
    }
    assert d < |s| ==> s[d] == v[b];
  }

  /** The cut `trim_start_matches` and `trim_start` make after "wip". */
  lemma WipCutFound(notes: String) returns (m: nat, d: nat)
    requires StartsWith(ToLower(notes), "wip")
    ensures WipCut(notes, m, d) && StyleNotes(notes) == WipSpan + notes[d..]
  {
    m := DashPairCount(notes, 3);
    var e := 3 + 2 * m;
    SkipPairsShift(notes, 3, 0);
    var u := notes[3..];
    assert SkipMatches(u, " -", 0) == 2 * m;
    assert u[2 * m..] == notes[e..];
    assert TrimStartMatches(u, " -") == notes[e..];
    d := WhitespaceShift(notes, e);
    assert StyleNotes(notes) == WipSpan + TrimStart(notes[e..]);
  }

  /** The WIP case of `style_notes`: the marker, then the notes from their one WIP cut on. */
  lemma WipRest(notes: String)
    requires StartsWith(ToLower(notes), "wip")
    ensures exists m: nat, d: nat ::
      && WipCut(notes, m, d)
      && StyleNotes(notes) == WipSpan + notes[d..]
      && (forall m': nat, d': nat :: WipCut(notes, m', d') ==> m' == m && d' == d)
  {
    var m, d := WipCutFound(notes);
    forall m': nat, d': nat | WipCut(notes, m', d') ensures m' == m && d' == d {
      WipCutUnique(notes, m, d, m', d');
    }
  }

  /**
   * Notes starting with "wip", in any case, become the WIP marker followed by
   * the notes from their WIP cut on: whole `" -"` pairs, then whitespace, are
   * dropped after the three letters, and the cut is the only one. Other notes
   * are unchanged.
   */
  lemma StyleNotesShape(notes: String)
    ensures !StartsWith(ToLower(notes), "wip") ==> StyleNotes(notes) == notes
    ensures StartsWith(ToLower(notes), "wip") ==>
      exists m: nat, d: nat ::
        && WipCut(notes, m, d)
        && StyleNotes(notes) == WipSpan + notes[d..]
        && (forall m': nat, d': nat :: WipCut(notes, m', d') ==> m' == m && d' == d)
  {
    if StartsWith(ToLower(notes), "wip") {
      WipRest(notes);
    }
  }

  /** The WIP example of the source's tests. */
  lemma StyleNotesWip()
    ensures StyleNotes("WIP - learning") == WipSpan + "learning"
  {
    var notes := "WIP - learning";
    assert ToLower(notes)[..3] == "wip";
    var u := notes[3..];
    assert u == " - learning";
    assert u[2..4] != " -" by {
      assert u[2..4][1] == 'l';
    }
    assert SkipMatches(u, " -", 0) == 2;
    var v := u[2..];
    assert v == " learning";
    assert SkipWhitespace(v, 0) == 1 by {
      assert SkipWhitespace(v, 1) == 1;
    }
    assert v[1..] == "learning";
  }

  /** Only whole `" -"` pairs are dropped: of `" --"` the second dash stays. */
  lemma StyleNotesDoubleDash()
    ensures StyleNotes("WIP -- x") == WipSpan + "- x"
  {
    var notes := "WIP -- x";
    assert ToLower(notes)[..3] == "wip";
    var u := notes[3..];
    assert u == " -- x";
    assert u[2..4] != " -" by {
      assert u[2..4][0] == '-';
    }
    assert SkipMatches(u, " -", 0) == 2;
    var v := u[2..];
    assert v == "- x";
    assert SkipWhitespace(v, 0) == 0;
  }

  // ---------------------------------------------------------------------
  // Rendering a table
  // ---------------------------------------------------------------------

  const TableOpen: String := "<table class=\"skill-matrix\">"

  const TableFoot: String := "</tbody>\n</table>"

  function HeaderCell(header: String): String {
    "<th>" + header + "</th>"
  }

  /** The opening tag, the header row and the start of the body. */
  function Head(c: TableColumns): String {
    var h := TableOpen + "\n<thead><tr>" + HeaderCell(c.skillHeader) + HeaderCell(c.valueHeader);
    (if c.notesHeader.Some? then h + HeaderCell(c.notesHeader.value) else h) + "</tr></thead>\n<tbody>\n"
  }

  predicate IsCategory(skill: String, value: String) {
    StartsWith(skill, "**") && EndsWith(skill, "**") && value == []
  }

  const CategoryOpen: String := "<tr class=\"category-row\"><td colspan=\""

  const RowOpen: String := "<tr><td>"

  /** The cells of row `line` in the skill, value and notes columns. */
  function RowCells(c: TableColumns, line: String): (String, String, String) {
    var cols := Cells(line);
    (Cell(cols, c.skillIdx), Cell(cols, c.valueIdx), if c.notesIdx.Some? then Cell(cols, c.notesIdx.value) else "")
  }

  /**
   * One data row: a bold skill with an empty level is a category row
   * spanning every column; another non-empty skill is a row with its level
   * as a `level-<value>` class (and its styled notes when the table has a
   * notes column); an empty skill gives nothing.
   */
  function RowHtml(c: TableColumns, line: String): String {
    var (skill, value, notes) := RowCells(c, line);
    if IsCategory(skill, value) then
      var category := CategoryName(skill);
      CategoryOpen + ((if c.notesIdx.Some? then "3" else "2") + "\"><strong>" + category + "</strong></td></tr>\n")
    else if skill != [] then
      RowOpen + (skill + "</td><td class=\"" + ("level-" + value) + "\">" + value + "</td>"
        + (if c.notesIdx.Some? then "<td>" + StyleNotes(notes) + "</td>" else "")
        + "</tr>\n")
    else ""
  }

  /** A data cell. */
  function Td(x: String): String {
    "<td>" + x + "</td>"
  }

  /** The level cell: the level as text, and as the `level-<value>` class. */
  function LevelTd(value: String): String {
    "<td class=\"level-" + value + "\">" + value + "</td>"
  }

  /** The bold skill of a category row without its `**` markers. */
  function CategoryName(skill: String): String {
    TrimEndMatches(TrimStartMatches(skill, "**"), "**")
  }

  /**
   * A row renders to nothing exactly when its skill cell is empty, and to a
   * category row exactly when its skill is bold and its level empty. A
   * category row is one cell spanning the table's columns (three with a notes
   * column, two without) holding the category name in bold; another row is
   * the skill cell, the level cell and, exactly when the table has a notes
   * column, the styled notes cell.
   */
  lemma RowShape(c: TableColumns, line: String)
    ensures var (skill, value, notes) := RowCells(c, line);
      var span := if c.notesIdx.Some? then "3" else "2";
      && (RowHtml(c, line) == [] <==> skill == [])
      && (StartsWith(RowHtml(c, line), CategoryOpen) <==> IsCategory(skill, value))
      && (IsCategory(skill, value) ==>
            RowHtml(c, line) == "<tr class=\"category-row\">" + "<td colspan=\"" + span + "\">"
              + "<strong>" + CategoryName(skill) + "</strong>" + "</td>" + "</tr>\n")
      && (!IsCategory(skill, value) && skill != [] ==>
            RowHtml(c, line) == "<tr>" + Td(skill) + LevelTd(value)
              + (if c.notesIdx.Some? then Td(StyleNotes(notes)) else "") + "</tr>\n")
  {
    var (skill, value, notes) := RowCells(c, line);
    if IsCategory(skill, value) {
      CategoryRow(c, line, skill, value, notes);
    } else if skill != [] {
      SkillRow(c, line, skill, value, notes);
    }
  }

  lemma CategoryRow(c: TableColumns, line: String, skill: String, value: String, notes: String)
    requires RowCells(c, line) == (skill, value, notes) && IsCategory(skill, value)
    ensures var span := if c.notesIdx.Some? then "3" else "2";
      && StartsWith(RowHtml(c, line), CategoryOpen)
      && RowHtml(c, line) == "<tr class=\"category-row\">" + "<td colspan=\"" + span + "\">"
           + "<strong>" + CategoryName(skill) + "</strong>" + "</td>" + "</tr>\n"
  {
    var span := if c.notesIdx.Some? then "3" else "2";
    var rest := span + "\"><strong>" + CategoryName(skill) + "</strong></td></tr>\n";
    assert RowHtml(c, line) == CategoryOpen + rest;
    StartsWithConcat(CategoryOpen, rest);
    CategoryCells(span, CategoryName(skill));
  }

  lemma SkillRow(c: TableColumns, line: String, skill: String, value: String, notes: String)
    requires RowCells(c, line) == (skill, value, notes) && !IsCategory(skill, value) && skill != []
    ensures !StartsWith(RowHtml(c, line), CategoryOpen)
    ensures RowHtml(c, line) == "<tr>" + Td(skill) + LevelTd(value)
              + (if c.notesIdx.Some? then Td(StyleNotes(notes)) else "") + "</tr>\n"
  {
    var cell := if c.notesIdx.Some? then Td(StyleNotes(notes)) else "";
    var rest := skill + "</td><td class=\"" + ("level-" + value) + "\">" + value + "</td>" + cell + "</tr>\n";
    assert RowHtml(c, line) == RowOpen + rest;
    PlainOpen(rest);
    PlainCells(skill, value, cell);
  }

  /** A plain row never opens like a category row: the two differ at their fourth character. */
  lemma PlainOpen(rest: String)
    ensures !StartsWith(RowOpen + rest, CategoryOpen)
  {
    assert (RowOpen + rest)[3] == RowOpen[3] == '>';
    assert CategoryOpen[3] == ' ';
  }

  lemma CategoryCells(span: String, name: String)
    ensures CategoryOpen + (span + "\"><strong>" + name + "</strong></td></tr>\n")
      == "<tr class=\"category-row\">" + "<td colspan=\"" + span + "\">" + "<strong>" + name + "</strong>" + "</td>" + "</tr>\n"
  {
  }

  lemma PlainCells(skill: String, value: String, notes: String)
    ensures RowOpen + (skill + "</td><td class=\"" + ("level-" + value) + "\">" + value + "</td>" + notes + "</tr>\n")
      == "<tr>" + Td(skill) + LevelTd(value) + notes + "</tr>\n"
  {
  }

  /** The rows of the table, in order. */
  function Rows(c: TableColumns, lines: seq<String>): String {
    if lines == [] then "" else Rows(c, lines[..|lines| - 1]) + RowHtml(c, lines[|lines| - 1])
  }

  lemma RowsStep(c: TableColumns, lines: seq<String>, k: nat)
    requires k < |lines|
    ensures Rows(c, lines[..k + 1]) == Rows(c, lines[..k]) + RowHtml(c, lines[k])
  {
    assert lines[..k + 1][..k] == lines[..k];
  }

  /**
   * `render_skill_matrix_table`, as a function of the table's lines: nothing
   * with fewer than three lines or a header naming no skill or no value
   * column; else the head, one row per line after the separator, the foot.
   */
  function RenderedTable(tableLines: seq<String>): Option<String> {
    if |tableLines| < 3 then None
    else
      match Detected(Cells(tableLines[0]))
      case None => None
      case Some(c) => Some(Head(c) + Rows(c, tableLines[2..]) + TableFoot)
  }

  /** A rendered table is a `skill-matrix` table, closed after its body; there is one unless the lines are too few or the header names no skill or no value column. */
  lemma RenderedTableShape(tableLines: seq<String>)
    ensures RenderedTable(tableLines).None? <==> |tableLines| < 3 || Detected(Cells(tableLines[0])).None?
    ensures RenderedTable(tableLines).Some? ==>
      StartsWith(RenderedTable(tableLines).value, TableOpen) && EndsWith(RenderedTable(tableLines).value, TableFoot)
  {
    if RenderedTable(tableLines).Some? {
      var c := Detected(Cells(tableLines[0])).value;
      var rows := Rows(c, tableLines[2..]);
      var h := TableOpen + "\n<thead><tr>" + HeaderCell(c.skillHeader) + HeaderCell(c.valueHeader);
      StartsWithConcat(TableOpen, "\n<thead><tr>");
      StartsWithExtend(TableOpen + "\n<thead><tr>", HeaderCell(c.skillHeader), TableOpen);
      StartsWithExtend(TableOpen + "\n<thead><tr>" + HeaderCell(c.skillHeader), HeaderCell(c.valueHeader), TableOpen);
      var h' := if c.notesHeader.Some? then h + HeaderCell(c.notesHeader.value) else h;
      if c.notesHeader.Some? {
        StartsWithExtend(h, HeaderCell(c.notesHeader.value), TableOpen);
      }
      StartsWithExtend(h', "</tr></thead>\n<tbody>\n", TableOpen);
      StartsWithExtend(Head(c), rows, TableOpen);
      StartsWithExtend(Head(c) + rows, TableFoot, TableOpen);
      EndsWithConcat(Head(c) + rows, TableFoot);
    }
  }

  /** The loop body of `render_skill_matrix_table`: one data row. */
  method RenderRow(columns: TableColumns, colspan: String, hasNotes: bool, line: String) returns (row: String)
    requires hasNotes == columns.notesIdx.Some? && colspan == if hasNotes then "3" else "2"
    ensures row == RowHtml(columns, line)
  {
    var cols := Cells(line);
    var skill := Cell(cols, columns.skillIdx);
    var value := Cell(cols, columns.valueIdx);
    var notes := if columns.notesIdx.Some? then Cell(cols, columns.notesIdx.value) else "";
    row := "";
    if StartsWith(skill, "**") && EndsWith(skill, "**") && value == [] {
      var category := TrimEndMatches(TrimStartMatches(skill, "**"), "**");
      row := CategoryOpen + (colspan + "\"><strong>" + category + "</strong></td></tr>\n");
    } else if skill != [] {
      var styledNotes := StyleNotes(notes);
      var levelClass := "level-" + value;
      row := RowOpen + (skill + "</td><td class=\"" + levelClass + "\">" + value + "</td>"
        + (if hasNotes then "<td>" + styledNotes + "</td>" else "")
        + "</tr>\n");
    }
  }

  /** The opening of `render_skill_matrix_table`'s output, up to the first data row. */
  method RenderHead(columns: TableColumns) returns (html: String)
    ensures html == Head(columns)
  {
    html := TableOpen + "\n<thead><tr>";
    html := html + HeaderCell(columns.skillHeader);
    html := html + HeaderCell(columns.valueHeader);
    if columns.notesHeader.Some? {
      html := html + HeaderCell(columns.notesHeader.value);
    }
    html := html + "</tr></thead>\n<tbody>\n";
  }

  /** The loop of `render_skill_matrix_table`: the data rows after the separator line, in order. */
  method RenderRows(columns: TableColumns, body: seq<String>) returns (html: String)
    ensures html == Rows(columns, body)
  {
    var hasNotes := columns.notesIdx.Some?;
    var colspan := if hasNotes then "3" else "2";
    html := "";
    for k := 0 to |body|
      invariant html == Rows(columns, body[..k])
    {
      var row := RenderRow(columns, colspan, hasNotes, body[k]);
      RowsStep(columns, body, k);
      html := html + row;
    }
    assert body[..|body|] == body;
  }

  method RenderSkillMatrixTable(tableLines: seq<String>) returns (r: Option<String>)
    ensures r == RenderedTable(tableLines)
  {
    if |tableLines| < 3 {
      return None;
    }
    var detected := DetectColumns(tableLines[0]);
    if detected.None? {
      return None;
    }
    var columns := detected.value;
    var html := RenderHead(columns);
    var rows := RenderRows(columns, tableLines[2..]);
    html := html + rows;
    html := html + TableFoot;
    r := Some(html);
  }

  // ---------------------------------------------------------------------
  // The line transformer
  // ---------------------------------------------------------------------

  predicate IsPipeLine(line: String) {
    StartsWith(Trim(line), "|")
  }

  /** What a line is to the transformer: a skill-matrix heading, a table line, a blank line or anything else. */
  datatype LineMark = HeadingLine | PipeLine | BlankLine | OtherLine

  function MarkOf(line: String): LineMark {
    if IsSkillMatrixHeading(line) then HeadingLine
    else if IsPipeLine(line) then PipeLine
    else if Trim(line) == [] then BlankLine
    else OtherLine
  }

  function Marks(lines: seq<String>): (marks: seq<LineMark>)
    ensures |marks| == |lines| && forall k :: 0 <= k < |lines| ==> marks[k] == MarkOf(lines[k])
  {
    seq(|lines|, k requires 0 <= k < |lines| => MarkOf(lines[k]))
  }

  /** A heading's trimmed text starts with `'#'`: it is neither a table line nor blank. */
  lemma MarkOfIff(line: String)
    ensures IsPipeLine(line) <==> MarkOf(line) == PipeLine
    ensures Trim(line) == [] <==> MarkOf(line) == BlankLine
  {
    if IsSkillMatrixHeading(line) {
      var t := Trim(line);
      assert t[0] == t[..1][0] == '#';
    }
  }

  /** The mark `m` tells a table line and a blank line apart as the source's trimmed-text tests do. */
  predicate MarkFits(line: String, m: LineMark) {
    && (IsPipeLine(line) <==> m == PipeLine)
    && (Trim(line) == [] <==> m == BlankLine)
  }

  /** Every line carries a fitting mark. */
  predicate TableMarks(lines: seq<String>, marks: seq<LineMark>) {
    && |marks| == |lines|
    && forall j {:trigger MarkFits(lines[j], marks[j])} :: 0 <= j < |lines| ==> MarkFits(lines[j], marks[j])
  }

  /** The mark of line `j`, read off its trimmed text. */
  lemma MarkAt(lines: seq<String>, marks: seq<LineMark>, j: nat)
    requires TableMarks(lines, marks) && j < |lines|
    ensures StartsWith(Trim(lines[j]), "|") <==> marks[j] == PipeLine
    ensures Trim(lines[j]) == [] <==> marks[j] == BlankLine
  {
    assert MarkFits(lines[j], marks[j]);
  }

  lemma MarksTableMarks(lines: seq<String>)
    ensures TableMarks(lines, Marks(lines))
  {
    forall j | 0 <= j < |lines| {
      MarkOfIff(lines[j]);
    }
  }

  /** The first table line at or after `i`. */
  function TableStart(marks: seq<LineMark>, i: nat): (t: nat)
    requires i <= |marks|
    ensures i <= t <= |marks|
    ensures forall k :: i <= k < t ==> marks[k] != PipeLine
    ensures t < |marks| ==> marks[t] == PipeLine
    decreases |marks| - i
  {
    if i == |marks| || marks[i] == PipeLine then i else TableStart(marks, i + 1)
  }

  /** The first line at or after `j` that is neither a table line nor blank. */
  function TableEnd(marks: seq<LineMark>, j: nat): (e: nat)
    requires j <= |marks|
    ensures j <= e <= |marks|
    ensures forall k :: j <= k < e ==> marks[k] == PipeLine || marks[k] == BlankLine
    ensures e < |marks| ==> marks[e] != PipeLine && marks[e] != BlankLine
    decreases |marks| - j
  {
    if j == |marks| || !(marks[j] == PipeLine || marks[j] == BlankLine) then j else TableEnd(marks, j + 1)
  }

  /** The trimmed table lines among `lines[from..until]`, blank lines left out. */
  function TableLines(lines: seq<String>, marks: seq<LineMark>, from: nat, until: nat): (ts: seq<String>)
    requires |marks| == |lines| && from <= until <= |lines|
    ensures |ts| <= until - from
    decreases until
  {
    if until == from then []
    else TableLines(lines, marks, from, until - 1) + (if marks[until - 1] == PipeLine then [Trim(lines[until - 1])] else [])
  }

  /** A table line extends the collected lines by its trimmed text; the block goes on after it. */
  lemma TableLinesPipe(lines: seq<String>, marks: seq<LineMark>, from: nat, j: nat)
    requires |marks| == |lines| && from <= j < |lines| && marks[j] == PipeLine
    ensures TableLines(lines, marks, from, j + 1) == TableLines(lines, marks, from, j) + [Trim(lines[j])]
    ensures TableEnd(marks, j + 1) == TableEnd(marks, j)
  {
  }

  /** A blank line adds nothing to the collected lines; the block goes on after it. */
  lemma TableLinesBlank(lines: seq<String>, marks: seq<LineMark>, from: nat, j: nat)
    requires |marks| == |lines| && from <= j < |lines| && marks[j] == BlankLine
    ensures TableLines(lines, marks, from, j + 1) == TableLines(lines, marks, from, j)
    ensures TableEnd(marks, j + 1) == TableEnd(marks, j)
  {
  }

  /** Any other line ends the block where it stands. */
  lemma TableEndStops(marks: seq<LineMark>, j: nat)
    requires j < |marks| && marks[j] != PipeLine && marks[j] != BlankLine
    ensures TableEnd(marks, j) == j
  {
  }

  /** One line of the table block, told apart by its trimmed text as the loop does. */
  lemma CollectStep(lines: seq<String>, marks: seq<LineMark>, t: nat, j: nat, tableLine: String)
    requires TableMarks(lines, marks) && t <= j < |lines| && tableLine == Trim(lines[j])
    ensures StartsWith(tableLine, "|") ==>
      TableLines(lines, marks, t, j + 1) == TableLines(lines, marks, t, j) + [tableLine]
      && TableEnd(marks, j + 1) == TableEnd(marks, j)
    ensures !StartsWith(tableLine, "|") && tableLine == [] ==>
      TableLines(lines, marks, t, j + 1) == TableLines(lines, marks, t, j)
      && TableEnd(marks, j + 1) == TableEnd(marks, j)
    ensures !StartsWith(tableLine, "|") && tableLine != [] ==> TableEnd(marks, j) == j
  {
    MarkAt(lines, marks, j);
    if marks[j] == PipeLine {
      TableLinesPipe(lines, marks, t, j);
    } else if marks[j] == BlankLine {
      TableLinesBlank(lines, marks, t, j);
    } else {
      TableEndStops(marks, j);
    }
  }

  function Container(html: String): String {
    "<div class=\"skill-matrix-container\">\n" + html + "\n</div>\n\n"
  }

  /**
   * `transform_skill_matrices` from line `i` on, as written: a skill-matrix
   * heading is emitted with the lines before its table; when the table
   * renders, the table block becomes the container and the walk resumes after
   * it; when it does not, the heading is emitted once more and the walk
   * carries on from the line after the heading, so that the lines before the
   * table are emitted once more too.
   */
  function Transformed(lines: seq<String>, marks: seq<LineMark>, i: nat): String
    requires |marks| == |lines| && i <= |lines|
    decreases |lines| - i
  {
    if i == |lines| then ""
    else if marks[i] == HeadingLine then
      var t := TableStart(marks, i + 1);
      var j := TableEnd(marks, t);
      match RenderedTable(TableLines(lines, marks, t, j))
      case Some(html) => lines[i] + "\n" + Unlines(lines[i + 1..t]) + Container(html) + Transformed(lines, marks, j)
      case None => lines[i] + "\n" + Unlines(lines[i + 1..t]) + lines[i] + "\n" + Transformed(lines, marks, i + 1)
    else lines[i] + "\n" + Transformed(lines, marks, i + 1)
  }

  /** `transform_skill_matrices`, as a function of the text. */
  function TransformedText(content: String): String {
    var lines := Lines(content);
    Transformed(lines, Marks(lines), 0)
  }

  /** The lines between a heading and its table, each emitted with its newline. */
  method CollectBeforeTable(lines: seq<String>, ghost marks: seq<LineMark>, from: nat) returns (text: String, t: nat)
    requires TableMarks(lines, marks) && from <= |lines|
    ensures t == TableStart(marks, from) && text == Unlines(lines[from..t])
  {
    text := "";
    t := from;
    while t < |lines| && !StartsWith(Trim(lines[t]), "|")
      invariant from <= t <= |lines|
      invariant TableStart(marks, t) == TableStart(marks, from)
      invariant text == Unlines(lines[from..t])
      decreases |lines| - t
    {
      MarkAt(lines, marks, t);
      SliceExtend(lines, from, t);
      UnlinesAppend(lines[from..t], lines[t]);
      text := text + lines[t] + "\n";
      t := t + 1;
    }
    if t < |lines| {
      MarkAt(lines, marks, t);
    }
  }

  /** The table block: trimmed table lines, blank lines passed over, up to the first other line. */
  method CollectTable(lines: seq<String>, ghost marks: seq<LineMark>, t: nat) returns (tableLines: seq<String>, j: nat)
    requires TableMarks(lines, marks) && t <= |lines|
    ensures j == TableEnd(marks, t) && tableLines == TableLines(lines, marks, t, j)
  {
    tableLines := [];
    j := t;
    while j < |lines|
      invariant t <= j <= |lines|
      invariant TableEnd(marks, j) == TableEnd(marks, t)
      invariant tableLines == TableLines(lines, marks, t, j)
      decreases |lines| - j
    {
      var tableLine := Trim(lines[j]);
      CollectStep(lines, marks, t, j, tableLine);
      if StartsWith(tableLine, "|") {
        tableLines := tableLines + [tableLine];
        j := j + 1;
      } else if tableLine == [] {
        j := j + 1;
      } else {
        break;
      }
    }
  }

  /** One step of the transformer at a line that is not a skill-matrix heading. */
  lemma TransformedOther(lines: seq<String>, marks: seq<LineMark>, i: nat)
    requires |marks| == |lines| && i < |lines| && marks[i] != HeadingLine
    ensures Transformed(lines, marks, i) == (lines[i] + "\n") + Transformed(lines, marks, i + 1)
  {
  }

  /** One step of the transformer at a skill-matrix heading. */
  lemma TransformedHeading(lines: seq<String>, marks: seq<LineMark>, i: nat, before: String, t: nat, j: nat,
                           rendered: Option<String>)
    requires |marks| == |lines| && i < |lines| && marks[i] == HeadingLine
    requires t == TableStart(marks, i + 1) && before == Unlines(lines[i + 1..t])
    requires j == TableEnd(marks, t) && rendered == RenderedTable(TableLines(lines, marks, t, j))
    ensures rendered.Some? ==>
      Transformed(lines, marks, i) == (lines[i] + "\n" + before + Container(rendered.value)) + Transformed(lines, marks, j)
    ensures rendered.None? ==>
      Transformed(lines, marks, i) == (lines[i] + "\n" + before + (lines[i] + "\n")) + Transformed(lines, marks, i + 1)
  {
  }

  /** `transform_skill_matrices`: one cursor over the lines, appending to the result. */
  method TransformSkillMatrices(content: String) returns (result: String)
    ensures result == TransformedText(content)
  {
    var lines := Lines(content);
    ghost var marks := Marks(lines);
    MarksTableMarks(lines);
    ghost var all := Transformed(lines, marks, 0);
    result := "";
    var i := 0;
    while i < |lines|
      invariant i <= |lines|
      invariant result + Transformed(lines, marks, i) == all
      decreases |lines| - i
    {
      var line := lines[i];
      var piece;
      var next: nat;
      if IsSkillMatrixHeading(line) {
        var before, tableStart := CollectBeforeTable(lines, marks, i + 1);
        var tableLines, j := CollectTable(lines, marks, tableStart);
        var rendered := RenderSkillMatrixTable(tableLines);
        TransformedHeading(lines, marks, i, before, tableStart, j, rendered);
        if rendered.Some? {
          piece := line + "\n" + before + Container(rendered.value);
          next := j;
        } else {
          piece := line + "\n" + before + (line + "\n");
          next := i + 1;
        }
      } else {
        TransformedOther(lines, marks, i);
        piece := line + "\n";
        next := i + 1;
      }
      AppendAssoc(result, piece, Transformed(lines, marks, next));
      result := result + piece;
      i := next;
    }
  }

  /** Without a skill-matrix heading, every line comes out as it went in, with its newline. */
  lemma {:induction false} TransformedWithoutHeadings(lines: seq<String>, marks: seq<LineMark>, i: nat)
    requires |marks| == |lines| && i <= |lines|
    requires forall k :: i <= k < |lines| ==> marks[k] != HeadingLine
    ensures Transformed(lines, marks, i) == Unlines(lines[i..])
    decreases |lines| - i
  {
    if i < |lines| {
      TransformedWithoutHeadings(lines, marks, i + 1);
      UnlinesFrom(lines, i);
    }
  }

  /** A text without a skill-matrix heading comes out line by line, each line with its newline. */
  lemma TextWithoutHeadings(content: String)
    requires forall k :: 0 <= k < |Lines(content)| ==> !IsSkillMatrixHeading(Lines(content)[k])
    ensures TransformedText(content) == Unlines(Lines(content))
  {
    var lines := Lines(content);
    TransformedWithoutHeadings(lines, Marks(lines), 0);
    assert lines[0..] == lines;
  }

  /**
   * From any line `k` up to the first table line `t` on, the output starts
   * with the lines `k..t`, each with its newline: a skill-matrix heading
   * among them looks for the same table and emits those lines too.
   */
  lemma {:induction false} TransformedStartsBeforeTable(lines: seq<String>, marks: seq<LineMark>, k: nat, t: nat)
    requires |marks| == |lines| && k <= t <= |lines|
    requires t == TableStart(marks, k)
    ensures StartsWith(Transformed(lines, marks, k), Unlines(lines[k..t]))
    decreases t - k
  {
    if k == t {
      assert lines[k..t] == [];
    } else {
      assert lines[k..t] == [lines[k]] + lines[k + 1..t];
      UnlinesCons(lines[k], lines[k + 1..t]);
      var head := lines[k] + "\n";
      var before := Unlines(lines[k + 1..t]);
      if marks[k] == HeadingLine {
        var j := TableEnd(marks, t);
        var rendered := RenderedTable(TableLines(lines, marks, t, j));
        TransformedHeading(lines, marks, k, before, t, j, rendered);
        var mid := if rendered.Some? then Container(rendered.value) else lines[k] + "\n";
        var next := if rendered.Some? then j else k + 1;
        StartsWithConcat(head + before, mid);
        StartsWithExtend(head + before + mid, Transformed(lines, marks, next), head + before);
      } else {
        TransformedOther(lines, marks, k);
        TransformedStartsBeforeTable(lines, marks, k + 1, t);
        StartsWithPrepend(head, Transformed(lines, marks, k + 1), before);
      }
    }
  }

  /**
   * As written, a skill-matrix heading whose table does not render is
   * emitted, then the lines before the table, then the heading once more,
   * and the walk resumes at the line after the heading, so that the lines
   * before the table are emitted a second time.
   */
  lemma HeadingWithoutTableRepeats(lines: seq<String>, marks: seq<LineMark>, i: nat)
    requires |marks| == |lines| && i < |lines| && marks[i] == HeadingLine
    requires var t := TableStart(marks, i + 1);
      RenderedTable(TableLines(lines, marks, t, TableEnd(marks, t))).None?
    ensures var t := TableStart(marks, i + 1);
      && Transformed(lines, marks, i)
           == lines[i] + "\n" + Unlines(lines[i + 1..t]) + lines[i] + "\n" + Transformed(lines, marks, i + 1)
      && StartsWith(Transformed(lines, marks, i + 1), Unlines(lines[i + 1..t]))
  {
    var t := TableStart(marks, i + 1);
    TransformedStartsBeforeTable(lines, marks, i + 1, t);
  }

  /** The smallest instance: a heading, then one line that is neither a heading nor a table line; both come out twice. */
  lemma HeadingWithoutTableTwice(lines: seq<String>, marks: seq<LineMark>)
    requires |lines| == |marks| == 2
    requires marks[0] == HeadingLine && marks[1] != HeadingLine && marks[1] != PipeLine
    ensures Transformed(lines, marks, 0) == lines[0] + "\n" + lines[1] + "\n" + lines[0] + "\n" + lines[1] + "\n"
  {
    assert TableStart(marks, 1) == 2;
    assert TableLines(lines, marks, 2, 2) == [];
    assert lines[1..2] == [lines[1]];
    UnlinesAppend([], lines[1]);
    TransformedOther(lines, marks, 1);
  }

  /**
   * The transformer with the heading and the lines before the table emitted
   * only once a table renders.
   */
  function TransformedOnce(lines: seq<String>, marks: seq<LineMark>, i: nat): String
    requires |marks| == |lines| && i <= |lines|
    decreases |lines| - i
  {
    if i == |lines| then ""
    else if marks[i] == HeadingLine then
      var t := TableStart(marks, i + 1);
      var j := TableEnd(marks, t);
      match RenderedTable(TableLines(lines, marks, t, j))
      case Some(html) => lines[i] + "\n" + Unlines(lines[i + 1..t]) + Container(html) + TransformedOnce(lines, marks, j)
      case None => lines[i] + "\n" + TransformedOnce(lines, marks, i + 1)
    else lines[i] + "\n" + TransformedOnce(lines, marks, i + 1)
  }

  /** No table renders after any heading. */
  predicate NoTableRenders(lines: seq<String>, marks: seq<LineMark>)
    requires |marks| == |lines|
  {
    forall k :: 0 <= k < |lines| && marks[k] == HeadingLine ==>
      RenderedTable(TableLines(lines, marks, TableStart(marks, k + 1), TableEnd(marks, TableStart(marks, k + 1)))).None?
  }

  /** When no table renders, the corrected transformer leaves the text as it is. */
  lemma {:induction false} TransformedOnceUnchanged(lines: seq<String>, marks: seq<LineMark>, i: nat)
    requires |marks| == |lines| && i <= |lines| && NoTableRenders(lines, marks)
    ensures TransformedOnce(lines, marks, i) == Unlines(lines[i..])
    decreases |lines| - i
  {
    if i < |lines| {
      TransformedOnceUnchanged(lines, marks, i + 1);
      UnlinesFrom(lines, i);
    }
  }
}
