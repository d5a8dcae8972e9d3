/**
 * The older skill-matrix transformer of the Markdown pre-processor: only a
 * line reading `#### skill matrix` (in any case, surrounding whitespace
 * aside) starts a matrix, and only a table whose header names exactly the
 * columns `Skill`, `Level` and `Notes` is rendered. The heading and the
 * table block are replaced together by the rendered table.
 */
module LegacyMatrix {
  import opened Text
  import opened SkillMatrix

  // ---------------------------------------------------------------------
  // The table
  // ---------------------------------------------------------------------

  /** The first cell equal to `w`, as `iter().position` finds it. */
  function Position(cells: seq<String>, w: String): (r: Option<nat>)
    ensures r.Some? ==> r.value < |cells| && cells[r.value] == w
    ensures r.Some? ==> forall k :: 0 <= k < r.value ==> cells[k] != w
    ensures r.None? ==> forall k :: 0 <= k < |cells| ==> cells[k] != w
  {
    if cells == [] then None
    else
      var last := |cells| - 1;
      var r := Position(cells[..last], w);
      if r.Some? then r
      else if cells[last] == w then Some(last)
      else None
  }

  /** Where the `Skill`, `Level` and `Notes` columns stand. */
  datatype LegacyColumns = LegacyColumns(skillIdx: nat, levelIdx: nat, notesIdx: nat)

  /** The three columns of a header row; none unless each of the three names is a cell of its own. */
  function HeaderColumns(cells: seq<String>): Option<LegacyColumns> {
    var s := Position(cells, "Skill");
    var l := Position(cells, "Level");
    var n := Position(cells, "Notes");
    if s.Some? && l.Some? && n.Some? then Some(LegacyColumns(s.value, l.value, n.value)) else None
  }

  /** The largest of the three column indices. */
  function MaxIndex(c: LegacyColumns): (m: nat)
    ensures c.skillIdx <= m && c.levelIdx <= m && c.notesIdx <= m
    ensures m == c.skillIdx || m == c.levelIdx || m == c.notesIdx
  {
    var a := if c.skillIdx >= c.levelIdx then c.skillIdx else c.levelIdx;
    if a >= c.notesIdx then a else c.notesIdx
  }

  predicate IsBold(skill: String) {
    StartsWith(skill, "**") && EndsWith(skill, "**")
  }

  /**
   * One data row: nothing when the row has too few cells for the three
   * columns; a category row spanning the three columns when the skill is
   * bold; otherwise the skill, the level (also as a `level-<level>` class)
   * and the styled notes.
   */
  function LegacyRow(c: LegacyColumns, line: String): String {
    var cols := Cells(line);
    if |cols| <= MaxIndex(c) then ""
    else
      var skill, level, notes := cols[c.skillIdx], cols[c.levelIdx], cols[c.notesIdx];
      if IsBold(skill) then
        CategoryOpen + ("3" + "\"><strong>" + CategoryName(skill) + "</strong></td></tr>\n")
      else
        RowOpen + (skill + "</td><td class=\"" + ("level-" + level) + "\">" + level + "</td>"
          + Td(StyleNotes(notes)) + "</tr>\n")
  }

  function LegacyRows(c: LegacyColumns, lines: seq<String>): String {
    if lines == [] then "" else LegacyRows(c, lines[..|lines| - 1]) + LegacyRow(c, lines[|lines| - 1])
  }

  lemma LegacyRowsStep(c: LegacyColumns, lines: seq<String>, k: nat)
    requires k < |lines|
    ensures LegacyRows(c, lines[..k + 1]) == LegacyRows(c, lines[..k]) + LegacyRow(c, lines[k])
  {
    assert lines[..k + 1][..k] == lines[..k];
  }

  const HeaderRow: String := "<thead><tr><th>Skill</th><th>Level</th><th>Notes</th></tr></thead>\n"

  const BodyOpen: String := "<tbody>\n"

  /** The fixed opening: the table tag, the three header cells, the start of the body. */
  const LegacyHead: String := TableOpen + "\n" + HeaderRow + BodyOpen

  /**
   * `parse_skill_matrix_table`, as a function of the table's lines: nothing
   * with fewer than three lines or a header missing one of the three names;
   * else the head, one row per line after the separator, the foot.
   */
  function LegacyTable(tableLines: seq<String>): Option<String> {
    if |tableLines| < 3 then None
    else
      match HeaderColumns(Cells(tableLines[0]))
      case None => None
      case Some(c) => Some(LegacyHead + LegacyRows(c, tableLines[2..]) + TableFoot)
  }

  /**
   * There is a table exactly when there are at least three lines and the
   * first one has cells reading `Skill`, `Level` and `Notes`, exactly; it
   * opens with the fixed head and ends with the foot.
   */
  lemma LegacyTableShape(tableLines: seq<String>)
    ensures LegacyTable(tableLines).Some? <==>
      |tableLines| >= 3 && "Skill" in Cells(tableLines[0]) && "Level" in Cells(tableLines[0])
        && "Notes" in Cells(tableLines[0])
    ensures LegacyTable(tableLines).Some? ==>
      StartsWith(LegacyTable(tableLines).value, LegacyHead) && EndsWith(LegacyTable(tableLines).value, TableFoot)
  {
    if |tableLines| >= 3 {
      var cells := Cells(tableLines[0]);
      PositionIn(cells, "Skill");
      PositionIn(cells, "Level");
      PositionIn(cells, "Notes");
      if LegacyTable(tableLines).Some? {
        var c := HeaderColumns(cells).value;
        var rows := LegacyRows(c, tableLines[2..]);
        StartsWithConcat(LegacyHead, rows);
        StartsWithExtend(LegacyHead + rows, TableFoot, LegacyHead);
        EndsWithConcat(LegacyHead + rows, TableFoot);
      }
    }
  }

  /** A word has a position exactly when it is one of the cells. */
  lemma PositionIn(cells: seq<String>, w: String)
    ensures Position(cells, w).Some? <==> w in cells
  {
    if w in cells {
      var k :| 0 <= k < |cells| && cells[k] == w;
    }
  }

  /**
   * A row gives nothing exactly when it has too few cells for the three
   * columns. Otherwise a bold skill gives a category row spanning three
   * columns, whatever the level; any other skill, the empty one included,
   * gives the skill cell, the level cell and the styled notes cell.
   */
  lemma LegacyRowShape(c: LegacyColumns, line: String)
    ensures LegacyRow(c, line) == [] <==> |Cells(line)| <= MaxIndex(c)
    ensures |Cells(line)| > MaxIndex(c) && IsBold(Cells(line)[c.skillIdx]) ==>
      LegacyRow(c, line) == "<tr class=\"category-row\">" + "<td colspan=\"" + "3" + "\">"
        + "<strong>" + CategoryName(Cells(line)[c.skillIdx]) + "</strong>" + "</td>" + "</tr>\n"
    ensures |Cells(line)| > MaxIndex(c) && !IsBold(Cells(line)[c.skillIdx]) ==>
      LegacyRow(c, line) == "<tr>" + Td(Cells(line)[c.skillIdx]) + LevelTd(Cells(line)[c.levelIdx])
        + Td(StyleNotes(Cells(line)[c.notesIdx])) + "</tr>\n"
  {
    var cols := Cells(line);
    if |cols| > MaxIndex(c) {
      var skill, level, notes := cols[c.skillIdx], cols[c.levelIdx], cols[c.notesIdx];
      if IsBold(skill) {
        LegacyCategory(c, line, skill);
      } else {
        LegacyPlain(c, line, skill, level, notes);
      }
    }
  }

  lemma LegacyCategory(c: LegacyColumns, line: String, skill: String)
    requires |Cells(line)| > MaxIndex(c) && Cells(line)[c.skillIdx] == skill && IsBold(skill)
    ensures LegacyRow(c, line) != []
    ensures LegacyRow(c, line) == "<tr class=\"category-row\">" + "<td colspan=\"" + "3" + "\">"
      + "<strong>" + CategoryName(skill) + "</strong>" + "</td>" + "</tr>\n"
  {
    var rest := "3" + "\"><strong>" + CategoryName(skill) + "</strong></td></tr>\n";
    assert LegacyRow(c, line) == CategoryOpen + rest;
    assert |CategoryOpen| > 0;
    CategoryCells("3", CategoryName(skill));
  }

  lemma LegacyPlain(c: LegacyColumns, line: String, skill: String, level: String, notes: String)
    requires |Cells(line)| > MaxIndex(c) && !IsBold(skill)
    requires Cells(line)[c.skillIdx] == skill && Cells(line)[c.levelIdx] == level && Cells(line)[c.notesIdx] == notes
    ensures LegacyRow(c, line) != []
    ensures LegacyRow(c, line) == "<tr>" + Td(skill) + LevelTd(level) + Td(StyleNotes(notes)) + "</tr>\n"
  {
    var cell := Td(StyleNotes(notes));
    var rest := skill + "</td><td class=\"" + ("level-" + level) + "\">" + level + "</td>" + cell + "</tr>\n";
    assert LegacyRow(c, line) == RowOpen + rest;
    assert |RowOpen| > 0;
    PlainCells(skill, level, cell);
  }

  /** The loop body of `parse_skill_matrix_table`: one data row, or nothing for a short one. */
  method LegacyRenderRow(columns: LegacyColumns, maxIdx: nat, line: String) returns (row: String)
    requires maxIdx == MaxIndex(columns)
    ensures row == LegacyRow(columns, line)
  {
    var cols := Cells(line);
    row := "";
    if |cols| <= maxIdx {
      return;
    }
    var skill := cols[columns.skillIdx];
    var level := cols[columns.levelIdx];
    var notes := cols[columns.notesIdx];
    if StartsWith(skill, "**") && EndsWith(skill, "**") {
      var category := TrimEndMatches(TrimStartMatches(skill, "**"), "**");
      row := CategoryOpen + ("3" + "\"><strong>" + category + "</strong></td></tr>\n");
    } else {
      var styledNotes := StyleNotes(notes);
      var levelClass := "level-" + level;
      row := RowOpen + (skill + "</td><td class=\"" + levelClass + "\">" + level + "</td>"
        + Td(styledNotes) + "</tr>\n");
    }
  }

  /** The loop of `parse_skill_matrix_table` over the lines after the separator. */
  method LegacyRenderRows(columns: LegacyColumns, body: seq<String>) returns (html: String)
    ensures html == LegacyRows(columns, body)
  {
    var maxIdx := MaxIndex(columns);
    html := "";
    for k := 0 to |body|
      invariant html == LegacyRows(columns, body[..k])
    {
      var row := LegacyRenderRow(columns, maxIdx, body[k]);
      LegacyRowsStep(columns, body, k);
      html := html + row;
    }
    assert body[..|body|] == body;
  }

  /** `parse_skill_matrix_table`. */
  method ParseSkillMatrixTable(tableLines: seq<String>) returns (r: Option<String>)
    ensures r == LegacyTable(tableLines)
  {
    if |tableLines| < 3 {
      return None;
    }
    var headerCols := Cells(tableLines[0]);
    var skillIdx := Position(headerCols, "Skill");
    var levelIdx := Position(headerCols, "Level");
    var notesIdx := Position(headerCols, "Notes");
    if skillIdx.None? || levelIdx.None? || notesIdx.None? {
      return None;
    }
    var columns := LegacyColumns(skillIdx.value, levelIdx.value, notesIdx.value);
    var html := TableOpen + "\n";
    html := html + HeaderRow;
    html := html + BodyOpen;
    var rows := LegacyRenderRows(columns, tableLines[2..]);
    html := html + rows;
    html := html + TableFoot;
    r := Some(html);
  }

  // ---------------------------------------------------------------------
  // The line transformer
  // ---------------------------------------------------------------------

  /** The one heading this transformer knows: `#### skill matrix`, trimmed and lowercased. */
  predicate IsLegacyHeading(line: String) {
    ToLower(Trim(line)) == "#### skill matrix"
  }

  /** The first line at or after `i` that is not blank. */
  function BlankEnd(marks: seq<LineMark>, i: nat): (t: nat)
    requires i <= |marks|
    ensures i <= t <= |marks|
    ensures forall k :: i <= k < t ==> marks[k] == BlankLine
    ensures t < |marks| ==> marks[t] != BlankLine
    decreases |marks| - i
  {
    if i == |marks| || marks[i] != BlankLine then i else BlankEnd(marks, i + 1)
  }

  /**
   * `transform_skill_matrices` from line `i` on: at the heading, the blank
   * lines after it are passed over and the table block collected; when the
   * table renders, the heading and the whole block become the container and
   * the walk resumes after the block; otherwise the heading, like any other
   * line, is emitted with its newline and the walk goes on at the next line.
   */
  function LegacyTransformed(lines: seq<String>, marks: seq<LineMark>, i: nat): String
    requires |marks| == |lines| && i <= |lines|
    decreases |lines| - i
  {
    if i == |lines| then ""
    else if IsLegacyHeading(lines[i]) then
      var t := BlankEnd(marks, i + 1);
      var j := TableEnd(marks, t);
      match LegacyTable(TableLines(lines, marks, t, j))
      case Some(html) => Container(html) + LegacyTransformed(lines, marks, j)
      case None => lines[i] + "\n" + LegacyTransformed(lines, marks, i + 1)
    else lines[i] + "\n" + LegacyTransformed(lines, marks, i + 1)
  }

  /** `transform_skill_matrices`, as a function of the text. */
  function LegacyText(content: String): String {
    var lines := Lines(content);
    LegacyTransformed(lines, Marks(lines), 0)
  }

  /** The blank lines after the heading: the first line that is not blank. */
  method SkipBlankLines(lines: seq<String>, ghost marks: seq<LineMark>, from: nat) returns (t: nat)
    requires TableMarks(lines, marks) && from <= |lines|
    ensures t == BlankEnd(marks, from)
  {
    t := from;
    while t < |lines| && Trim(lines[t]) == []
      invariant from <= t <= |lines|
      invariant BlankEnd(marks, t) == BlankEnd(marks, from)
      decreases |lines| - t
    {
      MarkAt(lines, marks, t);
      t := t + 1;
    }
    if t < |lines| {
      MarkAt(lines, marks, t);
    }
  }

  /** The table block: trimmed table lines, blank lines passed over, up to the first other line. */
  method CollectLegacyTable(lines: seq<String>, ghost marks: seq<LineMark>, t: nat) returns (tableLines: seq<String>, j: nat)
    requires TableMarks(lines, marks) && t <= |lines|
    ensures j == TableEnd(marks, t) && tableLines == TableLines(lines, marks, t, j)
  {
    tableLines := [];
    j := t;
    while j < |lines|
      invariant t <= j <= |lines|
      invariant TableEnd(marks, j) == TableEnd(marks, t)
      invariant tableLines == TableLines(lines, marks, t, j)
      decreases |lines| - j
    {
      var tableLine := Trim(lines[j]);
      CollectStep(lines, marks, t, j, tableLine);
      if StartsWith(tableLine, "|") {
        tableLines := tableLines + [tableLine];
        j := j + 1;
      } else if tableLine != [] {
        break;
      } else {
        j := j + 1;
      }
    }
  }

  /** One step of the transformer at a line that is not the heading. */
  lemma LegacyOther(lines: seq<String>, marks: seq<LineMark>, i: nat)
    requires |marks| == |lines| && i < |lines| && !IsLegacyHeading(lines[i])
    ensures LegacyTransformed(lines, marks, i) == (lines[i] + "\n") + LegacyTransformed(lines, marks, i + 1)
  {
  }

  /** One step of the transformer at the heading. */
  lemma LegacyHeadingStep(lines: seq<String>, marks: seq<LineMark>, i: nat, t: nat, j: nat, rendered: Option<String>)
    requires |marks| == |lines| && i < |lines| && IsLegacyHeading(lines[i])
    requires t == BlankEnd(marks, i + 1) && j == TableEnd(marks, t)
    requires rendered == LegacyTable(TableLines(lines, marks, t, j))
    ensures rendered.Some? ==> LegacyTransformed(lines, marks, i) == Container(rendered.value) + LegacyTransformed(lines, marks, j)
    ensures rendered.None? ==> LegacyTransformed(lines, marks, i) == (lines[i] + "\n") + LegacyTransformed(lines, marks, i + 1)
  {
  }

  /** `transform_skill_matrices`: one cursor over the lines, appending to the result. */
  method LegacyTransform(content: String) returns (result: String)
    ensures result == LegacyText(content)
  {
    var lines := Lines(content);
    ghost var marks := Marks(lines);
    MarksTableMarks(lines);
    ghost var all := LegacyTransformed(lines, marks, 0);
    result := "";
    var i := 0;
    while i < |lines|
      invariant i <= |lines|
      invariant result + LegacyTransformed(lines, marks, i) == all
      decreases |lines| - i
    {
      var line := lines[i];
      var trimmed := ToLower(Trim(line));
      var piece;
      var next: nat;
      if trimmed == "#### skill matrix" {
        var tableStart := SkipBlankLines(lines, marks, i + 1);
        var tableLines, j := CollectLegacyTable(lines, marks, tableStart);
        var rendered := ParseSkillMatrixTable(tableLines);
        LegacyHeadingStep(lines, marks, i, tableStart, j, rendered);
        if rendered.Some? {
          piece := Container(rendered.value);
          next := j;
        } else {
          piece := line + "\n";
          next := i + 1;
        }
      } else {
        LegacyOther(lines, marks, i);
        piece := line + "\n";
        next := i + 1;
      }
      AppendAssoc(result, piece, LegacyTransformed(lines, marks, next));
      result := result + piece;
      i := next;
    }
  }

  // ---------------------------------------------------------------------
  // Properties of the transformer
  // ---------------------------------------------------------------------

  /**
   * A heading whose table renders is replaced, together with the blank lines
   * after it and the table block, by the container: the heading itself is not
   * emitted. Between the heading and the first table line there are only
   * blank lines, the block holds only table and blank lines, and the walk
   * resumes at the first other line after it.
   */
  lemma LegacyReplaced(lines: seq<String>, marks: seq<LineMark>, i: nat)
    requires |marks| == |lines| && i < |lines| && IsLegacyHeading(lines[i])
    requires var t := BlankEnd(marks, i + 1);
      LegacyTable(TableLines(lines, marks, t, TableEnd(marks, t))).Some?
    ensures var t := BlankEnd(marks, i + 1);
      var j := TableEnd(marks, t);
      && i < t <= j
      && (forall k :: i < k < t ==> marks[k] == BlankLine)
      && (forall k :: t <= k < j ==> marks[k] == PipeLine || marks[k] == BlankLine)
      && (j < |lines| ==> marks[j] != PipeLine && marks[j] != BlankLine)
      && LegacyTransformed(lines, marks, i)
           == Container(LegacyTable(TableLines(lines, marks, t, j)).value) + LegacyTransformed(lines, marks, j)
  {
    var t := BlankEnd(marks, i + 1);
    var j := TableEnd(marks, t);
    LegacyHeadingStep(lines, marks, i, t, j, LegacyTable(TableLines(lines, marks, t, j)));
  }

  /** Line `k` is not a heading followed by a table that renders. */
  predicate NoTableAt(lines: seq<String>, marks: seq<LineMark>, k: nat)
    requires |marks| == |lines| && k < |lines|
  {
    IsLegacyHeading(lines[k]) ==>
      LegacyTable(TableLines(lines, marks, BlankEnd(marks, k + 1), TableEnd(marks, BlankEnd(marks, k + 1)))).None?
  }

  /** No heading is followed by a table that renders. */
  predicate NoLegacyTable(lines: seq<String>, marks: seq<LineMark>)
    requires |marks| == |lines|
  {
    forall k {:trigger NoTableAt(lines, marks, k)} :: 0 <= k < |lines| ==> NoTableAt(lines, marks, k)
  }

  /**
   * When no table renders, every line comes out once, as it went in, with
   * its newline: a heading without a table is emitted like any other line.
   */
  lemma {:induction false} LegacyUnchanged(lines: seq<String>, marks: seq<LineMark>, i: nat)
    requires |marks| == |lines| && i <= |lines| && NoLegacyTable(lines, marks)
    ensures LegacyTransformed(lines, marks, i) == Unlines(lines[i..])
    decreases |lines| - i
  {
    if i < |lines| {
      LegacyUnchanged(lines, marks, i + 1);
      UnlinesFrom(lines, i);
      LegacyKept(lines, marks, i);
    }
  }

  /** When no table renders, each line, the heading included, is emitted with its newline. */
  lemma LegacyKept(lines: seq<String>, marks: seq<LineMark>, i: nat)
    requires |marks| == |lines| && i < |lines| && NoLegacyTable(lines, marks)
    ensures LegacyTransformed(lines, marks, i) == (lines[i] + "\n") + LegacyTransformed(lines, marks, i + 1)
  {
    assert NoTableAt(lines, marks, i);
    if IsLegacyHeading(lines[i]) {
      var t := BlankEnd(marks, i + 1);
      var j := TableEnd(marks, t);
      LegacyHeadingStep(lines, marks, i, t, j, LegacyTable(TableLines(lines, marks, t, j)));
    } else {
      LegacyOther(lines, marks, i);
    }
  }

  /** A text without the heading comes out line by line, each line with its newline. */
  lemma LegacyTextWithoutHeading(content: String)
    requires forall k :: 0 <= k < |Lines(content)| ==> !IsLegacyHeading(Lines(content)[k])
    ensures LegacyText(content) == Unlines(Lines(content))
  {
    var lines := Lines(content);
    LegacyUnchanged(lines, Marks(lines), 0);
    assert lines[0..] == lines;
  }
}
