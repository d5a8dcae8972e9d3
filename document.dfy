/**
 * The document structurer: the markdown text, after includes and variables
 * are resolved, cut into the panels of the page.
 *
 * Every line whose trimmed text is a `## ` heading opens a section, which is a
 * nav button and a panel holding the lines up to the next `## ` heading. The
 * one `## ` section named as the dropdown is instead cut at its `### `
 * headings, each of which becomes a dropdown item and a panel. Every id comes
 * from the title's slug, made unique against all the ids handed out before it
 * (the dropdown heading's own id included).
 */
module Document {
  import opened Text
  import opened Slugs
  import opened Sections

  datatype NavItem = NavItem(id: String, title: String)

  datatype ContentPanel = ContentPanel(id: String, title: String, markdownContent: String, isDropdownItem: bool)

  datatype DocumentStructure = DocumentStructure(
    navButtons: seq<NavItem>,
    dropdownTitle: Option<String>,
    dropdownItems: seq<NavItem>,
    panels: seq<ContentPanel>)

  // ---------------------------------------------------------------------
  // Unique ids
  // ---------------------------------------------------------------------

  /** The ids handed out so far, as a set. */
  function IdSet(used: seq<String>): set<String> {
    set x | x in used
  }

  /** The first `k` candidates for a slug: `base`, `base-1`, ..., `base-(k-1)`. */
  function Candidates(base: String, k: nat): set<String> {
    if k == 0 then {} else Candidates(base, k - 1) + {NumberedId(base, k - 1)}
  }

  /** The first `k` candidates are `k` different strings, none of the later ones among them. */
  lemma {:induction false} CandidatesSize(base: String, k: nat)
    ensures |Candidates(base, k)| == k
    ensures forall j :: k <= j ==> NumberedId(base, j) !in Candidates(base, k)
  {
    if k > 0 {
      CandidatesSize(base, k - 1);
      forall j | k <= j ensures NumberedId(base, j) !in Candidates(base, k) {
        NumberedIdInjective(base, j, k - 1);
      }
    }
  }

  lemma {:induction false} CandidatesTaken(base: String, used: seq<String>, k: nat)
    requires forall j :: 0 <= j < k ==> NumberedId(base, j) in used
    ensures Candidates(base, k) <= IdSet(used)
  {
    if k > 0 {
      CandidatesTaken(base, used, k - 1);
    }
  }

  /** When the first `k` candidates are all taken, there are at least `k` ids: so the search for a free one ends. */
  lemma CandidatesBound(base: String, used: seq<String>, k: nat)
    requires forall j :: 0 <= j < k ==> NumberedId(base, j) in used
    ensures k <= |IdSet(used)|
  {
    CandidatesSize(base, k);
    CandidatesTaken(base, used, k);
    var c, u := Candidates(base, k), IdSet(used);
    assert u == c + (u - c);
  }

  /** The first candidate at or after `from` that is not taken, all the ones before `from` being taken. */
  function FreeIndex(base: String, used: seq<String>, from: nat): (k: nat)
    requires forall j :: 0 <= j < from ==> NumberedId(base, j) in used
    ensures from <= k && NumberedId(base, k) !in used
    ensures forall j :: 0 <= j < k ==> NumberedId(base, j) in used
    decreases |IdSet(used)| - from
  {
    if NumberedId(base, from) in used then
      CandidatesBound(base, used, from + 1);
      FreeIndex(base, used, from + 1)
    else from
  }

  /** The free index is the least one: any untaken candidate with all earlier ones taken is it. */
  lemma FreeIndexLeast(base: String, used: seq<String>, k: nat)
    requires NumberedId(base, k) !in used
    requires forall j :: 0 <= j < k ==> NumberedId(base, j) in used
    ensures FreeIndex(base, used, 0) == k
  {
  }

  /**
   * The id `generate_unique_id` hands out for a title: its slug if that is
   * not taken yet, else the first of `slug-1`, `slug-2`, ... that is not taken.
   */
  function UniqueId(title: String, used: seq<String>): (id: String)
    ensures id !in used
    ensures Slugify(title) !in used ==> id == Slugify(title)
    ensures Slugify(title) in used ==>
      exists k :: 1 <= k && id == NumberedId(Slugify(title), k)
        && forall j :: 0 <= j < k ==> NumberedId(Slugify(title), j) in used
  {
    var base := Slugify(title);
    NumberedId(base, FreeIndex(base, used, 0))
  }

  /**
   * A title whose slug was just handed out, `slug-1` still being free, gets
   * `slug-1` (the duplicate ids of the source's tests, and a `### ` heading
   * titled like the dropdown section it sits in).
   */
  lemma UniqueIdAfterSlug(title: String, used: seq<String>)
    requires Slugify(title) !in used && NumberedId(Slugify(title), 1) !in used
    ensures UniqueId(title, used + [Slugify(title)]) == Slugify(title) + "-" + "1"
  {
    var base := Slugify(title);
    assert NumberedId(base, 1) != base by {
      NumberedIdInjective(base, 0, 1);
    }
    FreeIndexLeast(base, used + [base], 1);
  }

  /**
   * `generate_unique_id`: tries the slug, then `slug-1`, `slug-2`, ... until
   * one is not in `used`, and records it.
   */
  method GenerateUniqueId(title: String, used: seq<String>) returns (id: String, used': seq<String>)
    ensures id == UniqueId(title, used) && id !in used
    ensures used' == used + [id]
  {
    var baseId := Slugify(title);
    id := baseId;
    var counter: nat := 1;
    while id in used
      invariant 1 <= counter <= |IdSet(used)| + 1
      invariant id == NumberedId(baseId, counter - 1)
      invariant forall j :: 0 <= j < counter - 1 ==> NumberedId(baseId, j) in used
      decreases |IdSet(used)| + 1 - counter
    {
      CandidatesBound(baseId, used, counter);
      id := baseId + "-" + NatToString(counter);
      counter := counter + 1;
    }
    FreeIndexLeast(baseId, used, counter - 1);
    used' := used + [id];
  }

  // ---------------------------------------------------------------------
  // Headings
  // ---------------------------------------------------------------------

  /** A `## ` heading: the trimmed line starts with `"## "` and not with `"### "`. */
  predicate IsSectionHeading(line: String) {
    var t := Trim(line);
    StartsWith(t, "## ") && !StartsWith(t, "### ")
  }

  /** A `### ` heading: the trimmed line starts with `"### "` and not with `"#### "`. */
  predicate IsSubsectionHeading(line: String) {
    var t := Trim(line);
    StartsWith(t, "### ") && !StartsWith(t, "#### ")
  }

  /** Where a dropdown item's content stops: a line starting with `"## "`, or a `### ` heading. */
  predicate EndsSubsection(line: String) {
    StartsWith(Trim(line), "## ") || IsSubsectionHeading(line)
  }

  function SectionTitle(line: String): String
    requires IsSectionHeading(line)
  {
    Trim(Trim(line)[3..])
  }

  function SubsectionTitle(line: String): String
    requires IsSubsectionHeading(line)
  {
    Trim(Trim(line)[4..])
  }

  /** What a line is to the structurer: a `## ` heading, a `### ` heading, or anything else. */
  datatype LineKind = SectionHeading(title: String) | SubsectionHeading(title: String) | Body

  function KindOf(line: String): LineKind {
    if IsSectionHeading(line) then SectionHeading(SectionTitle(line))
    else if IsSubsectionHeading(line) then SubsectionHeading(SubsectionTitle(line))
    else Body
  }

  function Kinds(lines: seq<String>): (kinds: seq<LineKind>)
    ensures |kinds| == |lines| && forall j :: 0 <= j < |lines| ==> kinds[j] == KindOf(lines[j])
  {
    seq(|lines|, j requires 0 <= j < |lines| => KindOf(lines[j]))
  }

  /**
   * A trimmed line starting with `"## "` cannot start with `"### "`, so the
   * second test of a `## ` heading never rejects a line, and a dropdown item
   * ends exactly at the next heading of either kind.
   */
  lemma EndsSubsectionIff(line: String)
    ensures StartsWith(Trim(line), "## ") <==> IsSectionHeading(line)
    ensures EndsSubsection(line) <==> !KindOf(line).Body?
  {
    var t := Trim(line);
    if StartsWith(t, "## ") {
      assert t[2] == ' ' != "### "[2];
    }
  }

  /** The first `## ` heading at or after `i`, or the end of the lines. */
  function SectionEnd(kinds: seq<LineKind>, i: nat): (e: nat)
    requires i <= |kinds|
    ensures i <= e <= |kinds|
    ensures forall j :: i <= j < e ==> !kinds[j].SectionHeading?
    ensures e < |kinds| ==> kinds[e].SectionHeading?
    decreases |kinds| - i
  {
    if i == |kinds| || kinds[i].SectionHeading? then i else SectionEnd(kinds, i + 1)
  }

  /** The first heading of either kind at or after `i`, or the end of the lines. */
  function SubsectionEnd(kinds: seq<LineKind>, i: nat): (e: nat)
    requires i <= |kinds|
    ensures i <= e <= |kinds|
    ensures forall j :: i <= j < e ==> kinds[j].Body?
    ensures e < |kinds| ==> !kinds[e].Body?
    decreases |kinds| - i
  {
    if i == |kinds| || !kinds[i].Body? then i else SubsectionEnd(kinds, i + 1)
  }

  // ---------------------------------------------------------------------
  // The walk over the lines
  // ---------------------------------------------------------------------

  /** What the walk has built so far, with the ids it has handed out. */
  datatype Walked = Walked(doc: DocumentStructure, used: seq<String>)

  const Empty := DocumentStructure([], None, [], [])

  function AddSection(doc: DocumentStructure, id: String, title: String, content: String): DocumentStructure {
    doc.(navButtons := doc.navButtons + [NavItem(id, title)],
         panels := doc.panels + [ContentPanel(id, title, content, false)])
  }

  function AddItem(doc: DocumentStructure, id: String, title: String, content: String): DocumentStructure {
    doc.(dropdownItems := doc.dropdownItems + [NavItem(id, title)],
         panels := doc.panels + [ContentPanel(id, title, content, true)])
  }

  /**
   * The outer loop from line `i` on: a `## ` heading opens a section holding
   * the lines up to the next one, or, when its title is the dropdown's, the
   * dropdown; every other line is passed over.
   */
  function Walk(lines: seq<String>, kinds: seq<LineKind>, i: nat, dropdown: Option<String>,
                doc: DocumentStructure, used: seq<String>): Walked
    requires |kinds| == |lines| && i <= |lines|
    decreases |lines| - i, 0
  {
    if i == |lines| then Walked(doc, used)
    else
      match kinds[i]
      case SectionHeading(title) =>
        var id := UniqueId(title, used);
        if dropdown == Some(title) then
          DropdownWalk(lines, kinds, i + 1, dropdown, doc.(dropdownTitle := Some(title)), used + [id])
        else
          var e := SectionEnd(kinds, i + 1);
          Walk(lines, kinds, e, dropdown, AddSection(doc, id, title, Join(lines[i + 1..e], "\n")), used + [id])
      case _ => Walk(lines, kinds, i + 1, dropdown, doc, used)
  }

  /**
   * The loop inside the dropdown section from line `i` on: a `### ` heading
   * opens an item holding the lines up to the next heading of either kind,
   * the next `## ` heading hands back to the outer loop, and every other line
   * is passed over.
   */
  function DropdownWalk(lines: seq<String>, kinds: seq<LineKind>, i: nat, dropdown: Option<String>,
                        doc: DocumentStructure, used: seq<String>): Walked
    requires |kinds| == |lines| && i <= |lines|
    decreases |lines| - i, 1
  {
    if i == |lines| then Walked(doc, used)
    else
      match kinds[i]
      case SectionHeading(_) => Walk(lines, kinds, i, dropdown, doc, used)
      case SubsectionHeading(title) =>
        var id := UniqueId(title, used);
        var e := SubsectionEnd(kinds, i + 1);
        DropdownWalk(lines, kinds, e, dropdown, AddItem(doc, id, title, Join(lines[i + 1..e], "\n")), used + [id])
      case Body => DropdownWalk(lines, kinds, i + 1, dropdown, doc, used)
  }

  /** `parse_document_structure`, as a function of the text and the dropdown's name. */
  function Parsed(markdown: String, dropdown: Option<String>): DocumentStructure {
    var lines := Lines(markdown);
    Walk(lines, Kinds(lines), 0, dropdown, Empty, []).doc
  }

  // ---------------------------------------------------------------------
  // One step of the walk each
  // ---------------------------------------------------------------------

  lemma WalkSkip(lines: seq<String>, kinds: seq<LineKind>, i: nat, dropdown: Option<String>, doc: DocumentStructure, used: seq<String>)
    requires |kinds| == |lines| && i < |lines| && !kinds[i].SectionHeading?
    ensures Walk(lines, kinds, i, dropdown, doc, used) == Walk(lines, kinds, i + 1, dropdown, doc, used)
  {
  }

  lemma WalkSection(lines: seq<String>, kinds: seq<LineKind>, i: nat, dropdown: Option<String>, doc: DocumentStructure,
                    used: seq<String>, title: String, id: String, e: nat, doc': DocumentStructure, used': seq<String>)
    requires |kinds| == |lines| && i < |lines| && kinds[i] == SectionHeading(title) && dropdown != Some(title)
    requires id == UniqueId(title, used) && used' == used + [id]
    requires e == SectionEnd(kinds, i + 1) && doc' == AddSection(doc, id, title, Join(lines[i + 1..e], "\n"))
    ensures Walk(lines, kinds, i, dropdown, doc, used) == Walk(lines, kinds, e, dropdown, doc', used')
  {
  }

  lemma WalkDropdown(lines: seq<String>, kinds: seq<LineKind>, i: nat, dropdown: Option<String>, doc: DocumentStructure,
                     used: seq<String>, title: String, id: String, doc': DocumentStructure, used': seq<String>)
    requires |kinds| == |lines| && i < |lines| && kinds[i] == SectionHeading(title) && dropdown == Some(title)
    requires id == UniqueId(title, used) && used' == used + [id]
    requires doc' == doc.(dropdownTitle := Some(title))
    ensures Walk(lines, kinds, i, dropdown, doc, used) == DropdownWalk(lines, kinds, i + 1, dropdown, doc', used')
  {
  }

  lemma DropdownLeave(lines: seq<String>, kinds: seq<LineKind>, i: nat, dropdown: Option<String>, doc: DocumentStructure, used: seq<String>)
    requires |kinds| == |lines| && i <= |lines| && (i == |lines| || kinds[i].SectionHeading?)
    ensures DropdownWalk(lines, kinds, i, dropdown, doc, used) == Walk(lines, kinds, i, dropdown, doc, used)
  {
  }

  lemma DropdownSkip(lines: seq<String>, kinds: seq<LineKind>, i: nat, dropdown: Option<String>, doc: DocumentStructure, used: seq<String>)
    requires |kinds| == |lines| && i < |lines| && kinds[i].Body?
    ensures DropdownWalk(lines, kinds, i, dropdown, doc, used) == DropdownWalk(lines, kinds, i + 1, dropdown, doc, used)
  {
  }

  lemma DropdownItem(lines: seq<String>, kinds: seq<LineKind>, i: nat, dropdown: Option<String>, doc: DocumentStructure,
                     used: seq<String>, title: String, id: String, e: nat, doc': DocumentStructure, used': seq<String>)
    requires |kinds| == |lines| && i < |lines| && kinds[i] == SubsectionHeading(title)
    requires id == UniqueId(title, used) && used' == used + [id]
    requires e == SubsectionEnd(kinds, i + 1) && doc' == AddItem(doc, id, title, Join(lines[i + 1..e], "\n"))
    ensures DropdownWalk(lines, kinds, i, dropdown, doc, used) == DropdownWalk(lines, kinds, e, dropdown, doc', used')
  {
  }

  // ---------------------------------------------------------------------
  // The structurer
  // ---------------------------------------------------------------------

  /** The loop collecting a section's lines: up to the next `## ` heading. */
  method CollectSectionContent(lines: seq<String>, ghost kinds: seq<LineKind>, from: nat) returns (contentLines: seq<String>, i: nat)
    requires kinds == Kinds(lines) && from <= |lines|
    ensures i == SectionEnd(kinds, from) && contentLines == lines[from..i]
  {
    contentLines := [];
    i := from;
    while i < |lines|
      invariant from <= i <= |lines|
      invariant contentLines == lines[from..i]
      invariant SectionEnd(kinds, i) == SectionEnd(kinds, from)
      decreases |lines| - i
    {
      var contentTrimmed := Trim(lines[i]);
      if StartsWith(contentTrimmed, "## ") && !StartsWith(contentTrimmed, "### ") {
        break;
      }
      SliceExtend(lines, from, i);
      contentLines := contentLines + [lines[i]];
      i := i + 1;
    }
  }

  /** The loop collecting a dropdown item's lines: up to a line starting with `"## "` or the next `### ` heading. */
  method CollectItemContent(lines: seq<String>, ghost kinds: seq<LineKind>, from: nat) returns (contentLines: seq<String>, i: nat)
    requires kinds == Kinds(lines) && from <= |lines|
    ensures i == SubsectionEnd(kinds, from) && contentLines == lines[from..i]
  {
    contentLines := [];
    i := from;
    while i < |lines|
      invariant from <= i <= |lines|
      invariant contentLines == lines[from..i]
      invariant SubsectionEnd(kinds, i) == SubsectionEnd(kinds, from)
      decreases |lines| - i
    {
      var contentTrimmed := Trim(lines[i]);
      EndsSubsectionIff(lines[i]);
      if StartsWith(contentTrimmed, "## ")
        || (StartsWith(contentTrimmed, "### ") && !StartsWith(contentTrimmed, "#### "))
      {
        break;
      }
      SliceExtend(lines, from, i);
      contentLines := contentLines + [lines[i]];
      i := i + 1;
    }
  }

  /** A `### ` heading inside the dropdown section: a dropdown item and its panel, holding the lines up to the next heading. */
  method CollectItem(lines: seq<String>, ghost kinds: seq<LineKind>, i: nat, dropdownSection: Option<String>,
                     doc: DocumentStructure, usedIds: seq<String>)
    returns (i': nat, doc': DocumentStructure, usedIds': seq<String>)
    requires kinds == Kinds(lines) && i < |lines| && !IsSectionHeading(lines[i]) && IsSubsectionHeading(lines[i])
    ensures i < i' <= |lines|
    ensures DropdownWalk(lines, kinds, i, dropdownSection, doc, usedIds) == DropdownWalk(lines, kinds, i', dropdownSection, doc', usedIds')
  {
    var subTitle := SubsectionTitle(lines[i]);
    var subId;
    subId, usedIds' := GenerateUniqueId(subTitle, usedIds);
    var contentLines;
    contentLines, i' := CollectItemContent(lines, kinds, i + 1);
    doc' := doc.(dropdownItems := doc.dropdownItems + [NavItem(subId, subTitle)],
                 panels := doc.panels + [ContentPanel(subId, subTitle, Join(contentLines, "\n"), true)]);
    DropdownItem(lines, kinds, i, dropdownSection, doc, usedIds, subTitle, subId, i', doc', usedIds');
  }

  /**
   * The loop inside the dropdown section, from line `i` on: it stops at the
   * next `## ` heading (or the end), turning each `### ` heading on the way
   * into a dropdown item and its panel.
   */
  method CollectDropdown(lines: seq<String>, ghost kinds: seq<LineKind>, i: nat, dropdownSection: Option<String>,
                         doc: DocumentStructure, usedIds: seq<String>)
    returns (i': nat, doc': DocumentStructure, usedIds': seq<String>)
    requires kinds == Kinds(lines) && i <= |lines|
    ensures i <= i' <= |lines|
    ensures DropdownWalk(lines, kinds, i, dropdownSection, doc, usedIds) == Walk(lines, kinds, i', dropdownSection, doc', usedIds')
  {
    ghost var all := DropdownWalk(lines, kinds, i, dropdownSection, doc, usedIds);
    i', doc', usedIds' := i, doc, usedIds;
    while i' < |lines|
      invariant i <= i' <= |lines|
      invariant DropdownWalk(lines, kinds, i', dropdownSection, doc', usedIds') == all
      decreases |lines| - i'
    {
      if IsSectionHeading(lines[i']) {
        break;
      }
      if IsSubsectionHeading(lines[i']) {
        i', doc', usedIds' := CollectItem(lines, kinds, i', dropdownSection, doc', usedIds');
      } else {
        DropdownSkip(lines, kinds, i', dropdownSection, doc', usedIds');
        i' := i' + 1;
      }
    }
    DropdownLeave(lines, kinds, i', dropdownSection, doc', usedIds');
  }

  /**
   * A `## ` heading: its id is handed out first; then either the dropdown
   * section is walked, or the section's nav button and panel are added,
   * holding the lines up to the next `## ` heading.
   */
  method CollectSection(lines: seq<String>, ghost kinds: seq<LineKind>, i: nat, dropdownSection: Option<String>,
                        doc: DocumentStructure, usedIds: seq<String>)
    returns (i': nat, doc': DocumentStructure, usedIds': seq<String>)
    requires kinds == Kinds(lines) && i < |lines| && IsSectionHeading(lines[i])
    ensures i < i' <= |lines|
    ensures Walk(lines, kinds, i, dropdownSection, doc, usedIds) == Walk(lines, kinds, i', dropdownSection, doc', usedIds')
  {
    var title := SectionTitle(lines[i]);
    var id;
    id, usedIds' := GenerateUniqueId(title, usedIds);
    if dropdownSection.Some? && dropdownSection.value == title {
      var withTitle := doc.(dropdownTitle := Some(title));
      WalkDropdown(lines, kinds, i, dropdownSection, doc, usedIds, title, id, withTitle, usedIds');
      i', doc', usedIds' := CollectDropdown(lines, kinds, i + 1, dropdownSection, withTitle, usedIds');
      return;
    }
    var contentLines;
    contentLines, i' := CollectSectionContent(lines, kinds, i + 1);
    doc' := doc.(navButtons := doc.navButtons + [NavItem(id, title)],
                 panels := doc.panels + [ContentPanel(id, title, Join(contentLines, "\n"), false)]);
    WalkSection(lines, kinds, i, dropdownSection, doc, usedIds, title, id, i', doc', usedIds');
  }

  /**
   * `parse_document_structure`: one cursor over the lines, shared by the
   * outer loop, the loop inside the dropdown section and the loops that
   * collect a panel's content.
   */
  method ParseDocumentStructure(markdown: String, dropdownSection: Option<String>) returns (doc: DocumentStructure)
    ensures doc == Parsed(markdown, dropdownSection)
  {
    doc := Empty;
    var usedIds: seq<String> := [];
    var lines := Lines(markdown);
    ghost var kinds := Kinds(lines);
    ghost var all := Walk(lines, kinds, 0, dropdownSection, Empty, []);
    var i := 0;
    while i < |lines|
      invariant i <= |lines|
      invariant Walk(lines, kinds, i, dropdownSection, doc, usedIds) == all
      decreases |lines| - i
    {
      if IsSectionHeading(lines[i]) {
        i, doc, usedIds := CollectSection(lines, kinds, i, dropdownSection, doc, usedIds);
      } else {
        WalkSkip(lines, kinds, i, dropdownSection, doc, usedIds);
        i := i + 1;
      }
    }
  }

  // ---------------------------------------------------------------------
  // Nav items, panels and ids
  // ---------------------------------------------------------------------

  predicate Distinct<T(==)>(s: seq<T>) {
    forall i, j :: 0 <= i < j < |s| ==> s[i] != s[j]
  }

  function NavOf(p: ContentPanel): NavItem {
    NavItem(p.id, p.title)
  }

  /** The nav items of the panels that are not dropdown items, in order. */
  function SectionPanels(ps: seq<ContentPanel>): (r: seq<NavItem>)
    ensures |r| <= |ps|
  {
    if ps == [] then []
    else SectionPanels(ps[..|ps| - 1]) + (if ps[|ps| - 1].isDropdownItem then [] else [NavOf(ps[|ps| - 1])])
  }

  /** The nav items of the panels that are dropdown items, in order. */
  function ItemPanels(ps: seq<ContentPanel>): (r: seq<NavItem>)
    ensures |r| <= |ps|
  {
    if ps == [] then []
    else ItemPanels(ps[..|ps| - 1]) + (if ps[|ps| - 1].isDropdownItem then [NavOf(ps[|ps| - 1])] else [])
  }

  function PanelIds(ps: seq<ContentPanel>): (r: seq<String>)
    ensures |r| == |ps| && forall k :: 0 <= k < |ps| ==> r[k] == ps[k].id
  {
    seq(|ps|, k requires 0 <= k < |ps| => ps[k].id)
  }

  /**
   * What the walk keeps: the nav buttons and the dropdown items are the
   * panels of each kind, in order, with the same ids and titles; the ids
   * handed out are all different, and every panel's id is one of them.
   */
  predicate Consistent(doc: DocumentStructure, used: seq<String>) {
    && SectionPanels(doc.panels) == doc.navButtons
    && ItemPanels(doc.panels) == doc.dropdownItems
    && Distinct(used)
    && Distinct(PanelIds(doc.panels))
    && (forall k :: 0 <= k < |doc.panels| ==> doc.panels[k].id in used)
  }

  /** Every panel is either a nav button's or a dropdown item's. */
  lemma {:induction false} PanelsSplit(ps: seq<ContentPanel>)
    ensures |ps| == |SectionPanels(ps)| + |ItemPanels(ps)|
  {
    if ps != [] {
      PanelsSplit(ps[..|ps| - 1]);
    }
  }

  lemma AddPanelConsistent(doc: DocumentStructure, used: seq<String>, id: String, title: String, content: String, item: bool)
    requires Consistent(doc, used) && id !in used
    ensures Consistent(if item then AddItem(doc, id, title, content) else AddSection(doc, id, title, content), used + [id])
  {
    var p := ContentPanel(id, title, content, item);
    var ps := doc.panels + [p];
    assert ps[..|ps| - 1] == doc.panels;
    assert PanelIds(ps) == PanelIds(doc.panels) + [id];
  }

  lemma ReserveConsistent(doc: DocumentStructure, used: seq<String>, id: String, title: String)
    requires Consistent(doc, used) && id !in used
    ensures Consistent(doc.(dropdownTitle := Some(title)), used + [id])
  {
  }

  lemma {:induction false} WalkConsistent(lines: seq<String>, kinds: seq<LineKind>, i: nat, dropdown: Option<String>,
                                          doc: DocumentStructure, used: seq<String>)
    requires |kinds| == |lines| && i <= |lines| && Consistent(doc, used)
    ensures var w := Walk(lines, kinds, i, dropdown, doc, used); Consistent(w.doc, w.used)
    decreases |lines| - i, 0
  {
    if i < |lines| {
      match kinds[i]
      case SectionHeading(title) =>
        var id := UniqueId(title, used);
        if dropdown == Some(title) {
          ReserveConsistent(doc, used, id, title);
          DropdownWalkConsistent(lines, kinds, i + 1, dropdown, doc.(dropdownTitle := Some(title)), used + [id]);
        } else {
          var e := SectionEnd(kinds, i + 1);
          var content := Join(lines[i + 1..e], "\n");
          AddPanelConsistent(doc, used, id, title, content, false);
          WalkConsistent(lines, kinds, e, dropdown, AddSection(doc, id, title, content), used + [id]);
        }
      case _ =>
        WalkConsistent(lines, kinds, i + 1, dropdown, doc, used);
    }
  }

  lemma {:induction false} DropdownWalkConsistent(lines: seq<String>, kinds: seq<LineKind>, i: nat, dropdown: Option<String>,
                                                  doc: DocumentStructure, used: seq<String>)
    requires |kinds| == |lines| && i <= |lines| && Consistent(doc, used)
    ensures var w := DropdownWalk(lines, kinds, i, dropdown, doc, used); Consistent(w.doc, w.used)
    decreases |lines| - i, 1
  {
    if i < |lines| {
      match kinds[i]
      case SectionHeading(_) =>
        WalkConsistent(lines, kinds, i, dropdown, doc, used);
      case SubsectionHeading(title) =>
        var id := UniqueId(title, used);
        var e := SubsectionEnd(kinds, i + 1);
        var content := Join(lines[i + 1..e], "\n");
        AddPanelConsistent(doc, used, id, title, content, true);
        DropdownWalkConsistent(lines, kinds, e, dropdown, AddItem(doc, id, title, content), used + [id]);
      case Body =>
        DropdownWalkConsistent(lines, kinds, i + 1, dropdown, doc, used);
    }
  }

  /**
   * Every nav button and every dropdown item comes with a panel of the same
   * id and title, in document order, so there are as many panels as both
   * together; and no two panels share an id.
   */
  lemma ParsedPanels(markdown: String, dropdown: Option<String>)
    ensures var doc := Parsed(markdown, dropdown);
      && SectionPanels(doc.panels) == doc.navButtons
      && ItemPanels(doc.panels) == doc.dropdownItems
      && |doc.panels| == |doc.navButtons| + |doc.dropdownItems|
      && Distinct(PanelIds(doc.panels))
  {
    var lines := Lines(markdown);
    WalkConsistent(lines, Kinds(lines), 0, dropdown, Empty, []);
    PanelsSplit(Parsed(markdown, dropdown).panels);
  }

  // ---------------------------------------------------------------------
  // The dropdown's title
  // ---------------------------------------------------------------------

  /** Some `## ` heading at or after line `i` has the title `t`. */
  predicate HasSectionTitled(kinds: seq<LineKind>, i: nat, t: String) {
    exists j :: i <= j < |kinds| && kinds[j] == SectionHeading(t)
  }

  /** Skipping lines that are not `## ` headings does not skip a title. */
  lemma HasSectionTitledSkip(kinds: seq<LineKind>, i: nat, e: nat, t: String)
    requires i <= e <= |kinds|
    requires forall j :: i <= j < e ==> !kinds[j].SectionHeading?
    ensures HasSectionTitled(kinds, i, t) <==> HasSectionTitled(kinds, e, t)
  {
    if HasSectionTitled(kinds, i, t) {
      var j :| i <= j < |kinds| && kinds[j] == SectionHeading(t);
      assert e <= j;
    }
  }

  lemma {:induction false} WalkDropdownTitle(lines: seq<String>, kinds: seq<LineKind>, i: nat, dropdown: Option<String>,
                                             doc: DocumentStructure, used: seq<String>)
    requires |kinds| == |lines| && i <= |lines| && (doc.dropdownTitle == None || doc.dropdownTitle == dropdown)
    ensures Walk(lines, kinds, i, dropdown, doc, used).doc.dropdownTitle ==
      if doc.dropdownTitle.Some? || (dropdown.Some? && HasSectionTitled(kinds, i, dropdown.value)) then dropdown else None
    decreases |lines| - i, 0
  {
    if i < |lines| {
      match kinds[i]
      case SectionHeading(title) =>
        var id := UniqueId(title, used);
        if dropdown == Some(title) {
          DropdownWalkTitle(lines, kinds, i + 1, dropdown, doc.(dropdownTitle := Some(title)), used + [id]);
        } else {
          var e := SectionEnd(kinds, i + 1);
          WalkDropdownTitle(lines, kinds, e, dropdown, AddSection(doc, id, title, Join(lines[i + 1..e], "\n")), used + [id]);
          if dropdown.Some? {
            HasSectionTitledSkip(kinds, i + 1, e, dropdown.value);
          }
        }
      case _ =>
        WalkDropdownTitle(lines, kinds, i + 1, dropdown, doc, used);
        if dropdown.Some? {
          HasSectionTitledSkip(kinds, i, i + 1, dropdown.value);
        }
    }
  }

  lemma {:induction false} DropdownWalkTitle(lines: seq<String>, kinds: seq<LineKind>, i: nat, dropdown: Option<String>,
                                             doc: DocumentStructure, used: seq<String>)
    requires |kinds| == |lines| && i <= |lines| && (doc.dropdownTitle == None || doc.dropdownTitle == dropdown)
    ensures DropdownWalk(lines, kinds, i, dropdown, doc, used).doc.dropdownTitle ==
      if doc.dropdownTitle.Some? || (dropdown.Some? && HasSectionTitled(kinds, i, dropdown.value)) then dropdown else None
    decreases |lines| - i, 1
  {
    if i < |lines| {
      match kinds[i]
      case SectionHeading(_) =>
        WalkDropdownTitle(lines, kinds, i, dropdown, doc, used);
      case SubsectionHeading(title) =>
        var id := UniqueId(title, used);
        var e := SubsectionEnd(kinds, i + 1);
        DropdownWalkTitle(lines, kinds, e, dropdown, AddItem(doc, id, title, Join(lines[i + 1..e], "\n")), used + [id]);
        if dropdown.Some? {
          HasSectionTitledSkip(kinds, i, e, dropdown.value);
        }
      case Body =>
        DropdownWalkTitle(lines, kinds, i + 1, dropdown, doc, used);
        if dropdown.Some? {
          HasSectionTitledSkip(kinds, i, i + 1, dropdown.value);
        }
    }
  }

  /** Some line is a `## ` heading with the title `t`. */
  predicate HasHeadingTitled(lines: seq<String>, t: String) {
    exists j :: 0 <= j < |lines| && IsSectionHeading(lines[j]) && SectionTitle(lines[j]) == t
  }

  lemma HasSectionTitledLines(lines: seq<String>, kinds: seq<LineKind>, t: String)
    requires kinds == Kinds(lines)
    ensures HasSectionTitled(kinds, 0, t) <==> HasHeadingTitled(lines, t)
  {
    if HasSectionTitled(kinds, 0, t) {
      var j :| 0 <= j < |kinds| && kinds[j] == SectionHeading(t);
      assert KindOf(lines[j]) == SectionHeading(t);
    }
    if HasHeadingTitled(lines, t) {
      var j :| 0 <= j < |lines| && IsSectionHeading(lines[j]) && SectionTitle(lines[j]) == t;
      assert kinds[j] == KindOf(lines[j]);
    }
  }

  /**
   * The dropdown is picked by exact title: `dropdown_title` is the configured
   * name when some `## ` heading has exactly that title, and `None` otherwise.
   */
  lemma ParsedDropdownTitle(markdown: String, dropdown: Option<String>)
    ensures Parsed(markdown, dropdown).dropdownTitle ==
      if dropdown.Some? && HasHeadingTitled(Lines(markdown), dropdown.value) then dropdown else None
  {
    var lines := Lines(markdown);
    WalkDropdownTitle(lines, Kinds(lines), 0, dropdown, Empty, []);
    if dropdown.Some? {
      HasSectionTitledLines(lines, Kinds(lines), dropdown.value);
    }
  }

  // ---------------------------------------------------------------------
  // The dropdown heading's id
  // ---------------------------------------------------------------------

  /**
   * The dropdown `## ` heading yields no nav button but its slug is handed
   * out all the same: a `### ` heading right under it with the same title
   * becomes the dropdown item `slug-1`.
   */
  lemma DropdownReservesSlug(lines: seq<String>, kinds: seq<LineKind>, i: nat, t: String,
                             doc: DocumentStructure, used: seq<String>)
    requires |kinds| == |lines| && i + 1 < |lines|
    requires kinds[i] == SectionHeading(t) && kinds[i + 1] == SubsectionHeading(t)
    requires Slugify(t) !in used && NumberedId(Slugify(t), 1) !in used
    ensures var e := SubsectionEnd(kinds, i + 2);
      Walk(lines, kinds, i, Some(t), doc, used)
        == DropdownWalk(lines, kinds, e, Some(t),
             AddItem(doc.(dropdownTitle := Some(t)), Slugify(t) + "-" + "1", t, Join(lines[i + 2..e], "\n")),
             used + [Slugify(t), Slugify(t) + "-" + "1"])
  {
    var base := Slugify(t);
    var id := base + "-" + "1";
    var e := SubsectionEnd(kinds, i + 2);
    UniqueIdAfterSlug(t, used);
    WalkDropdown(lines, kinds, i, Some(t), doc, used, t, base, doc.(dropdownTitle := Some(t)), used + [base]);
    DropdownItem(lines, kinds, i + 1, Some(t), doc.(dropdownTitle := Some(t)), used + [base], t, id, e,
                 AddItem(doc.(dropdownTitle := Some(t)), id, t, Join(lines[i + 2..e], "\n")), used + [base, id]);
  }

  // ---------------------------------------------------------------------
  // Where each panel comes from
  // ---------------------------------------------------------------------

  /**
   * Line `h` lies inside the dropdown section: after the dropdown's `## `
   * heading, with no other `## ` heading in between.
   */
  predicate InDropdown(kinds: seq<LineKind>, dropdown: Option<String>, h: nat)
    requires h < |kinds|
  {
    dropdown.Some? &&
    exists d :: 0 <= d < h && kinds[d] == SectionHeading(dropdown.value)
      && forall j :: d < j <= h ==> !kinds[j].SectionHeading?
  }

  /**
   * Panel `p` was made from the heading on line `h`: a regular panel from a
   * `## ` heading that is not the dropdown's, holding the lines after it up to
   * the next `## ` heading; a dropdown panel from a `### ` heading inside the
   * dropdown section, holding the lines after it up to the next heading.
   */
  predicate MadeFrom(lines: seq<String>, kinds: seq<LineKind>, dropdown: Option<String>, p: ContentPanel, h: nat)
    requires |kinds| == |lines|
  {
    h < |lines| &&
    if p.isDropdownItem then
      && kinds[h] == SubsectionHeading(p.title)
      && InDropdown(kinds, dropdown, h)
      && p.markdownContent == Join(lines[h + 1..SubsectionEnd(kinds, h + 1)], "\n")
    else
      && kinds[h] == SectionHeading(p.title)
      && dropdown != Some(p.title)
      && p.markdownContent == Join(lines[h + 1..SectionEnd(kinds, h + 1)], "\n")
  }

  /** Panel `k` was made from the heading on line `hs[k]`, before line `i`, the lines rising with `k`. */
  predicate Traced(lines: seq<String>, kinds: seq<LineKind>, dropdown: Option<String>, ps: seq<ContentPanel>, hs: seq<nat>, i: nat)
    requires |kinds| == |lines|
  {
    && |hs| == |ps|
    && (forall k :: 0 <= k < |ps| ==> hs[k] < i && MadeFrom(lines, kinds, dropdown, ps[k], hs[k]))
    && (forall k, l :: 0 <= k < l < |ps| ==> hs[k] < hs[l])
  }

  /** Every panel was made from a heading, the panels in the order of their headings. */
  ghost predicate Provenance(lines: seq<String>, kinds: seq<LineKind>, dropdown: Option<String>, ps: seq<ContentPanel>)
    requires |kinds| == |lines|
  {
    exists hs :: Traced(lines, kinds, dropdown, ps, hs, |lines|)
  }

  lemma TracedProvenance(lines: seq<String>, kinds: seq<LineKind>, dropdown: Option<String>, ps: seq<ContentPanel>, hs: seq<nat>)
    requires |kinds| == |lines| && Traced(lines, kinds, dropdown, ps, hs, |lines|)
    ensures Provenance(lines, kinds, dropdown, ps)
  {
  }

  lemma AddTraced(lines: seq<String>, kinds: seq<LineKind>, dropdown: Option<String>, ps: seq<ContentPanel>, hs: seq<nat>,
                  i: nat, p: ContentPanel, i': nat)
    requires |kinds| == |lines| && Traced(lines, kinds, dropdown, ps, hs, i)
    requires i < i' && MadeFrom(lines, kinds, dropdown, p, i)
    ensures Traced(lines, kinds, dropdown, ps + [p], hs + [i], i')
  {
    var ps', hs' := ps + [p], hs + [i];
    forall k | 0 <= k < |ps'|
      ensures hs'[k] < i' && MadeFrom(lines, kinds, dropdown, ps'[k], hs'[k])
    {
      if k < |ps| {
        assert ps'[k] == ps[k] && hs'[k] == hs[k];
      }
    }
  }

  lemma {:induction false} WalkTraced(lines: seq<String>, kinds: seq<LineKind>, i: nat, dropdown: Option<String>,
                                      doc: DocumentStructure, used: seq<String>, hs: seq<nat>)
    returns (hs': seq<nat>)
    requires |kinds| == |lines| && i <= |lines| && Traced(lines, kinds, dropdown, doc.panels, hs, i)
    ensures Traced(lines, kinds, dropdown, Walk(lines, kinds, i, dropdown, doc, used).doc.panels, hs', |lines|)
    decreases |lines| - i, 0
  {
    if i == |lines| {
      hs' := hs;
    } else {
      match kinds[i]
      case SectionHeading(title) =>
        var id := UniqueId(title, used);
        if dropdown == Some(title) {
          hs' := DropdownWalkTraced(lines, kinds, i + 1, dropdown, doc.(dropdownTitle := Some(title)), used + [id], hs, i);
        } else {
          var e := SectionEnd(kinds, i + 1);
          var content := Join(lines[i + 1..e], "\n");
          AddTraced(lines, kinds, dropdown, doc.panels, hs, i, ContentPanel(id, title, content, false), e);
          hs' := WalkTraced(lines, kinds, e, dropdown, AddSection(doc, id, title, content), used + [id], hs + [i]);
        }
      case _ =>
        hs' := WalkTraced(lines, kinds, i + 1, dropdown, doc, used, hs);
    }
  }

  /** Inside the dropdown section, whose `## ` heading is on line `d`. */
  lemma {:induction false} DropdownWalkTraced(lines: seq<String>, kinds: seq<LineKind>, i: nat, dropdown: Option<String>,
                                              doc: DocumentStructure, used: seq<String>, hs: seq<nat>, d: nat)
    returns (hs': seq<nat>)
    requires |kinds| == |lines| && d < i <= |lines| && Traced(lines, kinds, dropdown, doc.panels, hs, i)
    requires dropdown.Some? && kinds[d] == SectionHeading(dropdown.value)
    requires forall j :: d < j < i ==> !kinds[j].SectionHeading?
    ensures Traced(lines, kinds, dropdown, DropdownWalk(lines, kinds, i, dropdown, doc, used).doc.panels, hs', |lines|)
    decreases |lines| - i, 1
  {
    if i == |lines| {
      hs' := hs;
    } else {
      match kinds[i]
      case SectionHeading(_) =>
        hs' := WalkTraced(lines, kinds, i, dropdown, doc, used, hs);
      case SubsectionHeading(title) =>
        var id := UniqueId(title, used);
        var e := SubsectionEnd(kinds, i + 1);
        var content := Join(lines[i + 1..e], "\n");
        assert InDropdown(kinds, dropdown, i);
        AddTraced(lines, kinds, dropdown, doc.panels, hs, i, ContentPanel(id, title, content, true), e);
        hs' := DropdownWalkTraced(lines, kinds, e, dropdown, AddItem(doc, id, title, content), used + [id], hs + [i], d);
      case Body =>
        hs' := DropdownWalkTraced(lines, kinds, i + 1, dropdown, doc, used, hs, d);
    }
  }

  /**
   * Every panel, in order, was made from a heading further down than the
   * previous panel's: a regular panel holds the lines after its `## ` heading
   * up to the next one, joined with newlines; a dropdown panel holds the lines
   * after its `### ` heading, inside the dropdown section, up to the next
   * heading of either kind. No other line is in a panel: in particular none
   * before the first `## ` heading.
   */
  lemma ParsedProvenance(markdown: String, dropdown: Option<String>)
    ensures var lines := Lines(markdown);
      Provenance(lines, Kinds(lines), dropdown, Parsed(markdown, dropdown).panels)
  {
    var lines := Lines(markdown);
    var hs := WalkTraced(lines, Kinds(lines), 0, dropdown, Empty, [], []);
    TracedProvenance(lines, Kinds(lines), dropdown, Parsed(markdown, dropdown).panels, hs);
  }

  // ---------------------------------------------------------------------
  // Every heading makes its panel
  // ---------------------------------------------------------------------

  /**
   * Line `h` is a heading the structurer makes a panel from: a `## ` heading
   * other than the dropdown's, or a `### ` heading inside the dropdown section.
   */
  predicate Wanted(kinds: seq<LineKind>, dropdown: Option<String>, h: nat)
    requires h < |kinds|
  {
    match kinds[h]
    case SectionHeading(t) => dropdown != Some(t)
    case SubsectionHeading(_) => InDropdown(kinds, dropdown, h)
    case Body => false
  }

  /** Some panel of `ps` was made from the heading on line `h`. */
  predicate HasPanelFrom(lines: seq<String>, kinds: seq<LineKind>, dropdown: Option<String>, ps: seq<ContentPanel>, h: nat)
    requires |kinds| == |lines|
  {
    exists k :: 0 <= k < |ps| && MadeFrom(lines, kinds, dropdown, ps[k], h)
  }

  /** The dropdown section is open at line `i`: its `## ` heading came before, and no other `## ` heading since. */
  predicate Open(kinds: seq<LineKind>, dropdown: Option<String>, i: nat)
    requires i <= |kinds|
  {
    dropdown.Some? &&
    exists d :: 0 <= d < i && kinds[d] == SectionHeading(dropdown.value)
      && forall j :: d < j < i ==> !kinds[j].SectionHeading?
  }

  /** Where the outer loop can stand: at a `## ` heading, at the end, or outside the dropdown section. */
  predicate Outside(kinds: seq<LineKind>, dropdown: Option<String>, i: nat)
    requires i <= |kinds|
  {
    i == |kinds| || kinds[i].SectionHeading? || !Open(kinds, dropdown, i)
  }

  lemma HasPanelFromGrows(lines: seq<String>, kinds: seq<LineKind>, dropdown: Option<String>,
                          ps: seq<ContentPanel>, qs: seq<ContentPanel>, h: nat)
    requires |kinds| == |lines| && ps <= qs && HasPanelFrom(lines, kinds, dropdown, ps, h)
    ensures HasPanelFrom(lines, kinds, dropdown, qs, h)
  {
    var k :| 0 <= k < |ps| && MadeFrom(lines, kinds, dropdown, ps[k], h);
    assert qs[k] == ps[k];
  }

  /** Past a line that is no `## ` heading, the dropdown section is open exactly as before. */
  lemma OpenStep(kinds: seq<LineKind>, dropdown: Option<String>, i: nat)
    requires i < |kinds| && !kinds[i].SectionHeading?
    ensures Open(kinds, dropdown, i + 1) <==> Open(kinds, dropdown, i)
  {
    if Open(kinds, dropdown, i + 1) {
      var d :| 0 <= d < i + 1 && kinds[d] == SectionHeading(dropdown.value)
        && forall j :: d < j < i + 1 ==> !kinds[j].SectionHeading?;
      assert d < i;
    }
  }

  /** A `### ` heading is inside the dropdown section exactly when the section is open at its line. */
  lemma InDropdownOpen(kinds: seq<LineKind>, dropdown: Option<String>, h: nat)
    requires h < |kinds| && !kinds[h].SectionHeading?
    ensures InDropdown(kinds, dropdown, h) <==> Open(kinds, dropdown, h)
  {
  }

  /** No heading strictly inside a regular section is wanted: its `### ` headings are outside the dropdown. */
  lemma SectionBodyUnwanted(kinds: seq<LineKind>, dropdown: Option<String>, i: nat, title: String, h: nat)
    requires i < |kinds| && i < h < SectionEnd(kinds, i + 1) && kinds[i] == SectionHeading(title) && dropdown != Some(title)
    ensures !Wanted(kinds, dropdown, h)
  {
    if kinds[h].SubsectionHeading? && dropdown.Some? {
      forall d | 0 <= d < h && kinds[d] == SectionHeading(dropdown.value)
        ensures exists j :: d < j <= h && kinds[j].SectionHeading?
      {
        assert d < i;
        assert kinds[i].SectionHeading?;
      }
    }
  }

  /** A regular section's end is where the outer loop may stand. */
  lemma SectionEndOutside(kinds: seq<LineKind>, dropdown: Option<String>, i: nat, title: String)
    requires i < |kinds| && kinds[i] == SectionHeading(title) && dropdown != Some(title)
    ensures Outside(kinds, dropdown, SectionEnd(kinds, i + 1))
  {
  }

  /** The outer loop from line `i` on keeps the panels so far and makes one from every wanted heading at or after `i`. */
  lemma {:induction false} WalkComplete(lines: seq<String>, kinds: seq<LineKind>, i: nat, dropdown: Option<String>,
                                        doc: DocumentStructure, used: seq<String>)
    requires |kinds| == |lines| && i <= |lines| && Outside(kinds, dropdown, i)
    ensures var ps := Walk(lines, kinds, i, dropdown, doc, used).doc.panels;
      && doc.panels <= ps
      && forall h :: i <= h < |lines| && Wanted(kinds, dropdown, h) ==> HasPanelFrom(lines, kinds, dropdown, ps, h)
    decreases |lines| - i, 0
  {
    if i < |lines| {
      var ps := Walk(lines, kinds, i, dropdown, doc, used).doc.panels;
      match kinds[i]
      case SectionHeading(title) =>
        var id := UniqueId(title, used);
        if dropdown == Some(title) {
          assert Open(kinds, dropdown, i + 1) by {
            assert kinds[i] == SectionHeading(dropdown.value);
          }
          DropdownWalkComplete(lines, kinds, i + 1, dropdown, doc.(dropdownTitle := Some(title)), used + [id]);
        } else {
          var e := SectionEnd(kinds, i + 1);
          var content := Join(lines[i + 1..e], "\n");
          var doc' := AddSection(doc, id, title, content);
          SectionEndOutside(kinds, dropdown, i, title);
          WalkComplete(lines, kinds, e, dropdown, doc', used + [id]);
          assert MadeFrom(lines, kinds, dropdown, doc'.panels[|doc.panels|], i);
          assert HasPanelFrom(lines, kinds, dropdown, doc'.panels, i);
          HasPanelFromGrows(lines, kinds, dropdown, doc'.panels, ps, i);
          forall h | i < h < e
            ensures !Wanted(kinds, dropdown, h)
          {
            SectionBodyUnwanted(kinds, dropdown, i, title, h);
          }
        }
      case _ =>
        OpenStep(kinds, dropdown, i);
        InDropdownOpen(kinds, dropdown, i);
        WalkComplete(lines, kinds, i + 1, dropdown, doc, used);
    }
  }

  /** The loop inside the open dropdown section from line `i` on, likewise. */
  lemma {:induction false} DropdownWalkComplete(lines: seq<String>, kinds: seq<LineKind>, i: nat, dropdown: Option<String>,
                                                doc: DocumentStructure, used: seq<String>)
    requires |kinds| == |lines| && i <= |lines| && Open(kinds, dropdown, i)
    ensures var ps := DropdownWalk(lines, kinds, i, dropdown, doc, used).doc.panels;
      && doc.panels <= ps
      && forall h :: i <= h < |lines| && Wanted(kinds, dropdown, h) ==> HasPanelFrom(lines, kinds, dropdown, ps, h)
    decreases |lines| - i, 1
  {
    if i < |lines| {
      var ps := DropdownWalk(lines, kinds, i, dropdown, doc, used).doc.panels;
      match kinds[i]
      case SectionHeading(_) =>
        WalkComplete(lines, kinds, i, dropdown, doc, used);
      case SubsectionHeading(title) =>
        var id := UniqueId(title, used);
        var e := SubsectionEnd(kinds, i + 1);
        var content := Join(lines[i + 1..e], "\n");
        var doc' := AddItem(doc, id, title, content);
        InDropdownOpen(kinds, dropdown, i);
        OpenRun(kinds, dropdown, i, e);
        DropdownWalkComplete(lines, kinds, e, dropdown, doc', used + [id]);
        assert MadeFrom(lines, kinds, dropdown, doc'.panels[|doc.panels|], i);
        assert HasPanelFrom(lines, kinds, dropdown, doc'.panels, i);
        HasPanelFromGrows(lines, kinds, dropdown, doc'.panels, ps, i);
      case Body =>
        OpenStep(kinds, dropdown, i);
        DropdownWalkComplete(lines, kinds, i + 1, dropdown, doc, used);
    }
  }

  /** The dropdown section stays open over lines that are no `## ` heading. */
  lemma {:induction false} OpenRun(kinds: seq<LineKind>, dropdown: Option<String>, i: nat, e: nat)
    requires i <= e <= |kinds| && Open(kinds, dropdown, i)
    requires forall j :: i <= j < e ==> !kinds[j].SectionHeading?
    ensures Open(kinds, dropdown, e)
    decreases e - i
  {
    if i < e {
      OpenStep(kinds, dropdown, i);
      OpenRun(kinds, dropdown, i + 1, e);
    }
  }

  /**
   * Every `## ` heading other than the dropdown's, and every `### ` heading
   * inside the dropdown section, has a panel made from it: with
   * `ParsedProvenance`, the panels are exactly those of the wanted headings.
   */
  lemma ParsedComplete(markdown: String, dropdown: Option<String>)
    ensures var lines := Lines(markdown); var kinds := Kinds(lines);
      forall h :: 0 <= h < |lines| && Wanted(kinds, dropdown, h) ==>
        HasPanelFrom(lines, kinds, dropdown, Parsed(markdown, dropdown).panels, h)
  {
    var lines := Lines(markdown);
    WalkComplete(lines, Kinds(lines), 0, dropdown, Empty, []);
  }

  // ---------------------------------------------------------------------
  // Text without headings
  // ---------------------------------------------------------------------

  lemma {:induction false} WalkWithoutSections(lines: seq<String>, kinds: seq<LineKind>, i: nat, dropdown: Option<String>,
                                               doc: DocumentStructure, used: seq<String>)
    requires |kinds| == |lines| && i <= |lines|
    requires forall j :: i <= j < |lines| ==> !kinds[j].SectionHeading?
    ensures Walk(lines, kinds, i, dropdown, doc, used) == Walked(doc, used)
    decreases |lines| - i
  {
    if i < |lines| {
      WalkWithoutSections(lines, kinds, i + 1, dropdown, doc, used);
    }
  }

  /** Without a `## ` heading there is nothing: no nav button, no dropdown, no panel. */
  lemma ParsedWithoutSections(markdown: String, dropdown: Option<String>)
    requires forall j :: 0 <= j < |Lines(markdown)| ==> !IsSectionHeading(Lines(markdown)[j])
    ensures Parsed(markdown, dropdown) == Empty
  {
    var lines := Lines(markdown);
    WalkWithoutSections(lines, Kinds(lines), 0, dropdown, Empty, []);
  }
}
