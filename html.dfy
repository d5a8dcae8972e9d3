/**
 * The HTML renderer (src/renderer/html.rs): every section of the rendered
 * Markdown wrapped in a collapsible panel, one navigation button per
 * section, the script's dropdown declaration, and the page template with its
 * placeholders replaced one after the other.
 */
module Html {
  import opened Text
  import opened Search
  import opened Sections

  // ---------------------------------------------------------------------
  // Section panels
  // ---------------------------------------------------------------------

  /** The toggle icon's three characters as they stand in the panel markup (U+00E2, U+2013, U+00BC). */
  const ToggleIcon: String := "\U{E2}\U{2013}\U{BC}"

  const H2Close: String := "</h2>"

  const DivOpen: String := "<div class=\"section\" id=\"section-"

  const HeaderOpen: String :=
    "\">\n    <div class=\"section-header\">\n        <span class=\"toggle-icon\">" + ToggleIcon + "</span>\n        <h2>"

  const ContentOpen: String := "</h2>\n    </div>\n    <div class=\"section-content\">\n        "

  const DivClose: String := "\n    </div>\n</div>\n"

  /** The panel of one section: its id, its title in the header, its content below. */
  function SectionDiv(id: String, title: String, inner: String): String {
    DivOpen + id + HeaderOpen + title + ContentOpen + inner + DivClose
  }

  /** What a panel shows of its section's slice: what follows the first `</h2>`, or the whole slice without one. */
  function Inner(slice: String): String {
    match Find(slice, H2Close)
    case Some(p) => slice[p + 5..]
    case None => slice
  }

  /**
   * A slice holding a `</h2>` is the text before its first `</h2>`, that
   * `</h2>`, and what the panel shows; a slice without one is shown whole.
   */
  lemma InnerAfterFirstClose(slice: String)
    ensures !Contains(slice, H2Close) ==> Inner(slice) == slice
    ensures Contains(slice, H2Close) ==>
      exists pre :: slice == pre + H2Close + Inner(slice) && !Contains(pre, H2Close)
  {
    match Find(slice, H2Close)
    case Some(p) =>
      var pre := slice[..p];
      assert |H2Close| == 5 && slice[p..p + 5] == H2Close;
      assert slice == pre + H2Close + slice[p + 5..];
      forall j | 0 <= j <= |pre|
        ensures !MatchAt(pre, H2Close, j)
      {
        if j + 5 <= |pre| {
          assert pre[j..j + 5] == slice[j..j + 5];
          assert !MatchAt(slice, H2Close, j);
        }
      }
      ContainsIff(pre, H2Close);
    case None =>
  }

  /** The section's range lies inside the HTML, as slicing it requires. */
  predicate Fits(html: String, s: Section) {
    s.start <= s.end <= |html|
  }

  /** Every section's range lies inside the HTML. */
  predicate InRange(html: String, sections: seq<Section>) {
    forall k :: 0 <= k < |sections| ==> Fits(html, sections[k])
  }

  function Wrapper(html: String, s: Section): String
    requires Fits(html, s)
  {
    SectionDiv(s.id, s.title, Inner(html[s.start..s.end]))
  }

  /** The panels of `sections`, in order. */
  function Wrappers(html: String, sections: seq<Section>): String
    requires InRange(html, sections)
  {
    if sections == [] then ""
    else
      var last := |sections| - 1;
      Wrappers(html, sections[..last]) + Wrapper(html, sections[last])
  }

  /** What precedes the first section, kept unless it holds an `<h1>`. */
  function Preamble(html: String, first: Section): String
    requires first.start <= |html|
  {
    if first.start > 0 && !Contains(html[..first.start], "<h1>") then html[..first.start] else ""
  }

  /** `wrap_sections`, as a function of the HTML and its sections. */
  function Wrapped(html: String, sections: seq<Section>): String
    requires InRange(html, sections)
  {
    if sections == [] then html else Preamble(html, sections[0]) + Wrappers(html, sections)
  }

  lemma WrappersStep(html: String, sections: seq<Section>, k: nat)
    requires InRange(html, sections) && k < |sections|
    ensures Wrappers(html, sections[..k + 1]) == Wrappers(html, sections[..k]) + Wrapper(html, sections[k])
  {
    assert sections[..k + 1][..k] == sections[..k];
  }

  /** The loop of `wrap_sections`: one panel per section, appended in order. */
  method AppendPanels(html: String, sections: seq<Section>, start: String) returns (result: String)
    requires InRange(html, sections)
    ensures result == start + Wrappers(html, sections)
  {
    result := start;
    for k := 0 to |sections|
      invariant result == start + Wrappers(html, sections[..k])
    {
      var section := sections[k];
      var sectionContent := html[section.start..section.end];
      var found := Find(sectionContent, "</h2>");
      var contentStart := if found.Some? then found.value + 5 else 0;
      var innerContent := sectionContent[contentStart..];
      assert innerContent == Inner(sectionContent);
      var panel := SectionDiv(section.id, section.title, innerContent);
      assert panel == Wrapper(html, sections[k]);
      WrappersStep(html, sections, k);
      AppendAssoc(start, Wrappers(html, sections[..k]), panel);
      result := result + panel;
    }
    assert sections[..|sections|] == sections;
  }

  /** `wrap_sections`: the kept preamble, then the panels. */
  method WrapSections(html: String, sections: seq<Section>) returns (result: String)
    requires InRange(html, sections)
    ensures result == Wrapped(html, sections)
  {
    if |sections| == 0 {
      return html;
    }
    result := "";
    if sections[0].start > 0 {
      var preContent := html[..sections[0].start];
      if !Contains(preContent, "<h1>") {
        result := result + preContent;
      }
    }
    assert result == Preamble(html, sections[0]);
    result := AppendPanels(html, sections, result);
  }

  /**
   * Without sections the HTML is given back as it is. With sections, the
   * text before the first one comes first exactly when it holds no `<h1>`
   * (an empty preamble holds none), and the panels follow.
   */
  lemma WrappedShape(html: String, sections: seq<Section>)
    requires InRange(html, sections)
    ensures sections == [] ==> Wrapped(html, sections) == html
    ensures sections != [] ==>
      var pre := html[..sections[0].start];
      && (!Contains(pre, "<h1>") ==> Wrapped(html, sections) == pre + Wrappers(html, sections))
      && (Contains(pre, "<h1>") ==> Wrapped(html, sections) == Wrappers(html, sections))
  {
    if sections != [] {
      var pre := html[..sections[0].start];
      var w := Wrappers(html, sections);
      if sections[0].start == 0 {
        assert pre == [];
        assert !MatchAt(pre, "<h1>", 0);
      }
      if Contains(pre, "<h1>") {
        assert Preamble(html, sections[0]) == [];
      }
      assert [] + w == w;
    }
  }

  lemma InRangeParts(html: String, a: seq<Section>, b: seq<Section>)
    requires InRange(html, a + b)
    ensures InRange(html, a) && InRange(html, b)
  {
    forall k | 0 <= k < |b|
      ensures Fits(html, b[k])
    {
      assert b[k] == (a + b)[|a| + k];
    }
    forall k | 0 <= k < |a|
      ensures Fits(html, a[k])
    {
      assert a[k] == (a + b)[k];
    }
  }

  lemma WrappersLast(html: String, sections: seq<Section>)
    requires InRange(html, sections) && sections != []
    ensures Wrappers(html, sections)
              == Wrappers(html, sections[..|sections| - 1]) + Wrapper(html, sections[|sections| - 1])
  {
  }

  /** The panels of two runs of sections are the panels of each, one after the other. */
  lemma {:induction false} WrappersAppend(html: String, a: seq<Section>, b: seq<Section>)
    requires InRange(html, a + b)
    ensures InRange(html, a) && InRange(html, b)
    ensures Wrappers(html, a + b) == Wrappers(html, a) + Wrappers(html, b)
    decreases |b|
  {
    InRangeParts(html, a, b);
    if b == [] {
      assert a + b == a;
    } else {
      var last := |b| - 1;
      var init := b[..last];
      var ab := a + b;
      assert ab[..|ab| - 1] == a + init;
      assert ab[|ab| - 1] == b[last];
      WrappersLast(html, ab);
      WrappersLast(html, b);
      WrappersAppend(html, a, init);
      AppendAssoc(Wrappers(html, a), Wrappers(html, init), Wrapper(html, b[last]));
    }
  }

  /** One section, one panel. */
  lemma WrappersOne(html: String, s: Section)
    requires Fits(html, s)
    ensures InRange(html, [s]) && Wrappers(html, [s]) == Wrapper(html, s)
  {
    assert [s][..0] == [];
  }

  // ---------------------------------------------------------------------
  // Navigation buttons
  // ---------------------------------------------------------------------

  const NavSeparator: String := "\n        "

  function Button(title: String): String {
    "<button>" + title + "</button>"
  }

  function Buttons(sections: seq<Section>): (bs: seq<String>)
    ensures |bs| == |sections| && forall k :: 0 <= k < |sections| ==> bs[k] == Button(sections[k].title)
  {
    seq(|sections|, k requires 0 <= k < |sections| => Button(sections[k].title))
  }

  /** `generate_nav_buttons`. */
  function NavButtons(sections: seq<Section>): String {
    Join(Buttons(sections), NavSeparator)
  }

  /** Where part `k` starts in `Join(parts, sep)`: after each earlier part and its separator. */
  function JoinOffset(parts: seq<String>, sep: String, k: nat): nat
    requires k <= |parts|
  {
    if k == 0 then 0 else |parts[0]| + |sep| + JoinOffset(parts[1..], sep, k - 1)
  }

  /** Part `k` stands at its offset in the joined text, followed by the separator unless it is the last. */
  lemma {:induction false} JoinPartAt(parts: seq<String>, sep: String, k: nat)
    requires k < |parts|
    ensures MatchAt(Join(parts, sep), parts[k], JoinOffset(parts, sep, k))
    ensures k + 1 < |parts| ==> MatchAt(Join(parts, sep), sep, JoinOffset(parts, sep, k) + |parts[k]|)
    ensures k + 1 == |parts| ==> JoinOffset(parts, sep, k) + |parts[k]| == |Join(parts, sep)|
  {
    var j := Join(parts, sep);
    if |parts| == 1 {
      assert j == parts[0];
    } else {
      var a := parts[0] + sep;
      var rest := Join(parts[1..], sep);
      assert j == a + rest;
      if k == 0 {
        assert j[..|parts[0]|] == parts[0];
        assert j[|parts[0]|..|parts[0]| + |sep|] == sep;
      } else {
        JoinPartAt(parts[1..], sep, k - 1);
        var off := JoinOffset(parts[1..], sep, k - 1);
        assert j[|a|..] == rest;
        SliceMatch(j, parts[k], |a|, off);
        if k + 1 < |parts| {
          SliceMatch(j, sep, |a|, off + |parts[k]|);
        }
      }
    }
  }

  /**
   * No section, no button. Otherwise button `k` carries the title of section
   * `k`, at an offset rising with `k`, each one followed by the separator
   * except the last, which ends the text.
   */
  lemma NavButtonsShape(sections: seq<Section>)
    ensures NavButtons(sections) == [] <==> sections == []
    ensures forall k :: 0 <= k < |sections| ==>
      MatchAt(NavButtons(sections), Button(sections[k].title), JoinOffset(Buttons(sections), NavSeparator, k))
    ensures forall k :: 0 <= k < |sections| - 1 ==>
      MatchAt(NavButtons(sections), NavSeparator,
              JoinOffset(Buttons(sections), NavSeparator, k) + |Button(sections[k].title)|)
  {
    var bs := Buttons(sections);
    forall k | 0 <= k < |sections|
      ensures MatchAt(NavButtons(sections), Button(sections[k].title), JoinOffset(bs, NavSeparator, k))
      ensures k < |sections| - 1 ==>
        MatchAt(NavButtons(sections), NavSeparator, JoinOffset(bs, NavSeparator, k) + |Button(sections[k].title)|)
    {
      JoinPartAt(bs, NavSeparator, k);
    }
    if sections != [] {
      JoinPartAt(bs, NavSeparator, 0);
      assert |Button(sections[0].title)| > 0;
    }
  }

  // ---------------------------------------------------------------------
  // The script's dropdown declaration
  // ---------------------------------------------------------------------

  /** Each `"` preceded by a backslash, every other character kept: a reference for `str::replace`. */
  function EscapeQuotes(s: String): String
    decreases |s|
  {
    if s == [] then []
    else (if s[0] == '"' then "\\\"" else [s[0]]) + EscapeQuotes(s[1..])
  }

  /** Reading an escaped text back: `\"` stands for `"`. */
  function Unescape(s: String): String
    decreases |s|
  {
    if s == [] then []
    else if |s| >= 2 && s[0] == '\\' && s[1] == '"' then ['"'] + Unescape(s[2..])
    else [s[0]] + Unescape(s[1..])
  }

  /** Replacing in a text that opens with a quote: the quote is escaped, the rest replaced. */
  lemma ReplaceQuoteHead(s: String)
    requires s != [] && s[0] == '"'
    ensures ReplaceAll(s, "\"", "\\\"") == "\\\"" + ReplaceAll(s[1..], "\"", "\\\"")
  {
    assert MatchAt(s, "\"", 0);
    assert Find(s, "\"") == Some(0);
    assert s[..0] == [];
  }

  /** Replacing a one-character pattern in a text that opens with another character: that character stays, the rest is replaced. */
  lemma ReplaceOtherHead(s: String, q: String, rep: String)
    requires |q| == 1 && s != [] && s[0] != q[0]
    ensures ReplaceAll(s, q, rep) == [s[0]] + ReplaceAll(s[1..], q, rep)
  {
    var head := [s[0]];
    var tail := s[1..];
    assert s == head + tail;
    assert !MatchAt(s, q, 0);
    FindShift(head, tail, q);
    match Find(tail, q)
    case None =>
    case Some(k) =>
      assert s[..k + 1] == head + tail[..k];
      assert s[k + 2..] == tail[k + 1..];
  }

  /** `str::replace` of `"` by `\"` escapes exactly as the character-by-character reference does. */
  lemma {:induction false} EscapeIsReplace(s: String)
    ensures ReplaceAll(s, "\"", "\\\"") == EscapeQuotes(s)
    decreases |s|
  {
    if s == [] {
      assert !MatchAt(s, "\"", 0);
    } else {
      EscapeIsReplace(s[1..]);
      if s[0] == '"' {
        ReplaceQuoteHead(s);
      } else {
        ReplaceOtherHead(s, "\"", "\\\"");
      }
    }
  }

  /** The escaped text never starts with a bare `"`. */
  lemma EscapeFirst(s: String)
    requires s != []
    ensures EscapeQuotes(s) != [] && EscapeQuotes(s)[0] != '"'
  {
  }

  /** Unescaping undoes the escaping: the declared name reads back as it was. */
  lemma {:induction false} EscapeRoundTrip(s: String)
    ensures Unescape(EscapeQuotes(s)) == s
    decreases |s|
  {
    if s != [] {
      var e := EscapeQuotes(s);
      var rest := EscapeQuotes(s[1..]);
      EscapeRoundTrip(s[1..]);
      if s[0] == '"' {
        assert e == "\\\"" + rest;
        assert e[2..] == rest;
      } else {
        assert e == [s[0]] + rest;
        assert e[1..] == rest;
        if s[0] == '\\' && rest != [] {
          EscapeFirst(s[1..]);
          assert e[1] == rest[0];
        }
      }
    }
  }

  const DropdownDeclOpen: String := "const DROPDOWN_SECTION = \""

  const DropdownDeclNull: String := "const DROPDOWN_SECTION = null;\n"

  /** The script, preceded by the declaration of the dropdown section's name, or of `null` without one. */
  function ScriptPrefix(dropdown: Option<String>, script: String): String {
    match dropdown
    case Some(name) => DropdownDeclOpen + ReplaceAll(name, "\"", "\\\"") + "\";\n" + script
    case None => DropdownDeclNull + script
  }

  /**
   * With a dropdown section, the script opens by declaring its name as a
   * string, quotes escaped and nothing else changed, so that unescaping
   * gives the name back; without one, by declaring `null`.
   */
  lemma ScriptPrefixShape(dropdown: Option<String>, script: String)
    ensures dropdown.None? ==> ScriptPrefix(dropdown, script) == DropdownDeclNull + script
    ensures dropdown.Some? ==>
      && ScriptPrefix(dropdown, script) == DropdownDeclOpen + EscapeQuotes(dropdown.value) + "\";\n" + script
      && Unescape(EscapeQuotes(dropdown.value)) == dropdown.value
      && ('"' !in dropdown.value ==> EscapeQuotes(dropdown.value) == dropdown.value)
  {
    if dropdown.Some? {
      EscapeIsReplace(dropdown.value);
      EscapeRoundTrip(dropdown.value);
      var v := dropdown.value;
      if '"' !in v {
        forall j | 0 <= j <= |v|
          ensures !MatchAt(v, "\"", j)
        {
          if j + 1 <= |v| {
            assert v[j..j + 1] == [v[j]];
          }
        }
        ContainsIff(v, "\"");
      }
    }
  }

  // ---------------------------------------------------------------------
  // The page
  // ---------------------------------------------------------------------

  /** What the renderer is given: the rendered HTML, its sections and the document's title. */
  datatype ParsedDocument = ParsedDocument(htmlContent: String, sections: seq<Section>, title: String)

  /** The page's assets: style sheet, script and template. */
  datatype Assets = Assets(styles: String, script: String, template: String)

  /** The template with `{{title}}`, `{{styles}}`, `{{logo}}`, `{{nav_buttons}}`, `{{content}}` and `{{script}}` replaced, in this order. */
  function FillTemplate(template: String, title: String, styles: String, logo: String,
                        nav: String, content: String, script: String): String
  {
    var t1 := ReplaceAll(template, "{{title}}", title);
    var t2 := ReplaceAll(t1, "{{styles}}", styles);
    var t3 := ReplaceAll(t2, "{{logo}}", logo);
    var t4 := ReplaceAll(t3, "{{nav_buttons}}", nav);
    var t5 := ReplaceAll(t4, "{{content}}", content);
    ReplaceAll(t5, "{{script}}", script)
  }

  /** `render_with_options`: the panels, the buttons and the script, put into the template. */
  method RenderWithOptions(document: ParsedDocument, logoDataUri: String, dropdownSection: Option<String>,
                           assets: Assets) returns (html: String)
    requires InRange(document.htmlContent, document.sections)
    ensures html == FillTemplate(assets.template, document.title, assets.styles, logoDataUri,
                                 NavButtons(document.sections), Wrapped(document.htmlContent, document.sections),
                                 ScriptPrefix(dropdownSection, assets.script))
  {
    var wrappedContent := WrapSections(document.htmlContent, document.sections);
    var navButtons := NavButtons(document.sections);
    var script := ScriptPrefix(dropdownSection, assets.script);
    html := FillTemplate(assets.template, document.title, assets.styles, logoDataUri, navButtons, wrappedContent, script);
  }

  /** A text that is exactly the pattern becomes the replacement. */
  lemma ReplaceWhole(p: String, rep: String)
    requires |p| > 0
    ensures ReplaceAll(p, p, rep) == rep
  {
    assert MatchAt(p, p, 0);
    assert Find(p, p) == Some(0);
    assert p[|p|..] == [];
    assert !MatchAt([], p, 0);
    assert p[..0] + rep + [] == rep;
  }

  /** A template without placeholders comes out as it is, whatever the values. */
  lemma FillTemplateWithoutPlaceholders(template: String, title: String, styles: String, logo: String,
                                        nav: String, content: String, script: String)
    requires !Contains(template, "{{title}}") && !Contains(template, "{{styles}}") && !Contains(template, "{{logo}}")
    requires !Contains(template, "{{nav_buttons}}") && !Contains(template, "{{content}}") && !Contains(template, "{{script}}")
    ensures FillTemplate(template, title, styles, logo, nav, content, script) == template
  {
  }

  /**
   * The replacements run one after the other over the whole text, so a
   * placeholder that an earlier value brings in is replaced too: a title
   * reading `{{styles}}` in a `{{title}}` template comes out as the styles.
   */
  lemma TitleBringsStyles(styles: String, logo: String, nav: String, content: String, script: String)
    requires !Contains(styles, "{{logo}}") && !Contains(styles, "{{nav_buttons}}")
    requires !Contains(styles, "{{content}}") && !Contains(styles, "{{script}}")
    ensures FillTemplate("{{title}}", "{{styles}}", styles, logo, nav, content, script) == styles
  {
    ReplaceWhole("{{title}}", "{{styles}}");
    ReplaceWhole("{{styles}}", styles);
  }
}
