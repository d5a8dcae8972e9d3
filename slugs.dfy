/**
 * `slugify` of src/parser/sections.rs: a title turned into a lowercase,
 * dash-separated identifier, as used for section ids and document ids.
 *
 * The source computes it as a chain of string passes (`SlugPipeline` below).
 * `Slugify` states the same function word by word: the maximal runs of
 * letters and digits, lowercased and joined with dashes; `SlugifyIsPipeline`
 * proves the two equal on every title.
 */
module Slugs {
  import opened Text

  // ---------------------------------------------------------------------
  // The chain of passes the source runs
  // ---------------------------------------------------------------------

  /** A character after lowercasing: kept when alphanumeric, otherwise a dash. */
  function SlugChar(c: char): char {
    if IsAlphanumeric(c) then c else '-'
  }

  /** `.filter(|s| !s.is_empty())` */
  function NonEmptyPieces(parts: seq<String>): (r: seq<String>)
    ensures |r| <= |parts|
  {
    if |parts| == 0 then []
    else (if parts[0] == [] then [] else [parts[0]]) + NonEmptyPieces(parts[1..])
  }

  /** The title lowercased, with every character that is not a letter or a digit replaced by `-`. */
  function Dashed(title: String): (m: String)
    ensures |m| == |title|
  {
    var lower := ToLower(title);
    seq(|lower|, i requires 0 <= i < |lower| => SlugChar(lower[i]))
  }

  /** Lowercase, map non-alphanumerics to `-`, split on `-`, drop the empty pieces, join with `-`. */
  function SlugPipeline(title: String): String {
    Join(NonEmptyPieces(Split(Dashed(title), '-')), "-")
  }

  // ---------------------------------------------------------------------
  // The same function, word by word
  // ---------------------------------------------------------------------

  /** The longest prefix of `s` made of letters and digits, lowercased. */
  function Run(s: String): (w: String)
    ensures |w| <= |s|
    decreases |s|
  {
    if s != [] && IsAlphanumeric(s[0]) then [LowerChar(s[0])] + Run(s[1..]) else []
  }

  /** The maximal runs of letters and digits of `s`, lowercased, in order. */
  function Words(s: String): seq<String>
    decreases |s|
  {
    if s == [] then []
    else if !IsAlphanumeric(s[0]) then Words(s[1..])
    else
      var w := Run(s);
      [w] + Words(s[|w|..])
  }

  /** `slugify`. */
  function Slugify(title: String): String {
    Join(Words(title), "-")
  }

  /** A character a slug is made of: a lowercase ASCII letter, a digit or a dash. */
  predicate IsSlugChar(c: char) {
    ('a' <= c <= 'z') || ('0' <= c <= '9') || c == '-'
  }

  /** Only slug characters, no dash at either end and no two dashes in a row. */
  predicate IsSlug(s: String) {
    && (forall i :: 0 <= i < |s| ==> IsSlugChar(s[i]))
    && (s == [] || (s[0] != '-' && s[|s| - 1] != '-'))
    && (forall i :: 0 <= i < |s| - 1 ==> !(s[i] == '-' && s[i + 1] == '-'))
  }

  /** A non-empty run of lowercase letters and digits. */
  predicate IsWord(w: String) {
    w != [] && forall i :: 0 <= i < |w| ==> IsSlugChar(w[i]) && w[i] != '-'
  }

  /** `Run(s)` is the dashed text of `s` up to its first non-alphanumeric character. */
  lemma {:induction false} RunIsPrefix(s: String)
    ensures Run(s) == Dashed(s)[..|Run(s)|]
    ensures forall i :: 0 <= i < |Run(s)| ==> IsAlphanumeric(s[i])
    ensures |Run(s)| < |s| ==> !IsAlphanumeric(s[|Run(s)|])
    decreases |s|
  {
    if s != [] && IsAlphanumeric(s[0]) {
      var d, d' := Dashed(s), Dashed(s[1..]);
      RunIsPrefix(s[1..]);
      var r' := Run(s[1..]);
      assert Run(s) == [LowerChar(s[0])] + r';
      assert d[0] == LowerChar(s[0]);
      assert d[1..] == d';
      assert d[..1 + |r'|] == [d[0]] + d'[..|r'|];
      forall i | 1 <= i < 1 + |r'| ensures IsAlphanumeric(s[i]) {
        assert s[i] == s[1..][i - 1];
      }
    }
  }

  /** Lowercasing a run of letters and digits followed by a non-alphanumeric character (or by nothing). */
  lemma {:induction false} RunOfAlphanumerics(u: String, rest: String)
    requires forall i :: 0 <= i < |u| ==> IsAlphanumeric(u[i])
    requires rest == [] || !IsAlphanumeric(rest[0])
    ensures Run(u + rest) == ToLower(u)
    decreases |u|
  {
    if u != [] {
      assert (u + rest)[1..] == u[1..] + rest;
      RunOfAlphanumerics(u[1..], rest);
      assert ToLower(u) == [LowerChar(u[0])] + ToLower(u[1..]);
    } else {
      assert u + rest == rest;
    }
  }

  lemma {:induction false} RunIsWord(s: String)
    requires s != [] && IsAlphanumeric(s[0])
    ensures IsWord(Run(s))
    decreases |s|
  {
    var w := Run(s);
    if |s| > 1 && IsAlphanumeric(s[1]) {
      RunIsWord(s[1..]);
      forall i | 0 <= i < |w| ensures IsSlugChar(w[i]) && w[i] != '-' {
        if i > 0 {
          assert w[i] == Run(s[1..])[i - 1];
        }
      }
    }
  }

  lemma {:induction false} WordsAreWords(s: String)
    ensures forall i :: 0 <= i < |Words(s)| ==> IsWord(Words(s)[i])
    decreases |s|
  {
    if s != [] {
      if !IsAlphanumeric(s[0]) {
        WordsAreWords(s[1..]);
      } else {
        RunIsWord(s);
        WordsAreWords(s[|Run(s)|..]);
      }
    }
  }

  /** The pieces of the dashed title that are not empty are exactly its words. */
  lemma {:induction false} PiecesAreWords(s: String)
    ensures NonEmptyPieces(Split(Dashed(s), '-')) == Words(s)
    decreases |s|
  {
    var m := Dashed(s);
    if s == [] {
      assert Split(m, '-') == [[]];
    } else if !IsAlphanumeric(s[0]) {
      assert MatchAt(m, "-", 0) by { assert m[0..1] == [m[0]]; }
      assert m[1..] == Dashed(s[1..]);
      var rest := Split(m[1..], '-');
      assert Split(m, '-') == [[]] + rest;
      assert ([[]] + rest)[1..] == rest;
      PiecesAreWords(s[1..]);
    } else {
      RunIsPrefix(s);
      RunIsWord(s);
      var w := Run(s);
      var k := |w|;
      forall j | 0 <= j < k ensures !MatchAt(m, "-", j) {
        assert m[j] == w[j];
      }
      if k == |s| {
        assert m == w;
        assert !MatchAt(m, "-", k);
        assert Find(m, "-") == None;
        assert s[k..] == [];
      } else {
        assert MatchAt(m, "-", k) by { assert m[k..k + 1] == [m[k]]; }
        assert Find(m, "-") == Some(k);
        assert m[k + 1..] == Dashed(s[k + 1..]);
        var rest := Split(m[k + 1..], '-');
        assert Split(m, '-') == [w] + rest;
        assert ([w] + rest)[1..] == rest;
        PiecesAreWords(s[k + 1..]);
        assert s[k..][1..] == s[k + 1..];
      }
    }
  }

  /** The word-by-word definition and the chain of passes agree on every title. */
  lemma SlugifyIsPipeline(title: String)
    ensures Slugify(title) == SlugPipeline(title)
  {
    PiecesAreWords(title);
  }

  lemma {:induction false} JoinWordsIsSlug(ws: seq<String>)
    requires forall i :: 0 <= i < |ws| ==> IsWord(ws[i])
    ensures IsSlug(Join(ws, "-"))
    decreases |ws|
  {
    if |ws| > 1 {
      JoinWordsIsSlug(ws[1..]);
      var rest := Join(ws[1..], "-");
      var r := ws[0] + "-" + rest;
      assert Join(ws, "-") == r;
      assert rest != [] && rest[0] != '-' by {
        assert ws[1..][0] == ws[1];
        if |ws[1..]| > 1 {
          assert rest == ws[1] + "-" + Join(ws[2..], "-") by { assert ws[1..][1..] == ws[2..]; }
        }
      }
      forall i | 0 <= i < |r| - 1 ensures !(r[i] == '-' && r[i + 1] == '-') {
        if i >= |ws[0]| + 1 {
          assert r[i] == rest[i - |ws[0]| - 1];
        }
      }
    }
  }

  /** What `Slugify` returns is a slug. */
  lemma SlugifyIsSlug(title: String)
    ensures IsSlug(Slugify(title))
  {
    WordsAreWords(title);
    JoinWordsIsSlug(Words(title));
  }

  /** The letters and digits of a slug are already lowercase, so dashing it changes nothing. */
  lemma DashedSlug(s: String)
    requires IsSlug(s)
    ensures Dashed(s) == s
  {
  }

  lemma JoinCons(w: String, ws: seq<String>)
    requires ws != []
    ensures Join([w] + ws, "-") == w + "-" + Join(ws, "-")
  {
    assert ([w] + ws)[1..] == ws;
  }

  /** A non-empty slug starts with its first word, ended by a dash or by the end of the slug. */
  lemma SlugFirstWord(s: String)
    requires IsSlug(s) && s != []
    ensures 0 < |Run(s)| <= |s| && Run(s) == s[..|Run(s)|]
    ensures |Run(s)| < |s| ==> s[|Run(s)|] == '-'
  {
    DashedSlug(s);
    RunIsPrefix(s);
    assert IsAlphanumeric(s[0]);
  }

  /** What follows a dash of a slug is a slug. */
  lemma SlugAfterDash(s: String, k: nat)
    requires IsSlug(s) && k < |s| && s[k] == '-'
    ensures k + 1 < |s| && IsSlug(s[k + 1..])
  {
    var tail := s[k + 1..];
    forall i | 0 <= i < |tail| - 1 ensures !(tail[i] == '-' && tail[i + 1] == '-') {
      assert tail[i] == s[k + 1 + i] && tail[i + 1] == s[k + 2 + i];
    }
  }

  /** The words of a text whose first word is ended by a dash: that word, then the words after the dash. */
  lemma WordsAfterDash(s: String, k: nat)
    requires s != [] && IsAlphanumeric(s[0]) && k == |Run(s)| < |s| && s[k] == '-'
    ensures Words(s) == [Run(s)] + Words(s[k + 1..])
  {
    assert s[k..][1..] == s[k + 1..];
  }

  /** A slug slugifies to itself. */
  lemma {:induction false} SlugFixpoint(s: String)
    requires IsSlug(s)
    ensures Slugify(s) == s
    decreases |s|
  {
    if s != [] {
      SlugFirstWord(s);
      var w := Run(s);
      var k := |w|;
      if k < |s| {
        SlugAfterDash(s, k);
        var tail := s[k + 1..];
        SlugFixpoint(tail);
        assert Words(s) == [w] + Words(tail) by {
          WordsAfterDash(s, k);
        }
        JoinCons(w, Words(tail));
        assert s == w + "-" + tail by {
          assert s == s[..k] + "-" + tail;
        }
      } else {
        assert w == s;
        assert Words(s) == [w] by {
          assert s[k..] == [];
        }
      }
    }
  }

  /** `slugify` is idempotent. */
  lemma SlugifyIdempotent(title: String)
    ensures Slugify(Slugify(title)) == Slugify(title)
  {
    SlugifyIsSlug(title);
    SlugFixpoint(Slugify(title));
  }

  /** A title without letters or digits (the empty title included) slugifies to the empty string. */
  lemma {:induction false} SlugifyWithoutAlphanumerics(title: String)
    requires forall i :: 0 <= i < |title| ==> !IsAlphanumeric(title[i])
    ensures Slugify(title) == []
    decreases |title|
  {
    if title != [] {
      SlugifyWithoutAlphanumerics(title[1..]);
    }
  }

  /** A title that has a letter or a digit does not slugify to the empty string. */
  lemma {:induction false} SlugifyWithAlphanumeric(title: String, k: nat)
    requires k < |title| && IsAlphanumeric(title[k])
    ensures Slugify(title) != []
    decreases |title|
  {
    if !IsAlphanumeric(title[0]) {
      SlugifyWithAlphanumeric(title[1..], k - 1);
    } else {
      RunIsWord(title);
    }
  }

  /** A word followed by a non-alphanumeric character: the word lowercased, then the words of the rest. */
  lemma WordsOfWordThenSeparator(u: String, c: char, rest: String)
    requires u != [] && forall i :: 0 <= i < |u| ==> IsAlphanumeric(u[i])
    requires !IsAlphanumeric(c)
    ensures Words(u + [c] + rest) == [ToLower(u)] + Words(rest)
  {
    var s := u + [c] + rest;
    assert s == u + ([c] + rest);
    RunOfAlphanumerics(u, [c] + rest);
    assert s[|u|..] == [c] + rest;
    assert ([c] + rest)[1..] == rest;
  }

  /** A text that is one word. */
  lemma WordsOfWord(u: String)
    requires u != [] && forall i :: 0 <= i < |u| ==> IsAlphanumeric(u[i])
    ensures Words(u) == [ToLower(u)]
  {
    assert u + [] == u;
    RunOfAlphanumerics(u, []);
    assert u[|u|..] == [];
  }

  /** Two words with one separator between them: the words lowercased, joined by one dash. */
  lemma SlugifyTwoWords(u: String, c: char, v: String)
    requires u != [] && forall i :: 0 <= i < |u| ==> IsAlphanumeric(u[i])
    requires v != [] && forall i :: 0 <= i < |v| ==> IsAlphanumeric(v[i])
    requires !IsAlphanumeric(c)
    ensures Slugify(u + [c] + v) == ToLower(u) + "-" + ToLower(v)
  {
    WordsOfWordThenSeparator(u, c, v);
    WordsOfWord(v);
    JoinCons(ToLower(u), [ToLower(v)]);
  }

  /** The first example the source's tests check. */
  lemma SlugifyHelloWorld(t: String)
    requires t == "Hello World"
    ensures Slugify(t) == "hello-world"
  {
    SlugifyTwoWords("Hello", ' ', "World");
    assert t == "Hello" + [' '] + "World";
    assert ToLower("Hello") == "hello";
    assert ToLower("World") == "world";
  }

  lemma WordsOfParenthesised(r: String)
    requires r == "(EP)"
    ensures Words(r) == ["ep"]
  {
    assert r[1..] == "EP" + [')'] + "";
    WordsOfWordThenSeparator("EP", ')', "");
    assert ToLower("EP") == "ep";
  }

  /** A word, a separator and a text with a word in it: the word lowercased, a dash, then the slug of the text. */
  lemma SlugifyCons(u: String, c: char, rest: String)
    requires u != [] && forall i :: 0 <= i < |u| ==> IsAlphanumeric(u[i])
    requires !IsAlphanumeric(c)
    requires Words(rest) != []
    ensures Slugify(u + [c] + rest) == ToLower(u) + "-" + Slugify(rest)
  {
    WordsOfWordThenSeparator(u, c, rest);
    JoinCons(ToLower(u), Words(rest));
  }

  lemma SlugifyAssessmentEP(x: String)
    requires x == "Assessment (EP)"
    ensures Words(x) != [] && Slugify(x) == "assessment-ep"
  {
    var a: String :| a == "Assessment";
    var r: String :| r == "(EP)";
    assert x == a + [' '] + r;
    WordsOfParenthesised(r);
    SlugifyCons(a, ' ', r);
    LowerAssessment(a);
    DashJoin(ToLower(a), Slugify(r), "assessment", "ep", "assessment-ep");
  }

  lemma LowerAssessment(a: String)
    requires a == "Assessment"
    ensures ToLower(a) == "assessment"
  {
  }

  lemma LowerSelf(u: String)
    requires u == "Self"
    ensures ToLower(u) == "self"
  {
  }

  /** Two literal words joined by a dash. */
  lemma DashJoin(a: String, b: String, la: String, lb: String, r: String)
    requires a == la && b == lb && r == la + "-" + lb
    ensures a + "-" + b == r
  {
  }

  /** `"Self-"` in front of a text whose slug is `"assessment-ep"`. */
  lemma SlugifySelfPrefix(u: String, x: String)
    requires u == "Self" && Words(x) != [] && Slugify(x) == "assessment-ep"
    ensures Slugify(u + ['-'] + x) == "self-assessment-ep"
  {
    SlugifyCons(u, '-', x);
    LowerSelf(u);
    DashJoin(ToLower(u), Slugify(x), "self", "assessment-ep", "self-assessment-ep");
  }

  /** The second example: a dash, a space and parentheses all become single separators. */
  lemma SlugifySelfAssessment(u: String, x: String)
    requires u == "Self" && x == "Assessment (EP)"
    ensures Slugify(u + ['-'] + x) == "self-assessment-ep"
  {
    SlugifyAssessmentEP(x);
    SlugifySelfPrefix(u, x);
  }
}
