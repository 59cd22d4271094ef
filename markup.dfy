/**
 * The part of a poem page the scrapers read, and `scrape_lines`, which turns
 * one poem container into text. HTML parsing is abstracted: a container is
 * given as its `w` sections, each the texts of that section's `<p>` lines,
 * with the translation (`t`) divs already removed.
 */
module Markup {
  import opened Optional
  import opened PyText

  /** A `pMC` container: its `w` sections, each as the texts of its `<p>` elements, in document order. */
  datatype Container = Container(sections: seq<seq<string>>)

  /** The `pMC` containers of one scope marked data-roman="on" and data-roman="off", when present. */
  datatype RomanPair = RomanPair(on: Option<Container>, off: Option<Container>)

  /** A ghazal or nazm page: the `mainPageWrap NewPoem` panel, when the page has one. */
  datatype Page = Page(panel: Option<RomanPair>)

  /**
   * A poet's couplets page: when the page has the sher container, its `sherSection`
   * divs in document order, each with the containers it holds.
   */
  datatype SherPage = SherPage(shers: Option<seq<RomanPair>>)

  /**
   * The container a scraper reads for language `lang`: any language other than
   * "en" prefers the romanized container and falls back to the other one; for "en"
   * the flag alone decides, with no fallback.
   */
  function Select(scope: RomanPair, lang: string, romanized: bool): (r: Option<Container>)
    ensures r.Some? ==> r == scope.on || r == scope.off
    ensures lang != "en" ==> (r.None? <==> scope.on.None? && scope.off.None?)
    ensures lang != "en" && scope.on.Some? ==> r == scope.on
    ensures lang == "en" && romanized ==> r == scope.on
    ensures lang == "en" && !romanized ==> r == scope.off
  {
    if lang != "en" then
      if scope.on.Some? then scope.on else scope.off
    else if romanized then scope.on
    else scope.off
  }

  /** The list `scrape_lines` builds: each section's lines followed by one empty line. */
  function SectionLines(secs: seq<seq<string>>): (lines: seq<string>)
    ensures lines == [] <==> secs == []
    ensures lines != [] ==> lines[|lines| - 1] == ""
  {
    if secs == [] then [] else SectionLines(secs[..|secs| - 1]) + secs[|secs| - 1] + [""]
  }

  /** The loop of `scrape_lines` that collects the lines of every section. */
  method CollectLines(c: Container) returns (lines: seq<string>)
    ensures lines == SectionLines(c.sections)
  {
    lines := [];
    for i := 0 to |c.sections|
      invariant lines == SectionLines(c.sections[..i])
    {
      var section := c.sections[i];
      for j := 0 to |section|
        invariant lines == SectionLines(c.sections[..i]) + section[..j]
      {
        lines := lines + [section[j]];
      }
      lines := lines + [""];
      assert c.sections[..i + 1][..i] == c.sections[..i];
    }
    assert c.sections[..|c.sections|] == c.sections;
  }

  /** The text `scrape_lines` returns: the joined lines, `.strip()` and then `.strip("\n")`. */
  function PoemText(c: Container): (poem: string)
    ensures Trimmed(poem, Whitespace)
    ensures c.sections == [] ==> poem == ""
  {
    var stripped := Strip(JoinLines(SectionLines(c.sections)));
    StripTrimmed(stripped, {'\n'});
    StripChars(stripped, {'\n'})
  }

  /** `scrape_lines` as written in every script but scrape_shers_async.py. */
  method ScrapeLines(c: Container) returns (poem: string)
    ensures poem == PoemText(c)
  {
    var lines := CollectLines(c);
    poem := JoinLines(lines);
    poem := Strip(poem);
    poem := StripChars(poem, {'\n'});
  }

  /** The text scrape_shers_async.py's `scrape_lines` returns: the joined lines with only newlines stripped. */
  function SherText(c: Container): (sher: string)
    ensures Trimmed(sher, {'\n'})
  {
    StripChars(JoinLines(SectionLines(c.sections)), {'\n'})
  }

  /** The texts `scrape` gives for each container in turn. */
  function Texts(scrape: Container -> string, cs: seq<Container>): (r: seq<string>)
    ensures |r| == |cs|
  {
    seq(|cs|, i requires 0 <= i < |cs| => scrape(cs[i]))
  }

  /** One container more gives its text at the end. */
  lemma TextsAppend(scrape: Container -> string, cs: seq<Container>, c: Container)
    ensures Texts(scrape, cs + [c]) == Texts(scrape, cs) + [scrape(c)]
  {
    assert forall i :: 0 <= i < |cs| ==> (cs + [c])[i] == cs[i];
  }

  /** `scrape_lines` as written in scrape_shers_async.py. */
  method ScrapeLinesKeepSpaces(c: Container) returns (sher: string)
    ensures sher == SherText(c)
  {
    var lines := CollectLines(c);
    sher := StripChars(JoinLines(lines), {'\n'});
  }

  /** The sections' own joined lines, one blank line between consecutive sections. */
  function Stanzas(secs: seq<seq<string>>): string
    requires secs != []
  {
    if |secs| == 1 then JoinLines(secs[0])
    else Stanzas(secs[..|secs| - 1]) + "\n\n" + JoinLines(secs[|secs| - 1])
  }

  /** When no section is empty, the joined lines are the sections separated by a blank line, plus one newline. */
  lemma {:induction false} JoinedSections(secs: seq<seq<string>>)
    requires secs != []
    requires forall i :: 0 <= i < |secs| ==> secs[i] != []
    ensures JoinLines(SectionLines(secs)) == Stanzas(secs) + "\n"
  {
    var init, last := secs[..|secs| - 1], secs[|secs| - 1];
    JoinAppend(last, [""]);
    if |secs| == 1 {
      assert SectionLines(secs) == last + [""] by {
        assert init == [];
      }
    } else {
      JoinedSections(init);
      assert SectionLines(secs) == SectionLines(init) + (last + [""]);
      JoinAppend(SectionLines(init), last + [""]);
    }
  }

  /** `scrape_lines` separates sections by one blank line and trims the ends of the whole poem. */
  lemma PoemIsTrimmedStanzas(c: Container)
    requires c.sections != []
    requires forall i :: 0 <= i < |c.sections| ==> c.sections[i] != []
    ensures PoemText(c) == Strip(Stanzas(c.sections))
  {
    JoinedSections(c.sections);
    StripDropsTrailing(Stanzas(c.sections), '\n', Whitespace);
    assert Stanzas(c.sections) + "\n" == Stanzas(c.sections) + ['\n'];
    StripTrimmed(Strip(JoinLines(SectionLines(c.sections))), {'\n'});
  }

  /**
   * The two variants of `scrape_lines` differ on spaces at the ends: one section
   * holding the single line " a " gives "a" in one and " a " in the other.
   */
  lemma SherTextKeepsSpaces()
    ensures PoemText(Container([[" a "]])) == "a"
    ensures SherText(Container([[" a "]])) == " a "
  {
    var c := Container([[" a "]]);
    var joined := " a \n";
    assert JoinLines(SectionLines(c.sections)) == joined by {
      assert c.sections[..0] == [];
      assert SectionLines(c.sections) == [" a ", ""];
    }
    StripOfExample(joined);
    StripTrimmed("a", {'\n'});
  }

  lemma StripOfExample(joined: string)
    requires joined == " a \n"
    ensures Strip(joined) == "a"
    ensures StripChars(joined, {'\n'}) == " a "
  {
    assert ' ' in Whitespace && '\n' in Whitespace && 'a' !in Whitespace;
    assert LStrip(joined, Whitespace) == "a \n" by {
      assert joined[1..] == "a \n";
    }
    assert RStrip("a \n", Whitespace) == "a" by {
      assert "a \n"[..2] == "a ";
      assert "a "[..1] == "a";
    }
    assert LStrip(joined, {'\n'}) == joined;
    assert RStrip(joined, {'\n'}) == " a " by {
      assert joined[..3] == " a ";
    }
  }

  /**
   * The text `get_ghazal` and `get_nazm` extract from a page; `None` when the
   * page lacks the panel or the selected container, where the source raises
   * `AttributeError` by calling a method on `None`.
   */
  function ExtractPoem(page: Page, lang: string, romanized: bool): Option<string> {
    if page.panel.None? then None
    else
      var div := Select(page.panel.value, lang, romanized);
      if div.None? then None else Some(PoemText(div.value))
  }

  /** `ExtractPoem` by the source's steps, calling `scrape_lines`. */
  method ExtractPoemText(page: Page, lang: string, romanized: bool) returns (r: Option<string>)
    ensures r == ExtractPoem(page, lang, romanized)
  {
    if page.panel.None? {
      return None;
    }
    var div := Select(page.panel.value, lang, romanized);
    if div.None? {
      return None;
    }
    var poem := ScrapeLines(div.value);
    return Some(poem);
  }
}
