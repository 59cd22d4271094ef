/**
 * `get_links`, as both poem-list scrapers have it: for each of the sections
 * "ghazals" and "nazms", request the poet's listing page and keep the links of its
 * content section that point into the site, stripped, in document order.
 */
module Links {
  import opened Optional
  import opened Http
  import opened PyText

  /** An `<a>` element of the content section: its `href` attribute, when it has one. */
  datatype Link = Link(href: Option<string>)

  /** A listing page: the `<a>` elements of its content section in document order, when the page has that section. */
  datatype ListPage = ListPage(content: Option<seq<Link>>)

  /** The site: what the request for a URL ends in. */
  type ListServer = string -> Outcome<ListPage>

  /** The sections whose listings are read, in order. */
  const Sections: seq<string> := ["ghazals", "nazms"]

  /** `f"{poet_url}/{section}"`. */
  function ListUrl(poetUrl: string, section: string): string {
    poetUrl + "/" + section
  }

  /** The filter: a present, non-empty `href` that has no "//" once every "https://" is removed. */
  predicate Kept(l: Link) {
    l.href.Some? && l.href.value != [] && !Contains(RemoveAll(l.href.value, "https://"), "//")
  }

  /** Any non-empty `href` without "//" is kept. */
  lemma KeptWithoutSlashes(h: string)
    requires h != [] && !Contains(h, "//")
    ensures Kept(Link(Some(h)))
  {
    if Contains(h, "https://") {
      HttpsContainsSlashes(h);
    }
  }

  /** An absolute link, "https://" followed by a remainder without "//", is kept. */
  lemma KeptAbsolute(rest: string)
    requires !Contains(rest, "//")
    ensures Kept(Link(Some("https://" + rest)))
  {
    var h := "https://" + rest;
    assert StartsWith(h, "https://") && h[8..] == rest;
    if Contains(rest, "https://") {
      HttpsContainsSlashes(rest);
    }
    assert RemoveAll(h, "https://") == rest;
  }

  /** A link with no or an empty `href`, or one leaving the site ("//host/..."), is dropped. */
  lemma DroppedLinks(h: string)
    requires StartsWith(h, "//")
    ensures !Kept(Link(None)) && !Kept(Link(Some([])))
    ensures !Kept(Link(Some(h)))
  {
    assert h[0] == h[..2][0] == '/' && h[1] == h[..2][1] == '/';
    RemoveAllHead(h, "https://");
    RemoveAllHead(h[1..], "https://");
    var r := RemoveAll(h, "https://");
    assert r[..2] == "//";
  }
  /** A first character that cannot start `p` survives `RemoveAll`. */
  lemma RemoveAllHead(s: string, p: string)
    requires p != [] && s != [] && s[0] != p[0]
    ensures var r := RemoveAll(s, p);
      r != [] && r[0] == s[0] && r[1..] == RemoveAll(s[1..], p)
  {
    if |s| >= |p| {
      assert !StartsWith(s, p) by {
        assert s[..|p|][0] == s[0];
      }
    }
  }

  /** The stripped `href` of every kept link, in document order. */
  function KeptHrefs(links: seq<Link>): seq<string> {
    if links == [] then []
    else
      var last := links[|links| - 1];
      KeptHrefs(links[..|links| - 1]) + (if Kept(last) then [Strip(last.href.value)] else [])
  }

  /**
   * At most one `href` per link; every one comes from a kept link, and every kept link
   * gives its stripped `href`.
   */
  lemma {:induction false} KeptHrefsSpec(links: seq<Link>)
    ensures |KeptHrefs(links)| <= |links|
    ensures forall h :: h in KeptHrefs(links) ==>
      exists i :: 0 <= i < |links| && Kept(links[i]) && h == Strip(links[i].href.value)
    ensures forall i :: 0 <= i < |links| && Kept(links[i]) ==> Strip(links[i].href.value) in KeptHrefs(links)
  {
    if links != [] {
      var init, last := links[..|links| - 1], links[|links| - 1];
      KeptHrefsSpec(init);
      assert forall i :: 0 <= i < |init| ==> links[i] == init[i];
    }
  }

  /** Order is kept: the links of a concatenation give the `href`s of the first part, then those of the second. */
  lemma {:induction false} KeptHrefsAppend(a: seq<Link>, b: seq<Link>)
    ensures KeptHrefs(a + b) == KeptHrefs(a) + KeptHrefs(b)
    decreases |b|
  {
    if b == [] {
      assert a + b == a;
    } else {
      var init, last := b[..|b| - 1], b[|b| - 1];
      KeptHrefsAppend(a, init);
      assert (a + b)[..|a + b| - 1] == a + init;
      assert (a + b)[|a + b| - 1] == last;
    }
  }

  /** The loop over the links of one section, appending each kept `href`, stripped. */
  method FilterLinks(links: seq<Link>) returns (hrefs: seq<string>)
    ensures hrefs == KeptHrefs(links)
  {
    hrefs := [];
    for i := 0 to |links|
      invariant hrefs == KeptHrefs(links[..i])
    {
      assert links[..i + 1][..i] == links[..i];
      var link := links[i];
      if link.href.Some? && link.href.value != [] && !Contains(RemoveAll(link.href.value, "https://"), "//") {
        hrefs := hrefs + [Strip(link.href.value)];
      }
    }
    assert links[..|links|] == links;
  }

  /** One section's listing: `[]` without a content section; `None` where the request raises. Its status is not looked at. */
  function SectionLinks(server: ListServer, poetUrl: string, section: string): Option<seq<string>> {
    var o := server(ListUrl(poetUrl, section));
    if !o.Responded? then None
    else if o.page.content.None? then Some([])
    else Some(KeptHrefs(o.page.content.value))
  }

  /** `details`: section -> kept links. */
  type Details = map<string, seq<string>>

  /** `details` before the loop over the sections: both sections, empty. */
  function Empty(): (d: Details)
    ensures d.Keys == {"ghazals", "nazms"}
    ensures forall s :: s in d ==> d[s] == []
  {
    map["ghazals" := [], "nazms" := []]
  }

  /** The loop over `secs`, appending each section's kept links to `details`; `None` where a request raises. */
  function ReadSections(server: ListServer, poetUrl: string, secs: seq<string>, details: Details): Option<Details>
    requires forall s :: s in secs ==> s in details
  {
    if secs == [] then Some(details)
    else
      match SectionLinks(server, poetUrl, secs[0])
      case None => None
      case Some(hrefs) => ReadSections(server, poetUrl, secs[1..], details[secs[0] := details[secs[0]] + hrefs])
  }

  /** `get_links`. */
  function GetLinks(server: ListServer, poetUrl: string): Option<Details> {
    ReadSections(server, poetUrl, Sections, Empty())
  }

  /**
   * `get_links` raises exactly when one of its two requests does; otherwise `details`
   * has exactly the keys ghazals and nazms, each the section's kept links, `[]` where
   * the page lacks the content section.
   */
  lemma GetLinksSpec(server: ListServer, poetUrl: string)
    ensures var r := GetLinks(server, poetUrl);
      && (r.None? <==> exists s :: s in Sections && !server(ListUrl(poetUrl, s)).Responded?)
      && (r.Some? ==> r.value.Keys == {"ghazals", "nazms"})
      && (r.Some? ==> forall s :: s in Sections ==> Some(r.value[s]) == SectionLinks(server, poetUrl, s))
      && (r.Some? ==> forall s :: s in Sections && server(ListUrl(poetUrl, s)).page.content.None? ==> r.value[s] == [])
  {
    assert forall s :: s in Sections <==> s == "ghazals" || s == "nazms";
    assert Sections[0] == "ghazals" && Sections[1..] == ["nazms"] && ["nazms"][1..] == [];
    var g, n := SectionLinks(server, poetUrl, "ghazals"), SectionLinks(server, poetUrl, "nazms");
    if g.Some? {
      var d1 := Empty()["ghazals" := [] + g.value];
      assert GetLinks(server, poetUrl) == ReadSections(server, poetUrl, ["nazms"], d1);
      if n.Some? {
        var d2 := d1["nazms" := [] + n.value];
        assert GetLinks(server, poetUrl) == Some(d2);
        assert [] + g.value == g.value && [] + n.value == n.value;
      }
    }
  }

  /** `get_links` by the source's steps: the loop over the sections, filtering each one's links. */
  method FetchLinks(server: ListServer, poetUrl: string) returns (details: Option<Details>)
    ensures details == GetLinks(server, poetUrl)
  {
    var d := Empty();
    for k := 0 to |Sections|
      invariant d.Keys == {"ghazals", "nazms"}
      invariant GetLinks(server, poetUrl) == ReadSections(server, poetUrl, Sections[k..], d)
    {
      var section := Sections[k];
      assert Sections[k..][0] == section && Sections[k..][1..] == Sections[k + 1..];
      var o := server(ListUrl(poetUrl, section));
      if !o.Responded? {
        return None;
      }
      var hrefs: seq<string> := [];
      if o.page.content.Some? {
        hrefs := FilterLinks(o.page.content.value);
      }
      d := d[section := d[section] + hrefs];
    }
    details := Some(d);
  }

  /** The dump both list scrapers produce: poet URL -> `details`. */
  type PoemsList = map<string, Details>

  /** `get_links` for a poet URL: its `details`, or `None` where it raises. */
  type LinksGetter = string -> Option<Details>

  /** `get_links` on the site `server`. */
  function Get(server: ListServer): LinksGetter {
    poetUrl => GetLinks(server, poetUrl)
  }
}
