/**
 * scripts/scrape_shers.py: the synchronous sher scraper. It does not resume: the
 * dump starts empty, each poet's entry is set afresh and the file is rewritten after
 * every poet. Its `get_shers` raises when a sher section lacks the selected container.
 */
module ScrapeShers {
  import opened Optional
  import opened Http
  import opened Markup
  import opened Checkpoint
  import opened Couplets

  /**
   * The loop of `get_shers` over the sher sections: one sher per section, in order;
   * `None` when a section lacks the selected container and a method is called on `None`.
   */
  function SectionShers(secs: seq<RomanPair>, lang: string, romanized: bool): Option<seq<string>> {
    match Targets(secs, lang, romanized)
    case None => None
    case Some(cs) => Some(Texts(PoemText, cs))
  }

  /**
   * The sections yield a list exactly when every one of them has the selected
   * container; then it has one sher per section, the `i`-th read from the `i`-th section.
   */
  lemma SectionShersSpec(secs: seq<RomanPair>, lang: string, romanized: bool)
    ensures var r := SectionShers(secs, lang, romanized);
      && (r.Some? <==> forall i :: 0 <= i < |secs| ==> Select(secs[i], lang, romanized).Some?)
      && (r.Some? ==> |r.value| == |secs|)
      && (r.Some? ==> forall i :: 0 <= i < |secs| ==> r.value[i] == PoemText(Select(secs[i], lang, romanized).value))
  {
    TargetsSpec(secs, lang, romanized);
  }

  /** `get_shers`: `[]` when the page has no sher container, `None` when the request or a section raises. */
  function GetShers(server: SherServer, href: string, lang: string): Option<seq<string>> {
    var o := server(CoupletsUrl(href), lang);
    if !o.Responded? then None
    else if o.page.shers.None? then Some([])
    else SectionShers(o.page.shers.value, lang, Romanized(lang))
  }

  /** `acc` put before what the rest of the sections yield. */
  function Prefixed(acc: seq<Container>, r: Option<seq<Container>>): Option<seq<Container>> {
    if r.None? then None else Some(acc + r.value)
  }

  /** One section further: its container, if any, is the next target. */
  lemma TargetsStep(secs: seq<RomanPair>, i: int, lang: string, romanized: bool)
    requires 0 <= i < |secs|
    ensures var rest := Targets(secs[i + 1..], lang, romanized);
      Targets(secs[i..], lang, romanized) ==
        match Select(secs[i], lang, romanized)
        case None => None
        case Some(c) => Prefixed([c], rest)
  {
    assert secs[i..][0] == secs[i] && secs[i..][1..] == secs[i + 1..];
  }

  lemma PrefixedStep(acc: seq<Container>, c: Container, r: Option<seq<Container>>)
    ensures Prefixed(acc, Prefixed([c], r)) == Prefixed(acc + [c], r)
  {
    if r.Some? {
      assert acc + ([c] + r.value) == acc + [c] + r.value;
    }
  }

  /** `get_shers` by the source's steps: the loop over the sher sections, calling `scrape_lines`. */
  method FetchShers(server: SherServer, href: string, lang: string) returns (r: Option<seq<string>>)
    ensures r == GetShers(server, href, lang)
  {
    var o := server(CoupletsUrl(href), lang);
    if !o.Responded? {
      return None;
    }
    if o.page.shers.None? {
      return Some([]);
    }
    var secs := o.page.shers.value;
    var romanized := Romanized(lang);
    var shers: seq<string> := [];
    ghost var divs: seq<Container> := [];
    assert secs[0..] == secs;
    assert Prefixed([], Targets(secs, lang, romanized)) == Targets(secs, lang, romanized) by {
      var t := Targets(secs, lang, romanized);
      if t.Some? {
        assert [] + t.value == t.value;
      }
    }
    for i := 0 to |secs|
      invariant Targets(secs, lang, romanized) == Prefixed(divs, Targets(secs[i..], lang, romanized))
      invariant shers == Texts(PoemText, divs)
    {
      var div := Select(secs[i], lang, romanized);
      TargetsStep(secs, i, lang, romanized);
      if div.None? {
        return None;
      }
      var sher := ScrapeLines(div.value);
      PrefixedStep(divs, div.value, Targets(secs[i + 1..], lang, romanized));
      TextsAppend(PoemText, divs, div.value);
      shers := shers + [sher];
      divs := divs + [div.value];
    }
    assert divs + [] == divs;
    r := Some(shers);
  }

  /** `GetShers` on the site `server`. */
  function Get(server: SherServer): ShersGetter {
    (href, lang) => GetShers(server, href, lang)
  }

  /** One pass of the loop over the poets: fetch and zip, set the entry, rewrite the file. */
  function PoetStep(st: SherState, href: string, get: ShersGetter): SherRan {
    var r := PoetUpdate(st, href, get);
    if r.ok then SherRan(r.st.(writes := r.st.writes + 1), true) else r
  }

  /** The loop over the poets, from some point on; an exception ends the script. */
  function ShersRun(st: SherState, hrefs: seq<string>, get: ShersGetter): SherRan
    decreases |hrefs|
  {
    if hrefs == [] then SherRan(st, true)
    else
      var r := PoetStep(st, hrefs[0], get);
      if !r.ok then r else ShersRun(r.st, hrefs[1..], get)
  }

  /**
   * The loop keeps every entry and adds entries for listed poets only; an entry it
   * touches holds that poet's records. It rewrites the file at most once per poet;
   * when it goes through, exactly once per poet, and every listed poet maps to its records.
   */
  lemma {:induction false} ShersRunSpec(st: SherState, hrefs: seq<string>, get: ShersGetter)
    ensures var run := ShersRun(st, hrefs, get);
      var r := run.st;
      && (forall h :: h in st.dump ==> h in r.dump)
      && (forall h :: h in r.dump && h !in hrefs ==> h in st.dump && r.dump[h] == st.dump[h])
      && (forall h :: h in r.dump && h in hrefs ==>
            (h in st.dump && r.dump[h] == st.dump[h]) || PoetRecords(get, h) == Some(r.dump[h]))
      && st.writes <= r.writes <= st.writes + |hrefs|
      && (run.ok ==> r.writes == st.writes + |hrefs|)
      && (run.ok ==> forall h :: h in hrefs ==> h in r.dump && PoetRecords(get, h) == Some(r.dump[h]))
    decreases |hrefs|
  {
    if hrefs != [] {
      var step := PoetStep(st, hrefs[0], get);
      PoetUpdateSpec(st, hrefs[0], get);
      if step.ok {
        var run := ShersRun(step.st, hrefs[1..], get);
        assert ShersRun(st, hrefs, get) == run;
        ShersRunSpec(step.st, hrefs[1..], get);
        var r := run.st;
        assert forall h :: h in hrefs <==> h == hrefs[0] || h in hrefs[1..];
        forall h | h in r.dump && h !in hrefs
          ensures h in st.dump && r.dump[h] == st.dump[h]
        {
          assert h != hrefs[0] && h !in hrefs[1..];
        }
        forall h | h in r.dump && h in hrefs
          ensures (h in st.dump && r.dump[h] == st.dump[h]) || PoetRecords(get, h) == Some(r.dump[h])
        {
          if h !in hrefs[1..] {
            assert h == hrefs[0];
          }
        }
        if run.ok {
          forall h | h in hrefs
            ensures h in r.dump && PoetRecords(get, h) == Some(r.dump[h])
          {
            if h !in hrefs[1..] {
              assert h == hrefs[0];
            }
          }
        }
      }
    }
  }

  /**
   * `scrape_shers`: a fresh dump, then every poet in order. When it goes through, the
   * dump maps exactly the listed poets to their records and was written once per poet.
   */
  lemma ScrapeShersSpec(hrefs: seq<string>, get: ShersGetter)
    ensures var run := ShersRun(SherState(map[], 0, []), hrefs, get);
      && (forall h :: h in run.st.dump ==> h in hrefs && PoetRecords(get, h) == Some(run.st.dump[h]))
      && (run.ok ==> (forall h :: h in hrefs ==> h in run.st.dump) && run.st.writes == |hrefs|)
  {
    ShersRunSpec(SherState(map[], 0, []), hrefs, get);
  }

  /** `scrape_shers`, by the source's steps. */
  method ScrapeShersSync(hrefs: seq<string>, server: SherServer) returns (dump: SherDump, writes: nat, calls: seq<Call>, ok: bool)
    ensures SherRan(SherState(dump, writes, calls), ok) == ShersRun(SherState(map[], 0, []), hrefs, Get(server))
  {
    var get := Get(server);
    dump, writes, calls := map[], 0, [];
    for i := 0 to |hrefs|
      invariant ShersRun(SherState(dump, writes, calls), hrefs[i..], get) == ShersRun(SherState(map[], 0, []), hrefs, get)
    {
      assert hrefs[i..][0] == hrefs[i] && hrefs[i..][1..] == hrefs[i + 1..];
      var href := hrefs[i];
      var f := FetchPoetLangs(get, href);
      calls := calls + f.calls;
      if f.raised {
        return dump, writes, calls, false;
      }
      FetchedHasLangs(get, href);
      var recs := ZipShers(f.got);
      if recs.None? {
        return dump, writes, calls, false;
      }
      dump := dump[href := recs.value];
      writes := writes + 1;
    }
    ok := true;
  }
}
