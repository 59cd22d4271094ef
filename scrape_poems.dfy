/**
 * scripts/scrape_ghazals.py and scripts/scrape_nazms.py: the first resumable
 * scrapers. The two files are the same program over different dump files and
 * list keys ("ghazals", "nazms"), so one model covers both: any poem URL already
 * present under its poet is skipped, and a new one is fetched once per language,
 * with no retry and no look at the status code.
 */
module ScrapePoems {
  import opened Optional
  import opened Http
  import opened Markup
  import opened Checkpoint

  /** The site: what the single request for `url` with `lang=lang` ends in. */
  type Server = (string, string) -> Outcome<Page>

  /**
   * `get_ghazal` / `get_nazm`: the text of the container selected for `lang`,
   * whatever the status. `None` stands for an exception: the request failed, or
   * the page lacks the panel or the container and a method is called on `None`.
   */
  function GetPoem(server: Server, url: string, lang: string): Option<string> {
    var o := server(url, lang);
    if o.Responded? then ExtractPoem(o.page, lang, Romanized(lang)) else None
  }

  /** `get_ghazal` / `get_nazm` by the source's steps. */
  method FetchPoem(server: Server, url: string, lang: string) returns (r: Option<string>)
    ensures r == GetPoem(server, url, lang)
  {
    var o := server(url, lang);
    if !o.Responded? {
      return None;
    }
    r := ExtractPoemText(o.page, lang, Romanized(lang));
  }

  /** The status code plays no part: two responses with the same page give the same text. */
  lemma StatusIgnored(s1: Server, s2: Server, url: string, lang: string, p: Page, c1: int, c2: int)
    requires s1(url, lang) == Responded(c1, p) && s2(url, lang) == Responded(c2, p)
    ensures GetPoem(s1, url, lang) == GetPoem(s2, url, lang)
  {
  }

  /**
   * What `get_ghazal` / `get_nazm` returns for a URL and a language, `None` where it
   * raises. The resume loop below is stated for any such function; the scripts use
   * `Get(server)`.
   */
  type Getter = (string, string) -> Option<string>

  /** `GetPoem` on the site `server`, as a function of the URL and the language. */
  function Get(server: Server): Getter {
    (url, lang) => GetPoem(server, url, lang)
  }

  /** The loop over the languages for a new URL: one fetch each, in order, stopping at the first that raises. */
  function FetchAll(get: Getter, url: string, langs: seq<string>): LangFetch {
    if langs == [] then LangFetch(map[], [], false)
    else
      var call := Call(url, langs[0]);
      match get(url, langs[0])
      case None => LangFetch(map[], [call], true)
      case Some(t) =>
        var rest := FetchAll(get, url, langs[1..]);
        LangFetch(map[langs[0] := t] + rest.got, [call] + rest.calls, rest.raised)
  }

  /**
   * The loop raises exactly when one of the languages fails; it issues the fetches
   * in order, all of them when nothing raised; and then it has every language,
   * each with the text its fetch returned.
   */
  lemma {:induction false} FetchAllSpec(get: Getter, url: string, langs: seq<string>)
    ensures var f := FetchAll(get, url, langs);
      && (f.raised <==> exists l :: l in langs && get(url, l).None?)
      && f.calls <= CallsFor(url, langs)
      && (!f.raised ==> f.calls == CallsFor(url, langs))
      && (!f.raised ==> forall l :: l in f.got <==> l in langs)
      && (forall l :: l in f.got ==> l in langs && get(url, l) == Some(f.got[l]))
  {
    if langs != [] {
      var rest := langs[1..];
      FetchAllSpec(get, url, rest);
      assert forall l :: l in langs <==> l == langs[0] || l in rest;
    }
  }

  /** A language whose fetch raises ends the loop after what it already produced. */
  lemma ThenRaised(get: Getter, url: string, langs: seq<string>, got: map<string, string>, calls: seq<Call>)
    requires langs != [] && get(url, langs[0]).None?
    ensures Then(got, calls, FetchAll(get, url, langs)) == LangFetch(got, calls + [Call(url, langs[0])], true)
  {
    assert got + map[] == got;
  }

  /** A language whose fetch returns text adds the text and its fetch to what the loop produced. */
  lemma ThenFetched(get: Getter, url: string, langs: seq<string>, got: map<string, string>, calls: seq<Call>)
    requires langs != [] && get(url, langs[0]).Some?
    ensures Then(got, calls, FetchAll(get, url, langs))
            == Then(got[langs[0] := get(url, langs[0]).value], calls + [Call(url, langs[0])], FetchAll(get, url, langs[1..]))
  {
    var lang, t := langs[0], get(url, langs[0]).value;
    var rest := FetchAll(get, url, langs[1..]);
    assert FetchAll(get, url, langs) == LangFetch(map[lang := t] + rest.got, [Call(url, lang)] + rest.calls, rest.raised);
    ThenCons(got, calls, lang, t, Call(url, lang), rest);
  }

  /** The loop over the four languages, by the source's steps. */
  method FetchPoemLangs(get: Getter, url: string) returns (f: LangFetch)
    ensures f == FetchAll(get, url, Langs)
  {
    var got: map<string, string> := map[];
    var calls: seq<Call> := [];
    for k := 0 to |Langs|
      invariant FetchAll(get, url, Langs) == Then(got, calls, FetchAll(get, url, Langs[k..]))
    {
      var lang := Langs[k];
      assert Langs[k..][0] == lang && Langs[k..][1..] == Langs[k + 1..];
      var poem := get(url, lang);
      if poem.None? {
        ThenRaised(get, url, Langs[k..], got, calls);
        return LangFetch(got, calls + [Call(url, lang)], true);
      }
      ThenFetched(get, url, Langs[k..], got, calls);
      got := got[lang := poem.value];
      calls := calls + [Call(url, lang)];
    }
    assert got + map[] == got && calls + [] == calls;
    f := LangFetch(got, calls, false);
  }

  /** One iteration of the loop over the poet's URLs. */
  function ItemStep(st: RunState, poet: string, url: string, get: Getter): (r: Ran)
    requires poet in st.dump
    ensures poet in r.st.dump
  {
    if url in st.dump[poet] then Ran(st.(progress := st.progress + 1), true)
    else
      var f := FetchAll(get, url, Langs);
      if f.raised then Ran(st.(calls := st.calls + f.calls), false)
      else
        var dump := st.dump[poet := st.dump[poet][url := AsEntry(f.got)]];
        Ran(RunState(dump, st.progress + 1, st.writes + 1, st.calls + f.calls), true)
  }

  /** The loop over the poet's URLs, from some point on; an exception ends it. */
  function ItemsRun(st: RunState, poet: string, urls: seq<string>, get: Getter): Ran
    requires poet in st.dump
    decreases |urls|
  {
    if urls == [] then Ran(st, true)
    else
      var r := ItemStep(st, poet, urls[0], get);
      if !r.ok then r else ItemsRun(r.st, poet, urls[1..], get)
  }

  /** `fetch_ghazals_for_poet` / `fetch_nazms_for_poet`. */
  function PoetRun(st: RunState, poet: string, urls: seq<string>, get: Getter): Ran {
    ItemsRun(st.(dump := EnsurePoet(st.dump, poet)), poet, urls, get)
  }

  /** `scrape_ghazals_async` / `scrape_nazms_async`, the coroutines run one after another; the first exception ends the run. */
  function ScrapeRun(st: RunState, poets: seq<PoetItems>, get: Getter): Ran
    decreases |poets|
  {
    if poets == [] then Ran(st, true)
    else
      var r := PoetRun(st, poets[0].poet, poets[0].items, get);
      if !r.ok then r else ScrapeRun(r.st, poets[1..], get)
  }

  /** A URL already present under the poet is skipped: no request, no change, no write, one step of progress, even if its values are null. */
  lemma PresentSkipped(st: RunState, poet: string, url: string, get: Getter)
    requires poet in st.dump && url in st.dump[poet]
    ensures ItemStep(st, poet, url, get) == Ran(st.(progress := st.progress + 1), true)
  {
  }

  /**
   * A new URL is fetched in en-rm, en, hi, ur, once each. When none raises, its entry
   * gets exactly those four keys with the fetched texts, the file is rewritten and
   * progress advances; when one raises, the dump is left as it was and the run stops.
   */
  lemma NewItem(st: RunState, poet: string, url: string, get: Getter)
    requires poet in st.dump && url !in st.dump[poet]
    ensures var f := FetchAll(get, url, Langs);
      var r := ItemStep(st, poet, url, get);
      && r.st.calls == st.calls + f.calls
      && f.calls <= CallsFor(url, Langs)
      && (r.ok <==> forall l :: l in Langs ==> get(url, l).Some?)
      && (r.ok ==>
            && f.calls == CallsFor(url, Langs)
            && r.st.dump[poet][url].Keys == {"en-rm", "en", "hi", "ur"}
            && (forall l :: l in r.st.dump[poet][url] ==> r.st.dump[poet][url][l] == get(url, l))
            && r.st.writes == st.writes + 1 && r.st.progress == st.progress + 1)
      && (!r.ok ==> r.st.dump == st.dump && r.st.writes == st.writes && r.st.progress == st.progress)
  {
    FetchAllSpec(get, url, Langs);
    var f := FetchAll(get, url, Langs);
    if !f.raised {
      KeysOfLangs(f.got);
    }
  }

  /** The URLs an entry set gains: the keys of `now` that were not keys of `before`. */
  function Added(now: PoetDump, before: PoetDump): set<string> {
    now.Keys - before.Keys
  }

  /**
   * One URL changes nothing outside its own new entry: other poets and present entries
   * stay, the URL is the only key that can appear, and the file is rewritten exactly
   * when it does.
   */
  lemma ItemStepFrame(st: RunState, poet: string, url: string, get: Getter)
    requires poet in st.dump
    ensures var run := ItemStep(st, poet, url, get);
      var r := run.st;
      && r.dump.Keys == st.dump.Keys
      && (forall q :: q in st.dump && q != poet ==> r.dump[q] == st.dump[q])
      && (forall u :: u in st.dump[poet] ==> u in r.dump[poet] && r.dump[poet][u] == st.dump[poet][u])
      && r.dump[poet].Keys == (if run.ok then st.dump[poet].Keys + {url} else st.dump[poet].Keys)
      && (run.ok ==> r.progress == st.progress + 1)
      && (!run.ok ==> r.progress == st.progress && r.dump == st.dump)
      && r.writes == st.writes + (if run.ok && url !in st.dump[poet] then 1 else 0)
      && st.calls <= r.calls
  {
    if url in st.dump[poet] {
      assert st.dump[poet].Keys + {url} == st.dump[poet].Keys;
    }
  }

  /** Adding one key gains that key, unless it was there. */
  lemma AddedOne(now: PoetDump, before: PoetDump, url: string)
    requires now.Keys == before.Keys + {url}
    ensures |Added(now, before)| == if url in before then 0 else 1
  {
    if url in before {
      assert Added(now, before) == {};
    } else {
      assert Added(now, before) == {url};
    }
  }

  /** What a set gains in two steps is what it gains in each. */
  lemma AddedTrans(now: PoetDump, mid: PoetDump, before: PoetDump)
    requires before.Keys <= mid.Keys <= now.Keys
    ensures |Added(now, before)| == |Added(now, mid)| + |Added(mid, before)|
  {
    assert Added(now, before) == Added(now, mid) + Added(mid, before);
    assert Added(now, mid) * Added(mid, before) == {};
  }

  /**
   * The loop never touches another poet or an entry already present. When it goes
   * through, the poet's URLs are the old ones plus every listed URL, progress advanced
   * once per URL, and the file was rewritten once per URL that was new.
   */
  lemma {:induction false} ItemsRunFrame(st: RunState, poet: string, urls: seq<string>, get: Getter)
    requires poet in st.dump
    ensures var run := ItemsRun(st, poet, urls, get);
      var r := run.st;
      && poet in r.dump && r.dump.Keys == st.dump.Keys
      && (forall q :: q in st.dump && q != poet ==> r.dump[q] == st.dump[q])
      && (forall u :: u in st.dump[poet] ==> u in r.dump[poet] && r.dump[poet][u] == st.dump[poet][u])
      && (forall u :: u in r.dump[poet] ==> u in st.dump[poet] || u in urls)
      && st.progress <= r.progress <= st.progress + |urls|
      && r.writes == st.writes + |Added(r.dump[poet], st.dump[poet])|
      && st.calls <= r.calls
      && (run.ok ==> r.progress == st.progress + |urls| && forall i :: 0 <= i < |urls| ==> urls[i] in r.dump[poet])
    decreases |urls|
  {
    if urls == [] {
      assert Added(st.dump[poet], st.dump[poet]) == {};
    } else {
      var step := ItemStep(st, poet, urls[0], get);
      ItemStepFrame(st, poet, urls[0], get);
      if step.ok {
        var mid := step.st;
        var run := ItemsRun(mid, poet, urls[1..], get);
        assert ItemsRun(st, poet, urls, get) == run;
        ItemsRunFrame(mid, poet, urls[1..], get);
        var r := run.st;
        AddedOne(mid.dump[poet], st.dump[poet], urls[0]);
        AddedTrans(r.dump[poet], mid.dump[poet], st.dump[poet]);
        forall u | u in r.dump[poet]
          ensures u in st.dump[poet] || u in urls
        {
          if u !in st.dump[poet] && u !in urls[1..] {
            assert u == urls[0];
          }
        }
        if run.ok {
          forall i | 0 <= i < |urls|
            ensures urls[i] in r.dump[poet]
          {
            if i > 0 {
              assert urls[i] == urls[1..][i - 1];
            } else {
              assert urls[0] in mid.dump[poet];
            }
          }
        }
      } else {
        assert ItemsRun(st, poet, urls, get) == step;
        assert Added(step.st.dump[poet], st.dump[poet]) == {};
      }
    }
  }

  /**
   * After `fetch_ghazals_for_poet`, `poet` is a key of the dump and no other entry
   * (of this poet or another) changed; when it went through, every listed URL is present.
   */
  lemma PoetRunFrame(st: RunState, poet: string, urls: seq<string>, get: Getter)
    ensures var run := PoetRun(st, poet, urls, get);
      var r := run.st;
      && poet in r.dump && r.dump.Keys == st.dump.Keys + {poet}
      && (forall q, u :: q in st.dump && u in st.dump[q] ==> u in r.dump[q] && r.dump[q][u] == st.dump[q][u])
      && (forall q :: q in st.dump && q != poet ==> r.dump[q] == st.dump[q])
      && (run.ok ==> r.progress == st.progress + |urls| && forall i :: 0 <= i < |urls| ==> urls[i] in r.dump[poet])
      && st.progress <= r.progress && st.writes <= r.writes
  {
    var st0 := st.(dump := EnsurePoet(st.dump, poet));
    ItemsRunFrame(st0, poet, urls, get);
  }

  /**
   * When the whole run goes through, the progress bar reaches exactly the total
   * computed at line 91, and every listed poet and URL is in the dump. Entries present
   * before are never modified.
   */
  lemma {:induction false} ScrapeRunSpec(st: RunState, poets: seq<PoetItems>, get: Getter)
    ensures var run := ScrapeRun(st, poets, get);
      var r := run.st;
      && st.dump.Keys <= r.dump.Keys
      && (forall q, u :: q in st.dump && u in st.dump[q] ==> u in r.dump[q] && r.dump[q][u] == st.dump[q][u])
      && (run.ok ==> r.progress == st.progress + TotalItems(poets))
      && (run.ok ==> forall i :: 0 <= i < |poets| ==> poets[i].poet in r.dump)
    decreases |poets|
  {
    if poets != [] {
      var run0 := PoetRun(st, poets[0].poet, poets[0].items, get);
      PoetRunFrame(st, poets[0].poet, poets[0].items, get);
      if run0.ok {
        ScrapeRunSpec(run0.st, poets[1..], get);
        assert forall i :: 1 <= i < |poets| ==> poets[i] == poets[1..][i - 1];
      }
    }
  }

  /** The shared state of one run: the dump, the tqdm bar, the file rewrites and the fetches issued so far. */
  class PoemScraper {
    var dump: Dump
    var progress: nat
    var writes: nat
    var calls: seq<Call>

    function State(): RunState
      reads this
    {
      RunState(dump, progress, writes, calls)
    }

    /** A run starting from `loaded`: the dump read from the output file, or `{}` when there is none. */
    constructor (loaded: Dump)
      ensures State() == RunState(loaded, 0, 0, [])
    {
      dump, progress, writes, calls := loaded, 0, 0, [];
    }

    /** `fetch_ghazals_for_poet` / `fetch_nazms_for_poet`; `ok` is false when an exception escaped it. */
    method FetchForPoet(poet: string, urls: seq<string>, get: Getter) returns (ok: bool)
      modifies this
      ensures Ran(State(), ok) == PoetRun(old(State()), poet, urls, get)
    {
      if poet !in dump {
        dump := dump[poet := map[]];
      }
      ghost var start := State();
      assert start == old(State()).(dump := EnsurePoet(old(dump), poet));
      var i := 0;
      while i < |urls|
        invariant 0 <= i <= |urls| && poet in dump
        invariant ItemsRun(State(), poet, urls[i..], get) == ItemsRun(start, poet, urls, get)
      {
        assert urls[i..][0] == urls[i] && urls[i..][1..] == urls[i + 1..];
        ok := FetchItem(poet, urls[i], get);
        if !ok {
          return;
        }
        i := i + 1;
      }
      ok := true;
    }

    /** One pass of the loop over the URLs. */
    method FetchItem(poet: string, url: string, get: Getter) returns (ok: bool)
      requires poet in dump
      modifies this
      ensures Ran(State(), ok) == ItemStep(old(State()), poet, url, get)
    {
      if url in dump[poet] {
        progress := progress + 1;
        return true;
      }
      var f := FetchPoemLangs(get, url);
      calls := calls + f.calls;
      if f.raised {
        return false;
      }
      dump := dump[poet := dump[poet][url := AsEntry(f.got)]];
      writes := writes + 1;
      progress := progress + 1;
      ok := true;
    }

    /** `scrape_ghazals_async` / `scrape_nazms_async`: the total for the progress bar, then every poet's coroutine. */
    method ScrapeAsync(poets: seq<PoetItems>, server: Server) returns (total: nat, ok: bool)
      modifies this
      ensures total == TotalItems(poets)
      ensures Ran(State(), ok) == ScrapeRun(old(State()), poets, Get(server))
    {
      var get := Get(server);
      total := TotalItems(poets);
      var i := 0;
      while i < |poets|
        invariant 0 <= i <= |poets|
        invariant ScrapeRun(State(), poets[i..], get) == ScrapeRun(old(State()), poets, get)
      {
        assert poets[i..][0] == poets[i] && poets[i..][1..] == poets[i + 1..];
        ok := FetchForPoet(poets[i].poet, poets[i].items, get);
        if !ok {
          return;
        }
        i := i + 1;
      }
      ok := true;
    }
  }
}
