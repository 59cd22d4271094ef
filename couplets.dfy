/**
 * What both sher scrapers do with one poet once `get_shers` is given: fetch the
 * couplets in the four languages, in order, then zip the four lists into one record
 * per sher (`fetch_poet_shers` in scripts/scrape_shers_async.py, the body of the loop
 * over poets in scripts/scrape_shers.py).
 */
module Couplets {
  import opened Optional
  import opened Http
  import opened Markup
  import opened Checkpoint

  /** `get_shers` for a poet URL and a language: the list of shers, or `None` where it raises. */
  type ShersGetter = (string, string) -> Option<seq<string>>

  /** The URL `get_shers` requests for a poet: `f"{poet_url}/couplets"`. */
  function CoupletsUrl(poetUrl: string): string {
    poetUrl + "/couplets"
  }

  /** The site, as both sher scrapers see it: what the request for `url` with `lang=lang` ends in. */
  type SherServer = (string, string) -> Outcome<SherPage>

  /** The container selected in each section, in order; `None` when a section has none. */
  function Targets(secs: seq<RomanPair>, lang: string, romanized: bool): Option<seq<Container>> {
    if secs == [] then Some([])
    else match Select(secs[0], lang, romanized)
      case None => None
      case Some(c) =>
        match Targets(secs[1..], lang, romanized)
        case None => None
        case Some(rest) => Some([c] + rest)
  }

  /** Every section has its container exactly when there is a list of them; then the `i`-th comes from the `i`-th section. */
  lemma {:induction false} TargetsSpec(secs: seq<RomanPair>, lang: string, romanized: bool)
    ensures var r := Targets(secs, lang, romanized);
      && (r.Some? <==> forall i :: 0 <= i < |secs| ==> Select(secs[i], lang, romanized).Some?)
      && (r.Some? ==> |r.value| == |secs|)
      && (r.Some? ==> forall i :: 0 <= i < |secs| ==> Select(secs[i], lang, romanized) == Some(r.value[i]))
  {
    if secs != [] {
      TargetsSpec(secs[1..], lang, romanized);
      assert forall i :: 1 <= i < |secs| ==> secs[i] == secs[1..][i - 1];
    }
  }

  /** `poet_shers`: the list fetched for each language. */
  type ByLang = map<string, seq<string>>

  /** What the loop over the languages produced: the lists so far, the requests issued, and whether it raised. */
  datatype ShersFetch = ShersFetch(got: ByLang, calls: seq<Call>, raised: bool)

  /** The loop `for lang in ["en-rm", "en", "hi", "ur"]` of one poet, from `langs` on; an exception ends it. */
  function FetchByLang(get: ShersGetter, href: string, langs: seq<string>): ShersFetch {
    if langs == [] then ShersFetch(map[], [], false)
    else
      var call := Call(CoupletsUrl(href), langs[0]);
      match get(href, langs[0])
      case None => ShersFetch(map[], [call], true)
      case Some(shers) =>
        var rest := FetchByLang(get, href, langs[1..]);
        ShersFetch(map[langs[0] := shers] + rest.got, [call] + rest.calls, rest.raised)
  }

  /**
   * The loop raises exactly when the fetch of one language does; it requests the
   * languages in order, all of them when nothing raised, and then holds every language's list.
   */
  lemma {:induction false} FetchByLangSpec(get: ShersGetter, href: string, langs: seq<string>)
    ensures var f := FetchByLang(get, href, langs);
      && (f.raised <==> exists l :: l in langs && get(href, l).None?)
      && f.calls <= CallsFor(CoupletsUrl(href), langs)
      && (!f.raised ==> f.calls == CallsFor(CoupletsUrl(href), langs))
      && (!f.raised ==> forall l :: l in f.got <==> l in langs)
      && (forall l :: l in f.got ==> l in langs && get(href, l) == Some(f.got[l]))
  {
    if langs != [] {
      FetchByLangSpec(get, href, langs[1..]);
      assert forall l :: l in langs <==> l == langs[0] || l in langs[1..];
    }
  }

  /** `f` put after what an earlier part of the loop already produced. */
  function ThenShers(got: ByLang, calls: seq<Call>, f: ShersFetch): ShersFetch {
    ShersFetch(got + f.got, calls + f.calls, f.raised)
  }

  /** A language whose fetch raises ends the loop. */
  lemma ThenRaised(get: ShersGetter, href: string, langs: seq<string>, got: ByLang, calls: seq<Call>)
    requires langs != [] && get(href, langs[0]).None?
    ensures ThenShers(got, calls, FetchByLang(get, href, langs))
            == ShersFetch(got, calls + [Call(CoupletsUrl(href), langs[0])], true)
  {
    assert got + map[] == got;
  }

  /** A language whose fetch returns a list adds it, and its request, to what the loop produced. */
  lemma ThenFetched(get: ShersGetter, href: string, langs: seq<string>, got: ByLang, calls: seq<Call>)
    requires langs != [] && get(href, langs[0]).Some?
    ensures ThenShers(got, calls, FetchByLang(get, href, langs))
            == ThenShers(got[langs[0] := get(href, langs[0]).value], calls + [Call(CoupletsUrl(href), langs[0])],
                         FetchByLang(get, href, langs[1..]))
  {
    var lang, shers := langs[0], get(href, langs[0]).value;
    var call := Call(CoupletsUrl(href), lang);
    var rest := FetchByLang(get, href, langs[1..]);
    assert calls + ([call] + rest.calls) == calls + [call] + rest.calls;
    assert got + (map[lang := shers] + rest.got) == got[lang := shers] + rest.got;
  }

  /** The loop over the four languages, by the source's steps. */
  method FetchPoetLangs(get: ShersGetter, href: string) returns (f: ShersFetch)
    ensures f == FetchByLang(get, href, Langs)
  {
    var got: ByLang := map[];
    var calls: seq<Call> := [];
    for k := 0 to |Langs|
      invariant FetchByLang(get, href, Langs) == ThenShers(got, calls, FetchByLang(get, href, Langs[k..]))
    {
      var lang := Langs[k];
      assert Langs[k..][0] == lang && Langs[k..][1..] == Langs[k + 1..];
      var shers := get(href, lang);
      if shers.None? {
        ThenRaised(get, href, Langs[k..], got, calls);
        return ShersFetch(got, calls + [Call(CoupletsUrl(href), lang)], true);
      }
      ThenFetched(get, href, Langs[k..], got, calls);
      got := got[lang := shers.value];
      calls := calls + [Call(CoupletsUrl(href), lang)];
    }
    assert got + map[] == got && calls + [] == calls;
    f := ShersFetch(got, calls, false);
  }

  /** The four lists are there. */
  predicate HasLangs(p: ByLang) {
    "en-rm" in p && "en" in p && "hi" in p && "ur" in p
  }

  /** The condition of the `assert`: the four lists have one length. */
  predicate SameLength(p: ByLang) {
    HasLangs(p) && |p["en"]| == |p["en-rm"]| == |p["hi"]| == |p["ur"]|
  }

  /** One record of `poet_data`: the `i`-th sher in each language. */
  type Record = map<string, string>

  function RecordAt(p: ByLang, i: nat): (r: Record)
    requires SameLength(p) && i < |p["en"]|
    ensures r.Keys == {"hi", "en", "en-rm", "ur"}
    ensures r["hi"] == p["hi"][i] && r["en"] == p["en"][i] && r["en-rm"] == p["en-rm"][i] && r["ur"] == p["ur"][i]
  {
    map["hi" := p["hi"][i], "en" := p["en"][i], "en-rm" := p["en-rm"][i], "ur" := p["ur"][i]]
  }

  /** The first `n` records. */
  function Records(p: ByLang, n: nat): seq<Record>
    requires SameLength(p) && n <= |p["en"]|
  {
    if n == 0 then [] else Records(p, n - 1) + [RecordAt(p, n - 1)]
  }

  /** There are `n` of them, the `i`-th built from the `i`-th sher of each language. */
  lemma {:induction false} RecordsSpec(p: ByLang, n: nat)
    requires SameLength(p) && n <= |p["en"]|
    ensures |Records(p, n)| == n
    ensures forall i :: 0 <= i < n ==> Records(p, n)[i] == RecordAt(p, i)
  {
    if n > 0 {
      RecordsSpec(p, n - 1);
    }
  }

  /** The `assert` and the loop building `poet_data`: `None` where the assertion fails. */
  function Zip(p: ByLang): Option<seq<Record>>
    requires HasLangs(p)
  {
    if SameLength(p) then Some(Records(p, |p["en"]|)) else None
  }

  /**
   * The assertion passes exactly when the four lists have one length; then there is
   * one record per sher, record `i` mapping hi, en, en-rm and ur to the `i`-th sher of each.
   */
  lemma ZipSpec(p: ByLang)
    requires HasLangs(p)
    ensures Zip(p).Some? <==> |p["en"]| == |p["en-rm"]| == |p["hi"]| == |p["ur"]|
    ensures Zip(p).Some? ==>
      && |Zip(p).value| == |p["en"]|
      && forall i :: 0 <= i < |p["en"]| ==>
           Zip(p).value[i].Keys == {"hi", "en", "en-rm", "ur"}
           && Zip(p).value[i]["hi"] == p["hi"][i] && Zip(p).value[i]["en"] == p["en"][i]
           && Zip(p).value[i]["en-rm"] == p["en-rm"][i] && Zip(p).value[i]["ur"] == p["ur"][i]
  {
    if SameLength(p) {
      RecordsSpec(p, |p["en"]|);
    }
  }

  /** The `assert` and the index loop, by the source's steps. */
  method ZipShers(p: ByLang) returns (r: Option<seq<Record>>)
    requires HasLangs(p)
    ensures r == Zip(p)
  {
    if !(|p["en"]| == |p["en-rm"]| == |p["hi"]| == |p["ur"]|) {
      return None;
    }
    var data: seq<Record> := [];
    for i := 0 to |p["en"]|
      invariant data == Records(p, i)
    {
      data := data + [map["hi" := p["hi"][i], "en" := p["en"][i], "en-rm" := p["en-rm"][i], "ur" := p["ur"][i]]];
    }
    r := Some(data);
  }

  /** All four lists fetched, a complete `poet_shers` that has every language. */
  lemma FetchedHasLangs(get: ShersGetter, href: string)
    requires !FetchByLang(get, href, Langs).raised
    ensures HasLangs(FetchByLang(get, href, Langs).got)
  {
    FetchByLangSpec(get, href, Langs);
  }

  /** One poet's records: the four fetches, then the zip; `None` where a fetch raises or the assertion fails. */
  function PoetRecords(get: ShersGetter, href: string): Option<seq<Record>> {
    var f := FetchByLang(get, href, Langs);
    if f.raised then None
    else
      FetchedHasLangs(get, href);
      Zip(f.got)
  }

  /** `sher_dump`: poet URL -> the poet's records. */
  type SherDump = map<string, seq<Record>>

  /** The observable state of a sher run: the dump, how often the dump file was written, and every request issued. */
  datatype SherState = SherState(dump: SherDump, writes: nat, calls: seq<Call>)

  /** A run that went through (`ok`) or stopped at an exception. */
  datatype SherRan = SherRan(st: SherState, ok: bool)

  /** Fetching and zipping one poet, then `sher_dump[poet["href"]] = ...` when both succeed. */
  function PoetUpdate(st: SherState, href: string, get: ShersGetter): SherRan {
    var f := FetchByLang(get, href, Langs);
    var next := st.(calls := st.calls + f.calls);
    match PoetRecords(get, href)
    case None => SherRan(next, false)
    case Some(recs) => SherRan(next.(dump := st.dump[href := recs]), true)
  }

  /**
   * One poet: the four requests in order (fewer when one raises), and the poet's entry
   * set to its records exactly when both the fetches and the assertion succeed; nothing
   * else in the dump changes and nothing is written.
   */
  lemma PoetUpdateSpec(st: SherState, href: string, get: ShersGetter)
    ensures var r := PoetUpdate(st, href, get);
      var f := FetchByLang(get, href, Langs);
      && r.st.calls == st.calls + f.calls
      && f.calls <= CallsFor(CoupletsUrl(href), Langs)
      && (r.ok ==> f.calls == CallsFor(CoupletsUrl(href), Langs))
      && (r.ok <==> PoetRecords(get, href).Some?)
      && (r.ok ==> r.st.dump == st.dump[href := PoetRecords(get, href).value])
      && (!r.ok ==> r.st.dump == st.dump)
      && r.st.writes == st.writes
  {
    FetchByLangSpec(get, href, Langs);
  }
}
