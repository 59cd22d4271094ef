/**
 * scripts/scrape_ghazals_optimized.py: the resumable ghazal scraper with a
 * bounded retry loop per request and per-language resume per ghazal.
 */
module ScrapeGhazalsOptimized {
  import opened Optional
  import opened Http
  import opened Markup
  import opened Checkpoint

  /** The default `max_retries` of `get_ghazal`. */
  const MaxRetries: int := 3

  /** The site: what attempt number `attempt` to fetch `url` with `lang=lang` ends in. */
  type Server = (string, string, nat) -> Outcome<Page>

  /** A failed attempt that `get_ghazal` retries: a status other than 200, or a `ClientError`. */
  predicate Transient(o: Outcome<Page>) {
    o.ClientFailure? || (o.Responded? && o.status != 200)
  }

  /** What `get_ghazal` ends in: it returns the text, returns `None`, or raises. */
  datatype Fetch = Fetched(text: string) | Exhausted | Raised

  /** The result of `get_ghazal` with the requests it made and the 5 s sleeps it took. */
  datatype Attempted = Attempted(result: Fetch, requests: nat, sleeps: nat)

  /** The result of an attempt that is not retried: a 200 page is extracted (or raises), any other exception propagates. */
  function Decide(o: Outcome<Page>, lang: string, romanized: bool): (f: Fetch)
    requires !Transient(o)
    ensures f != Exhausted
  {
    if o.OtherFailure? then Raised
    else match ExtractPoem(o.page, lang, romanized)
      case Some(t) => Fetched(t)
      case None => Raised
  }

  /** The body of one attempt that is not retried: the text of a 200 page, or the exception. */
  method DecideOutcome(o: Outcome<Page>, lang: string, romanized: bool) returns (f: Fetch)
    requires !Transient(o)
    ensures f == Decide(o, lang, romanized)
  {
    if o.OtherFailure? {
      return Raised;
    }
    var poem := ExtractPoemText(o.page, lang, romanized);
    f := if poem.Some? then Fetched(poem.value) else Raised;
  }

  /** The loop `for attempt in range(max_retries)` of `get_ghazal`, from attempt number `attempt` on. */
  function Attempts(server: Server, url: string, lang: string, romanized: bool, maxRetries: int, attempt: nat): Attempted
    decreases maxRetries - attempt
  {
    if attempt >= maxRetries then Attempted(Exhausted, 0, 0)
    else
      var o := server(url, lang, attempt);
      if !Transient(o) then Attempted(Decide(o, lang, romanized), 1, 0)
      else if attempt == maxRetries - 1 then Attempted(Exhausted, 1, 0)
      else
        var rest := Attempts(server, url, lang, romanized, maxRetries, attempt + 1);
        Attempted(rest.result, rest.requests + 1, rest.sleeps + 1)
  }

  /** `a` with `n` earlier attempts (each followed by a sleep) counted in. */
  function After(a: Attempted, n: nat): Attempted {
    Attempted(a.result, a.requests + n, a.sleeps + n)
  }

  /** `get_ghazal`. */
  method GetGhazal(server: Server, url: string, lang: string, romanized: bool, maxRetries: int)
    returns (result: Fetch, requests: nat, sleeps: nat)
    ensures Attempted(result, requests, sleeps) == Attempts(server, url, lang, romanized, maxRetries, 0)
  {
    requests, sleeps := 0, 0;
    var attempt: nat := 0;
    while attempt < maxRetries
      invariant requests == attempt && sleeps == attempt
      invariant After(Attempts(server, url, lang, romanized, maxRetries, attempt), attempt)
                == Attempts(server, url, lang, romanized, maxRetries, 0)
      decreases maxRetries - attempt
    {
      AttemptStep(server, url, lang, romanized, maxRetries, attempt, attempt);
      var o := server(url, lang, attempt);
      requests := requests + 1;
      if !Transient(o) {
        result := DecideOutcome(o, lang, romanized);
        return;
      }
      if attempt == maxRetries - 1 {
        result := Exhausted;
        return;
      }
      sleeps := sleeps + 1;
      attempt := attempt + 1;
    }
    result := Exhausted;
  }

  /**
   * One pass of the loop, after `n` earlier attempts: an outcome that is not retried
   * ends it with that outcome's result, a transient failure on the last attempt ends it
   * with `None`, and any other transient failure costs a request and a sleep.
   */
  lemma AttemptStep(server: Server, url: string, lang: string, romanized: bool, maxRetries: int, attempt: nat, n: nat)
    requires attempt < maxRetries
    ensures var o := server(url, lang, attempt);
      var a := After(Attempts(server, url, lang, romanized, maxRetries, attempt), n);
      && (!Transient(o) ==> a == Attempted(Decide(o, lang, romanized), n + 1, n))
      && (Transient(o) && attempt == maxRetries - 1 ==> a == Attempted(Exhausted, n + 1, n))
      && (Transient(o) && attempt < maxRetries - 1 ==> a == After(Attempts(server, url, lang, romanized, maxRetries, attempt + 1), n + 1))
  {
  }

  /**
   * From attempt `attempt` on: no request when the budget is spent, otherwise at
   * most the remaining budget of requests, and a sleep after every request but the last.
   */
  lemma {:induction false} AttemptsBounds(server: Server, url: string, lang: string, romanized: bool, maxRetries: int, attempt: nat)
    ensures var a := Attempts(server, url, lang, romanized, maxRetries, attempt);
      && (a.requests == 0 <==> maxRetries <= attempt)
      && (maxRetries > attempt ==> a.requests <= maxRetries - attempt && a.sleeps == a.requests - 1)
      && (a.requests == 0 ==> a.result == Exhausted && a.sleeps == 0)
    decreases maxRetries - attempt
  {
    if attempt < maxRetries && Transient(server(url, lang, attempt)) && attempt != maxRetries - 1 {
      AttemptsBounds(server, url, lang, romanized, maxRetries, attempt + 1);
    }
  }

  /** `get_ghazal` returns `None` exactly when every remaining attempt fails transiently, having used the whole budget. */
  lemma {:induction false} ExhaustedIff(server: Server, url: string, lang: string, romanized: bool, maxRetries: int, attempt: nat)
    ensures var a := Attempts(server, url, lang, romanized, maxRetries, attempt);
      && (a.result == Exhausted <==> forall k: nat :: attempt <= k < maxRetries ==> Transient(server(url, lang, k)))
      && (a.result == Exhausted && attempt < maxRetries ==> a.requests == maxRetries - attempt)
    decreases maxRetries - attempt
  {
    if attempt < maxRetries {
      var o := server(url, lang, attempt);
      if !Transient(o) {
      } else if attempt == maxRetries - 1 {
      } else {
        ExhaustedIff(server, url, lang, romanized, maxRetries, attempt + 1);
      }
    }
  }

  /** The first attempt that is not a transient failure decides the result, and no attempt follows it. */
  lemma {:induction false} FirstDecisiveWins(server: Server, url: string, lang: string, romanized: bool, maxRetries: int, attempt: nat, k: nat)
    requires attempt <= k < maxRetries
    requires forall j: nat :: attempt <= j < k ==> Transient(server(url, lang, j))
    requires !Transient(server(url, lang, k))
    ensures Attempts(server, url, lang, romanized, maxRetries, attempt)
            == Attempted(Decide(server(url, lang, k), lang, romanized), k - attempt + 1, k - attempt)
    decreases k - attempt
  {
    if attempt < k {
      assert Transient(server(url, lang, attempt));
      FirstDecisiveWins(server, url, lang, romanized, maxRetries, attempt + 1, k);
    }
  }

  /** `.get(lang) is not None` on a stored entry. */
  predicate HasText(entry: LangMap, lang: string) {
    lang in entry && entry[lang].Some?
  }

  /** The check of lines 88-91: every one of the four languages is stored with a non-null value. */
  predicate Complete(entry: LangMap) {
    forall lang :: lang in Langs ==> HasText(entry, lang)
  }

  /** The check loop `for lang in [...]: if ....get(lang) is None: check = False`. */
  method CheckComplete(entry: LangMap) returns (check: bool)
    ensures check <==> Complete(entry)
  {
    check := true;
    for k := 0 to |Langs|
      invariant check <==> forall j :: 0 <= j < k ==> HasText(entry, Langs[j])
    {
      if !HasText(entry, Langs[k]) {
        check := false;
      }
    }
  }

  /** `ghazals_dump[poet].get(ghazal_url, {})`. */
  function Lookup(entries: PoetDump, url: string): LangMap {
    if url in entries then entries[url] else map[]
  }

  /** The result `get_ghazal` gives for `lang` with the default retry budget, `romanized = "rm" in lang`. */
  function Result(server: Server, url: string, lang: string): Fetch {
    Attempts(server, url, lang, Romanized(lang), MaxRetries, 0).result
  }

  /** The `try` block's loop over `langs`: skip stored languages, fetch the others, keep the non-None texts; stop when a fetch raises. */
  function FetchMissing(server: Server, url: string, entry: LangMap, langs: seq<string>): LangFetch
  {
    if langs == [] then LangFetch(map[], [], false)
    else
      var lang := langs[0];
      if HasText(entry, lang) then FetchMissing(server, url, entry, langs[1..])
      else
        var call := Call(url, lang);
        match Result(server, url, lang)
        case Raised => LangFetch(map[], [call], true)
        case Exhausted =>
          var rest := FetchMissing(server, url, entry, langs[1..]);
          rest.(calls := [call] + rest.calls)
        case Fetched(t) =>
          var rest := FetchMissing(server, url, entry, langs[1..]);
          LangFetch(map[lang := t] + rest.got, [call] + rest.calls, rest.raised)
  }

  /** The languages of `langs` an entry lacks, as the fetches the loop would issue for them. */
  function MissingCalls(url: string, entry: LangMap, langs: seq<string>): seq<Call> {
    if langs == [] then []
    else if HasText(entry, langs[0]) then MissingCalls(url, entry, langs[1..])
    else [Call(url, langs[0])] + MissingCalls(url, entry, langs[1..])
  }

  /** The loop fetches the missing languages in order: all of them, or a prefix ending at the fetch that raised. */
  lemma {:induction false} FetchMissingCalls(server: Server, url: string, entry: LangMap, langs: seq<string>)
    ensures var f := FetchMissing(server, url, entry, langs);
      && f.calls <= MissingCalls(url, entry, langs)
      && (!f.raised ==> f.calls == MissingCalls(url, entry, langs))
  {
    if langs != [] {
      FetchMissingCalls(server, url, entry, langs[1..]);
    }
  }

  /**
   * Every text kept is the text `get_ghazal` returned for a language that was
   * missing; when nothing raised, every missing language that returned text is kept.
   */
  lemma {:induction false} FetchMissingGot(server: Server, url: string, entry: LangMap, langs: seq<string>)
    ensures var f := FetchMissing(server, url, entry, langs);
      && (forall l :: l in f.got ==>
            l in langs && !HasText(entry, l)
            && Result(server, url, l) == Fetched(f.got[l]))
      && (!f.raised ==>
            forall l :: (l in langs && !HasText(entry, l)
                         && Result(server, url, l).Fetched?) ==> l in f.got)
  {
    if langs != [] {
      FetchMissingGot(server, url, entry, langs[1..]);
    }
  }

  /** The `try` block of `fetch_ghazals_for_poet`: the loop over the four languages for one ghazal. */
  method FetchMissingLangs(server: Server, url: string, entry: LangMap) returns (f: LangFetch)
    ensures f == FetchMissing(server, url, entry, Langs)
  {
    var got: map<string, string> := map[];
    var calls: seq<Call> := [];
    var k := 0;
    while k < |Langs|
      invariant 0 <= k <= |Langs|
      invariant FetchMissing(server, url, entry, Langs) == Then(got, calls, FetchMissing(server, url, entry, Langs[k..]))
    {
      var lang := Langs[k];
      assert Langs[k..][0] == lang && Langs[k..][1..] == Langs[k + 1..];
      if HasText(entry, lang) {
        k := k + 1;
        continue;
      }
      var ghazal, _, _ := GetGhazal(server, url, lang, Romanized(lang), MaxRetries);
      if ghazal.Raised? {
        ThenRaised(server, url, entry, Langs[k..], got, calls);
        return LangFetch(got, calls + [Call(url, lang)], true);
      }
      if ghazal.Fetched? {
        ThenFetched(server, url, entry, Langs[k..], got, calls);
        got := got[lang := ghazal.text];
      } else {
        ThenExhausted(server, url, entry, Langs[k..], got, calls);
      }
      calls := calls + [Call(url, lang)];
      k := k + 1;
    }
    assert got + map[] == got && calls + [] == calls;
    f := LangFetch(got, calls, false);
  }

  /** A fetch that raised ends the loop after what it already produced. */
  lemma ThenRaised(server: Server, url: string, entry: LangMap, langs: seq<string>, got: map<string, string>, calls: seq<Call>)
    requires langs != [] && !HasText(entry, langs[0]) && Result(server, url, langs[0]).Raised?
    ensures Then(got, calls, FetchMissing(server, url, entry, langs)) == LangFetch(got, calls + [Call(url, langs[0])], true)
  {
    assert FetchMissing(server, url, entry, langs) == LangFetch(map[], [Call(url, langs[0])], true);
    assert got + map[] == got;
  }

  /** A fetch that returned `None` only adds its call to what the loop produced. */
  lemma ThenExhausted(server: Server, url: string, entry: LangMap, langs: seq<string>, got: map<string, string>, calls: seq<Call>)
    requires langs != [] && !HasText(entry, langs[0]) && Result(server, url, langs[0]).Exhausted?
    ensures Then(got, calls, FetchMissing(server, url, entry, langs))
            == Then(got, calls + [Call(url, langs[0])], FetchMissing(server, url, entry, langs[1..]))
  {
    var rest := FetchMissing(server, url, entry, langs[1..]);
    assert FetchMissing(server, url, entry, langs) == rest.(calls := [Call(url, langs[0])] + rest.calls);
    assert calls + ([Call(url, langs[0])] + rest.calls) == calls + [Call(url, langs[0])] + rest.calls;
  }

  /** A fetch that returned text adds the text and its call to what the loop produced. */
  lemma ThenFetched(server: Server, url: string, entry: LangMap, langs: seq<string>, got: map<string, string>, calls: seq<Call>)
    requires langs != [] && !HasText(entry, langs[0]) && Result(server, url, langs[0]).Fetched?
    ensures Then(got, calls, FetchMissing(server, url, entry, langs))
            == Then(got[langs[0] := Result(server, url, langs[0]).text], calls + [Call(url, langs[0])], FetchMissing(server, url, entry, langs[1..]))
  {
    var lang, t := langs[0], Result(server, url, langs[0]).text;
    var rest := FetchMissing(server, url, entry, langs[1..]);
    assert FetchMissing(server, url, entry, langs) == LangFetch(map[lang := t] + rest.got, [Call(url, lang)] + rest.calls, rest.raised);
    ThenCons(got, calls, lang, t, Call(url, lang), rest);
  }

  /** One iteration of the loop over `ghazals` in `fetch_ghazals_for_poet`. */
  function ItemStep(st: RunState, poet: string, url: string, server: Server): (r: RunState)
    requires poet in st.dump
    ensures poet in r.dump
  {
    var entries := st.dump[poet];
    if url in entries && Complete(entries[url]) then st.(progress := st.progress + 1)
    else Store(st, poet, url, FetchMissing(server, url, Lookup(entries, url), Langs))
  }

  /**
   * The rest of the iteration once the missing languages were fetched: the entry is
   * replaced by the fetched texts when there are any, and progress advances.
   */
  function Store(st: RunState, poet: string, url: string, f: LangFetch): (r: RunState)
    requires poet in st.dump
    ensures poet in r.dump
  {
    var next := st.(progress := st.progress + 1, calls := st.calls + f.calls);
    if f.raised || f.got == map[] then next
    else next.(dump := st.dump[poet := st.dump[poet][url := AsEntry(f.got)]], writes := st.writes + 1)
  }

  /**
   * One ghazal changes at most its own entry of its own poet, advances progress by
   * one, only appends fetches, and rewrites the file at most once.
   */
  lemma ItemStepFrame(st: RunState, poet: string, url: string, server: Server)
    requires poet in st.dump
    ensures var r := ItemStep(st, poet, url, server);
      && r.dump.Keys == st.dump.Keys
      && r.progress == st.progress + 1
      && (forall q :: q in st.dump && q != poet ==> r.dump[q] == st.dump[q])
      && r.dump[poet].Keys <= st.dump[poet].Keys + {url}
      && (forall u :: u in st.dump[poet] && u != url ==> u in r.dump[poet] && r.dump[poet][u] == st.dump[poet][u])
      && st.calls <= r.calls && st.writes <= r.writes <= st.writes + 1
  {
  }

  /** The loop over `ghazals`, from some point on. */
  function ItemsRun(st: RunState, poet: string, urls: seq<string>, server: Server): RunState
    requires poet in st.dump
    decreases |urls|
  {
    if urls == [] then st else ItemsRun(ItemStep(st, poet, urls[0], server), poet, urls[1..], server)
  }

  /** `fetch_ghazals_for_poet`. */
  function PoetRun(st: RunState, poet: string, urls: seq<string>, server: Server): RunState {
    ItemsRun(st.(dump := EnsurePoet(st.dump, poet)), poet, urls, server)
  }

  /** `scrape_ghazals_async`, with the poets' coroutines run one after another in list order. */
  function ScrapeRun(st: RunState, poets: seq<PoetItems>, server: Server): RunState
    decreases |poets|
  {
    if poets == [] then st
    else ScrapeRun(PoetRun(st, poets[0].poet, poets[0].items, server), poets[1..], server)
  }

  /** The loop never touches another poet, advances progress once per URL and rewrites the file at most once per URL. */
  lemma {:induction false} ItemsRunFrame(st: RunState, poet: string, urls: seq<string>, server: Server)
    requires poet in st.dump
    ensures var r := ItemsRun(st, poet, urls, server);
      && poet in r.dump && r.dump.Keys == st.dump.Keys
      && (forall q :: q in st.dump && q != poet ==> r.dump[q] == st.dump[q])
      && r.progress == st.progress + |urls|
      && st.writes <= r.writes <= st.writes + |urls|
      && st.calls <= r.calls
    decreases |urls|
  {
    if urls != [] {
      ItemStepFrame(st, poet, urls[0], server);
      ItemsRunFrame(ItemStep(st, poet, urls[0], server), poet, urls[1..], server);
    }
  }

  /**
   * After `fetch_ghazals_for_poet`, `poet` is a key of the dump, no other poet's
   * entries changed, and progress advanced by exactly one per URL.
   */
  lemma PoetRunFrame(st: RunState, poet: string, urls: seq<string>, server: Server)
    ensures var r := PoetRun(st, poet, urls, server);
      && r.dump.Keys == st.dump.Keys + {poet}
      && (forall q :: q in st.dump && q != poet ==> r.dump[q] == st.dump[q])
      && r.progress == st.progress + |urls|
      && st.writes <= r.writes <= st.writes + |urls|
  {
    ItemsRunFrame(st.(dump := EnsurePoet(st.dump, poet)), poet, urls, server);
  }

  /** When every URL is already complete, the loop only advances progress: no request, no change, no write. */
  lemma {:induction false} CompleteItemsSkipped(st: RunState, poet: string, urls: seq<string>, server: Server)
    requires poet in st.dump
    requires forall i :: 0 <= i < |urls| ==> urls[i] in st.dump[poet] && Complete(st.dump[poet][urls[i]])
    ensures ItemsRun(st, poet, urls, server) == st.(progress := st.progress + |urls|)
    decreases |urls|
  {
    if urls != [] {
      var next := ItemStep(st, poet, urls[0], server);
      assert next == st.(progress := st.progress + 1);
      CompleteItemsSkipped(next, poet, urls[1..], server);
    }
  }

  /**
   * For a ghazal that is not complete: only the missing languages are fetched, in
   * the order en-rm, en, hi, ur (cut short by an exception). An exception or no text
   * at all leaves the dump and the file alone; otherwise the entry becomes exactly the
   * map of newly fetched texts and the file is rewritten.
   */
  lemma IncompleteItem(st: RunState, poet: string, url: string, server: Server)
    requires poet in st.dump
    requires !(url in st.dump[poet] && Complete(st.dump[poet][url]))
    ensures var entry := Lookup(st.dump[poet], url);
      var f := FetchMissing(server, url, entry, Langs);
      var r := ItemStep(st, poet, url, server);
      && r.calls == st.calls + f.calls
      && f.calls <= MissingCalls(url, entry, Langs)
      && (!f.raised ==> f.calls == MissingCalls(url, entry, Langs))
      && ((f.raised || f.got == map[]) ==> r.dump == st.dump && r.writes == st.writes)
      && (!f.raised && f.got != map[] ==>
            && r.writes == st.writes + 1
            && r.dump[poet][url] == AsEntry(f.got)
            && (forall l :: l in r.dump[poet][url] <==>
                  l in Langs && !HasText(entry, l) && Result(server, url, l).Fetched?))
  {
    var entry := Lookup(st.dump[poet], url);
    FetchMissingCalls(server, url, entry, Langs);
    FetchMissingGot(server, url, entry, Langs);
  }

  /**
   * Line 113 replaces the entry instead of merging into it: when a refetch of an
   * incomplete ghazal yields text (and so rewrites the file), every language stored
   * before is dropped.
   */
  lemma ReplaceDropsStoredLanguages(st: RunState, poet: string, url: string, server: Server)
    requires poet in st.dump && url in st.dump[poet] && !Complete(st.dump[poet][url])
    ensures var r := ItemStep(st, poet, url, server);
      r.writes == st.writes + 1 ==>
        forall l :: HasText(st.dump[poet][url], l) ==> l !in r.dump[poet][url]
  {
    FetchMissingGot(server, url, st.dump[poet][url], Langs);
  }

  /** The progress bar reaches exactly the total computed at line 132, and every poet ends up a key of the dump. */
  lemma {:induction false} ScrapeRunProgress(st: RunState, poets: seq<PoetItems>, server: Server)
    ensures var r := ScrapeRun(st, poets, server);
      && r.progress == st.progress + TotalItems(poets)
      && (forall i :: 0 <= i < |poets| ==> poets[i].poet in r.dump)
      && st.dump.Keys <= r.dump.Keys
    decreases |poets|
  {
    if poets != [] {
      var next := PoetRun(st, poets[0].poet, poets[0].items, server);
      PoetRunFrame(st, poets[0].poet, poets[0].items, server);
      ScrapeRunProgress(next, poets[1..], server);
      assert forall i :: 1 <= i < |poets| ==> poets[i] == poets[1..][i - 1];
    }
  }

  /** The shared state of one run: the dump, the tqdm bar, the file rewrites and the fetches issued so far. */
  class GhazalScraper {
    var dump: Dump
    var progress: nat
    var writes: nat
    var calls: seq<Call>

    function State(): RunState
      reads this
    {
      RunState(dump, progress, writes, calls)
    }

    /** A run starting from `loaded`: the dump read from the output file, or `{}` when there is none. */
    constructor (loaded: Dump)
      ensures State() == RunState(loaded, 0, 0, [])
    {
      dump, progress, writes, calls := loaded, 0, 0, [];
    }

    /** `fetch_ghazals_for_poet`. */
    method FetchGhazalsForPoet(poet: string, ghazals: seq<string>, server: Server)
      modifies this
      ensures State() == PoetRun(old(State()), poet, ghazals, server)
    {
      if poet !in dump {
        dump := dump[poet := map[]];
      }
      ghost var start := State();
      assert start == old(State()).(dump := EnsurePoet(old(dump), poet));
      var i := 0;
      while i < |ghazals|
        invariant 0 <= i <= |ghazals| && poet in dump
        invariant ItemsRun(State(), poet, ghazals[i..], server) == ItemsRun(start, poet, ghazals, server)
      {
        assert ghazals[i..][0] == ghazals[i] && ghazals[i..][1..] == ghazals[i + 1..];
        FetchGhazal(poet, ghazals[i], server);
        i := i + 1;
      }
    }

    /** One pass of the loop over `ghazals`: skip a complete ghazal, otherwise fetch what it lacks and store it. */
    method FetchGhazal(poet: string, url: string, server: Server)
      requires poet in dump
      modifies this
      ensures State() == ItemStep(old(State()), poet, url, server)
    {
      if url in dump[poet] {
        var check := CheckComplete(dump[poet][url]);
        if check {
          progress := progress + 1;
          return;
        }
      }
      var f := FetchMissingLangs(server, url, Lookup(dump[poet], url));
      ghost var before := State();
      assert ItemStep(before, poet, url, server) == Store(before, poet, url, f);
      calls := calls + f.calls;
      if f.raised {
        progress := progress + 1;
        return;
      }
      if f.got != map[] {
        dump := dump[poet := dump[poet][url := AsEntry(f.got)]];
        writes := writes + 1;
      }
      progress := progress + 1;
    }

    /** `scrape_ghazals_async`: the total for the progress bar, then every poet's coroutine. */
    method ScrapeGhazalsAsync(poets: seq<PoetItems>, server: Server) returns (total: nat)
      modifies this
      ensures total == TotalItems(poets)
      ensures State() == ScrapeRun(old(State()), poets, server)
    {
      total := TotalItems(poets);
      var i := 0;
      while i < |poets|
        invariant 0 <= i <= |poets|
        invariant ScrapeRun(State(), poets[i..], server) == ScrapeRun(old(State()), poets, server)
      {
        assert poets[i..][1..] == poets[i + 1..];
        FetchGhazalsForPoet(poets[i].poet, poets[i].items, server);
        i := i + 1;
      }
    }
  }
}
