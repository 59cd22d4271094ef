/**
 * scripts/scrape_shers_async.py: the resumable sher scraper. It loads the dump when
 * the file exists, starts one task per poet not yet in it, lets each task set its
 * poet's entry in the shared dump, and writes the file once, after every task is
 * done. Its `get_shers` skips a sher section that lacks the selected container, and
 * its `scrape_lines` strips only newlines.
 */
module ScrapeShersAsync {
  import opened Optional
  import opened Http
  import opened PyText
  import opened Markup
  import opened Checkpoint
  import opened Couplets

  /** The container selected in each section that has one, in order; the other sections are skipped. */
  function Selected(secs: seq<RomanPair>, lang: string, romanized: bool): seq<Container> {
    if secs == [] then []
    else
      var rest := Selected(secs[1..], lang, romanized);
      match Select(secs[0], lang, romanized)
      case None => rest
      case Some(c) => [c] + rest
  }

  /**
   * Every selected container comes from some section, and no section is skipped
   * exactly when every section has its container; then the containers are the ones
   * scripts/scrape_shers.py reads.
   */
  lemma {:induction false} SelectedSpec(secs: seq<RomanPair>, lang: string, romanized: bool)
    ensures var r := Selected(secs, lang, romanized);
      && |r| <= |secs|
      && (forall c :: c in r ==> exists i :: 0 <= i < |secs| && Select(secs[i], lang, romanized) == Some(c))
      && (Targets(secs, lang, romanized).Some? ==> r == Targets(secs, lang, romanized).value)
      && (Targets(secs, lang, romanized).None? ==> |r| < |secs|)
  {
    if secs != [] {
      SelectedSpec(secs[1..], lang, romanized);
      var rest := Selected(secs[1..], lang, romanized);
      forall c | c in Selected(secs, lang, romanized)
        ensures exists i :: 0 <= i < |secs| && Select(secs[i], lang, romanized) == Some(c)
      {
        if c in rest {
          var j :| 0 <= j < |secs[1..]| && Select(secs[1..][j], lang, romanized) == Some(c);
          assert secs[1..][j] == secs[j + 1];
        } else {
          assert Select(secs[0], lang, romanized) == Some(c);
        }
      }
    }
  }

  /** The sections of a concatenation give the containers of the first part, then those of the second. */
  lemma {:induction false} SelectedAppend(a: seq<RomanPair>, b: seq<RomanPair>, lang: string, romanized: bool)
    ensures Selected(a + b, lang, romanized) == Selected(a, lang, romanized) + Selected(b, lang, romanized)
    decreases |a|
  {
    if a == [] {
      assert a + b == b;
    } else {
      assert (a + b)[0] == a[0] && (a + b)[1..] == a[1..] + b;
      SelectedAppend(a[1..], b, lang, romanized);
    }
  }

  /** One section gives its selected container, or nothing when it has none. */
  lemma SelectedSingle(sec: RomanPair, lang: string, romanized: bool)
    ensures Selected([sec], lang, romanized) ==
      match Select(sec, lang, romanized)
      case None => []
      case Some(c) => [c]
  {
    assert [sec][1..] == [];
  }

  /**
   * A section that has its selected container contributes it, right after the
   * containers of the sections before it.
   */
  lemma SelectedKeeps(secs: seq<RomanPair>, i: int, lang: string, romanized: bool)
    requires 0 <= i < |secs| && Select(secs[i], lang, romanized).Some?
    ensures var k := |Selected(secs[..i], lang, romanized)|;
      k < |Selected(secs, lang, romanized)|
      && Selected(secs, lang, romanized)[k] == Select(secs[i], lang, romanized).value
  {
    assert secs == secs[..i] + ([secs[i]] + secs[i + 1..]);
    SelectedAppend(secs[..i], [secs[i]] + secs[i + 1..], lang, romanized);
    SelectedAppend([secs[i]], secs[i + 1..], lang, romanized);
    SelectedSingle(secs[i], lang, romanized);
  }

  /** `get_shers`: `[]` when the page has no sher container, `None` when the request raises; its status is not looked at. */
  function GetShers(server: SherServer, href: string, lang: string): Option<seq<string>> {
    var o := server(CoupletsUrl(href), lang);
    if !o.Responded? then None
    else if o.page.shers.None? then Some([])
    else Some(Texts(SherText, Selected(o.page.shers.value, lang, Romanized(lang))))
  }

  /**
   * `get_shers` raises only where the request does; otherwise it yields at most one
   * sher per section, none of them starting or ending with a newline: the `i`-th
   * sher is the text of the `i`-th selected container.
   */
  lemma GetShersSpec(server: SherServer, href: string, lang: string)
    ensures var o := server(CoupletsUrl(href), lang);
      var r := GetShers(server, href, lang);
      && (r.Some? <==> o.Responded?)
      && (r.Some? && o.page.shers.None? ==> r.value == [])
      && (r.Some? && o.page.shers.Some? ==> |r.value| <= |o.page.shers.value|)
      && (r.Some? ==> forall i :: 0 <= i < |r.value| ==> Trimmed(r.value[i], {'\n'}))
      && (r.Some? && o.page.shers.Some? ==>
            var cs := Selected(o.page.shers.value, lang, Romanized(lang));
            |r.value| == |cs| && forall i :: 0 <= i < |cs| ==> r.value[i] == SherText(cs[i]))
  {
    var o := server(CoupletsUrl(href), lang);
    if o.Responded? && o.page.shers.Some? {
      var cs := Selected(o.page.shers.value, lang, Romanized(lang));
      SelectedSpec(o.page.shers.value, lang, Romanized(lang));
      forall i | 0 <= i < |cs|
        ensures Trimmed(Texts(SherText, cs)[i], {'\n'})
      {
        assert Texts(SherText, cs)[i] == SherText(cs[i]);
      }
    }
  }

  /** One section further: its container, if any, comes next. */
  lemma SelectedStep(secs: seq<RomanPair>, i: int, lang: string, romanized: bool)
    requires 0 <= i < |secs|
    ensures Selected(secs[i..], lang, romanized) ==
      match Select(secs[i], lang, romanized)
      case None => Selected(secs[i + 1..], lang, romanized)
      case Some(c) => [c] + Selected(secs[i + 1..], lang, romanized)
  {
    assert secs[i..][0] == secs[i] && secs[i..][1..] == secs[i + 1..];
  }

  /** Regrouping a concatenation, so the loop can move one container into what it already collected. */
  lemma Regroup(divs: seq<Container>, c: Container, rest: seq<Container>)
    ensures divs + ([c] + rest) == divs + [c] + rest
  {
  }

  /** `get_shers` by the source's steps: the loop over the sher sections, calling `scrape_lines`. */
  method FetchShers(server: SherServer, href: string, lang: string) returns (r: Option<seq<string>>)
    ensures r == GetShers(server, href, lang)
  {
    var o := server(CoupletsUrl(href), lang);
    if !o.Responded? {
      return None;
    }
    if o.page.shers.None? {
      return Some([]);
    }
    var secs := o.page.shers.value;
    var romanized := Romanized(lang);
    var shers: seq<string> := [];
    ghost var divs: seq<Container> := [];
    assert secs[0..] == secs;
    for i := 0 to |secs|
      invariant Selected(secs, lang, romanized) == divs + Selected(secs[i..], lang, romanized)
      invariant shers == Texts(SherText, divs)
    {
      var div := Select(secs[i], lang, romanized);
      SelectedStep(secs, i, lang, romanized);
      if div.Some? {
        var sher := ScrapeLinesKeepSpaces(div.value);
        TextsAppend(SherText, divs, div.value);
        Regroup(divs, div.value, Selected(secs[i + 1..], lang, romanized));
        shers := shers + [sher];
        divs := divs + [div.value];
      }
    }
    assert divs + [] == divs;
    r := Some(shers);
  }

  /** `get_shers` on the site `server`. */
  function Get(server: SherServer): ShersGetter {
    (href, lang) => GetShers(server, href, lang)
  }

  /** The poets a task is started for: those not in the loaded dump, in order, repeats kept. */
  function Pending(hrefs: seq<string>, dump: SherDump): seq<string> {
    if hrefs == [] then []
    else
      var last := hrefs[|hrefs| - 1];
      Pending(hrefs[..|hrefs| - 1], dump) + (if last in dump then [] else [last])
  }

  /**
   * A task is started exactly for the listed poets missing from the dump, at most one
   * per listed poet, and none when every listed poet is already there.
   */
  lemma {:induction false} PendingSpec(hrefs: seq<string>, dump: SherDump)
    ensures |Pending(hrefs, dump)| <= |hrefs|
    ensures forall h :: h in Pending(hrefs, dump) <==> h in hrefs && h !in dump
    ensures (forall h :: h in hrefs ==> h in dump) ==> Pending(hrefs, dump) == []
  {
    if hrefs != [] {
      var init := hrefs[..|hrefs| - 1];
      PendingSpec(init, dump);
      assert hrefs == init + [hrefs[|hrefs| - 1]];
    }
  }

  /** The tasks, run one after another; an exception escaping a task ends the script. */
  function TasksRun(st: SherState, tasks: seq<string>, get: ShersGetter): SherRan
    decreases |tasks|
  {
    if tasks == [] then SherRan(st, true)
    else
      var r := PoetUpdate(st, tasks[0], get);
      if !r.ok then r else TasksRun(r.st, tasks[1..], get)
  }

  /** `scrape_shers` from the loaded dump on: the tasks, then one write of the file when all of them went through. */
  function Scrape(st: SherState, hrefs: seq<string>, get: ShersGetter): SherRan {
    var run := TasksRun(st, Pending(hrefs, st.dump), get);
    if run.ok then SherRan(run.st.(writes := run.st.writes + 1), true) else run
  }

  /**
   * The tasks keep every entry and add entries for their poets only; an entry a task
   * touches holds that poet's records. They never write the file; when they all go
   * through, each of their poets maps to its records.
   */
  lemma {:induction false} TasksRunSpec(st: SherState, tasks: seq<string>, get: ShersGetter)
    ensures var run := TasksRun(st, tasks, get);
      var r := run.st;
      && (forall h :: h in st.dump ==> h in r.dump)
      && (forall h :: h in r.dump && h !in tasks ==> h in st.dump && r.dump[h] == st.dump[h])
      && (forall h :: h in r.dump && h in tasks ==>
            (h in st.dump && r.dump[h] == st.dump[h]) || PoetRecords(get, h) == Some(r.dump[h]))
      && r.writes == st.writes
      && (run.ok ==> forall h :: h in tasks ==> h in r.dump && PoetRecords(get, h) == Some(r.dump[h]))
    decreases |tasks|
  {
    if tasks != [] {
      var step := PoetUpdate(st, tasks[0], get);
      PoetUpdateSpec(st, tasks[0], get);
      if step.ok {
        var run := TasksRun(step.st, tasks[1..], get);
        assert TasksRun(st, tasks, get) == run;
        TasksRunSpec(step.st, tasks[1..], get);
        var r := run.st;
        assert forall h :: h in tasks <==> h == tasks[0] || h in tasks[1..];
        forall h | h in r.dump && h !in tasks
          ensures h in st.dump && r.dump[h] == st.dump[h]
        {
          assert h != tasks[0] && h !in tasks[1..];
        }
        forall h | h in r.dump && h in tasks
          ensures (h in st.dump && r.dump[h] == st.dump[h]) || PoetRecords(get, h) == Some(r.dump[h])
        {
          if h !in tasks[1..] {
            assert h == tasks[0];
          }
        }
        if run.ok {
          forall h | h in tasks
            ensures h in r.dump && PoetRecords(get, h) == Some(r.dump[h])
          {
            if h !in tasks[1..] {
              assert h == tasks[0];
            }
          }
        }
      }
    }
  }

  /**
   * Resuming leaves every loaded entry as it was and adds entries only for listed
   * poets, each holding that poet's records. The file is written once when the run
   * goes through and not at all otherwise; a run that goes through covers every listed poet.
   */
  lemma ScrapeSpec(st: SherState, hrefs: seq<string>, get: ShersGetter)
    ensures var run := Scrape(st, hrefs, get);
      var r := run.st;
      && (forall h :: h in st.dump ==> h in r.dump && r.dump[h] == st.dump[h])
      && (forall h :: h in r.dump && h !in st.dump ==> h in hrefs && PoetRecords(get, h) == Some(r.dump[h]))
      && r.writes == st.writes + (if run.ok then 1 else 0)
      && (run.ok ==> forall h :: h in hrefs ==> h in r.dump)
  {
    var tasks := Pending(hrefs, st.dump);
    PendingSpec(hrefs, st.dump);
    TasksRunSpec(st, tasks, get);
  }

  /** When every listed poet is already in the dump, no request is made, the dump stays as it is and is written once. */
  lemma NothingPending(st: SherState, hrefs: seq<string>, get: ShersGetter)
    requires forall h :: h in hrefs ==> h in st.dump
    ensures Scrape(st, hrefs, get) == SherRan(st.(writes := st.writes + 1), true)
  {
    PendingSpec(hrefs, st.dump);
  }

  /** Running the script again after a run that went through requests nothing and only rewrites the same dump. */
  lemma RerunIsIdle(st: SherState, hrefs: seq<string>, get: ShersGetter)
    requires Scrape(st, hrefs, get).ok
    ensures var r := Scrape(st, hrefs, get).st;
      Scrape(r, hrefs, get) == SherRan(r.(writes := r.writes + 1), true)
  {
    ScrapeSpec(st, hrefs, get);
    NothingPending(Scrape(st, hrefs, get).st, hrefs, get);
  }

  /** The script's state: the shared `sher_dump`, how often the file was written, and every request issued. */
  class SherScraper {
    var dump: SherDump
    var writes: nat
    var calls: seq<Call>

    function State(): SherState
      reads this
    {
      SherState(dump, writes, calls)
    }

    /** The dump read from the file when it exists (`existing`), `{}` otherwise. */
    constructor (existing: Option<SherDump>)
      ensures State() == SherState(if existing.Some? then existing.value else map[], 0, [])
    {
      dump := if existing.Some? then existing.value else map[];
      writes := 0;
      calls := [];
    }

    /** `fetch_poet_shers`: fetch and zip one poet, then set its entry in the shared dump. */
    method FetchPoetShers(href: string, get: ShersGetter) returns (ok: bool)
      modifies this
      ensures SherRan(State(), ok) == PoetUpdate(old(State()), href, get)
    {
      var f := FetchPoetLangs(get, href);
      calls := calls + f.calls;
      if f.raised {
        return false;
      }
      FetchedHasLangs(get, href);
      var poetData := ZipShers(f.got);
      if poetData.None? {
        return false;
      }
      dump := dump[href := poetData.value];
      ok := true;
    }

    /** `scrape_shers` once the dump is loaded: start the tasks, await each, write the file. */
    method ScrapeShers(hrefs: seq<string>, server: SherServer) returns (ok: bool)
      modifies this
      ensures SherRan(State(), ok) == Scrape(old(State()), hrefs, Get(server))
    {
      var get := Get(server);
      var tasks: seq<string> := [];
      for i := 0 to |hrefs|
        invariant tasks == Pending(hrefs[..i], dump)
      {
        assert hrefs[..i + 1][..i] == hrefs[..i];
        if hrefs[i] !in dump {
          tasks := tasks + [hrefs[i]];
        }
      }
      assert hrefs[..|hrefs|] == hrefs;
      ghost var start := State();
      for i := 0 to |tasks|
        invariant TasksRun(State(), tasks[i..], get) == TasksRun(start, tasks, get)
      {
        assert tasks[i..][0] == tasks[i] && tasks[i..][1..] == tasks[i + 1..];
        ok := FetchPoetShers(tasks[i], get);
        if !ok {
          return;
        }
      }
      writes := writes + 1;
      ok := true;
    }
  }
}
