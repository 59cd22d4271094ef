/**
 * scripts/scrape_poems_list_async.py: the poets are cut into consecutive batches of
 * 150; the poets of each batch run `get_links`, which stores the poet's `details` in
 * the shared dump (loaded from the file when it exists) and rewrites the file. No poet
 * is skipped. An exception from one poet ends the script.
 */
module ScrapePoemsListAsync {
  import opened Optional
  import opened Links

  /** `BATCH_SIZE`. */
  const BatchSize: nat := 150

  function Min(a: int, b: int): int {
    if a <= b then a else b
  }

  /** `poets[i : i + BATCH_SIZE]` for `i` in `range(start, len(poets), BATCH_SIZE)`. */
  function BatchesFrom<T>(xs: seq<T>, start: nat): seq<seq<T>>
    decreases |xs| - start
  {
    if start >= |xs| then []
    else [xs[start..Min(start + BatchSize, |xs|)]] + BatchesFrom(xs, start + BatchSize)
  }

  /** The batches the loop of `scrape_poems_list` takes. */
  function Batches<T>(xs: seq<T>): seq<seq<T>> {
    BatchesFrom(xs, 0)
  }

  /** The batches one after another. */
  function Flatten<T>(bs: seq<seq<T>>): seq<T> {
    if bs == [] then [] else bs[0] + Flatten(bs[1..])
  }

  /** From `start` on, the batches together, in order, are `xs[start..]`. */
  lemma {:induction false} BatchesFromFlatten<T>(xs: seq<T>, start: nat)
    requires start <= |xs|
    ensures Flatten(BatchesFrom(xs, start)) == xs[start..]
    decreases |xs| - start
  {
    if start < |xs| {
      var next := start + BatchSize;
      if next <= |xs| {
        BatchesFromFlatten(xs, next);
        assert xs[start..] == xs[start..next] + xs[next..];
      } else {
        assert BatchesFrom(xs, next) == [];
        assert xs[start..Min(next, |xs|)] == xs[start..];
      }
      assert BatchesFrom(xs, start)[1..] == BatchesFrom(xs, next);
    }
  }

  /** From `start` on, there are `ceil((|xs| - start) / BatchSize)` batches. */
  lemma {:induction false} BatchesFromCount<T>(xs: seq<T>, start: nat)
    requires start <= |xs|
    ensures |BatchesFrom(xs, start)| == (|xs| - start + BatchSize - 1) / BatchSize
    decreases |xs| - start
  {
    if start < |xs| && start + BatchSize <= |xs| {
      BatchesFromCount(xs, start + BatchSize);
    }
  }

  /**
   * From `start` on, batch `k` is the slice of at most `BatchSize` poets at
   * `start + k * BatchSize`, and it is not empty.
   */
  lemma {:induction false} BatchesFromSlices<T>(xs: seq<T>, start: nat)
    requires start <= |xs|
    ensures var bs := BatchesFrom(xs, start);
      forall k :: 0 <= k < |bs| ==>
        && start + k * BatchSize < |xs|
        && bs[k] == xs[start + k * BatchSize .. Min(start + k * BatchSize + BatchSize, |xs|)]
    decreases |xs| - start
  {
    var bs := BatchesFrom(xs, start);
    if start < |xs| {
      var next := start + BatchSize;
      var rest := BatchesFrom(xs, next);
      assert bs[1..] == rest;
      if next <= |xs| {
        BatchesFromSlices(xs, next);
        forall k | 1 <= k < |bs|
          ensures start + k * BatchSize < |xs|
          ensures bs[k] == xs[start + k * BatchSize .. Min(start + k * BatchSize + BatchSize, |xs|)]
        {
          assert bs[k] == rest[k - 1];
          assert next + (k - 1) * BatchSize == start + k * BatchSize;
        }
      } else {
        assert rest == [];
      }
    }
  }

  /**
   * The batches the script takes: the slices `poets[i:i+150]` for `i = 0, 150, ...`, each
   * holding 1 to 150 poets, `ceil(n / 150)` of them, and together, in order, all the poets.
   */
  lemma BatchesSpec<T>(xs: seq<T>)
    ensures var bs := Batches(xs);
      && Flatten(bs) == xs
      && |bs| == (|xs| + BatchSize - 1) / BatchSize
      && (forall k :: 0 <= k < |bs| ==> 0 < |bs[k]| <= BatchSize)
      && (forall k :: 0 <= k < |bs| ==> bs[k] == xs[k * BatchSize .. Min(k * BatchSize + BatchSize, |xs|)])
  {
    BatchesFromFlatten(xs, 0);
    BatchesFromCount(xs, 0);
    BatchesFromSlices(xs, 0);
    assert xs[0..] == xs;
  }

  /** The observable state of the script: the shared dump and how often the file was written. */
  datatype ListState = ListState(dump: PoemsList, writes: nat)

  /** A run that went through (`ok`) or stopped at an exception. */
  datatype ListRan = ListRan(st: ListState, ok: bool)

  /** `get_links` for one poet: on success, `dump[poet_url] = details` and one write of the file. */
  function PoetStep(st: ListState, poetUrl: string, get: LinksGetter): ListRan {
    match get(poetUrl)
    case None => ListRan(st, false)
    case Some(d) => ListRan(ListState(st.dump[poetUrl := d], st.writes + 1), true)
  }

  /** The poets of a batch, one after another; an exception ends the script. */
  function PoetsRun(st: ListState, hrefs: seq<string>, get: LinksGetter): ListRan
    decreases |hrefs|
  {
    if hrefs == [] then ListRan(st, true)
    else
      var r := PoetStep(st, hrefs[0], get);
      if !r.ok then r else PoetsRun(r.st, hrefs[1..], get)
  }

  /** The batches, one after another. */
  function BatchesRun(st: ListState, bs: seq<seq<string>>, get: LinksGetter): ListRan
    decreases |bs|
  {
    if bs == [] then ListRan(st, true)
    else
      var r := PoetsRun(st, bs[0], get);
      if !r.ok then r else BatchesRun(r.st, bs[1..], get)
  }

  /** `scrape_poems_list` once the dump is loaded. */
  function Scrape(st: ListState, hrefs: seq<string>, get: LinksGetter): ListRan {
    BatchesRun(st, Batches(hrefs), get)
  }

  /** Running two lists of poets is running the first, then, if it went through, the second. */
  lemma {:induction false} PoetsRunAppend(st: ListState, a: seq<string>, b: seq<string>, get: LinksGetter)
    ensures PoetsRun(st, a + b, get) ==
      var r := PoetsRun(st, a, get);
      if !r.ok then r else PoetsRun(r.st, b, get)
    decreases |a|
  {
    if a == [] {
      assert a + b == b;
    } else {
      assert (a + b)[0] == a[0] && (a + b)[1..] == a[1..] + b;
      var r := PoetStep(st, a[0], get);
      if r.ok {
        PoetsRunAppend(r.st, a[1..], b, get);
      }
    }
  }

  /** Running batches is running their poets in one sequence. */
  lemma {:induction false} BatchesRunFlatten(st: ListState, bs: seq<seq<string>>, get: LinksGetter)
    ensures BatchesRun(st, bs, get) == PoetsRun(st, Flatten(bs), get)
    decreases |bs|
  {
    if bs != [] {
      PoetsRunAppend(st, bs[0], Flatten(bs[1..]), get);
      var r := PoetsRun(st, bs[0], get);
      if r.ok {
        BatchesRunFlatten(r.st, bs[1..], get);
      }
    }
  }

  /** Batching changes nothing: the script ends as running every poet in order would. */
  lemma BatchedIsSequential(st: ListState, hrefs: seq<string>, get: LinksGetter)
    ensures Scrape(st, hrefs, get) == PoetsRun(st, hrefs, get)
  {
    BatchesSpec(hrefs);
    BatchesRunFlatten(st, Batches(hrefs), get);
  }

  /**
   * Poets not listed keep their entries; a listed poet's entry is either as before or
   * its new `details`. The file is written once per poet done; when the run goes
   * through, once per listed poet, and every listed poet maps to its new `details`,
   * whether or not it was in the dump before.
   */
  lemma {:induction false} PoetsRunSpec(st: ListState, hrefs: seq<string>, get: LinksGetter)
    ensures var run := PoetsRun(st, hrefs, get);
      var r := run.st;
      && (forall h :: h in st.dump ==> h in r.dump)
      && (forall h :: h in r.dump && h !in hrefs ==> h in st.dump && r.dump[h] == st.dump[h])
      && (forall h :: h in r.dump && h in hrefs ==>
            (h in st.dump && r.dump[h] == st.dump[h]) || get(h) == Some(r.dump[h]))
      && st.writes <= r.writes <= st.writes + |hrefs|
      && (run.ok ==> r.writes == st.writes + |hrefs|)
      && (run.ok ==> forall h :: h in hrefs ==> h in r.dump && get(h) == Some(r.dump[h]))
    decreases |hrefs|
  {
    if hrefs != [] {
      var step := PoetStep(st, hrefs[0], get);
      if step.ok {
        var run := PoetsRun(step.st, hrefs[1..], get);
        assert PoetsRun(st, hrefs, get) == run;
        PoetsRunSpec(step.st, hrefs[1..], get);
        var r := run.st;
        assert forall h :: h in hrefs <==> h == hrefs[0] || h in hrefs[1..];
        forall h | h in r.dump && h !in hrefs
          ensures h in st.dump && r.dump[h] == st.dump[h]
        {
          assert h != hrefs[0] && h !in hrefs[1..];
        }
        forall h | h in r.dump && h in hrefs
          ensures (h in st.dump && r.dump[h] == st.dump[h]) || get(h) == Some(r.dump[h])
        {
          if h !in hrefs[1..] {
            assert h == hrefs[0];
          }
        }
        if run.ok {
          forall h | h in hrefs
            ensures h in r.dump && get(h) == Some(r.dump[h])
          {
            if h !in hrefs[1..] {
              assert h == hrefs[0];
            }
          }
        }
      }
    }
  }

  /**
   * The script: entries of unlisted poets stay as loaded; when it goes through, every
   * listed poet maps to its fresh `details`, with exactly the keys ghazals and nazms,
   * and the file was written once per listed poet.
   */
  lemma ScrapeSpec(st: ListState, hrefs: seq<string>, server: ListServer)
    ensures var run := Scrape(st, hrefs, Get(server));
      var r := run.st;
      && (forall h :: h in st.dump && h !in hrefs ==> h in r.dump && r.dump[h] == st.dump[h])
      && (forall h :: h in r.dump ==> h in st.dump || h in hrefs)
      && (run.ok ==> r.writes == st.writes + |hrefs|)
      && (run.ok ==> forall h :: h in hrefs ==>
            h in r.dump && Some(r.dump[h]) == GetLinks(server, h) && r.dump[h].Keys == {"ghazals", "nazms"})
  {
    var get := Get(server);
    BatchedIsSequential(st, hrefs, get);
    PoetsRunSpec(st, hrefs, get);
    var run := Scrape(st, hrefs, get);
    if run.ok {
      forall h | h in hrefs
        ensures h in run.st.dump && Some(run.st.dump[h]) == GetLinks(server, h)
          && run.st.dump[h].Keys == {"ghazals", "nazms"}
      {
        GetLinksSpec(server, h);
      }
    }
  }

  /** The script's state: the shared dump and how often the file was written. */
  class ListScraper {
    var dump: PoemsList
    var writes: nat

    function State(): ListState
      reads this
    {
      ListState(dump, writes)
    }

    /** The dump read from the file when it exists (`existing`), `{}` otherwise. */
    constructor (existing: Option<PoemsList>)
      ensures State() == ListState(if existing.Some? then existing.value else map[], 0)
    {
      dump := if existing.Some? then existing.value else map[];
      writes := 0;
    }

    /** `get_links`: read both sections, then store the poet's `details` and rewrite the file. */
    method GetPoetLinks(poetUrl: string, server: ListServer) returns (ok: bool)
      modifies this
      ensures ListRan(State(), ok) == PoetStep(old(State()), poetUrl, Get(server))
    {
      var details := FetchLinks(server, poetUrl);
      if details.None? {
        return false;
      }
      dump := dump[poetUrl := details.value];
      writes := writes + 1;
      ok := true;
    }

    /** `process_batch`: one `get_links` per poet of the batch. */
    method ProcessBatch(batch: seq<string>, server: ListServer) returns (ok: bool)
      modifies this
      ensures ListRan(State(), ok) == PoetsRun(old(State()), batch, Get(server))
    {
      ghost var start := State();
      for i := 0 to |batch|
        invariant PoetsRun(State(), batch[i..], Get(server)) == PoetsRun(start, batch, Get(server))
      {
        assert batch[i..][0] == batch[i] && batch[i..][1..] == batch[i + 1..];
        ok := GetPoetLinks(batch[i], server);
        if !ok {
          return;
        }
      }
      ok := true;
    }

    /** `scrape_poems_list` once the dump is loaded: the stepped loop over the batches. */
    method ScrapePoemsList(poets: seq<string>, server: ListServer) returns (ok: bool)
      modifies this
      ensures ListRan(State(), ok) == Scrape(old(State()), poets, Get(server))
    {
      ghost var start := State();
      var i := 0;
      while i < |poets|
        invariant BatchesRun(State(), BatchesFrom(poets, i), Get(server)) == Scrape(start, poets, Get(server))
        decreases |poets| - i
      {
        var batch := poets[i..Min(i + BatchSize, |poets|)];
        ok := ProcessBatch(batch, server);
        if !ok {
          return;
        }
        i := i + BatchSize;
      }
      ok := true;
    }
  }
}
