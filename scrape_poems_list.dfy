/**
 * scripts/scrape_poems_list.py: for every poet in the list, in order, `get_links`,
 * stored under the poet's URL in a fresh map; the map is written once, after the
 * last poet. An exception from `get_links` ends the script before anything is written.
 */
module ScrapePoemsList {
  import opened Optional
  import opened Links

  /** The `details` of each poet, in order; `None` where one of them raises. */
  function Fetched(get: LinksGetter, hrefs: seq<string>): Option<seq<Details>> {
    if hrefs == [] then Some([])
    else
      match Fetched(get, hrefs[..|hrefs| - 1])
      case None => None
      case Some(ds) =>
        match get(hrefs[|hrefs| - 1])
        case None => None
        case Some(d) => Some(ds + [d])
  }

  /** The poets' `details` are all fetched exactly when none raises; then the `i`-th belongs to the `i`-th poet. */
  lemma {:induction false} FetchedSpec(get: LinksGetter, hrefs: seq<string>)
    ensures var r := Fetched(get, hrefs);
      && (r.Some? <==> forall i :: 0 <= i < |hrefs| ==> get(hrefs[i]).Some?)
      && (r.Some? ==> |r.value| == |hrefs| && forall i :: 0 <= i < |hrefs| ==> Some(r.value[i]) == get(hrefs[i]))
  {
    if hrefs != [] {
      var init := hrefs[..|hrefs| - 1];
      FetchedSpec(get, init);
      assert forall i :: 0 <= i < |init| ==> hrefs[i] == init[i];
    }
  }

  /** `poems_list[poet["href"]] = details` for each poet in turn. */
  function Assign(hrefs: seq<string>, ds: seq<Details>): PoemsList
    requires |hrefs| == |ds|
  {
    if hrefs == [] then map[]
    else Assign(hrefs[..|hrefs| - 1], ds[..|ds| - 1])[hrefs[|hrefs| - 1] := ds[|ds| - 1]]
  }

  /** The map has exactly the listed poets as keys, and a poet listed more than once gets its last `details`. */
  lemma AssignSpec(hrefs: seq<string>, ds: seq<Details>)
    requires |hrefs| == |ds|
    ensures forall h :: h in Assign(hrefs, ds) <==> h in hrefs
    ensures forall j :: 0 <= j < |hrefs| && (forall k :: j < k < |hrefs| ==> hrefs[k] != hrefs[j]) ==>
      Assign(hrefs, ds)[hrefs[j]] == ds[j]
  {
    AssignKeys(hrefs, ds);
    forall j | 0 <= j < |hrefs| && (forall k :: j < k < |hrefs| ==> hrefs[k] != hrefs[j])
      ensures Assign(hrefs, ds)[hrefs[j]] == ds[j]
    {
      AssignLast(hrefs, ds, j);
    }
  }

  lemma {:induction false} AssignKeys(hrefs: seq<string>, ds: seq<Details>)
    requires |hrefs| == |ds|
    ensures forall h :: h in Assign(hrefs, ds) <==> h in hrefs
  {
    if hrefs != [] {
      var n := |hrefs| - 1;
      AssignKeys(hrefs[..n], ds[..n]);
      assert hrefs == hrefs[..n] + [hrefs[n]];
    }
  }

  /** The entry of a poet is the `details` of its last occurrence. */
  lemma {:induction false} AssignLast(hrefs: seq<string>, ds: seq<Details>, j: nat)
    requires |hrefs| == |ds| && j < |hrefs|
    requires forall k :: j < k < |hrefs| ==> hrefs[k] != hrefs[j]
    ensures hrefs[j] in Assign(hrefs, ds) && Assign(hrefs, ds)[hrefs[j]] == ds[j]
  {
    var n := |hrefs| - 1;
    if j < n {
      var init, dinit := hrefs[..n], ds[..n];
      assert init[j] == hrefs[j] && dinit[j] == ds[j];
      assert hrefs[n] != hrefs[j];
      assert forall k :: j < k < |init| ==> init[k] == hrefs[k];
      AssignLast(init, dinit, j);
    }
  }

  /** What the script writes: the map of every poet's `details`, or `None` where it raises first. */
  function Scrape(get: LinksGetter, hrefs: seq<string>): Option<PoemsList> {
    match Fetched(get, hrefs)
    case None => None
    case Some(ds) => FetchedSpec(get, hrefs); Some(Assign(hrefs, ds))
  }

  /**
   * The map is written exactly when no poet's `get_links` raises; it maps exactly the
   * listed poets to their `details`, each with exactly the keys ghazals and nazms.
   */
  lemma ScrapeSpec(server: ListServer, hrefs: seq<string>)
    ensures var r := Scrape(Get(server), hrefs);
      && (r.Some? <==> forall h :: h in hrefs ==> GetLinks(server, h).Some?)
      && (r.Some? ==> forall h :: h in r.value <==> h in hrefs)
      && (r.Some? ==> forall h :: h in r.value ==> Some(r.value[h]) == GetLinks(server, h))
      && (r.Some? ==> forall h :: h in r.value ==> r.value[h].Keys == {"ghazals", "nazms"})
  {
    var get := Get(server);
    FetchedSpec(get, hrefs);
    var r := Scrape(get, hrefs);
    assert (forall h :: h in hrefs ==> get(h).Some?) <==> (forall i :: 0 <= i < |hrefs| ==> get(hrefs[i]).Some?);
    if r.Some? {
      var ds := Fetched(get, hrefs).value;
      AssignSpec(hrefs, ds);
      forall h | h in r.value
        ensures Some(r.value[h]) == GetLinks(server, h) && r.value[h].Keys == {"ghazals", "nazms"}
      {
        var j := LastIndex(hrefs, h);
        GetLinksSpec(server, h);
      }
    }
  }

  /** The last position of `h` in `hrefs`. */
  function LastIndex(hrefs: seq<string>, h: string): (j: nat)
    requires h in hrefs
    ensures j < |hrefs| && hrefs[j] == h
    ensures forall k :: j < k < |hrefs| ==> hrefs[k] != h
  {
    if hrefs[|hrefs| - 1] == h then |hrefs| - 1
    else
      assert h in hrefs[..|hrefs| - 1] by {
        var i :| 0 <= i < |hrefs| && hrefs[i] == h;
        assert hrefs[..|hrefs| - 1][i] == h;
      }
      LastIndex(hrefs[..|hrefs| - 1], h)
  }

  /** `scrape_poems_list` by the source's steps: the map it writes, `None` when it raises before writing. */
  method ScrapePoemsList(hrefs: seq<string>, server: ListServer) returns (written: Option<PoemsList>)
    ensures written == Scrape(Get(server), hrefs)
  {
    var get := Get(server);
    var poemsList: PoemsList := map[];
    ghost var ds: seq<Details> := [];
    for i := 0 to |hrefs|
      invariant Fetched(get, hrefs[..i]) == Some(ds)
      invariant |ds| == i
      invariant poemsList == Assign(hrefs[..i], ds)
    {
      assert hrefs[..i + 1][..i] == hrefs[..i];
      var details := FetchLinks(server, hrefs[i]);
      if details.None? {
        assert Fetched(get, hrefs[..i + 1]) == None;
        FetchedNone(get, hrefs, i + 1);
        return None;
      }
      assert (ds + [details.value])[..i] == ds;
      poemsList := poemsList[hrefs[i] := details.value];
      ds := ds + [details.value];
    }
    assert hrefs[..|hrefs|] == hrefs;
    return Some(poemsList);
  }

  /** Once a poet raises, so does the whole list. */
  lemma {:induction false} FetchedNone(get: LinksGetter, hrefs: seq<string>, n: nat)
    requires n <= |hrefs| && Fetched(get, hrefs[..n]) == None
    ensures Fetched(get, hrefs) == None
    decreases |hrefs| - n
  {
    if n < |hrefs| {
      assert hrefs[..n + 1][..n] == hrefs[..n];
      FetchedNone(get, hrefs, n + 1);
    } else {
      assert hrefs[..n] == hrefs;
    }
  }
}
