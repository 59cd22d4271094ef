/**
 * The JSON dumps the ghazal and nazm scrapers load, update and rewrite:
 * poet URL -> poem URL -> language -> text. A JSON `null` is `None`.
 */
module Checkpoint {
  import opened Optional
  import opened PyText

  /** One poem's entry: language code -> text, or `None` for a stored JSON null. */
  type LangMap = map<string, Option<string>>

  /** One poet's entries, keyed by poem URL. */
  type PoetDump = map<string, LangMap>

  /** The whole dump, keyed by poet. */
  type Dump = map<string, PoetDump>

  /** The languages every scraper fetches, in the order it fetches them. */
  const Langs: seq<string> := ["en-rm", "en", "hi", "ur"]

  /** `romanized = "rm" in lang`. */
  predicate Romanized(lang: string) {
    Contains(lang, "rm")
  }

  /** Of the four languages, only "en-rm" is fetched romanized. */
  lemma RomanizedLangs()
    ensures Romanized("en-rm")
    ensures !Romanized("en") && !Romanized("hi") && !Romanized("ur")
  {
    assert "en-rm"[3..][..2] == "rm";
    assert Contains("en-rm"[3..], "rm");
    assert Contains("en-rm"[2..], "rm");
    assert Contains("en-rm"[1..], "rm");
    NotRomanized2("en");
    NotRomanized2("hi");
    NotRomanized2("ur");
  }

  /** A two-letter code other than "rm" does not contain "rm". */
  lemma NotRomanized2(lang: string)
    requires |lang| == 2 && lang != "rm"
    ensures !Romanized(lang)
  {
    assert lang[..2] == lang;
    assert !Contains(lang[1..][1..], "rm");
    assert !Contains(lang[1..], "rm");
  }

  /** One fetch of one poem in one language, as issued by a per-poet coroutine. */
  datatype Call = Call(url: string, lang: string)

  /** One poet in the work list: the poet key and the poem URLs listed for it under one category. */
  datatype PoetItems = PoetItems(poet: string, items: seq<string>)

  /** `sum(len(poets[poet][category]) for poet in poets)`: the progress bar's total. */
  function TotalItems(poets: seq<PoetItems>): nat {
    if poets == [] then 0 else |poets[0].items| + TotalItems(poets[1..])
  }

  /** The observable state of a run: the dump, the progress counter, how often the dump file was rewritten, and every fetch issued. */
  datatype RunState = RunState(dump: Dump, progress: nat, writes: nat, calls: seq<Call>)

  /** `if poet not in dump: dump[poet] = {}`. */
  function EnsurePoet(d: Dump, poet: string): (r: Dump)
    ensures poet in r && r.Keys == d.Keys + {poet}
    ensures poet in d ==> r == d
    ensures poet !in d ==> r[poet] == map[]
    ensures forall q :: q in d ==> r[q] == d[q]
  {
    if poet in d then d else d[poet := map[]]
  }

  /** What the loop over the languages of one poem produced: texts by language, the fetches issued, and whether it raised. */
  datatype LangFetch = LangFetch(got: map<string, string>, calls: seq<Call>, raised: bool)

  /** `f` put after what an earlier part of the loop already produced. */
  function Then(got: map<string, string>, calls: seq<Call>, f: LangFetch): LangFetch {
    LangFetch(got + f.got, calls + f.calls, f.raised)
  }

  /** A map whose keys are the languages has the four language codes as its keys. */
  lemma KeysOfLangs<V>(m: map<string, V>)
    requires forall l :: l in m <==> l in Langs
    ensures m.Keys == {"en-rm", "en", "hi", "ur"}
  {
    assert forall l :: l in Langs <==> l == "en-rm" || l == "en" || l == "hi" || l == "ur";
  }

  /** A fetched language at the head of the rest of the loop moves into what the loop already produced. */
  lemma ThenCons(got: map<string, string>, calls: seq<Call>, lang: string, t: string, call: Call, rest: LangFetch)
    ensures Then(got, calls, LangFetch(map[lang := t] + rest.got, [call] + rest.calls, rest.raised))
            == Then(got[lang := t], calls + [call], rest)
  {
    assert calls + ([call] + rest.calls) == calls + [call] + rest.calls;
    assert got + (map[lang := t] + rest.got) == got[lang := t] + rest.got;
  }

  /** An entry made of fetched texts only. */
  function AsEntry(got: map<string, string>): (e: LangMap)
    ensures e.Keys == got.Keys
    ensures forall l :: l in got ==> e[l] == Some(got[l])
  {
    map l | l in got :: Some(got[l])
  }

  /** A run that either went through (`ok`) or stopped at an exception that escaped the per-poet coroutine. */
  datatype Ran = Ran(st: RunState, ok: bool)

  /** The fetch the loop over `langs` issues for `url`, one per language, in order. */
  function CallsFor(url: string, langs: seq<string>): (calls: seq<Call>)
    ensures |calls| == |langs|
  {
    if langs == [] then [] else [Call(url, langs[0])] + CallsFor(url, langs[1..])
  }

  /** For the four languages: en-rm, en, hi, ur, in that order. */
  lemma CallsForLangs(url: string)
    ensures CallsFor(url, Langs) == [Call(url, "en-rm"), Call(url, "en"), Call(url, "hi"), Call(url, "ur")]
  {
    assert CallsFor(url, ["ur"]) == [Call(url, "ur")] by {
      assert ["ur"][1..] == [];
    }
    assert CallsFor(url, ["hi", "ur"]) == [Call(url, "hi"), Call(url, "ur")] by {
      assert ["hi", "ur"][1..] == ["ur"];
    }
    assert CallsFor(url, ["en", "hi", "ur"]) == [Call(url, "en"), Call(url, "hi"), Call(url, "ur")] by {
      assert ["en", "hi", "ur"][1..] == ["hi", "ur"];
    }
    assert Langs[1..] == ["en", "hi", "ur"];
  }

}
