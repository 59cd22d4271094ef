# Rekhta scrapers: a Dafny model of the resumable scraping logic

The repository's scripts harvest poems (ghazals, nazms) and couplets (shers) from a
poetry website, in four language variants each (`en-rm`, `en`, `hi`, `ur`). They keep
the results in JSON dumps that a later run loads and resumes from. This project models
the sequential logic those scripts wrap around their HTTP and HTML calls, and proves
what that logic guarantees:

- `scrape_lines`, which turns a poem container into text, in its two trimming variants;
- the `data-roman` container selection;
- the bounded retry loop of `get_ghazal`;
- the three resume policies:
  - skip when the poem URL is present;
  - skip when all four languages are non-null, else fetch the missing ones and replace the entry;
  - skip at poet level;
- the zip of four per-language sher lists into records;
- the link filter of `get_links`;
- the batches of 150 poets.

Modules, in dependency order:

| module | file | models |
|---|---|---|
| `Optional` | optional.dfy | Python's `None` next to a value |
| `Http` | http.dfy | what one request ends in: a response with a status and a parsed page, an aiohttp `ClientError`, or another exception |
| `PyText` | pytext.dfy | `str.strip()`, `str.strip(chars)`, `"\n".join`, `p in s`, `s.replace(p, "")` |
| `Markup` | markup.dfy | poem containers, `data-roman` selection, both `scrape_lines` variants |
| `Checkpoint` | checkpoint.dfy | the ghazal/nazm dumps, the language list, the fetch log, the run state |
| `Couplets` | couplets.dfy | the per-poet language loop and the zip shared by both sher scrapers |
| `ScrapeGhazalsOptimized` | scrape_ghazals_optimized.dfy | scripts/scrape_ghazals_optimized.py |
| `ScrapePoems` | scrape_poems.dfy | scripts/scrape_ghazals.py and scripts/scrape_nazms.py (the same program over the keys "ghazals" and "nazms") |
| `ScrapeShers` | scrape_shers.dfy | scripts/scrape_shers.py |
| `ScrapeShersAsync` | scrape_shers_async.dfy | scripts/scrape_shers_async.py |
| `Links` | links.dfy | `get_links` as both poem-list scrapers have it |
| `ScrapePoemsList` | scrape_poems_list.dfy | scripts/scrape_poems_list.py |
| `ScrapePoemsListAsync` | scrape_poems_list_async.dfy | scripts/scrape_poems_list_async.py |

How the model is built:

- **The site is a function.** It maps a request to an `Outcome`.
  - For the optimized ghazal scraper the function also takes the attempt number, so successive retries can see different outcomes.
  - Every other request depends only on its URL and language.
- **Pages are abstract.** A page is the optional panel it contains.
  - A container is its `w` sections, each given as the texts of its `<p>` lines, with the `t` divs already removed.
  - A listing page is the optional sequence of its content section's `<a>` elements.
- **Exceptions are values.** A failure that escapes a per-poet coroutine is a run that ends with `ok == false`.
- **The shared dumps are class fields.** The scripts that hand one dump to per-poet coroutines get a class each:
  - `ScrapeGhazalsOptimized.GhazalScraper` (scripts/scrape_ghazals_optimized.py) and `ScrapePoems.PoemScraper` (scripts/scrape_ghazals.py, scripts/scrape_nazms.py) hold the dump, the tqdm progress counter, the file-write count and the log of fetches issued;
  - `ScrapeShersAsync.SherScraper` (scripts/scrape_shers_async.py) holds the dump, the file-write count and the log of requests;
  - `ScrapePoemsListAsync.ListScraper` (scripts/scrape_poems_list_async.py) holds the dump and the file-write count.
  - scripts/scrape_shers.py and scripts/scrape_poems_list.py build their dump in a local variable, so they are methods whose loops build and return it.
- **Each method is proved against a function.** Its `ensures` equate the new state with a function of the old state, and the lemmas prove the properties about those functions.
- **Run-level properties are generic.** They are stated for any "getter" function, meaning what `get_ghazal`, `get_shers` or `get_links` returns for a request. The scripts instantiate them with `Get(server)`.

Behaviours of the code worth knowing:

- **The item entry is replaced, not merged.** Line 113 of scripts/scrape_ghazals_optimized.py sets a re-fetched, incomplete ghazal's entry to the newly fetched languages only, so languages stored before are lost (`ReplaceDropsStoredLanguages`). A stored non-null value can therefore be overwritten.
- **A missing container raises.** On a 200 page that lacks the panel or the selected container, `get_ghazal` calls a method on `None` and raises. The item is abandoned rather than the language recorded as absent (`ScrapeGhazalsOptimized.Decide`).
- **The file is not written after every item.** The optimized scraper rewrites it only when at least one language returned text. It never makes a final write.
- **Writes are ordinary rewrites.** Every write in the code reopens the file with `"w"`; nothing is written atomically.

## Model

| member | source | states |
|---|---|---|
| `PyText.StripChars` | scripts/scrape_ghazals_optimized.py:24 | `s.strip(chars)` starts and ends with no character of `chars`, and is the slice of `s` that is left once only such characters are removed around it |
| `PyText.RemoveAll` | scripts/scrape_poems_list.py:29 | `s.replace(p, "")` is no longer than `s`, and is `s` itself when `p` does not occur in it |
| `Markup.Select` | scripts/scrape_ghazals_optimized.py:38-54 | For a language other than "en" (including "en-rm"), the `data-roman="on"` container when present, else the "off" one; absent only when both are. For "en", the flag alone picks "on" or "off", with no fallback |
| `Markup.SectionLines` | scripts/scrape_ghazals_optimized.py:16-22 | The collected lines are empty exactly when there are no sections, and otherwise end with the empty line that follows each section |
| `Markup.CollectLines` | scripts/scrape_ghazals_optimized.py:16-22 | The nested append loops collect each section's lines followed by one `""`, in order |
| `Markup.PoemText` | scripts/scrape_ghazals_optimized.py:23-24 | The text neither starts nor ends with whitespace, and a container without sections gives `""` |
| `Markup.ScrapeLines` | scripts/scrape_ghazals_optimized.py:15-25 | `scrape_lines` with `.strip().strip("\n")` returns `PoemText` of the container |
| `Markup.SherText` | scripts/scrape_shers_async.py:22 | The newline-only variant neither starts nor ends with a newline |
| `Markup.ScrapeLinesKeepSpaces` | scripts/scrape_shers_async.py:14-23 | The newline-only `scrape_lines` returns `SherText` of the container |
| `Markup.JoinedSections` | scripts/scrape_ghazals.py:15-20 | When no section is empty, the joined lines are the sections separated by one blank line, followed by one newline |
| `Markup.PoemIsTrimmedStanzas` | scripts/scrape_ghazals.py:12-22 | For a container with at least one section and no empty section, `scrape_lines` is exactly the stripped text of the sections separated by blank lines |
| `Markup.SherTextKeepsSpaces` | scripts/scrape_shers_async.py:22 | One section with the line " a " gives "a" under `.strip().strip("\n")` but " a " under `.strip("\n")`: spaces at the ends survive only the newline-only variant |
| `Markup.ExtractPoemText` | scripts/scrape_ghazals.py:30-52 | Extraction yields the selected container's text, and fails (the source raises) when the panel or the selected container is missing |
| `Checkpoint.RomanizedLangs` | scripts/scrape_ghazals_optimized.py:101 | `"rm" in lang` holds for "en-rm" and for none of "en", "hi", "ur" |
| `Checkpoint.EnsurePoet` | scripts/scrape_ghazals_optimized.py:82-83 | The poet becomes a key of the dump, mapped to `{}` when it was new; every other entry is unchanged |
| `Checkpoint.CallsForLangs` | scripts/scrape_ghazals.py:67 | The language loop's requests for one URL are, in order, en-rm, en, hi, ur |
| `ScrapeGhazalsOptimized.DecideOutcome` | scripts/scrape_ghazals_optimized.py:31-60 | An attempt that is not retried ends the loop: a 200 page gives its text, or raises when the page lacks the panel or the container; a non-`ClientError` exception propagates. It never yields `None` |
| `ScrapeGhazalsOptimized.GetGhazal` | scripts/scrape_ghazals_optimized.py:28-76 | `get_ghazal`'s result, its number of requests and its number of 5 s sleeps are exactly those of the retry recursion `Attempts` |
| `ScrapeGhazalsOptimized.AttemptStep` | scripts/scrape_ghazals_optimized.py:29-76 | One pass: a decisive outcome ends the loop with its result; a transient failure on the last attempt ends it with `None`; any other transient failure costs one request and one sleep, then the loop continues |
| `ScrapeGhazalsOptimized.AttemptsBounds` | scripts/scrape_ghazals_optimized.py:29-76 | At most `max_retries` requests; none exactly when `max_retries <= 0`, and then the result is `None`; a sleep follows every request except the last |
| `ScrapeGhazalsOptimized.ExhaustedIff` | scripts/scrape_ghazals_optimized.py:61-76 | `get_ghazal` returns `None` exactly when every attempt is a non-200 response or a `ClientError`, and then it has used all `max_retries` requests |
| `ScrapeGhazalsOptimized.FirstDecisiveWins` | scripts/scrape_ghazals_optimized.py:29-60 | The first attempt that is not a transient failure (for example the first 200) decides the result, and no request follows it: `k+1` requests and `k` sleeps |
| `ScrapeGhazalsOptimized.CheckComplete` | scripts/scrape_ghazals_optimized.py:87-92 | `check` is true exactly when all four languages are stored with a non-null value |
| `ScrapeGhazalsOptimized.FetchMissingCalls` | scripts/scrape_ghazals_optimized.py:96-106 | Only the languages lacking a non-null stored value are fetched, in the order en-rm, en, hi, ur: all of them, or a prefix ending at the fetch that raised |
| `ScrapeGhazalsOptimized.FetchMissingGot` | scripts/scrape_ghazals_optimized.py:96-106 | Every kept text is what `get_ghazal` returned for a missing language; when nothing raised, every missing language that returned text is kept |
| `ScrapeGhazalsOptimized.FetchMissingLangs` | scripts/scrape_ghazals_optimized.py:96-110 | The `try` loop over the languages produces exactly `FetchMissing`: texts, fetches, and whether it raised |
| `ScrapeGhazalsOptimized.ItemStepFrame` | scripts/scrape_ghazals_optimized.py:86-120 | One URL: other poets and other entries of this poet are unchanged, the URL is the only key that may appear, progress advances by exactly one, fetches are only appended, and the file is rewritten at most once |
| `ScrapeGhazalsOptimized.ItemsRunFrame` | scripts/scrape_ghazals_optimized.py:86-120 | The loop over a poet's URLs never touches another poet, advances progress by exactly one per URL, and rewrites the file at most once per URL |
| `ScrapeGhazalsOptimized.PoetRunFrame` | scripts/scrape_ghazals_optimized.py:79-120 | After `fetch_ghazals_for_poet` the poet is a key of the dump, no other poet's entries changed, and progress advanced by exactly the number of URLs |
| `ScrapeGhazalsOptimized.CompleteItemsSkipped` | scripts/scrape_ghazals_optimized.py:87-94 | When every URL is stored complete, the loop makes no request, changes nothing, writes nothing, and only advances progress |
| `ScrapeGhazalsOptimized.IncompleteItem` | scripts/scrape_ghazals_optimized.py:96-118 | For an incomplete URL: only the missing languages are fetched, in order. An exception or no text leaves the dump and the file alone. Otherwise the entry becomes exactly the newly fetched texts, and the file is rewritten once |
| `ScrapeGhazalsOptimized.ReplaceDropsStoredLanguages` | scripts/scrape_ghazals_optimized.py:112-118 | When a re-fetch of an incomplete ghazal yields text and rewrites the file, every language that was stored non-null before is gone from its entry |
| `ScrapeGhazalsOptimized.ScrapeRunProgress` | scripts/scrape_ghazals_optimized.py:132-154 | At the end the progress counter equals the total computed at line 132, every listed poet is a key of the dump, and no poet key is lost |
| `ScrapeGhazalsOptimized.GhazalScraper.constructor` | scripts/scrape_ghazals_optimized.py:127-130 | A run starts from the loaded dump with zero progress, no write and no fetch |
| `ScrapeGhazalsOptimized.GhazalScraper.FetchGhazalsForPoet` | scripts/scrape_ghazals_optimized.py:79-120 | The in-place updates of `fetch_ghazals_for_poet` leave exactly the state `PoetRun` describes |
| `ScrapeGhazalsOptimized.GhazalScraper.FetchGhazal` | scripts/scrape_ghazals_optimized.py:86-120 | One pass of the loop over ghazals leaves exactly the state `ItemStep` describes |
| `ScrapeGhazalsOptimized.GhazalScraper.ScrapeGhazalsAsync` | scripts/scrape_ghazals_optimized.py:123-154 | The total is the sum of the "ghazals" list lengths, and the poets' coroutines, run in list order, leave the state `ScrapeRun` describes |
| `ScrapePoems.FetchPoem` | scripts/scrape_ghazals.py:25-52 | `get_ghazal` is the text of the selected container of the response; any request failure or missing panel or container raises |
| `ScrapePoems.StatusIgnored` | scripts/scrape_ghazals.py:26-27 | The status code plays no part: two responses with the same page give the same text |
| `ScrapePoems.FetchAllSpec` | scripts/scrape_ghazals.py:66-72 | The language loop raises exactly when one language's fetch does. It requests the languages in order, once each. When nothing raised it has every language, each with the text its fetch returned |
| `ScrapePoems.FetchPoemLangs` | scripts/scrape_nazms.py:66-70 | The loop filling `nazm_langs` (`ghazal_langs` at scripts/scrape_ghazals.py:66-72) produces exactly `FetchAll` |
| `ScrapePoems.PresentSkipped` | scripts/scrape_ghazals.py:62-64 | A URL already a key under its poet is skipped, even if its values are null: no request, no change, no write, one step of progress |
| `ScrapePoems.NewItem` | scripts/scrape_ghazals.py:66-79 | A new URL gets one fetch per language in the order en-rm, en, hi, ur. When none raises, its entry has exactly those four keys with the fetched texts, the file is rewritten and progress advances. When one raises, the dump is unchanged and the run stops |
| `ScrapePoems.ItemStepFrame` | scripts/scrape_ghazals.py:61-79 | One URL: other poets and present entries are unchanged, the URL is the only key that may appear, and the file is rewritten exactly when it does |
| `ScrapePoems.ItemsRunFrame` | scripts/scrape_nazms.py:61-77 | The loop over a poet's URLs (scripts/scrape_ghazals.py:61-79) never touches another poet or a present entry. It adds only listed URLs and rewrites the file once per URL added. When it goes through, every listed URL is present and progress advanced once per URL |
| `ScrapePoems.PoetRunFrame` | scripts/scrape_ghazals.py:58-79 | After `fetch_ghazals_for_poet` the poet is a key of the dump and no entry present before was modified, whether of this poet or another |
| `ScrapePoems.ScrapeRunSpec` | scripts/scrape_ghazals.py:91-107 | Entries present before are never modified. When the run goes through, progress equals the total computed at line 91 and every listed poet is a key |
| `ScrapePoems.PoemScraper.constructor` | scripts/scrape_ghazals.py:86-89 | A run starts from the loaded dump with zero progress, no write and no fetch |
| `ScrapePoems.PoemScraper.FetchForPoet` | scripts/scrape_ghazals.py:55-79 | The in-place updates of `fetch_ghazals_for_poet` / `fetch_nazms_for_poet` leave exactly the state `PoetRun` describes |
| `ScrapePoems.PoemScraper.FetchItem` | scripts/scrape_nazms.py:61-77 | One pass of the loop over nazms (ghazals at scripts/scrape_ghazals.py:61-79) leaves exactly the state `ItemStep` describes |
| `ScrapePoems.PoemScraper.ScrapeAsync` | scripts/scrape_nazms.py:80-105 | The total is the sum of the "nazms" (or "ghazals") list lengths. The coroutines, run in list order, leave the state `ScrapeRun` describes |
| `Couplets.TargetsSpec` | scripts/scrape_shers.py:34-45 | Every sher section has its selected container exactly when the containers can be collected; then the `i`-th container comes from the `i`-th section |
| `Couplets.FetchByLangSpec` | scripts/scrape_shers_async.py:68-71 | The language loop raises exactly when one language's `get_shers` does. It requests `<poet>/couplets` in order en-rm, en, hi, ur. When nothing raised it holds every language's list |
| `Couplets.FetchPoetLangs` | scripts/scrape_shers.py:58-62 | The loop filling `poet_shers` produces exactly `FetchByLang` |
| `Couplets.ZipSpec` | scripts/scrape_shers_async.py:73-89 | The assertion passes exactly when the four lists have one length. Then there is one record per sher, and record `i` maps hi, en, en-rm and ur to the `i`-th sher of each language |
| `Couplets.ZipShers` | scripts/scrape_shers.py:64-73 | The assertion and the index loop building the records produce exactly `Zip` |
| `Couplets.PoetUpdateSpec` | scripts/scrape_shers_async.py:65-91 | One poet: the four requests in order, fewer when one raises. Its entry is set to its records exactly when the fetches and the assertion succeed. Nothing else in the dump changes, and nothing is written |
| `ScrapeShers.SectionShersSpec` | scripts/scrape_shers.py:34-48 | Every sher section contributes exactly one sher, in order, so there are as many shers as sections. A section without the selected container raises |
| `ScrapeShers.FetchShers` | scripts/scrape_shers.py:23-48 | `get_shers` is `[]` without the sher container, otherwise the section loop's shers; it raises when the request or a section does |
| `ScrapeShers.ShersRunSpec` | scripts/scrape_shers.py:57-76 | The loop over poets keeps every poet key. It changes entries of listed poets only, each to that poet's records, and rewrites the file once per poet done. When it goes through, it rewrites the file exactly once per poet and maps every poet to its records |
| `ScrapeShers.ScrapeShersSpec` | scripts/scrape_shers.py:51-76 | No resume: starting from an empty dump, the dump holds only listed poets, each mapped to freshly fetched records. When it goes through, it holds all of them and was written once per poet |
| `ScrapeShers.ScrapeShersSync` | scripts/scrape_shers.py:55-76 | `scrape_shers` by its steps ends in exactly the state `ShersRun` describes from an empty dump |
| `ScrapeShersAsync.SelectedSpec` | scripts/scrape_shers_async.py:42-61 | At most one container per section, each from some section; when every section has its selected container, no section is skipped, and these are the containers the synchronous scraper reads; otherwise there are fewer containers than sections |
| `ScrapeShersAsync.SelectedAppend` | scripts/scrape_shers_async.py:42-61 | The section loop keeps section order: the sections of a concatenation give the first part's containers, then the second's |
| `ScrapeShersAsync.SelectedSingle` | scripts/scrape_shers_async.py:57-61 | One section gives its selected container, or nothing when it has none; with `SelectedAppend` this fixes the result for every list of sections |
| `ScrapeShersAsync.SelectedKeeps` | scripts/scrape_shers_async.py:57-61 | A section that has its selected container contributes it, at the position right after the containers of the sections before it |
| `ScrapeShersAsync.GetShersSpec` | scripts/scrape_shers_async.py:26-62 | `get_shers` raises only where the request does and gives `[]` without the sher container. Otherwise it yields one sher per selected container, the `i`-th being the newline-only text of the `i`-th, so at most one per section, and no sher starts or ends with a newline |
| `ScrapeShersAsync.FetchShers` | scripts/scrape_shers_async.py:31-62 | The section loop, skipping sections without a container, produces exactly `GetShers` |
| `ScrapeShersAsync.PendingSpec` | scripts/scrape_shers_async.py:105-109 | A task is started exactly for the listed poets missing from the loaded dump, at most one per list entry (a poet listed twice gets two tasks), and none when all of them are present |
| `ScrapeShersAsync.TasksRunSpec` | scripts/scrape_shers_async.py:111-112 | The tasks keep every entry and change only their own poets' entries, each to that poet's records. They never write the file. When all go through, each of their poets maps to its records |
| `ScrapeShersAsync.ScrapeSpec` | scripts/scrape_shers_async.py:94-115 | Every loaded entry is left untouched, and new entries are listed poets mapped to their records. The file is written once at the end when the run goes through, and not at all otherwise. A run that goes through covers every listed poet |
| `ScrapeShersAsync.NothingPending` | scripts/scrape_shers_async.py:105-115 | When every listed poet is already in the dump, no request is made, the dump is unchanged and it is written once |
| `ScrapeShersAsync.RerunIsIdle` | scripts/scrape_shers_async.py:98-115 | After a run that went through, running again requests nothing and only rewrites the same dump |
| `ScrapeShersAsync.SherScraper.constructor` | scripts/scrape_shers_async.py:98-102 | The dump is the file's contents when the file exists, `{}` otherwise |
| `ScrapeShersAsync.SherScraper.FetchPoetShers` | scripts/scrape_shers_async.py:65-91 | `fetch_poet_shers` changes the shared dump exactly as `PoetUpdate` describes |
| `ScrapeShersAsync.SherScraper.ScrapeShers` | scripts/scrape_shers_async.py:104-115 | The filter loop, the awaited tasks and the final write leave exactly the state `Scrape` describes |
| `Links.KeptWithoutSlashes` | scripts/scrape_poems_list_async.py:34-36 | Any non-empty `href` without "//" is kept |
| `Links.KeptAbsolute` | scripts/scrape_poems_list.py:29 | An absolute link "https://" followed by a remainder without "//" is kept |
| `Links.DroppedLinks` | scripts/scrape_poems_list_async.py:33-36 | A link with no `href` or an empty one is dropped, and so is a protocol-relative "//host/..." link |
| `Links.KeptHrefsSpec` | scripts/scrape_poems_list_async.py:33-37 | Each kept `href` is stored stripped and comes from a kept link; every kept link contributes its stripped `href`; there are at most as many as links |
| `Links.KeptHrefsAppend` | scripts/scrape_poems_list.py:28-30 | Document order is kept: the links of a concatenation give the first part's `href`s, then the second's |
| `Links.FilterLinks` | scripts/scrape_poems_list.py:28-30 | The loop over the links appends exactly `KeptHrefs` |
| `Links.Empty` | scripts/scrape_poems_list.py:13 | `details` starts with exactly the keys ghazals and nazms, both empty |
| `Links.GetLinksSpec` | scripts/scrape_poems_list_async.py:17-37 | `get_links` raises exactly when one of its two requests does. Otherwise `details` has exactly the keys ghazals and nazms, each holding that section's kept links, and `[]` where the page lacks the content section |
| `Links.FetchLinks` | scripts/scrape_poems_list.py:12-31 | The nested loops of `get_links` produce exactly `GetLinks` |
| `ScrapePoemsList.FetchedSpec` | scripts/scrape_poems_list.py:39-40 | Every poet's `details` is fetched exactly when no `get_links` raises; then the `i`-th belongs to the `i`-th poet |
| `ScrapePoemsList.AssignSpec` | scripts/scrape_poems_list.py:39-41 | The map has exactly the listed poets as keys, and a poet listed more than once takes its later `details` |
| `ScrapePoemsList.ScrapeSpec` | scripts/scrape_poems_list.py:34-44 | The map is written exactly when no poet's `get_links` raises. It maps exactly the listed poets to their `details`, each with exactly the keys ghazals and nazms |
| `ScrapePoemsList.ScrapePoemsList` | scripts/scrape_poems_list.py:38-44 | The loop filling `poems_list`, then the single write, produces exactly `Scrape`; nothing is written when a poet raises |
| `ScrapePoemsListAsync.BatchesSpec` | scripts/scrape_poems_list_async.py:63-64 | The batches are the slices `poets[i:i+150]` for `i = 0, 150, ...`. Each holds 1 to 150 poets, there are `ceil(n/150)` of them, and together, in order, they are `poets` |
| `ScrapePoemsListAsync.BatchedIsSequential` | scripts/scrape_poems_list_async.py:44-65 | Running the batches ends as running every poet in list order would |
| `ScrapePoemsListAsync.PoetsRunSpec` | scripts/scrape_poems_list_async.py:38-40 | Unlisted poets keep their entries, and listed ones end as before or with their new `details`. The file is written once per poet done. When the run goes through, every listed poet is overwritten with its new `details` and the file is written once per poet |
| `ScrapePoemsListAsync.ScrapeSpec` | scripts/scrape_poems_list_async.py:52-65 | Unlisted poets keep their loaded entries, and the only new keys are listed poets. When the run goes through, every listed poet, present before or not, maps to its fresh `details` with exactly the keys ghazals and nazms, and the file was written once per poet |
| `ScrapePoemsListAsync.ListScraper.constructor` | scripts/scrape_poems_list_async.py:56-60 | The dump is the file's contents when the file exists, `{}` otherwise |
| `ScrapePoemsListAsync.ListScraper.GetPoetLinks` | scripts/scrape_poems_list_async.py:16-41 | `get_links` stores the poet's `details` in the shared dump and rewrites the file, exactly as `PoetStep` describes; nothing changes when it raises |
| `ScrapePoemsListAsync.ListScraper.ProcessBatch` | scripts/scrape_poems_list_async.py:44-49 | `process_batch` leaves exactly the state the batch's poets, run in order, describe |
| `ScrapePoemsListAsync.ListScraper.ScrapePoemsList` | scripts/scrape_poems_list_async.py:63-65 | The stepped loop over `range(0, len(poets), 150)` with slicing leaves exactly the state `Scrape` describes |

## Left out

- HTTP: sessions, query parameters, `ClientTimeout` and response bodies are abstracted. Each request becomes an `Outcome` value returned by a fixed function of the request.
- HTML: parsing, `find`, `find_all` and the `decompose` of `t` divs are abstracted. A page is given as its optional containers, already filtered.
- Concurrency: `asyncio.gather` and `as_completed` run the per-poet coroutines one after another, in list order. A real run interleaves them on the shared dump. A failure that escapes one coroutine is modelled as ending the run at that point, whereas the other tasks may in fact still run.
- `AsyncLimiter(300, 1)` (scripts/scrape_ghazals_optimized.py:85, 135) is left out: it only paces requests and changes no state.
- `asyncio.sleep(5)` is counted, not timed.
- File and JSON I/O: each dump write is a counter. Loading is a parameter: the loaded dump, or `Option` for `os.path.exists`. Reading the poet list is a parameter too.
- The tqdm bars of the ghazal and nazm scrapers are the progress counter. The other bars are left out: they only display progress. These are the bars over poets and languages in scripts/scrape_shers.py:57-59, over the awaited tasks in scripts/scrape_shers_async.py:111, over poets in scripts/scrape_poems_list.py:39, and over batches in scripts/scrape_poems_list_async.py:63.
- `print` logging is left out.
- scripts/scrape_poets.py is not part of this model: it only extracts page fields into a CSV.
- The site is deterministic, so a poet listed twice sees the same pages both times. `ScrapePoemsList.AssignSpec` states the "later one wins" rule for arbitrary per-poet values.
- A poet lacking the "ghazals" or "nazms" key in the input list, or a dump whose JSON does not have the expected shape, would raise a `KeyError` or a `TypeError` that the model does not represent. The work list is given already as poet and URL sequences.
- The `__main__` blocks and their file names are left out.
