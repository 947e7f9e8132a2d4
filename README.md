# Daily digest generator: a Dafny model

This project models the core of `generate_digest.py`, the script that builds a daily digest page from JSON feeds. It covers these steps:

- `fetch_items` reads every configured source. A source whose URL is empty or a placeholder is skipped. Otherwise the feed is requested, and each entry becomes a normalised item, with each field taken from the first non-empty of its aliases.
- When nothing was fetched, the bundled sample is used instead.
- Items are deduplicated by `fingerprint`, the MD5 of `source|title|date`. The first item with each fingerprint is kept, in order.
- The defaults `tags`, `idea_title` and `idea_outline` are filled in with `setdefault`.
- `render_html` builds one card per item. Only whether that raises is modelled, together with the card's heading.
- `write_csv` writes a header and one seven-field row per item.

JSON values are the datatype `PyJson.Json`, and dicts are `map<string, Json>`. The Python semantics the script relies on are written out in `pyjson.dfy`:

- truthiness;
- `dict.get`;
- the `a or b or c` chain;
- `str.strip()`, using Python's whitespace set;
- slicing `[:n]` on a value that may not be sliceable;
- `sep.join`;
- the text `str()` and f-strings give.

An exception that escapes to the top of the script before any file is written is modelled as `None`, meaning the run ends there. An exception in a CSV row, after the page and the JSON file are written, is reported as the CSV being incomplete. The modules are:

- `PyJson` (`pyjson.dfy`): values and Python semantics.
- `Fingerprints` (`fingerprint.dfy`): the fingerprint.
- `Feed` (`feed.dfy`): fetching and normalisation. The network is the parameter `fetch`.
- `Dedup` (`dedup.dfy`): deduplication.
- `Defaults` (`defaults.dfy`): the default fill.
- `CsvExport` (`csv.dfy`): the CSV rows.
- `Render` (`render.dfy`): when a card of the page raises, and its heading.
- `Pipeline` (`digest.dfy`): `main`, from the fetch to the CSV.

Five behaviours of the code are easy to miss, and the model keeps them as the code has them:

- **A top-level list payload yields no items.** The code calls `data.get(...)` before looking at whether `data` is a list, so a list payload raises `AttributeError`. That exception is caught per source, and the source contributes nothing. `Feed.PayloadEntries` and `Feed.FailingSourceIsolated` state this.
- **Fingerprinting can end the run.** A truthy `publish_time` that is neither a string nor a list, such as an epoch number, makes `[:10]` raise in `fingerprint`. `fingerprint` has no `try` and `main` catches nothing, so the whole run ends there. `Fingerprints.NumericDateRaises` and `Dedup.Deduplicate` state this.
- **The page can end the run.** `render_html` runs before `write_json` and `write_csv`. A kept item whose `tags` or `idea_outline` is a truthy number or boolean cannot be looped over, so the page raises and neither file is written. `Pipeline.ScalarTagsEndRun` gives such a run. `Pipeline.FetchedRunComplete` shows this cannot happen to fetched items.
- **A null source or title is not read as empty.** `fingerprint` reads the fields with `get('source','')` and no `or ""`, so a `null` value enters the key as the text `None`. An item with `"source": null` therefore gets a different fingerprint from one with `"source": ""`. `Fingerprints.NullSourceReadsNone` states this.
- **Distinct triples can share a fingerprint.** The three fields are joined with `|`, so when `source` or `title` contains `|`, two different triples give the same key. `Fingerprints.BarInTitleCollides` gives such a pair. `Fingerprints.FingerprintIff` proves the key is injective when neither field contains `|`.

## Model

| member | source | states |
|---|---|---|
| PyJson.FirstTruthyIsFirst | generate_digest.py:41-45 | `a or b or ... or ""` gives the first truthy operand; when none is truthy it gives the last operand |
| PyJson.StripStartSuffix | generate_digest.py:42 | lstrip keeps a suffix, removes only white space, and leaves no leading white space |
| PyJson.StripEndPrefix | generate_digest.py:42 | rstrip keeps a prefix, removes only white space, and leaves no trailing white space |
| PyJson.StripTrims | generate_digest.py:42 | `strip()` keeps a contiguous slice, removes only white space on both sides, and the result neither starts nor ends with white space |
| PyJson.StripIdempotent | generate_digest.py:42 | stripping twice equals stripping once |
| PyJson.Join | generate_digest.py:88-90 | `sep.join` of no texts is "", of one text that text; otherwise it starts with the first text followed by the separator |
| PyJson.IntTextInjective | generate_digest.py:15 | `str()` gives different integers different texts, and the text starts with `-` exactly for negative numbers |
| PyJson.Str | generate_digest.py:15 | `str()` and f-string text: None is `None`, booleans `True`/`False`, integers their decimal text, strings themselves, lists a bracketed text |
| PyJson.Repr | generate_digest.py:15 | inside a list a string is printed between two equal quote characters; any other value as `str()` prints it |
| PyJson.Take | generate_digest.py:14 | `s[:n]` is a prefix of `s` of length `min(n, len(s))` |
| PyJson.PrefixOf | generate_digest.py:14 | `(v or "")[:n]` raises exactly for truthy values that are neither strings nor lists; a string is cut to at most `n` characters |
| Fingerprints.Key | generate_digest.py:14-15 | the key exists exactly when the date part can be sliced, and it contains the separator |
| Fingerprints.Fingerprint | generate_digest.py:13-16 | the fingerprint is undefined (Python raises) exactly when the date part cannot be sliced |
| Fingerprints.SameTripleSameFingerprint | generate_digest.py:13-16 | items that agree on source, title and date part get the same fingerprint, for any hash |
| Fingerprints.NullSourceReadsNone | generate_digest.py:15 | a null source enters the key as `None`, an empty one as nothing |
| Fingerprints.TextItemKey | generate_digest.py:14-15 | for string fields the key is source, title and the first ten characters of publish_time, joined by bars |
| Fingerprints.KeyTextInjective | generate_digest.py:15 | a key whose source and title contain no bar determines all three parts |
| Fingerprints.FingerprintIff | generate_digest.py:13-16 | with an injective hash and no bar in source or title, fingerprints are equal exactly when source, title and date part are equal |
| Fingerprints.BarInTitleCollides | generate_digest.py:15 | a bar moved from source to title gives a different triple with the same key |
| Fingerprints.NumericDateRaises | generate_digest.py:14 | a non-zero number as `publish_time` makes `fingerprint` raise |
| Dedup.SeenKeys | generate_digest.py:105-107 | while fingerprints exist, `fp in seen` holds exactly when a kept item has that fingerprint |
| Dedup.SeenSnoc | generate_digest.py:107 | `seen.add(fp)` after `uniq.append(it)` keeps `seen` equal to the fingerprints of `uniq` |
| Dedup.KeepFirstKeys | generate_digest.py:103-107 | the kept items carry exactly the fingerprints of the input |
| Dedup.KeepFirstDistinct | generate_digest.py:103-107 | no two kept items share a fingerprint |
| Dedup.KeepFirstSubsequence | generate_digest.py:103-107 | the kept items are a subsequence of the input, in input order |
| Dedup.KeepFirstFirstOccurrence | generate_digest.py:103-107 | an item is kept exactly when no earlier item has its fingerprint |
| Dedup.KeepFirstLength | generate_digest.py:103-107 | as many items are kept as there are distinct fingerprints |
| Dedup.KeepFirstIdempotent | generate_digest.py:103-107 | deduplicating twice equals deduplicating once |
| Dedup.DistinctKeepsAll | generate_digest.py:103-107 | an input with no repeated fingerprint is kept whole |
| Dedup.SharedKeyExample | generate_digest.py:103-107 | `[A, B, A']`, where A and A' share a fingerprint, gives `[A, B]` |
| Dedup.Deduplicate | generate_digest.py:103-107 | the loop raises exactly when some item has no fingerprint; otherwise it returns the first-occurrence list `KeepFirst` |
| Feed.Iterate | generate_digest.py:39 | `for it in arr` yields a list's elements or a string's one-character strings; any other value yields no entry |
| Feed.PayloadEntries | generate_digest.py:38-39 | a non-dict payload (a list included) gives no entries; a dict without `items` gives none; a dict with an `items` list gives its elements |
| Feed.NormalizeFields | generate_digest.py:40-46 | an appended item has exactly the five keys; each field is the first truthy alias or ""; the title is the raw title with white space trimmed at both ends |
| Feed.BuiltSourceTitle | generate_digest.py:41-42 | `source` is the first truthy of name and entry source; `title` is the trimmed title |
| Feed.BuiltOthers | generate_digest.py:43-45 | `summary`, `link` and `publish_time` are the first truthy of their aliases, in order |
| Feed.Collect | generate_digest.py:39-47 | the appended results are those of the elements before the first one that raises, each in its place |
| Feed.NonListItemsYieldNothing | generate_digest.py:38-39 | an `items` value that is not a list (a string, a dict, a number) appends nothing |
| Feed.FetchAllAppend | generate_digest.py:30-49 | the items of `a + b` are those of `a` followed by those of `b`, in source-then-entry order |
| Feed.FetchAllRaises | generate_digest.py:30-33 | `fetch_items` raises exactly when some source raises outside the `try` (a non-dict source, or a truthy non-string URL) |
| Feed.SkippedSourceNotFetched | generate_digest.py:31-33 | a source with an empty or placeholder URL contributes nothing, whatever the network returns |
| Feed.AllSkippedFetchesNothing | generate_digest.py:30-33 | when every source is skipped, `fetch_items` returns `[]` |
| Feed.FailingSourceIsolated | generate_digest.py:34-48 | a failing request or a list payload leaves the items of the other sources as they were |
| Feed.ItemsPayload | generate_digest.py:37-46 | a dict payload with an `items` list contributes its entries' normalisations up to the first that raises |
| Feed.AllEntriesKept | generate_digest.py:39-46 | when no entry raises, there is one item per entry, each that entry's normalisation |
| Feed.PartialResultsKept | generate_digest.py:39-48 | items appended before a raising entry stay; nothing after it is appended |
| Feed.SourceItemKeys | generate_digest.py:34-46 | every item a source contributes has exactly the five keys |
| Feed.FetchedItemKeys | generate_digest.py:28-49 | every item `fetch_items` returns has exactly the five keys |
| Feed.AppendEntries | generate_digest.py:39-46 | the inner loop appends the results `Collect` lists to `items` |
| Feed.FetchSource | generate_digest.py:31-48 | one turn of the outer loop appends this source's items, or raises, as `SourceItems` says |
| Feed.FetchItems | generate_digest.py:28-49 | `fetch_items` returns `FetchAll`: every source's items, source after source, or raises |
| Defaults.IdeaTitle | generate_digest.py:112 | the idea title is a non-empty string holding `str()` of the title after two characters and before six |
| Defaults.IdeaTitleText | generate_digest.py:112 | those two characters are `从《` and those six `》看落地路径` |
| Defaults.SetDefault | generate_digest.py:111-113 | `setdefault` adds the key with the default when it is absent; otherwise it changes nothing |
| Defaults.Filled | generate_digest.py:110-113 | the filled item has the old keys plus the three; present values are unchanged, even when falsy; absent keys get the default tags, the title-derived idea title and the five-point outline |
| Defaults.FilledIdempotent | generate_digest.py:110-113 | filling twice equals filling once |
| Defaults.FilledTruthy | generate_digest.py:110-113 | each of the three keys is truthy after the fill, unless the item brought its own value, which is kept |
| Defaults.EmptyTagsStay | generate_digest.py:111 | an existing empty tag list is not replaced |
| Defaults.TitleOnlyItem | generate_digest.py:112 | an item with only a title gets `从《title》看落地路径` |
| Defaults.FillDefaults | generate_digest.py:110-113 | the loop replaces each array element by its filled form |
| CsvExport.CsvText | generate_digest.py:86-92 | the writer writes None as an empty field, a string as itself and an integer as its decimal text |
| CsvExport.JoinField | generate_digest.py:88 | `sep.join(v or [])` gives "" for falsy values and raises for a list holding a non-string, a number or a boolean |
| CsvExport.Row | generate_digest.py:85-93 | a row has the seven header fields; fields 0, 1 and 6 are the source, title and link as written; it raises exactly when the tags or outline cannot be joined or the publish time cannot be sliced |
| CsvExport.PublishTimeColumn | generate_digest.py:91 | a string publish time is written as a prefix of at most 19 characters |
| CsvExport.NonTextTagRaises | generate_digest.py:88 | a non-string tag makes the row raise |
| CsvExport.SplitJoin | generate_digest.py:88 | splitting a joined list at the separator gives the list back when no element holds the separator |
| CsvExport.TagsRoundTrip | generate_digest.py:88 | the tags field, split at "、", gives the item's tags back |
| CsvExport.WriteCsv | generate_digest.py:83-93 | the header, then each item's row, up to the first row that raises; complete exactly when no row raises |
| Render.RenderCards | generate_digest.py:57-72 | the card loop gets through exactly when every item's card can be built |
| Render.ScalarListStops | generate_digest.py:58-61 | a truthy number or boolean as tags or outline makes the card raise |
| Render.RowRenders | generate_digest.py:58-65 | an item whose CSV row can be built also has a card |
| Render.CardWithoutRow | generate_digest.py:60 | a tag list holding a number is printed in the card but makes the row raise |
| Render.Heading | generate_digest.py:64 | the heading is the idea title when it is truthy, else the title |
| Render.FilledHeading | generate_digest.py:64 | an item that came without an idea title is headed by the one built from its title |
| Render.EmptyIdeaTitleHeading | generate_digest.py:64 | an empty idea title survives the fill, and the card is headed by the title |
| Pipeline.FilledFingerprint | generate_digest.py:110-113 | the default fill does not change an item's fingerprint |
| Pipeline.ProcessedDistinct | generate_digest.py:103-113 | the written items have pairwise distinct fingerprints, cover every fingerprint of the input, and number as many as the distinct fingerprints |
| Pipeline.FallbackToSample | generate_digest.py:98-100 | when `fetch_items` returns nothing, the output is the sample, deduplicated and filled |
| Pipeline.AllSkippedUsesSample | generate_digest.py:98-100 | in particular when every source is skipped |
| Pipeline.FetchedUsed | generate_digest.py:98-100 | when some item was fetched, the sample is not read |
| Pipeline.DefaultTagsText | generate_digest.py:88 | the default tags are written as `行业观察` |
| Pipeline.DefaultOutlineText | generate_digest.py:90 | the default outline is written as its five points separated by a spaced bar |
| Pipeline.FilledItemRow | generate_digest.py:85-93 | a filled item without its own defaults has a row with the default tag, the idea title built from its title and the default outline |
| Pipeline.NormalizedLacksDefaults | generate_digest.py:40-46 | a normalised item has none of the three default keys |
| Pipeline.ScalarTagsEndRun | generate_digest.py:58-60 | with no sources and a sample item whose tags are the number 1, every fingerprint exists but the page raises, so nothing is written |
| Pipeline.CsvMatchesItems | generate_digest.py:84-93 | when every row is written, CSV row `i + 1` carries the source, title and link of item `i` of the JSON file |
| Pipeline.FetchedItemWritten | generate_digest.py:110-113 | a fetched item with a fingerprint gets a card and a CSV row once filled |
| Pipeline.FetchedRunComplete | generate_digest.py:98-122 | when something was fetched and no fingerprint raised, the page renders and every CSV row is written |
| Pipeline.GenerateDigest | generate_digest.py:98-122 | `main` ends before any file is written exactly when `fetch_items`, a fingerprint or a card of the page raises; otherwise it writes `DigestItems`, and CSV rows that match `WriteCsv` |

## Left out

- **Network.** The HTTP request, its 10-second timeout and the lossy UTF-8 decoding are not modelled. `json.loads` is not modelled either. These are the parameter `fetch`, which gives each URL either a failure or a parsed payload. The parameter gives the same answer every time a URL is requested.
- **Input files.** Reading `sources.json` and the sample file is not modelled. `load_sources` returning `[]` on a read error corresponds to passing empty `sources`. A sample that is not a list of dicts is not modelled. Nor is a `sources.json` whose top level is a dict: Python iterates its keys, `s.get` raises on the first one outside the `try`, and the run ends; `sources` is a list.
- **Everything else in `main`.** These are not modelled: logging with `print`, `ensure_dirs`, the UTC date, the page text and the template with `tpl.format`, `write_json`, the HTML files and the `DAILY_SCHEDULE` environment variable. Of `render_html` only whether a card raises and the card's heading are modelled.
- **Lone surrogates.** Strings are Dafny strings, which cannot hold a lone UTF-16 surrogate. `json.loads` produces one from a `"\ud800"` escape in a feed. `key.encode("utf-8")` in `fingerprint` then raises and ends the run, and so would the UTF-8 file writes. That way of ending the run is not modelled.
- Fingerprints.Fingerprint: it is undefined exactly when the date part cannot be sliced. The further exception for a lone surrogate in the key is not modelled (see above).
- **MD5.** MD5 is any function `hash`. The properties that need an injective hash take injectivity as a hypothesis.
- **Floats.** JSON numbers are integers.
- **Dict order.** Dict key order is not kept, because objects are maps.
- PyJson.Str: it is exact for strings, None, booleans and integers. Lists are rendered without `repr`'s escaping, and a non-empty dict is a fixed placeholder. So two items whose `source` or `title` are different non-empty dicts get the same key in the model, where Python's keys differ, and the model's dedup can drop an item that Python keeps. A feed entry with a dict `source`, from a source without a `name`, reaches this case.
- PyJson.Repr: a string in a list is put between quotes as it is. Python's `repr` also escapes backslashes, control characters, and a quote when both kinds occur.
- CsvExport.JoinField: a non-empty dict value is taken to raise. Python would join its keys in insertion order, which a map does not keep.
- Feed.Iterate: a dict used as `items` lists no entries. Python iterates its keys, but each key is a string, which raises before anything is appended, so the result is the same.
- CsvExport.Row: it is the list of field texts given to the writer. The CSV quoting and the file are not modelled.
- Defaults.FillDefaults: it works on an array of the kept dicts, replacing each element by its filled form. In Python the same dict objects are also reachable from `items`. That aliasing is not modelled.
- Pipeline.GenerateDigest: its result includes the CSV rows. When a row raises, the exception after the partial CSV file is reported only as `complete` being false. An exception from the template substitution, which reads a file, is not modelled.
