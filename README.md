# alopekis export pipeline — a Dafny model

alopekis exports the DataCite DOI records held in a search index to compressed
files, one directory per month of `updated` date. This project models the
parts of it that decide what gets written:

- **Serializer** (`serializer.dfy`): `csv_serialize`, the row of the CSV
  summary, and `json_serialize` with its normalisation chain. The chain is
  `wrap_array_fields`, `populate_empty_fields`, `populate_published`,
  `populate_identifiers`, `populate_alternate_identifiers` and
  `convert_is_active`. Then comes the REST-style envelope with its
  `relationships` block. A record is a `map<string, Json>`. Each step returns
  the new record or the Python exception the code would raise.
- **OpenSearch** (`opensearch.dfy`): the client object. `build_query`,
  `filter_fields` and `add_month_filter` update its query. The
  `search_after` paging generator `return_all_results` keeps a timeout
  counter and a failure counter. The index is a script of responses, one per
  `execute()` call. The loop is proved against the function `Run`, and the
  properties of the generator are proved about `Run`.
- **Worker** (`worker.dfy`): one job of `month_worker` and the worker loop.
  A job creates the month directory, builds the query, opens the JSONL and
  CSV files and writes every record. The JSONL file is rotated every 10000
  records, and the final count goes to the results queue. The file system is
  a value. Which directories cannot be created and which files cannot be
  opened is a parameter.
- **Orchestrator** (`orchestrator.dfy`): the main process seeds the work queue
  and the results queue from the monthly date histogram, then queues one
  sentinel per worker. `results_thread` keeps the per-month table of
  expected and final counts. It warns about duplicate reports and writes
  `results.csv` on its sentinel.
- **Py** (`py.dfy`): the slice of Python the rest relies on. It covers
  JSON-like values, truthiness and `==`, the exceptions, and decimal text:
  `str(n)`, `f"{n:0Wd}"` and `int(s)`, with their round trips.

Queues are modelled as the sequence of items in the order one consumer takes
them.

## Model

| member | source | states |
|---|---|---|
| Py.IntToStringRoundTrip | main.py:70 | reading back the decimal text of any integer gives the integer |
| Py.PadIntRoundTrip | alopekis/worker.py:46 | reading back a zero-padded integer gives the integer, for every width and sign |
| Serializer.CsvSerialize | alopekis/serializer.py:5-19 | succeeds exactly when uid, aasm_state, client_id and updated are all present; otherwise `AttributeError` names a missing one; the row has exactly the keys doi, state, client_id, updated, holding those four values |
| Serializer.Wrapped | alopekis/serializer.py:139-143 | a non-list value becomes a one-element list when truthy and an empty list otherwise |
| Serializer.WrapFieldsPointwise | alopekis/serializer.py:138-143 | for any field list, repeats included, the loop keeps the key set, wraps exactly the listed, present, non-list fields and leaves every other entry unchanged |
| Serializer.WrapArrayFields | alopekis/serializer.py:125-144 | same keys; each of the fourteen array fields that is present and not a list is wrapped; everything else is unchanged |
| Serializer.WrapArrayFieldsMakesLists | alopekis/serializer.py:138-143 | afterwards every listed field that is present holds a list |
| Serializer.WrapFieldsIdempotent | alopekis/serializer.py:138-144 | running the wrapping loop twice gives what running it once gives |
| Serializer.WrapArrayFieldsIdempotent | alopekis/serializer.py:125-144 | `wrap_array_fields` is idempotent |
| Serializer.PopulateEmptyFields | alopekis/serializer.py:147-163 | container and types end up present; a missing or falsy one becomes `{}`; a truthy one and every other entry are kept |
| Serializer.PopulateEmptyFieldsIdempotent | alopekis/serializer.py:147-163 | `populate_empty_fields` is idempotent |
| Serializer.IssuedDate | alopekis/serializer.py:183-186 | the loop over `record["dates"]` whatever it holds; no contract of its own: on a list it is `FirstIssued`, and `PublishedRule` states the published date it leads to |
| Serializer.FirstIssued | alopekis/serializer.py:183-186 | the first date entry that raises or has dateType Issued/issued decides the result (`TypeError`, or its `date` or None); with no such entry the result is None |
| Serializer.PyStr | alopekis/serializer.py:189 | `str` of an integer is its decimal text; `str` of a string is the string |
| Serializer.PopulatePublished | alopekis/serializer.py:166-192 | `KeyError('dates')` without dates; on success the key set gains only `published` and every other entry is unchanged |
| Serializer.PublishedRule | alopekis/serializer.py:183-191 | over a list of dates, the first Issued entry's date wins even when it is empty; a falsy result falls back to `str()` of the publication year when that year is truthy, whatever its type (`str` of an integer is its decimal text, of a string the string itself); otherwise, for a missing, null or other falsy year, the falsy result stays |
| Serializer.FilterIdentifiers | alopekis/serializer.py:212 | succeeds exactly when every entry is a dict and (for a non-empty list) doi and url exist; the result is a subsequence of the input in which each entry whose identifier is neither the doi nor the url occurs as often as in the input, and no other entry occurs |
| Serializer.FilterKeepsKept | alopekis/serializer.py:212 | a list whose entries all pass the filter comes back unchanged |
| Serializer.PopulateIdentifiers | alopekis/serializer.py:195-213 | `KeyError` without identifiers; on success only identifiers changes; from a list it becomes exactly what `FilterIdentifiers` keeps of that list, from an empty string or dict it becomes `[]`; every remaining entry is a dict that passes the filter |
| Serializer.KeptIdentifiers | alopekis/serializer.py:212 | after `populate_identifiers`, every remaining entry is a dict whose identifier is neither the record's doi nor its url |
| Serializer.PopulateIdentifiersIdempotent | alopekis/serializer.py:195-213 | `populate_identifiers` is idempotent |
| Serializer.AlternateEntries | alopekis/serializer.py:237-244 | the comprehension over a list; no contract of its own: `AlternateEntriesOfKept` and `AlternatesFollowIdentifiers` state its result |
| Serializer.PopulateAlternateIdentifiers | alopekis/serializer.py:215-245 | `KeyError` without identifiers; on success the key set gains only alternateIdentifiers and every other entry is unchanged |
| Serializer.AlternateEntriesOfKept | alopekis/serializer.py:237-244 | over entries that all pass the filter, the comprehension fails exactly when one lacks `identifier` (with `KeyError('identifier')`), and otherwise maps them one to one, in order |
| Serializer.AlternatesFollowIdentifiers | alopekis/serializer.py:195-245 | after `populate_identifiers`, the alternate identifiers are the kept identifiers, one for one and in order, unless one lacks `identifier`, which raises `KeyError` |
| Serializer.Utf8FirstByte | alopekis/serializer.py:261 | the first UTF-8 byte of a character is 1 exactly when the character is U+0001 |
| Serializer.ConvertIsActive | alopekis/serializer.py:248-262 | `KeyError` when isActive is missing and `IndexError` when it is empty; succeeds exactly on a non-empty string, setting isActive to whether it starts with U+0001 |
| Serializer.CamelizeValue | alopekis/serializer.py:52 | the deep renaming keeps the shape of a value: a list stays a list of the same length, a dict stays a dict whose keys are the renamed keys, any other value is unchanged |
| Serializer.Camelize | alopekis/serializer.py:52 | the keys of the result are the renamed keys of the record |
| Serializer.PopAndRename | alopekis/serializer.py:35-49 | succeeds exactly when all thirteen popped keys exist; otherwise `KeyError` names a missing one; the result is the record without them plus doi, publisher, version and state |
| Serializer.Iterate | alopekis/serializer.py:87 | iterating a list gives its items |
| Serializer.DoiLinks | alopekis/serializer.py:85-89 | a `data` list of the same length and order as the ids, each entry carrying its id with type "dois" |
| Serializer.FinishIdentifiers | alopekis/serializer.py:63-65 | on success the key set gains only alternateIdentifiers |
| Serializer.FinishPublished | alopekis/serializer.py:59-65 | on success the key set gains only published and alternateIdentifiers |
| Serializer.Normalise | alopekis/serializer.py:54-65 | on success the chain adds exactly container, types, published and alternateIdentifiers to the key set |
| Serializer.Document | alopekis/serializer.py:68-72 | the envelope has exactly id, type, attributes and relationships; id is the doi, type is "dois", attributes is the record |
| Serializer.Relationships | alopekis/serializer.py:72-120 | the `relationships` block; no contract of its own: `RelationshipLists` states its nine entries |
| Serializer.JsonSerialize | alopekis/serializer.py:22-122 | a missing popped key raises as the pops do; on success the result is the envelope around the normalised camel-cased record and the relationships block |
| Serializer.JsonEnvelope | alopekis/serializer.py:68-72 | a serialized document's id is its attributes' doi and its type is "dois"; for a camel-casing that never yields one of them, none of the nine relationship keys is left in attributes |
| Serializer.CamelizeNeverYields | alopekis/serializer.py:52 | a key the renaming never produces is not in the camel-cased record |
| Serializer.NormaliseAddsOnly | alopekis/serializer.py:54-65 | normalisation adds no key but the four it populates |
| Serializer.RelationshipLists | alopekis/serializer.py:85-119 | each related-id list becomes, under its relationship name, a `data` list of DOI links of the same length and order |
| OpenSearch.DaysInMonth | alopekis/opensearch.py:157 | the length of a month: 29 exactly for February of a leap year, 28 for February otherwise, 31 exactly for the seven long months |
| OpenSearch.MonthRange | alopekis/opensearch.py:156-158 | the month filter is a range on `updated` |
| OpenSearch.MonthRangeBounds | alopekis/opensearch.py:156-158 | both bounds start with the year, the two-digit month and the day; the lower one is day 01 at 00:00:00Z and the upper one is the last day at 23:59:59Z; year, month and day read back as themselves |
| OpenSearch.OpenSearchClient.constructor | alopekis/opensearch.py:29 | a new client has no query |
| OpenSearch.OpenSearchClient.BuildQuery | alopekis/opensearch.py:79-88 | the query becomes the base query: DataCite agency, findable or registered, sorted by updated then uid, 1000 per page, no total count |
| OpenSearch.OpenSearchClient.FilterFields | alopekis/opensearch.py:91-151 | the query (built first if absent) asks for the `_source` field list and is otherwise unchanged |
| OpenSearch.OpenSearchClient.AddMonthFilter | alopekis/opensearch.py:153-158 | a month outside 1..12 raises `ValueError` and leaves the (built) query unfiltered; otherwise the month's range is appended to the filters |
| OpenSearch.OpenSearchClient.ReturnAllResults | alopekis/opensearch.py:37-77 | the paging loop yields what `Run` yields from the query's `search_after`, and leaves the query at the `search_after` of its last request |
| OpenSearch.Run | alopekis/opensearch.py:44-77 | the generator from one request on; no contract of its own: `ReturnAllResults` proves the loop equal to it, and `TimeoutsNeverEscape`, `RunResumes`, `RunCursors`, `RunRetries`, `RunCounts`, `StreamFinishes` and `TimeoutsGiveUp` state its properties |
| OpenSearch.Failure | alopekis/opensearch.py:69-77 | the `except` branch; no contract of its own: the lemmas about `Run` cover it, `TimeoutsGiveUp` and `StreamFinishes` state when it gives up |
| OpenSearch.TimeoutsNeverEscape | alopekis/opensearch.py:63-73 | the generator never ends with `TooManyTimeouts`: it is raised inside the `try` and counted as a failure |
| OpenSearch.RunResumes | alopekis/opensearch.py:44-57 | the first request carries the starting cursor; the last carries the sort values of the last hit yielded, or the starting cursor when none was (every request in between is stated by `RunCursors`) |
| OpenSearch.RunCursors | alopekis/opensearch.py:44-77 | each request is answered by the response at its position: request `i` carries the sort values of the last hit of the last non-empty page among the first `i` responses, or the starting cursor when there is none; there are at most one more requests than responses |
| OpenSearch.RunRetries | alopekis/opensearch.py:53-77 | after a non-empty page the next request carries the sort values of that page's last hit; after a timeout or an exception the request is retried with the same `search_after` |
| OpenSearch.RunCounts | alopekis/opensearch.py:39-77 | counters are never reset: up to the first empty page, each raised response and each timeout past the tenth is a failure; the stream runs to the end exactly when failures stay within ten, and then it yields every page's hits in order and reports both counters |
| OpenSearch.StreamFinishes | alopekis/opensearch.py:37-77 | from fresh counters, the generator finishes exactly when raised responses plus timeouts beyond the tenth number at most ten before the first empty page, yielding all hits; otherwise it ends with `TooManyFailures` |
| OpenSearch.TimeoutsGiveUp | alopekis/opensearch.py:60-77 | a backend that only times out is asked a fixed number of further times, yields nothing, and ends with `TooManyFailures` after the eleventh failure |
| OpenSearch.TwentyOneTimeouts | alopekis/opensearch.py:60-77 | a backend that always times out is asked 21 times before `TooManyFailures` |
| OpenSearch.FieldListCoversSerializers | alopekis/opensearch.py:93-149 | the fetched field list includes every key `json_serialize` pops, the four fields `csv_serialize` reads, and the search-index field behind every key the normalisation chain reads (the fourteen array fields, container, types, publicationYear, doi, url, isActive) |
| Worker.OutputDir | alopekis/worker.py:46 | the month's directory `updated_{year}-{MM}`; no contract of its own: `MonthPaths` and `PathsDistinct` state its properties |
| Worker.JsonPath | alopekis/worker.py:63 | the JSONL part path with the four-digit file index; no contract of its own: `MonthPaths` and `PathsDistinct` state its properties |
| Worker.CsvPath | alopekis/worker.py:64 | the month's CSV path; no contract of its own: `MonthPaths` and `PathsDistinct` state its properties |
| Worker.MonthPaths | alopekis/worker.py:46-64 | the month's JSONL part file and CSV file are different paths |
| Worker.PathsDistinct | alopekis/worker.py:63-64 | a JSONL part path never equals the month's CSV path |
| Worker.SerializeHit | alopekis/worker.py:87-91 | every record gets its CSV row; it is findable exactly when aasm_state is "findable", and only then is its document made |
| Worker.DocLine | alopekis/worker.py:90-92 | a findable record adds its document as one JSON line; any other adds nothing |
| Worker.FirstFail | alopekis/worker.py:83-107 | the position of the first record whose row or document raises: every record before it serializes, and it is past the end when none fails |
| Worker.FeedOne | alopekis/worker.py:84-104 | one pass of the record loop; no contract of its own: `FeedStep`, `FeedRows` and `FeedJson` state its effect |
| Worker.Feed | alopekis/worker.py:83-107 | the record loop as a function; no contract of its own: `WriteRecords` proves the loop equal to it, and `FeedFails`, `FeedNoError`, `FeedRows` and `FeedJson` state what it writes |
| Worker.FeedFails | alopekis/worker.py:83-107 | the record loop raises exactly when some record's row or document raises, and then with the first such record's exception |
| Worker.FeedNoError | alopekis/worker.py:83-107 | a loop that ends without an exception met no failing record |
| Worker.LastRotation | alopekis/worker.py:98-104 | the position of the last rotation among the records: it falls on a multiple of 10000, and no later record brings the count to one (0 when none does) |
| Worker.FeedRows | alopekis/worker.py:83-87 | without a failing record the loop runs to the end and the CSV file gets every record's row, in order |
| Worker.FeedJson | alopekis/worker.py:89-104 | without a failing record the JSONL file holds the findable documents after the last rotation, or all of them appended when no rotation happens |
| Worker.JobSpec | alopekis/worker.py:45-118 | one job from the stream the index's script gives; no contract of its own: `RunJob` proves the method equal to it, `JobCompleted`, `JobFatal` and `JobCount` state its outcomes |
| Worker.RunJob | alopekis/worker.py:45-118 | one job is the function `JobSpec`: directory, query, the two files, then the record loop over the stream's hits |
| Worker.WriteRecords | alopekis/worker.py:83-107 | the lines each file holds and the exception are what the loop function `Feed` gives; when no record fails, `current_file_index` ends at the number of records divided by 10000 |
| Worker.JobOn | alopekis/worker.py:45-118 | one job once its records are serialized; no contract of its own: `RunJob` proves the method equal to it, `JobCompleted` and `JobFatal` state its outcomes |
| Worker.JobCompleted | alopekis/worker.py:45-118 | a completed job reports the number of records streamed and the stream was exhausted; the directory exists; only its two files change; the CSV file holds the header and one row per record; the JSONL file holds the findable records after the last multiple of 10000 |
| Worker.JobFatal | alopekis/worker.py:80-118 | once the files are open, the job fails with `FatalWorkerError` exactly when the stream gives up or a record cannot be serialized |
| Worker.MonthWorker | alopekis/worker.py:16-118 | the worker loop is the function `Work` over the queue items it takes |
| Worker.Work | alopekis/worker.py:31-118 | the worker loop as a function; it takes at most the items queued; `MonthWorker` proves the loop equal to it and `WorkerReports` states its events |
| Worker.WorkerReports | alopekis/worker.py:31-112 | the worker reports one final event per completed job, in queue order, with the count its stream yielded; it takes nothing after its sentinel; it stops at a fatal or uncaught error |
| Orchestrator.MonthKey | main.py:70 | the key `f"{year}-{month}"`, without padding; no contract of its own: `MonthKeyInjective` states that it is injective |
| Orchestrator.MonthKeyInjective | main.py:70 | two months with the same `year-month` key are the same month |
| Orchestrator.Put | main.py:70-77 | one result filed in the table; no contract of its own: `FileStep`, `AggregateLookup`, `AggregateSeen` and `AggregateOrder` state its effect |
| Orchestrator.Aggregate | main.py:53-77 | the table's key list and its dict hold the same keys |
| Orchestrator.LastCountIsLast | main.py:77 | a month and status have a last count exactly when some result reported them, and it is the count of the latest such result |
| Orchestrator.FileStep | main.py:70-77 | filing one more result is one update of the table and at most one warning |
| Orchestrator.AggregateLookup | main.py:77 | last write wins: for every month and status the table holds the count of the last result reported for them, and nothing for a pair never reported |
| Orchestrator.AggregateSeen | main.py:71-72 | the table has a row for exactly the months reported |
| Orchestrator.AggregateOrder | main.py:71-72 | the table's keys come in order of each month's first report, so each appears once |
| Orchestrator.Warned | main.py:73-75 | the warning one result logs; no contract of its own: `FileStep` shows it is the warning of each filing step, and `WarningsStep` states when it logs one |
| Orchestrator.Warnings | main.py:65-75 | the warnings logged while results are filed, in order; no contract of its own: `WarningsStep`, `WarningsIffDuplicates` and `NoWarningsIffDistinct` state its properties |
| Orchestrator.WarningsStep | main.py:73-75 | a result logs a warning exactly when its month already has a count for its status, with that previous count and the new one |
| Orchestrator.WarningsIffDuplicates | main.py:73-75 | no warning is logged exactly when no month reports the same status twice |
| Orchestrator.NoWarningsIffDistinct | main.py:70-75 | over the results queue's events, no warning is logged exactly when no two events share year, month and status |
| Orchestrator.ReportOf | main.py:60-62 | the report a table gives; no contract of its own: `ReportLines`, `ReportStops` and `ReportComplete` state its lines and its error |
| Orchestrator.ReportLines | main.py:60-62 | results.csv gets one `key,expected,final` line per complete month, in key order, up to the first incomplete one, and one for every month when writing does not stop |
| Orchestrator.ReportStops | main.py:61-62 | writing stops exactly when some month lacks a count, at the first such month, with `KeyError('expected')` if it lacks that one and `KeyError('final')` otherwise |
| Orchestrator.WriteReport | main.py:60-62 | the writing loop gives the report function `ReportOf` of the table |
| Orchestrator.File | main.py:65-77 | one pass of the loop on a result: the table update `Put` and the warning `Warned` |
| Orchestrator.ResultsThread | main.py:42-77 | the table and warnings are those of the results before the first sentinel; with a sentinel it writes the report of that table, without one it stays blocked |
| Orchestrator.ReportComplete | main.py:53-77 | when every month reported has both counts, the report is complete: one line per month, in order of first report, holding the last counts reported |
| Orchestrator.Split | main.py:115 | `str.split` on one character gives at least one part; `SplitTwo` states its result on `a-b` |
| Orchestrator.ParseBucket | main.py:115-118 | a bucket's key split and read as two integers; no contract of its own: `LabelRoundTrip` states that a `yyyy-MM` key parses back |
| Orchestrator.Seed | main.py:114-143 | the seeding as a function; no contract of its own: `SeedQueues` proves the loops equal to it and `SeedShape` states its jobs, expected events and sentinels |
| Orchestrator.SplitTwo | main.py:115 | splitting `a-b` on `-`, where neither part holds a dash, gives the two parts |
| Orchestrator.LabelRoundTrip | main.py:114-118 | a histogram key `yyyy-MM` parses back to its year and month, with the bucket's count |
| Orchestrator.Sentinels | main.py:142-143 | one `None` per worker |
| Orchestrator.SeedQueues | main.py:114-143 | the seeding loops give the function `Seed` of the buckets |
| Orchestrator.SeedShape | main.py:114-143 | one job and one expected event per bucket, in order, up to the first bucket that does not parse; seeding succeeds, with one sentinel per worker after the jobs, exactly when every bucket parses; otherwise it fails with that bucket's exception and queues no sentinel |

## Left out

- Logging and its queue handlers, `time.sleep` between retries, and the logging thread (main.py) are not modelled: they change nothing the model observes.
- Gzip compression, `ujson.dumps` and the CSV writer's quoting are not modelled: files hold lines as values (`CsvHeader`, `CsvRow`, `JsonLine`).
- Buffering and `flush`, `task_done`, and the process and thread joins are not modelled.
- `WORKERS` is taken to be the default integer 32 of alopekis/config.py:15 (a `nat` parameter). When the environment sets it, `getenv` gives a string and `range(WORKERS)` raises `TypeError`; that path is not modelled.
- Concurrency is not modelled. A queue is the sequence of items one consumer takes. Interleavings of several workers on one queue are out of scope.
- The index's aggregation query and its failure path (`exit(1)`, main.py:103-112) are not modelled, and neither is the "Expected total count" log (main.py:128). Seeding starts from the list of histogram buckets.
- The index is a function from a job to its script of responses. Once the script is used up, the index answers an empty page.
- The JSONL reopen at rotation cannot fail in the model: the same path was opened successfully just before.
- The record stream is consumed in full before the loop writes. Python's generator interleaves the two, but the files end the same way.
- Serializer.Camelize: `humps.camelize` is a parameter required to be injective on keys. Its exact casing rules are not modelled.
- Python dict order is not modelled for records (a `map`). Iterating a non-empty dict where a list is expected gives `UnorderedIteration`. The results table keeps its keys in insertion order explicitly.
- `str()` of lists and dicts is not modelled; `PyStr` gives `ReprNotModelled` for them.
- `int()` is modelled on an optional sign and ASCII digits only. Whitespace, underscores and non-ASCII digits are not accepted.
- Floating-point values in records are not modelled; JSON numbers are integers.
- Worker.RunJob: the client is built inside the job, as in the code, but the file system is a value returned by the method rather than updated in place.
- OpenSearch.OpenSearchClient.FilterFields: the query's `_source` setting is modelled as the field list only.

Where a reader of the code might expect other behaviour, the model follows
what the code does:
- `results_thread` only records counts and writes `key,expected,final`
  (main.py:60-62): three columns, and no month is compared or regenerated.
- `TooManyTimeouts` never reaches the worker. The TODO at
  alopekis/opensearch.py:51-52 suspects it; the raise at line 65 is inside the
  `try`, so the `except Exception` counts it as a failure, and a backend that
  always times out is asked 21 times.
- The timeout and failure counters are never reset by a successful page
  (alopekis/opensearch.py:39-40).
- The comment at alopekis/worker.py:102 says "open the next file", but the
  reopen uses the same `json_file_path`, truncating it. The JSONL file ends
  with only the findable records after the last multiple of 10000.
