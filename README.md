# SiteScan store and job worker in Dafny

SiteScan records archaeological artifacts. Each artifact has an image, OCR text, labels,
a reconstruction and site metadata. They live in a three-table SQLite store (`db.py`):
- `artifacts`, one row per id, written by upsert;
- `changes`, an append-only log of every upsert;
- `jobs`, a queue of reconstruction jobs with an auto-increment id.

The Streamlit application (`app.py`) has three parts that matter here:
- a background worker that claims pending jobs five at a time, calls a reconstruction
  provider for each, and records the outcome;
- a capture form that parses comma-separated tags;
- a detail view where an editor can save OCR text, add a note, regenerate a reconstruction
  or submit a GenAI job.

`app.py` holds two versions of the script one after the other. The first has its worker at
app.py:208-239 and its detail view at app.py:132-160. The second has them at app.py:486-529
and app.py:422-468. The model covers both, as `Worker.Version` (`V1`, `V2`).

What the model does with each part:
- The store is a class, `Storage.Store`. Its fields are the three tables and the job id
  counter.
- Its writes are methods: `InsertArtifact`, `CreateJob`, `UpdateJob` and `MergeDbFile`.
  Each is proved equal to a function on the whole store: `Tables.Inserted`,
  `Tables.JobCreated`, `Tables.JobUpdated` and `Merge.Merged`.
- Each write also keeps the store invariant `Tables.Valid`:
  - at most one row per artifact id;
  - stored JSON text that decodes;
  - job ids that increase and never pass the counter.
- The read queries are functions (`Tables.GetArtifact`, `Tables.GetJob`, the `Queries`
  module). Each is a filter, an order on a timestamp and a LIMIT.
- JSON is a concrete printer and parser, `JsonText.Encode` and `JsonText.Decode`, proved
  to round-trip.
- The worker's pass over one batch is a method on the store, `Worker.WorkerPass`. It is
  proved equal to `Worker.RunBatch`, and the lemmas about the job state machine are stated
  on that function.
- A provider is a function from the chosen provider and the record to an outcome: a path,
  nothing, or a raised error.
- The detail-view edits are methods on the store, behind the `can_edit` gate
  (`Edits` module).
- Tag parsing is a pure function (`Tags` module).

Timestamps are ISO texts compared as SQLite compares text. A NULL `created_at` sorts below
every text.

## Model

| member | source | states |
|---|---|---|
| JsonText.Encode | db.py:67-69 | no contract of its own; `json.dumps` as the printer; JsonText.DecodeEncode and JsonText.EncodeInjective state what it promises |
| JsonText.Decode | db.py:91-92 | no contract of its own; `json.loads` as the parser; JsonText.DecodeEncode states that it reads back what Encode wrote |
| JsonText.DecodeEncode | db.py:67-69 | `json.loads` of what `json.dumps` wrote gives the same value back, for every JSON value |
| JsonText.EncodeInjective | db.py:67-69 | two values with the same encoding are equal, so stored text determines the value |
| JsonText.Lookup | app.py:439 | `dict.get` finds a value exactly when the key is present, and the value is one stored under that key |
| JsonText.Assign | app.py:440 | `md['notes'] = v` makes the key read `v` and leaves every other key as it was |
| Tables.Inserted | db.py:74-80 | an upsert never alters or removes an existing change row |
| Tables.ReadStored | db.py:83-93 | the row `insert_artifact` writes for a record reads back as that record |
| Tables.GetArtifact | db.py:83-93 | the answer is "missing" exactly when no row has the id, and a found record carries the asked id |
| Tables.ReadRow | db.py:89-93 | no contract of its own; the decoding of a row by `get_artifact`; Tables.ReadStored and Tables.ValidReadable state what it gives |
| Tables.InsertThenGet | db.py:56-72 | after `insert_artifact(r)`, `get_artifact(r.id)` gives `r`; other ids read as before; jobs and the job counter are unchanged |
| Tables.InsertLogsChange | db.py:74-80 | the old log is a prefix of the new one. A truthy `created_at` appends exactly one row: the record's id, `'upsert'`, the encoded record, and `changed_at` equal to the record's `created_at`. Otherwise nothing is appended |
| Tables.InsertedValid | db.py:56-80 | `insert_artifact` keeps the store invariant: one row per id, and stored text that decodes |
| Tables.ValidReadable | db.py:83-93 | in a store that keeps the invariant, `get_artifact` never raises |
| Tables.NextJobId | db.py:134-137 | the AUTOINCREMENT id is above the counter and above every id present |
| Tables.GetJob | db.py:169-172 | `get_job` finds nothing exactly when no job has the id; a found job has that id and is in the table |
| Tables.JobCreated | db.py:131-137 | no contract of its own; `create_job` on the whole store; Tables.CreateJobFresh and Tables.CreatedValid state its effect |
| Tables.CreateJobFresh | db.py:131-137 | the new id was not in use. The job reads back pending, with no result, progress 0, `created_at` = `updated_at`, and params the encoding of `params or {}`, which decodes back. No other job, artifact or change moves |
| Tables.CreatedValid | db.py:131-137 | `create_job` keeps the store invariant |
| Tables.PatchJobs | db.py:157-158 | the UPDATE keeps the number of rows and every row's id and `created_at`, and leaves each row with another id as it was |
| Tables.GetPatched | db.py:157-158 | after the UPDATE, `get_job` on the updated id finds that job patched (or still nothing when it was absent); on any other id it finds what it found before |
| Tables.JobUpdated | db.py:140-160 | no contract of its own; `update_job` on the whole store; Tables.UpdateJobEffect, Tables.GetPatched and Tables.UpdatedValid state its effect |
| Tables.UpdateJobEffect | db.py:140-160 | returns True exactly when some field is given; with none, nothing changes. Otherwise only that job changes: its given fields and `updated_at`, with the rest kept; a result once set is never cleared. Artifacts, changes and the counter are untouched |
| Tables.UpdatedValid | db.py:140-160 | `update_job` keeps the store invariant |
| Tables.TimestampUnbound | db.py:131-160 | as written, every `create_job` and `update_job` raises, the empty update included; with `timestamp` imported they are `JobCreated` and `JobUpdated` |
| Ordering.SortBy | db.py:98 | ORDER BY gives a permutation of its input, sorted on the key in the asked direction |
| Ordering.Take | db.py:98 | LIMIT gives a prefix of the rows, of length `limit`, or the whole input when the limit is negative or at least its length |
| Ordering.TopRows | db.py:98 | an ordered, limited result has at most `limit` rows (exactly `limit` when there are enough) and is a sub-multiset of the input. No row left out sorts before a row kept |
| Ordering.Filter | db.py:104-115 | WHERE keeps exactly the rows that pass the test, each at most as often as in the input |
| Ordering.Selected | db.py:116-118 | every row of a filtered, ordered, limited result is an input row that passes the filter |
| Ordering.SelectedFirst | db.py:116-118 | no row that passes the filter but is left out sorts before a row that was kept |
| Ordering.SelectedAll | db.py:116-118 | a filtered, ordered, limited result has exactly `limit` rows, or as many as pass the filter when there are no more; in that case every input row that passes is in it |
| Queries.ListArtifacts | db.py:96-99 | no contract of its own; Queries.ListArtifactsSpec states what it returns |
| Queries.Matches | db.py:106-115 | no contract of its own; the WHERE clause of `search_artifacts`; Queries.SearchSound, Queries.FieldFound and Queries.SiteSearchFinds state what it admits |
| Queries.SearchArtifacts | db.py:102-119 | no contract of its own; Queries.SearchOrdered, Queries.SearchComplete, Queries.SearchSound, Queries.SearchNewestFirst and Queries.SearchWithoutFilters state what it returns |
| Queries.ListArtifactsSpec | db.py:96-99 | `min(limit, n)` artifacts, newest `created_at` first, each the summary of a stored row, and no row left out is newer than one listed |
| Queries.SearchOrdered | db.py:116-118 | a search returns at most `limit` rows, newest `created_at` first |
| Queries.SearchComplete | db.py:102-119 | a search returns exactly `limit` summaries, or one per matching row when there are no more than `limit` (or the limit is negative), and then every matching row's summary is among them |
| Queries.SearchSound | db.py:104-115 | every result is the summary of a stored row that meets every given filter |
| Queries.SearchNewestFirst | db.py:116-118 | no matching row left out of a search is newer than one returned |
| Queries.SearchWithoutFilters | db.py:102-119 | with no query, site or spot the search is `list_artifacts` |
| Queries.FieldFound | db.py:110-115 | a metadata member `"key": "v"`, with `v` printable ASCII other than the quote and the backslash (text `json.dumps` writes unescaped), appears in the stored metadata text as the pattern the filter looks for |
| Queries.SiteSearchFinds | db.py:110-112 | a record whose metadata has `site` = `v`, with `v` printable ASCII other than the quote and the backslash, is found by the site filter for `v` |
| Queries.ListChanges | db.py:122-128 | no contract of its own; Queries.ListChangesSpec states what it returns |
| Queries.ListChangesSpec | db.py:122-128 | exactly `limit` change rows, or every matching row when there are no more than `limit` (or the limit is negative). All rows are of the given artifact when one is given, latest `changed_at` first; no matching row left out is later than one listed |
| Queries.GetPendingJobs | db.py:163-166 | no contract of its own; Queries.PendingSpec, Queries.PendingCount, Queries.PendingDistinct and Queries.ClaimFromJob state what it returns |
| Queries.PendingSpec | db.py:163-166 | `get_pending_jobs` returns only pending or running jobs and never succeeded or failed ones. It returns exactly `limit` of them, or every open job when there are no more (or the limit is negative), oldest `created_at` first, and no open job left out is older than one returned |
| Queries.PendingCount | db.py:163-166 | `get_pending_jobs` returns as many claims as `limit`, or as there are open jobs when they are fewer |
| Queries.PendingDistinct | db.py:163-166 | in a table with increasing ids the claimed jobs are distinct |
| Queries.ClaimFromJob | db.py:163-166 | every claim `get_pending_jobs` returns is the id, artifact, type and params of a row of the jobs table |
| Merge.KeptText | db.py:187-194 | labels and metadata text stay text and NULL stays null; which text is kept is stated by Merge.MergeKeptText |
| Merge.ImportRecord | db.py:185-195 | no contract of its own; the record the merge hands to `insert_artifact`. Merge.MergeKeptText and Merge.ImportDoubleEncodes state what it reads back as |
| Merge.MergeKeptText | db.py:182-195 | a foreign record whose id was absent reads back after the merge with its labels and metadata holding the foreign text as a string when that text is empty or JSON, `'[]'` and `'{}'` when it is not JSON, and null when the column was NULL |
| Merge.MergeStep | db.py:182-195 | no contract of its own; one foreign row. Merge.MergeKeepsExisting, Merge.MergeFirstWins and Merge.MergeStops state what the row loop does with it |
| Merge.MergeRows | db.py:182-199 | no contract of its own; the row loop. Merge.MergeSucceeds, Merge.MergeFirstWins, Merge.MergeCovers, Merge.MergePresent and Merge.MergeStops state its effect |
| Merge.Merged | db.py:175-199 | no contract of its own; the whole merge and its answer. Merge.MergeIdempotent and Merge.MergeAnswer state its effect |
| Merge.MergeKeepsExisting | db.py:182-195 | an artifact already present keeps every field, whatever the merge does; jobs are untouched and the change log only grows |
| Merge.MergeSucceeds | db.py:175-199 | on a store that keeps the invariant, the row loop completes and the invariant holds after it |
| Merge.MergeFirstWins | db.py:182-195 | an id absent before the merge ends up holding the first foreign row with that id, or stays absent when there is none |
| Merge.MergeCovers | db.py:182-195 | after a merge on a valid store every foreign id is present |
| Merge.MergePresent | db.py:184 | when every foreign id is already present the merge writes nothing and returns True |
| Merge.MergeStops | db.py:198-199 | after a failed read the merge stops, so the store is what the rows before the failure made it; those inserts stand |
| Merge.MergeIdempotent | db.py:175-199 | merging the same snapshot twice gives the store and the answer of merging it once |
| Merge.MergeAnswer | db.py:175-199 | on a valid store the merge returns True exactly when the other file could be read, and the store stays valid |
| Merge.ImportDoubleEncodes | db.py:185-195 | a record copied from another SiteScan store comes back with labels and metadata as JSON strings of their text, not as the values: its metadata is not an object |
| Merge.ImportRecordDecoded | db.py:185-195 | no contract of its own; the corrected conversion. Merge.ImportDecodedRoundTrip and Merge.MergeDecodedRoundTrip state that it reads back as the original |
| Merge.ImportDecodedRoundTrip | db.py:185-195 | with the decoding import, a record copied from another store reads back as the record it was there |
| Merge.MergeDecodedRoundTrip | db.py:182-195 | with the decoding import, an absent id whose first foreign row came from record `r` reads back as `r` after the merge |
| Storage.Store.constructor | db.py:47-53 | a new store has three empty tables and keeps the invariant |
| Storage.Store.InsertArtifact | db.py:56-80 | the tables become `Inserted` of the old ones, and the invariant is kept |
| Storage.Store.CreateJob | db.py:131-137 | the tables and the returned id are `JobCreated` of the old tables, and the invariant is kept |
| Storage.Store.UpdateJob | db.py:140-160 | the SET list built field by field gives `JobUpdated`: no write and False when it is empty. The invariant is kept |
| Storage.Store.MergeDbFile | db.py:175-199 | the row loop gives `Merged`. On a valid store it returns True exactly when the file was read, and the invariant is kept |
| Worker.ResolveMethod | app.py:502 | working out the method raises exactly when the params text is non-empty and is not JSON, or is JSON that is not an object |
| Worker.ResolveCreated | app.py:502 | for a job made by `create_job` the method resolves exactly when `params or {}` is an object, and is then `params.get('method')` if truthy, else `GENAI_PROVIDER` |
| Worker.ChooseProvider | app.py:505-520 | `'replicate'` goes to GenAI, `'huggingface'` or `'hf'` to Hugging Face, and anything else, None included, to the local stub. Each holds as an if-and-only-if |
| Worker.Finish | app.py:521-528 | no contract of its own; recording a provider's outcome. Worker.FinishFrame and Worker.ProcessJobCalled state its effect |
| Worker.ProcessJob | app.py:494-528 | no contract of its own; one claimed job. Worker.ProcessJobFrame, Worker.ProcessJobStops, Worker.ProcessJobCalled, Worker.ProcessJobSettles and Worker.ProcessJobValid state its effect |
| Worker.RunBatch | app.py:493-528 | no contract of its own; the claims of one pass in order. Worker.BatchStops, Worker.BatchFrame, Worker.BatchSettles and Worker.BatchCompletes state its effect |
| Worker.RunJob | app.py:496-528 | one claimed job takes the store to `ProcessJob` of the old store, with the version's strings and progress values |
| Worker.CallAndFinish | app.py:504-528 | once the provider is chosen, the progress note (V2 only), the call and the row written for its outcome take the store to `Finish` of the old store with the progress noted |
| Worker.WorkerPass | app.py:489-528 | one pass claims `get_pending_jobs(limit=5)` and takes the store to `RunBatch` over those claims, stopping when the thread would die |
| Worker.RunClaims | app.py:493-528 | the `for job in pending` loop takes the store to `RunBatch` over the claims, in order, and reports whether an exception ended the thread |
| Worker.FinishFrame | app.py:521-528 | recording an outcome touches only that job, and only that artifact; the change log only grows |
| Worker.ProcessJobFrame | app.py:496-528 | processing a job changes no other job and no other artifact, keeps the counter, and only appends changes |
| Worker.ProcessJobStops | app.py:496-502 | the thread dies exactly when the artifact read raises, or when the method cannot be worked out; the job is then left running at 5. A missing artifact makes the job failed ('artifact missing' / 'artifact not found') at progress 5, with no artifact or change written |
| Worker.ProcessJobCalled | app.py:504-528 | a non-empty path replaces only the record's `reconstruction_path` and makes the job succeeded with result = path and progress 100. Anything else makes it failed, with 'no result' / 'no result from provider' or the error's message, at progress 5 (V1) or 0 (V2), writing no artifact and no change |
| Worker.ProcessJobSettles | app.py:496-528 | unless the thread dies, the job ends failed, or succeeded with a non-empty result and progress 100 |
| Worker.ProcessJobValid | app.py:496-528 | processing a job keeps the store invariant |
| Worker.BatchStops | app.py:502 | once the thread has died, later claims of the batch are not processed |
| Worker.BatchFrame | app.py:493-528 | a batch changes only the claimed jobs, keeps every job present, keeps the counter, and only appends changes |
| Worker.BatchSettles | app.py:493-528 | with distinct claims of existing jobs, unless the thread dies, every claimed job is settled at the end of the batch |
| Worker.BatchCompletes | app.py:493-528 | on a valid store, when every claim's method resolves, the batch does not stop and the store stays valid |
| Worker.PassSettles | app.py:489-528 | a pass claims 5 open jobs, or every open job when there are fewer. Unless the thread dies every claimed job is settled, and unclaimed jobs are untouched. When every job's params resolve the thread survives and the store stays valid |
| Worker.PendingClaims | app.py:489-493 | on a valid store one pass claims 5 open jobs, or all of them when there are fewer; the claims have distinct ids, are each the id of a job row, and carry the params of a job row |
| Tags.Split | app.py:376 | `split(',')` always gives at least one piece; Tags.SplitNoComma, Tags.JoinSplit and Tags.SplitJoin state what the pieces are |
| Tags.SplitNoComma | app.py:376 | no piece of `split(',')` holds a comma |
| Tags.JoinSplit | app.py:376 | joining the pieces with commas gives the text back |
| Tags.SplitJoin | app.py:376 | comma-free pieces come back from their join unchanged |
| Tags.NoCommaSplit | app.py:376 | a text without commas splits into itself alone |
| Tags.SplitAppend | app.py:376 | the pieces of `a + ',' + b` are those of `a` followed by those of `b` |
| Tags.TrimStart | app.py:376 | the result starts with no whitespace and holds only characters of the input |
| Tags.TrimEnd | app.py:376 | the result ends with no whitespace, is no longer than the input and starts where it does |
| Tags.Strip | app.py:376 | `strip()` leaves no whitespace at either end and adds no character |
| Tags.TrimStartSuffix | app.py:376 | leading trimming removes a whitespace prefix and nothing else |
| Tags.TrimEndPrefix | app.py:376 | trailing trimming removes a whitespace suffix and nothing else |
| Tags.StripSlice | app.py:376 | `strip()` keeps one slice of the text, and everything outside it is whitespace |
| Tags.StripStripped | app.py:376 | a text with no whitespace at its ends is its own `strip()` |
| Tags.Keep | app.py:376 | every kept tag is non-empty and stripped |
| Tags.ParseTags | app.py:376 | every parsed tag is non-empty and stripped |
| Tags.KeepNoComma | app.py:376 | keeping tags from comma-free pieces gives comma-free tags |
| Tags.ParseTagsClean | app.py:376 | every tag is non-empty, stripped and free of commas |
| Tags.KeepAppend | app.py:376 | the comprehension keeps order: tags of `p + q` are those of `p` then those of `q` |
| Tags.ParseTagsOne | app.py:376 | a text without commas gives its stripped self, or nothing when that is empty |
| Tags.ParseTagsAppend | app.py:376 | the tags of `a + ',' + b` are those of `a` followed by those of `b`, so order is kept and empty pieces are dropped |
| Tags.ParseTagsJoin | app.py:376 | clean tags joined with commas parse back to the same tags |
| Edits.AddNote | app.py:438-441 | adding a note works exactly when the metadata is an object whose notes are absent, falsy or text. `notes` then becomes `old + "\n" + note` when old is non-empty, else `note`, and every other key is unchanged |
| Edits.AddTwoNotes | app.py:438-441 | two notes on metadata without notes read `a`, a newline, `b` |
| Edits.NoteAfterMergeFails | app.py:438-441 | a note on a record copied in by the merge raises, because its metadata is a string |
| Edits.NoteAfterDecodedMerge | app.py:438-441 | with the decoding import, a copied record takes a note as its original does |
| Edits.CanEditExactly | app.py:352 | everyone can edit exactly when no password is configured; with one, exactly the matching entry passes |
| Edits.OcrSaved | app.py:423-426 | no contract of its own; Edits.OcrSavedReads states its effect |
| Edits.NoteAdded | app.py:436-442 | no contract of its own; Edits.NoteAddedReads states its effect |
| Edits.Regenerated | app.py:450-454 | no contract of its own; Edits.RegeneratedReads states its effect |
| Edits.Submitted | app.py:461-466 | no contract of its own; Edits.SubmittedRoutes and Edits.SubmitParamsMethod state its effect |
| Edits.OcrSavedReads | app.py:423-426 | saving OCR makes the record read back with the new text. Other artifacts and the jobs are unchanged, and an absent id writes nothing |
| Edits.NoteAddedReads | app.py:436-442 | after a note the record reads back with only its metadata changed: notes extended and every other key kept |
| Edits.RegeneratedReads | app.py:450-454 | regenerating sets only the record's `reconstruction_path`, to the path the stub saved; when the stub raises, or the record is absent, nothing is written |
| Edits.SubmittedRoutes | app.py:461-466 | a submitted job is a new pending `genai_reconstruct` job for the artifact. Its method resolves to the page's provider when set, else the worker's `GENAI_PROVIDER`; from the second page it always reaches GenAI |
| Edits.SubmitParamsMethod | app.py:461-466 | the params the button stores, `{'method': GENAI_PROVIDER}`, read back by the worker give the page's provider as the method, or the worker's own when the page has none; with GenAI configured they reach GenAI |
| Edits.SaveOcr | app.py:422-429 | with the gate open (always in V1) the store becomes `OcrSaved`; with it shut nothing is written |
| Edits.AddNoteAction | app.py:436-445 | with the gate open the store becomes `NoteAdded`; with it shut nothing is written |
| Edits.Regenerate | app.py:450-457 | with the gate open the store becomes `Regenerated`, so a raising stub writes nothing; with the gate shut nothing is written |
| Edits.SubmitReconstruction | app.py:461-468 | with the gate open and the button shown, the store and id become `Submitted`; otherwise nothing is written and no id is returned |

## Left out

- SQLite itself: connections, commits, table creation and the file on disk. The tables are
  Dafny sequences held by one object.
- The artifacts table is a sequence of rows in rowid order rather than a map.
  INSERT OR REPLACE deletes the old row and appends the new one, as SQLite gives it a new
  rowid.
- LIKE compares case-insensitively for ASCII and treats `%` and `_` as wildcards. The model
  matches plain substrings, so its search is exact about case and treats `%` and `_` as
  ordinary characters.
- NULL artifact ids are not modelled: ids are strings.
- Every change row of one artifact has `changed_at` equal to the record's `created_at`, so
  within one artifact the `ORDER BY changed_at DESC` of `list_changes` is all ties and
  the order of those rows carries no meaning.
- SQLite returns tied rows of ORDER BY in an order it does not specify. The model picks
  one, and its lemmas state only what holds for every order.
- Label confidence scores are floats in the application; the JSON model has integers only.
- JsonText.Encode escapes only the quote, the backslash and the newline. `json.dumps` also
  escapes the other control characters, and writes non-ASCII characters as `\uXXXX`. The
  model keeps what the proofs use: the encoding is injective and decodes back, and text
  of printable ASCII other than the quote and the backslash is written as it is, which is
  what Queries.FieldFound and Queries.SiteSearchFinds rely on. Neither lemma speaks of
  other text, which `json.dumps` escapes and the site and spot filters then miss.
- JsonText.Decode reads only the layout the printer writes: `, ` and `: ` separators, no
  other whitespace, the three escapes above, and integers. Other valid JSON text, such as
  a stored value written by another program, reads as not JSON in the model where
  `json.loads` would accept it.
- The worker thread, `time.sleep`, the start-once guard and the race between two workers
  claiming the same job are out. One pass runs sequentially.
- Worker.WorkerPass: each pass uses a single `now` for all its writes, where the code reads
  the clock at each one.
- Providers, OCR, image recognition, QR generation and the local stub (utils.py) are out.
  Each provider is an abstract function from the provider and the record to an outcome.
  The stub's outcome on the detail view (a saved path, or a raise) is a parameter; its
  image processing is not part of this model.
- Worker.RunJob: the V2 lookup of the latest Replicate model version, and the write of
  `GENAI_MODEL_VERSION` into the environment (app.py:507-511), are left out. They are a
  network call and a configuration side effect.
- Environment variables and the configured password are parameters.
- Streamlit rendering, file upload and the capture form's image handling are out.
- Creating an artifact from the capture form, and importing a database file, are not behind
  the `can_edit` gate in the code. The model follows the code.
- Storage.Store.CreateJob, Storage.Store.UpdateJob, Tables.CreateJobFresh,
  Tables.UpdateJobEffect and every Worker member model db.py with `timestamp` imported,
  which is the corrected behaviour of the finding below. As written, each `create_job` and
  `update_job` raises, so the worker dies at its first `update_job` (app.py:496 and
  app.py:217); only Tables.TimestampUnbound states that.
- `insert_artifact` with a falsy `created_at` is modelled as written: the change row needs
  `timestamp()`, the NameError is swallowed, and no change row is written. The application
  always supplies `created_at`.

## Findings

| source | as written | input that shows it | evidently intended | confidence | as-written member | corrected member |
|---|---|---|---|---|---|---|
| db.py:185-195 | `merge_db_file` passes the foreign row's labels and metadata text to `insert_artifact`, which `json.dumps` it again | any record copied from another SiteScan store, e.g. metadata `{"site": "A"}`: it reads back as the string `'{"site": "A"}'`, and Add note then raises on it | store the decoded values, so the copy reads back as the original | high, not executed | Merge.ImportDoubleEncodes | Merge.ImportDecodedRoundTrip |
| db.py:131-160 | `create_job` and `update_job` call `timestamp()`, which db.py never imports (db.py:1-3) | any call, e.g. `create_job(conn, 'a1', 'genai_reconstruct', {})` or `update_job(conn, 1)`: each raises NameError before writing, so the worker dies at its first `update_job` | import `timestamp` from utils, as app.py does | high, not executed | Tables.TimestampUnbound | Tables.CreateJobFresh |
