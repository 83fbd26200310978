# CVE extraction pipeline — Dafny model

This project models the core of a pipeline that collects CVE records from
the CVE List repository on GitHub (CVE JSON 5 documents) and loads them
into a warehouse table:

- **Parser** (`src/parser.py`). `extract_cvedata` flattens one CVE JSON 5
  document into a 26-column record. It reads the CVE id and dates from
  `cveMetadata`. From the last ADP container titled "CISA ADP Vulnrichment"
  it takes CVSS metrics, the SSVC decision, the KEV flag, CWE and affected
  products. From the `cna` container it then takes affected products,
  CVSS metrics and CWE again. Two helpers support it: `calculate_ssvc_score`
  (the CISA SSVC decision table) and `vector_string_to_metrics` (the CVSS
  vector-string decoder).
- **Extractor** (`src/extract.py`). It covers:
  - the rate-limit rule for GitHub 403 responses;
  - the year-directory filter `get_years`;
  - the per-year manifest of CVE files, `get_cve_files_for_year`;
  - batch assembly in `extract_store_cve_data`;
  - list joining in `year_to_csv`.
- **Final load** (`src/load_final.py`). The staging table is reduced to one
  row per `cve_id` with `QUALIFY ROW_NUMBER()`. That result is then merged
  into the final table with `MERGE`.

The record template that `extract_cvedata` fills in place is the class
`CveRecord.CveEntry`. Its one field holds a `Record` value. Every in-place
step of the extractor is a method on that object, proved against a
function that gives the new record. Likewise:

- the manifest and batch loops are methods proved against the functions
  `CveFilesForYear` and `YearBatch`;
- `year_to_csv`'s in-place loop over the list of records is a method over
  an array.

Clocks, the network and file output are parameters or results:

- the current time is an argument;
- each HTTP exchange is an `Exchange` value (the first reply and, if one
  is made, the retry);
- downloads are a function from URL to exchange;
- the CSV is returned as rows.

Modules:

- `Wrappers`: `Option`.
- `Strings`: ASCII lower-casing, `split` and `join`, and lexicographic order.
- `Seqs`: list building with `extend`.
- `CveRecord`: the document tree, the record and `CveEntry`.
- `Ssvc`, `VectorString` and `Parser`: `src/parser.py`.
- `ParserFacts`: the properties of `Parser`.
- `Extract` and `ExtractFacts`: `src/extract.py` and its properties.
- `LoadFinal`: `src/load_final.py`.

## Behaviour of the code worth knowing

- **Vector decoding.** `vector_string_to_metrics` rewrites all eight
  sub-metric fields whenever any one is missing, not only the missing ones.
  An unknown or absent code becomes "" (`src/parser.py:62-106`).
- **ADP version key.** ADP metrics choose the CVSS version key from the
  versions seen *so far* in the loop, not from all metrics of the
  container (`src/parser.py:200-209`).
- **Incomplete CVSS block.** When a metric's CVSS block is incomplete, the
  `continue` at line 247 skips that metric's `other` block.
- **CNA overrides.** Later CNA values override the ADP values for CVSS and
  CWE. The affected lists accumulate the ADP entries first, then the CNA
  entries.
- **CNA metrics without ADP metrics.** A CNA container with a non-empty
  `metrics` list gives no record at all (`None`) when the ADP metrics loop
  never ran. The log line at `src/parser.py:340` names `all_versions_found`,
  which is then unbound, and the exception handler returns `None`.
- **SSVC.** `poc`, not automatable and partial impact yields `Track`.
  Anything other than `active`/`poc`/`none` yields `Unknown`.
- **Batch.** A download that yields `None` (a parse failure) is still
  appended to the batch. A `None` in the batch makes `year_to_csv` stop at
  that element, with the rows before it already joined, and no CSV is
  written.
- **Order.** Subdirectories and files are processed one after another, in
  listing order.

## Model

| member | source | states |
|---|---|---|
| Ssvc.CalculateSsvcScore | src/parser.py:5-41 | the result is always one of Act/Attend/Track/Unknown, and it is Unknown exactly when the lower-cased exploitation is none of active, poc, none |
| Ssvc.SsvcFollowsTable | src/parser.py:11-39 | for a known exploitation value the decision is the entry of the SSVC decision table for (exploitation, automatable class, impact class) |
| Ssvc.SsvcCaseInsensitive | src/parser.py:7-9 | the decision depends only on the lower-cased inputs |
| Ssvc.SsvcDefaultsForOtherValues | src/parser.py:14-39 | any automatable value other than "yes" is treated as "no", and any impact other than "total" as "partial" |
| VectorString.VectorStringToMetrics | src/parser.py:45-110 | the template object is updated in place and returned; its new value is the vector-decoding function applied to the old value |
| VectorString.SplitMetrics | src/parser.py:51-55 | the loop builds, for each token after the first, its ':'-split parts |
| VectorString.WriteSubMetrics | src/parser.py:62-106 | the eight sub-metric fields are set from the dictionary through the code tables, and nothing else changes |
| VectorString.ApplyVector | src/parser.py:45-110 | decoding changes no field other than the eight sub-metrics |
| VectorString.DictOfDefined | src/parser.py:58 | `dict(pairs)` succeeds exactly when every token split into two parts |
| VectorString.DictOfLastWins | src/parser.py:58 | a key's value is that of its last occurrence |
| VectorString.DictOfKeys | src/parser.py:58 | the dictionary's keys are exactly the first parts of the tokens |
| VectorString.EmptyVectorLeavesRecord | src/parser.py:46-47 | an empty vector string leaves the record unchanged |
| VectorString.MalformedTokenLeavesRecord | src/parser.py:55-58 | one token that does not split into exactly two parts makes the `dict` call fail, and the record is unchanged |
| VectorString.WellFormedVectorOverwrites | src/parser.py:62-106 | for a well-formed vector the result does not depend on the old sub-metric values |
| VectorString.ApplyVectorSubMetrics | src/parser.py:62-106 | each sub-metric becomes the table name of the vector's code for its key |
| VectorString.VectorLastWins | src/parser.py:58-106 | a duplicated key is decoded from its last occurrence |
| VectorString.VectorAbsentKey | src/parser.py:62-106 | a key absent from the vector clears its field to "" |
| VectorString.FirstTokenIgnored | src/parser.py:51 | the version prefix before the first '/' has no effect |
| VectorString.VersionOnlyVectorClears | src/parser.py:51-106 | a vector with no '/' clears all eight sub-metrics |
| Parser.ExtractCveData | src/parser.py:112-421 | the extractor, filling a fresh template object step by step, returns exactly the record (or None) of the extraction function |
| Parser.WriteMetadata | src/parser.py:158-162 | id and dates are copied from `cveMetadata`, with "" when absent |
| Parser.FindVulnrichment | src/parser.py:169-175 | the loop picks the last ADP container titled "CISA ADP Vulnrichment" |
| Parser.ProcessAdp | src/parser.py:179-304 | the ADP stage succeeds exactly when the functional ADP stage does, and the template then holds its result |
| Parser.ScanAdpMetrics | src/parser.py:195-279 | the ADP metrics loop succeeds and ends in the same state as the metrics fold |
| Parser.CopyCvssInto | src/parser.py:209-230 | version, score and severity are copied (or ""), and each sub-metric only when present in the block |
| Parser.MissingMetrics | src/parser.py:232-238 | the loop returns the names of the empty sub-metric fields, in order |
| Parser.ProcessOther | src/parser.py:249-279 | an `other` block of type ssvc or kev without content fails; otherwise the template becomes the SSVC or KEV update |
| Parser.ProcessSsvc | src/parser.py:256-275 | the timestamp, the options (last wins) and the decision are written as the SSVC step states |
| Parser.ProcessProblemTypes | src/parser.py:282-292 | the template ends with the CWE of the first CWE description of the last problem type that has one |
| Parser.ProcessAffected | src/parser.py:297-304 | vendor, products and versions are updated as the affected fold states |
| Parser.ProcessCna | src/parser.py:310-410 | the CNA stage succeeds exactly when the CNA function does, and the template then holds its result |
| Parser.CnaMetricsInto | src/parser.py:346-397 | each CNA metric holding the chosen key is copied and completed, in order |
| Parser.FirstPreferred | src/parser.py:197-205 | the chosen key is present, no present key is more preferred, and there is none exactly when no key was seen |
| ParserFacts.PreferenceNeverWorsens | src/parser.py:198-205 | seeing more versions never makes the chosen key less preferred |
| ParserFacts.EarlierBetterVersionWins | src/parser.py:205-209 | a metric holding only less preferred keys than one already seen contributes only its `other` block |
| ParserFacts.MissingIffEmptyField | src/parser.py:232-240 | the missing list is empty exactly when no sub-metric field is empty |
| ParserFacts.CopyCvssFields | src/parser.py:209-230 | copying touches only the CVSS fields, and an absent sub-metric keeps its old value |
| ParserFacts.CvssFillHeadline | src/parser.py:209-247 | after copy and completion, version, score and severity are those of the block, and nothing outside the CVSS fields changed |
| ParserFacts.CompleteBlockIgnoresVector | src/parser.py:232-245 | a block with all eight sub-metrics non-empty is copied as is, whatever its vector string |
| ParserFacts.IncompleteBlockTakesVector | src/parser.py:240-245 | an incomplete block takes all eight sub-metrics from its vector string |
| ParserFacts.IncompleteBlockSkipsOther | src/parser.py:240-247 | when the chosen block is incomplete, the metric's `other` block is ignored (the `continue`) |
| ParserFacts.OtherStepEffect | src/parser.py:249-279 | the step fails exactly on a content-less ssvc/kev block; only metric fields change; the KEV flag becomes "TRUE" exactly through a kev block and is never reset; a kev block writes its `dateAdded`, any other block leaves flag and date as they were |
| ParserFacts.SsvcOptionsLastWins | src/parser.py:259-267 | each SSVC field holds the value of the last option that has that key |
| ParserFacts.SsvcStepEffect | src/parser.py:256-275 | timestamp and options are written, and the decision is recomputed only when all three inputs are non-empty |
| ParserFacts.AdpMetricStepEffect | src/parser.py:200-279 | one ADP metric extends the seen versions by its keys, changes only metric fields, and keeps the KEV flag sound |
| ParserFacts.AdpMetricsEffect | src/parser.py:200-279 | the whole ADP metrics loop succeeds when every `other` block is well formed, and its KEV flag is "TRUE" only if set before or some metric is a kev block |
| ParserFacts.KevStepRead | src/parser.py:277-279 | a kev block with content that the loop reaches (no chosen key in its metric, or a complete chosen block) sets `cisa_kev` to TRUE and `cisa_kev_date` to its `dateAdded`, or "" |
| ParserFacts.KevBlockIsRead | src/parser.py:200-279 | a reached kev block in the ADP metrics leaves `cisa_kev` TRUE at the end of a successful loop, and, when no later metric has a kev block, `cisa_kev_date` is its `dateAdded` |
| ParserFacts.FirstCweIsFirst | src/parser.py:288-292 | the CWE found is the first description of type CWE, and there is one exactly when some description has that type |
| ParserFacts.ProblemTypesEffect | src/parser.py:282-292 | the problem-type loop sets the CWE of the last problem type that has a CWE description |
| ParserFacts.AffectedEffect | src/parser.py:297-304 | the vendor is the last entry's, products and versions are appended in order, and nothing else changes |
| ParserFacts.LastBlockExists | src/parser.py:354 | some CNA metric holds the key exactly when there is a last block for it |
| ParserFacts.CnaVersionsKeys | src/parser.py:337-339 | the CNA versions are exactly the keys of some CNA metric |
| ParserFacts.CnaMetricsEffect | src/parser.py:346-397 | only CVSS fields change, and version, score and severity are those of the last CNA block for the chosen key |
| ParserFacts.AdpPartEffect | src/parser.py:165-304 | with no Vulnrichment container the ADP stage changes nothing; otherwise it records whether the metrics loop ran, and sets affected lists, CWE and KEV as stated |
| ParserFacts.CnaPartEffect | src/parser.py:310-410 | the CNA stage succeeds exactly when its metrics are empty or the ADP metrics loop ran, and sets affected lists, CVSS headline and CWE as stated |
| ParserFacts.NoCnaNoRecord | src/parser.py:310-413 | a document without a `cna` container gives no record |
| ParserFacts.UnboundVersionsNoRecord | src/parser.py:337-340 | non-empty CNA metrics without an ADP metrics loop give no record |
| ParserFacts.RecordNeedsCna | src/parser.py:310-340 | a record implies a `cna` container and, if it has metrics, a Vulnrichment container with metrics |
| ParserFacts.WellFormedDocumentExtracts | src/parser.py:156-413 | a document with a `cna` container, bound versions and well-formed `other` blocks always gives a record |
| ParserFacts.MetadataCopied | src/parser.py:158-162 | the record's id and dates are those of `cveMetadata` |
| ParserFacts.AffectedInDocumentOrder | src/parser.py:297-325 | products and versions are the ADP entries followed by the CNA entries; the vendor is the last CNA vendor, else the last ADP vendor, else "" |
| ParserFacts.CnaCweOverrides | src/parser.py:282-292 | a CNA CWE overrides the ADP CWE |
| ParserFacts.CnaCvssOverrides | src/parser.py:354-361 | when the CNA has a CVSS key, the record's version, score and severity come from the last CNA block for it |
| ParserFacts.KevFlagSound | src/parser.py:119 | the KEV flag is "TRUE" or "FALSE", and "TRUE" only when the chosen ADP container holds a kev block |
| Extract.GetYears | src/extract.py:97-115 | on a 200 reply the year names, otherwise [] |
| ExtractFacts.YearNamesMembers | src/extract.py:105-107 | a name is returned exactly when some entry of type "dir" has it and it is not ".github" or "assets" |
| ExtractFacts.YearNamesAppend | src/extract.py:105-107 | the filter keeps listing order |
| ExtractFacts.RateLimitRule | src/extract.py:63-73 | a retry happens exactly on a 403 whose text contains "rate limit" in any case and whose reset + 5 is after now; the wait ends at reset + 5 |
| ExtractFacts.MissingResetNeverRetries | src/extract.py:65-69 | a missing reset header counts as 0, so there is never a retry once now >= 5 |
| ExtractFacts.RateLimitCaseInsensitive | src/extract.py:64 | the rate-limit test ignores the case of the body |
| ExtractFacts.AtMostOneRetry | src/extract.py:130-131 | a fetch makes one or two requests, and two only after a rate-limit wait |
| Extract.GetCveFilesForYear | src/extract.py:118-191 | the loops build exactly the manifest function's year data |
| ExtractFacts.CveFilesMembers | src/extract.py:165-173 | a file is listed exactly when it is of type "file" with a name starting "CVE-" and ending ".json" |
| ExtractFacts.CveFilesAppend | src/extract.py:165-173 | the file filter keeps listing order |
| ExtractFacts.PutGet | src/extract.py:149 | after assigning a key, that key reads the new list and every other key is unchanged |
| ExtractFacts.PutKeys | src/extract.py:149 | assigning adds a new key at the end and keeps the order of existing ones |
| ExtractFacts.ManifestNoFailures | src/extract.py:144-180 | with no network error, each subdirectory maps to its CVE files on 200 and to [] otherwise |
| ExtractFacts.ManifestStopsAtFailure | src/extract.py:149-186 | a network error at a subdirectory leaves it at [] and ends the loop, so later subdirectories are absent |
| ExtractFacts.ManifestWellFormed | src/extract.py:144-176 | manifest keys stay distinct and every listed file is a CVE file |
| ExtractFacts.YearManifestShape | src/extract.py:121-191 | the year is carried, keys are distinct, entries are CVE files, and a failed year listing gives no subdirectories |
| ExtractFacts.FileRecordsShape | src/extract.py:223-239 | a download adds at most one batch entry, and exactly one when it is a 200 whose body is a truthy JSON value |
| ExtractFacts.SubdirBatchBound | src/extract.py:212-239 | a subdirectory adds at most one entry per file |
| ExtractFacts.SubdirBatchAllObjects | src/extract.py:212-239 | when every file downloads as a JSON object, entry i is the extraction of file i |
| ExtractFacts.YearBatchAppend | src/extract.py:264-269 | the year batch of two runs of subdirectories is the concatenation of their batches |
| ExtractFacts.YearBatchBound | src/extract.py:204-269 | the year batch has at most one entry per manifest file |
| Extract.ExtractStoreCveData | src/extract.py:194-290 | it returns 0; the batch is the year batch function's; a CSV is produced only locally and for a non-empty batch |
| Extract.DownloadRecord | src/extract.py:217-259 | one download gives the batch entries of the file-records function |
| Extract.ProcessSubdir | src/extract.py:209-262 | the file loop builds the subdirectory batch |
| Extract.YearToCsv | src/extract.py:300-305 | rows before the first None are joined in place, the rest are unchanged, and the file is written exactly when there is no None |
| Extract.WriteCsv | src/extract.py:292-318 | the written rows are the joined rows of the batch |
| Extract.FirstMissing | src/extract.py:300-301 | the index of the first None, or the length when there is none |
| ExtractFacts.NoneRecordBlocksCsv | src/extract.py:300-301 | a None record in the batch means no CSV is written |
| ExtractFacts.JoinedRowIsFlat | src/extract.py:300-305 | joining keeps the columns, joins the two list columns with ',', changes nothing else, and leaves every cell as text |
| ExtractFacts.JoinIdempotent | src/extract.py:301-305 | joining a joined row changes nothing |
| ExtractFacts.JoinedProductsRoundTrip | src/extract.py:301-302 | a non-empty product list without commas is recovered by splitting the joined cell |
| ExtractFacts.JoinedVersionsRoundTrip | src/extract.py:304-305 | a non-empty version list without commas is recovered by splitting the joined cell |
| ExtractFacts.EmptyListIsAmbiguous | src/extract.py:301-305 | the empty list and the list holding one empty string join to the same cell |
| Seqs.FlatMapAppend | src/extract.py:269 | extending by the pieces of a concatenation is extending by each part in turn |
| LoadFinal.DedupSpec | src/load_final.py:41-44 | one row per staging id; each is a staging row stored under its own id, and no staging row with that id sorts before it under updated_date DESC, published_date DESC |
| LoadFinal.NewerThanTransitive | src/load_final.py:43 | the sort order is transitive |
| LoadFinal.NewerThanIrreflexive | src/load_final.py:43 | no row sorts strictly before itself |
| LoadFinal.NewerThanTotal | src/load_final.py:43 | two rows tie in the sort order only when both dates are equal |
| LoadFinal.UpdateSet | src/load_final.py:49-75 | a matched row keeps the target's `cve_id` and takes every other column from the source |
| LoadFinal.MergeKeys | src/load_final.py:46-77 | the ids after the merge are the target ids plus the staging ids |
| LoadFinal.MergeMatched | src/load_final.py:46-75 | a matched row becomes the surviving staging row, with the target's `cve_id` |
| LoadFinal.MergeInserted | src/load_final.py:77-132 | an unmatched staging id is inserted with its surviving staging row |
| LoadFinal.MergeUntouched | src/load_final.py:46-77 | target rows whose id is not staged are unchanged |
| LoadFinal.MergeKeepsKeyed | src/load_final.py:46 | a table keyed by `cve_id` stays keyed |
| LoadFinal.MergeIdempotent | src/load_final.py:41-132 | running the merge twice with the same staging table gives what running it once gives |
| Strings.SplitJoin | src/extract.py:302 | splitting a ','-join of comma-free pieces gives the pieces back |
| Strings.Lower | src/extract.py:64 | lower-casing keeps the length and maps each character |

## Left out

- Google Cloud Storage and BigQuery calls (`src/gc.py`), secrets and configuration (`src/cloudsecrets.py`, `src/config.py`), `src/transform.py` and the tests are not part of this model.
- The upload branch of `extract_store_cve_data` (`src/extract.py:242-253`) is left out; its failures are caught and do not affect the batch.
- `test_connection`, session set-up and all logging are left out.
- `time.sleep` is not modelled: the rate-limit rule returns the wait instead of sleeping. The clock is a parameter.
- File I/O is left out: `year_to_csv` returns the joined rows instead of writing `cve_data_<year>.csv`, and heterogeneous rows in `csv.DictWriter` are not modelled.
- JSON decoding is abstracted:
  - each download body is already classified as malformed, falsy, non-object or a parsed document;
  - listing entries are typed values, so a `KeyError` on a listing entry, or a `JSONDecodeError` on a listing, is not modelled;
  - metric nodes are always objects, so the `isinstance` checks at `src/parser.py:201` and `:338` always hold.
- Strings.Lower: only ASCII letters are lower-cased; Python's `str.lower` also folds non-ASCII letters.
- A non-numeric `X-RateLimit-Reset` header makes `int(...)` at `src/extract.py:65` raise a `ValueError`. During downloads (`src/extract.py:220`) the per-file `except Exception` at line 258 catches it and the file adds nothing to the batch. In `get_cve_files_for_year` (`src/extract.py:130`, `:157`) only `requests.RequestException` is caught (line 185), so the error propagates out of the call. The model takes the header as an integer or absent and models neither path.
- `baseScore` is carried as opaque text; the numeric CVSS score is never computed.
- The set built at `src/parser.py:181-184` is never read and is left out.
- LoadFinal.Dedup: among staging rows with equal sort keys BigQuery may keep any one; the model keeps the earliest. NULL dates are not modelled; dates compare as strings.
- LoadFinal.Merge: the target table is a map keyed by `cve_id`, so duplicate target ids (which would make BigQuery's MERGE fail) are not modelled.
- Concurrency: the pipeline is sequential; no thread pool is modelled.
