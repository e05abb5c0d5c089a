# Oshima API usage scripts: a Dafny model

This project models the sequential logic of three command-line clients of the
Oshima paper API:

- `upload_paper.py` uploads one PDF with optional metadata.
- `upload_directory.py` uploads every matching PDF of a directory and keeps a
  tally.
- `get_paper_extracts.py` fetches the claims and evidence extracted from a list
  of papers and summarises them per paper.

Each network reply, filesystem answer and environment variable is an abstract
input. The model covers what the scripts decide from those inputs:

- the missing-configuration report;
- the two hand-written option parsers;
- the sign-in token check;
- the multipart form data and the two upload modes, strict and collecting;
- the batch bookkeeping of the directory upload;
- the extract request;
- grouping the extracted elements by paper;
- the claim/evidence split;
- the capped, truncated samples.

Modules, one per concern:

- `Wrappers`: `Option` and `Result`.
- `Json`: a string-valued JSON field that may be missing, null or a string.
  Indexing with `[...]` raises only on a missing key. `.get` without a default
  gives None for both; with a default, only a missing key yields the default,
  and a null is returned as is.
- `Http`: an abstract reply and the common "status 200 or raise" pattern.
- `Auth`: `get_jwt_token`. The three scripts carry copies of it that are
  identical apart from printed messages, and this is the one model of them.
- `Environment`: the configuration read and the missing-variable check. This
  code is identical in all three `main`s apart from printed messages.
- `CliOptions`: what both parsers share. A parse is a sequence of steps, each of
  which either assigns a flag or skips a token. An option's value is its last
  assignment.
- `UploadPaperCli`: the stride-two pair parser of `upload_paper.py`.
- `PaperUpload`: `upload_paper_with_jwt` in its two variants. The existence
  check, the form data and the request are shared. Strict mode raises; the
  directory script's collecting mode returns None.
- `DirectoryUpload`: the while-loop parser and the `upload_directory` loop of
  `upload_directory.py`.
- `PaperExtracts`: the extract request, grouping by `paper_id`,
  `print_paper_summary` as the values it shows, and the display loop of `main`.

Imperative code stays imperative, and each such method is proved against a
specification function whose properties are lemmas:

- the option parsers;
- the form-data builder;
- the `missing` appends;
- the grouping loop;
- the upload loop;
- the display loop.

## Model

| member | source | states |
|---|---|---|
| Http.ExpectOk | get_paper_extracts.py:98-104 | A reply is accepted exactly when it arrived, its status is 200 or raise_for_status does not raise, and its body parses. The accepted value is the body. A non-200 status that raises is a status error. A transport failure is an error. |
| Auth.JwtToken | upload_paper.py:46-60 | A token is returned exactly when the sign-in reply is accepted and carries a non-empty access_token. The token is returned unchanged. A 200 reply with an absent or empty token is the "no access token" error. A raising non-200 status is an HTTP error. |
| Environment.UnsetMembership | get_paper_extracts.py:164-172 | A variable is reported exactly when it is required and is absent or empty. |
| Environment.UnsetEmpty | get_paper_extracts.py:174-179 | The report is empty exactly when every required variable is set. |
| Environment.UnsetRequired | upload_paper.py:165-173 | The report lists the unset variables in the fixed order SUPABASE_URL, SUPABASE_ANON_KEY, OSHIMA_EMAIL, OSHIMA_PASSWORD, one check per variable. |
| Environment.MissingConfig | upload_directory.py:243-251 | The list built by the four conditional appends is the ordered report of unset required variables. |
| Environment.Preflight | upload_paper.py:165-185 | The script stops exactly when some required variable is unset. The list it prints names exactly the unset required variables, in the fixed order SUPABASE_URL, SUPABASE_ANON_KEY, OSHIMA_EMAIL, OSHIMA_PASSWORD. |
| Environment.ApiUrl | upload_directory.py:236 | OSHIMA_API_URL when it is present, otherwise the loopback default http://127.0.0.1:8000. |
| CliOptions.LastAssignedFound | upload_paper.py:209-225 | A parsed option's value was assigned by some step for that flag. An option stays None exactly when no step assigns its flag. |
| CliOptions.LastAssignedIgnores | upload_paper.py:218-225 | Steps for other flags and skipped tokens leave an option's value unchanged. |
| CliOptions.LastOccurrenceWins | upload_directory.py:285-296 | A later assignment to a flag decides its value, whatever came before it. |
| UploadPaperCli.Pairs | upload_paper.py:214-215 | The loop reads floor(n/2) pairs from the n arguments after the path. |
| UploadPaperCli.PairsConsume | upload_paper.py:214-217 | The pairs cover the arguments in order and leave out only a trailing unpaired token. |
| UploadPaperCli.PairIndex | upload_paper.py:214-217 | The k-th pair is the token at argument offset 2k followed by the token after it. |
| UploadPaperCli.OptionsSnoc | upload_paper.py:218-225 | One more pair changes only the option its known flag names. An unknown flag changes nothing. |
| UploadPaperCli.ParseOptions | upload_paper.py:208-225 | The stride-2 loop leaves each of --title, --field, --topic and --doi with the value of its last pair, or None when it was never given. |
| DirectoryUpload.Scan | upload_directory.py:282-299 | The parse consumes every token exactly once and in order. Only recognised flags are assigned. A skipped token is unrecognised or is the last token. |
| DirectoryUpload.ScanFrom | upload_directory.py:284-299 | At each index, a recognised flag with a following token takes two tokens; anything else takes one. |
| DirectoryUpload.OptionsSnoc | upload_directory.py:284-299 | One step changes only the option a recognised flag names. A skip changes nothing. |
| DirectoryUpload.ParseOptions | upload_directory.py:276-299 | The index increases strictly, so the loop ends. Each of --field, --topic, --delay and --pattern ends with its last assignment, or its default (None, None, the default delay, "*.pdf"). |
| DirectoryUpload.VerdictMeaning | upload_directory.py:203-219 | A file succeeds exactly when the upload returned a truthy body with the keys data.paper_id and data.status. A null value counts, because indexing reads it. The reply's paper_id value, null included, is the one recorded. A file fails exactly when the upload returned None or a falsy body. |
| DirectoryUpload.Records | upload_directory.py:181-219 | One record per file. |
| DirectoryUpload.RecordsDescribe | upload_directory.py:203-219 | Record k names file k. Its status is "success" exactly when that file succeeded, and then it has a paper_id key holding the reply's value (possibly null). Otherwise its status is "failed", with no paper_id key. |
| DirectoryUpload.FirstUnreadable | upload_directory.py:203-206 | The first file whose truthy result is missing the key data.paper_id or data.status, or the end of the list. Every earlier file is readable. |
| DirectoryUpload.Requests | upload_directory.py:188-201 | At most one request per file. |
| DirectoryUpload.Extend | upload_directory.py:188-219 | Handling file i adds that file's outcome to the counts and appends its record at the end. It appends its request at the end when the file still exists, and adds no request otherwise. So records and requests follow file order. |
| DirectoryUpload.UploadFile | upload_directory.py:192-219 | A request is built for a file exactly when it still exists, and it is titled with the file's stem. The verdict read off the collecting-mode result is the file's verdict. |
| DirectoryUpload.UploadDirectory | upload_directory.py:164-226 | A missing path or a non-directory is an error, with nothing sent and no pause. No match gives zero counts, no uploads key and no request. Otherwise the UploadAll outcome holds. |
| DirectoryUpload.UploadAll | upload_directory.py:181-224 | A batch that runs to the end reports total = number of files, the success and failure counts, one record per file in order, the requests for the files that still exist, and N-1 pauses. A file whose truthy result lacks a key ends the batch right after its request, with k pauses for k earlier files. |
| DirectoryUpload.CountsAddUp | upload_directory.py:181-219 | success + failed == total for a batch that runs to the end. |
| DirectoryUpload.CountersMatchRecords | upload_directory.py:207-219 | The success counter equals the number of "success" records, and the failed counter equals the number of "failed" records. |
| DirectoryUpload.OneRequestPerFile | upload_directory.py:188-201 | When every file still exists, exactly one request is sent per file, in file order, for that file with its stem as title. |
| DirectoryUpload.ExitCodeReflectsFailures | upload_directory.py:325-327 | After a completed batch, main exits with 0 exactly when every file was uploaded. |
| PaperUpload.FormFieldsExact | upload_paper.py:101-109 | The form holds exactly the non-empty values among title, doi, field and topic, each under its own name, each name at most once. |
| PaperUpload.BuildFormData | upload_directory.py:104-112 | The conditional insertions build exactly that form, in the order title, doi, field, topic. |
| PaperUpload.Collected | upload_directory.py:88-137 | Collecting mode returns a body exactly when the file exists, the request went through, the status is 200 or 201 and the body parses. The body returned is the reply's. |
| PaperUpload.Strict | upload_paper.py:87-142 | A missing file is FileNotFound. The result is Ok exactly when the file exists, the status is 200/201 or raise_for_status does not raise, and the body has the keys data.paper_id and data.status (a null value is read without error). A raising status outside 200/201 is an HTTP error. |
| PaperUpload.UploadStrict | upload_paper.py:87-148 | A request is built exactly when the file exists, and it goes to /api/v1/papers/ with the form data and bearer header. The outcome is Strict's. |
| PaperUpload.UploadCollecting | upload_directory.py:88-137 | A request is built exactly when the file exists, with the same URL, form and header. The outcome is Collected's. |
| PaperUpload.ModesAgree | upload_paper.py:133-138 | What strict mode accepts with a 200/201 status, collecting mode returns too. What collecting mode rejects, strict mode rejects, except a non-success status for which raise_for_status does not raise. |
| PaperExtracts.RequestFor | get_paper_extracts.py:75-84 | The body's paper_ids are the command-line arguments after the script name, in order and with duplicates. The URL is /api/v1/papers/extracts with the bearer header. |
| PaperExtracts.SelectMembers | get_paper_extracts.py:117-118 | A comprehension keeps exactly the elements that match, and it is empty exactly when none matches. |
| PaperExtracts.SelectAppend | get_paper_extracts.py:117-118 | Selection keeps relative order: selecting over two parts gives the first part's selection followed by the second's. |
| PaperExtracts.FirstAppearances | get_paper_extracts.py:230-235 | The dict's keys are exactly the paper ids occurring among the elements, each once. |
| PaperExtracts.FirstAppearancesSnoc | get_paper_extracts.py:232-234 | The keys keep insertion order. An element with a new paper id appends that id as the last key. An element of a paper already seen adds no key. |
| PaperExtracts.GroupingExtends | get_paper_extracts.py:231-235 | One loop iteration keeps the grouping property: the keys in insertion order, and under each key exactly its elements, in order. |
| PaperExtracts.GroupedIsGrouping | get_paper_extracts.py:230-235 | The dict after all elements is a grouping of them. |
| PaperExtracts.GroupByPaper | get_paper_extracts.py:229-235 | The loop's keys are the first appearances of the paper ids, and each group is the order-preserving selection of its paper's elements. |
| PaperExtracts.LookupSelects | get_paper_extracts.py:239-240 | The elements looked up for a paper id are exactly the elements with that id, in order. A null id gets the elements with no paper_id. A paper with no elements gets an empty list. |
| PaperExtracts.GroupsPartition | get_paper_extracts.py:230-235 | Every element lies in the group of its own paper_id, and the group sizes add up to the number of elements. |
| PaperExtracts.SampleText | get_paper_extracts.py:130 | The text is text_rephrased, else text_verbatim, else "". It fails exactly when the value found is null. |
| PaperExtracts.Truncate | get_paper_extracts.py:131 | Text of at most 100 characters is unchanged. Longer text becomes its first 100 characters and "..." (103 in all). |
| PaperExtracts.SamplesPrefix | get_paper_extracts.py:129 | The samples are the first items, at most 3, and are empty only when there are no items. |
| PaperExtracts.TextsShown | get_paper_extracts.py:129-132 | Each shown sample is the truncated sample text of its item, in order. The summary fails exactly when some sampled text is null. |
| PaperExtracts.SummariseShows | get_paper_extracts.py:107-147 | The summary counts every claim and every piece of evidence and shows at most 3 samples of each. The samples shown are the truncated sample texts of the first three claims and of the first three pieces of evidence, in order. The "still processing" notice appears exactly when a count is zero. It raises exactly when one of these holds: the metadata is not an object; the bounding boxes have no length; a sampled text is null; a sampled piece of evidence has evidence_data that is not an object. |
| PaperExtracts.ClaimsAndEvidenceApart | get_paper_extracts.py:117-118 | No element is both a claim and evidence. An element of any other type is in neither. |
| PaperExtracts.ShownAllSummarises | get_paper_extracts.py:238-241 | The display shows the summaries of the papers in order, each over that paper's elements, up to the first that raises. It raises exactly when some paper's summary raises, and that paper is the one right after those shown. When none raises, every paper is shown. |
| PaperExtracts.ShowPaper | get_paper_extracts.py:239-241 | The summary shown for a paper from its looked-up group is its summary over its own elements. |
| PaperExtracts.SummariseEach | get_paper_extracts.py:238-241 | The display loop shows exactly the per-paper summaries before the first that raises, and reports whether one raised. |
| PaperExtracts.ShowResults | get_paper_extracts.py:215-241 | A reply whose data is not an object raises before anything is shown. With no papers nothing is shown. Otherwise a stats that is not an object, or a null elements, raises. In these raising cases no paper has been shown. In all other cases the elements are grouped once, and the display is exactly the per-paper summaries up to the first that raises, with the ones printed before the raise kept. |

## Left out

- Network: `httpx.post`, timeouts and connection errors. Each reply is an input, and a transport failure is one abstract case.
- Http.ExpectOk and PaperUpload.Strict: which statuses make `raise_for_status` raise is the HTTP library's business. It is an input flag. For example, a 202 that it lets through is treated as a success by strict upload and by the token and extract fetches.
- Filesystem: `exists` and `is_dir` are inputs. So is the result of `sorted(glob(pattern))`: a matched file list, taken to be sorted already, with no pattern matching modelled. An `open` failure after the existence check is not modelled. Writing `paper_extracts.json` is not modelled.
- Delays: `time.sleep` and durations are left out. The model counts pauses. The `--delay` value is kept as its raw token, and the `float(...)` conversion, which raises on a malformed value, is not modelled.
- Environment: `load_dotenv` and `os.getenv` become a map from names to strings. A required variable set to the empty string counts as unset; an empty OSHIMA_API_URL is used as is, not replaced by the default.
- Usage: the usage messages and `sys.exit(1)` on too few arguments are preconditions (`|argv| >= 2`) of the parsers and of PaperExtracts.RequestFor.
- Console output: the emoji formatting, the printed metadata title and original filename, the bounding-box count, the evidence `points_to` count, the stats totals and the tracebacks are all left out.
- PaperExtracts.Summarise: a paper summary that raises is None. The lines it printed before the raise (the ID, the claim and evidence counts, the samples already shown) are not kept; a whole display keeps only the complete summaries printed before it.
- The top-level `except` handlers only print. DirectoryUpload.ExitCode maps every raised error, including a missing directory, to exit status 0, as the code does.
- JSON values: for each value the scripts read, the model keeps whether reading it raises, and its string content where a result depends on it. Some inputs still fall outside it:
  - a paper without an `id`, whose indexing raises a KeyError at get_paper_extracts.py:113 and 239;
  - an element without a `type`, which raises a KeyError at get_paper_extracts.py:117-118;
  - values of a JSON type the code does not expect: a number as a text, a truthy `points_to` without a length (get_paper_extracts.py:145), or a `papers` or `elements` that is not a list.
- The tally of a batch that a reply without `data.paper_id` or `data.status` ends is not reported anywhere. The model returns only the error naming that file, as the code prints only the exception.
