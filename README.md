# GitHub repository downloader, modelled in Dafny

The script `main.py` downloads the issues, pulls, comments and commits of a list of GitHub
repositories, together with the comments of pull requests, page by page over the REST API. It
saves every page as a JSON file under `./config/data/{user}_{repo}/{key}/`. For every issues
page it also fetches each issue's comments and events and saves them as two side pages. A
progress file (`verification.json`) holds, per repository and per resource key, an item count,
the last page number and the current page number. A second run uses that file and the files
on disk to skip what is complete and to resume from the first missing page.

The model follows the script's structure:

| file | module | what it holds |
|---|---|---|
| `wrappers.dfy` | `Wrappers`, `Errors`, `Json` | `Option`/`Result`; the Python exceptions the script can raise; JSON values and Python's `len()` on them |
| `text.dfy` | `Text` | the `str` operations used: substring test, `split`, `replace`, `int()`, decimal rendering |
| `endpoints.dfy` | `Endpoints` | the seven endpoint names, `check_github_endpoints`, request URLs and page-file paths |
| `pagination.dfy` | `Pagination` | `get_last_page_num` on a `Link` header (the link-value list of RFC 8288, section 3) |
| `requests.dfy` | `RequestExecutor` | `get_github_api_request`: the 30-attempt retry loop, as a method with loop invariants |
| `progress.dfy` | `Progress` | the progress file as a class whose methods update it in place: the defaults pass, the per-page update, and the read |
| `resume.dfy` | `Resume` | `check_if_file_exists` (a loop) and `is_data_downloaded` |
| `fanout.dfy` | `IssueFanout` | the per-issue fan-out: `getIssueEventsByUrl`, `getReqInfoPerIssue`, the loop over an issues page |
| `ingestion.dfy` | `Ingestion` | the main program as a class holding the disk and the progress file, with the page loop, the endpoint loop, the repository loop and the whole run |
| `ingestion_facts.dfy` | `IngestionFacts` | what a page, a pass over an endpoint and the defaults pass guarantee, and why a rerun after a successful pass does nothing |
| `run_facts.dfy` | `RunFacts` | what a pass over a repository and a whole run may change, and why a second run after a successful one changes nothing |

Each loop of the script that changes state, sends requests or builds a list is a Dafny
method with its loop. Each such method is proved equal to a function that states its result
without the loop (`Expected`, `FirstMissing`, `DownloadedSpec`, `RewriteEvents`, `FanOut`,
`PageOutcome`, `PagesFrom`, `EndpointOutcome`, `EndpointsFrom`, `ReposFrom`, `RunOutcome`).
The lemmas are proved about those functions. Two loops that only compute a value from their
inputs, the scan of the `Link` header (`get_last_page_num`) and the lookup in the progress
file (`get_verification_data_values`), are modelled as functions.

Outside effects are turned into data:

- The network is a value of type `Remote`. For each caller (`Probe` for `is_data_downloaded`,
  `Download` for the main loop) and URL, it gives the quota reading and the outcome of each
  attempt. For each comments or events URL, it gives what `get_issue_events` returns: a list, `None`, or
  a raised request exception.
- The disk is a map from path to JSON value. The progress file is a map from repository key
  to a map from key to integer.
- An uncaught Python exception ends the run. It is modelled as an `Error` value next to the
  state reached at that point.

## Model

| member | source | states |
|---|---|---|
| `Endpoints.EndpointKeyRoundTrip` | main.py:148-156 | the resource key rebuilt from the (endpoint, category) pair that `check_github_endpoints` returns is the name it was given, for every string |
| `Endpoints.MainEndpointFacts` | main.py:135-143 | the seven names are distinct and free of `/`; only the last three carry a category |
| `Endpoints.CheckGithubEndpoints` | main.py:148-156 | reference function, no contract; see `Endpoints.EndpointKeyRoundTrip` and `Endpoints.MainEndpointFacts` |
| `Endpoints.ResourceKey` | main.py:305-313 | reference function, no contract; see `Endpoints.EndpointKeyRoundTrip` |
| `Endpoints.GithubUrl` | main.py:72-77 | reference function, no contract; see `Endpoints.GithubUrlStateAll` |
| `Endpoints.PageUrl` | main.py:517 | reference function, no contract; see `IngestionFacts.PageOutcomeSaved` and `IngestionFacts.PagesFromComplete` |
| `Endpoints.PagePath` | main.py:528-530 | reference function, no contract; see `Endpoints.PagePathInjective` and `IngestionFacts.SidePagesApart` |
| `Endpoints.GithubUrlStateAll` | main.py:72-77 | the request URL asks for `state=all` exactly when the endpoint has no category |
| `Endpoints.PagePathInjective` | main.py:528-530 | two page paths of one repository are equal only when their resource keys and page numbers are |
| `Pagination.GetLastPageNum` | main.py:209-221 | reference function, no contract; see the `Pagination.LastPage...` lemmas below |
| `Pagination.LastPageAbsent` | main.py:211-221 | a missing or empty `Link` header means one page |
| `Pagination.LastPageWithoutLastRel` | main.py:215-221 | a header none of whose comma-separated parts mentions `rel="last"` means one page |
| `Pagination.LastPageFromFirstLastRel` | main.py:215-220 | otherwise the first part that mentions `rel="last"` decides, through the digits after its last `page=` |
| `Pagination.LastPageOfRenderedHeader` | main.py:209-221 | on a header written as the API writes it, the parsed number is the page of the first `last` link, or 1 without one |
| `Pagination.LastPageOfFirstPage` | main.py:209-221 | the header of an endpoint's first page, with `next` and `last` links, gives the endpoint's page count |
| `Text.ParseIntRoundTrip` | main.py:220 | `int()` reads back the number a decimal rendering was made from |
| `Text.SplitJoin` | main.py:215 | splitting on a separator that no part contains gives the parts back |
| `RequestExecutor.FirstOk` | main.py:104-112 | the first of the attempts made that answered 200; every earlier attempt did not |
| `RequestExecutor.LastAnswer` | main.py:104-130 | the latest attempt that produced a response; every later one raised |
| `RequestExecutor.GetGithubApiRequest` | main.py:88-130 | the loop's reply and the number of requests it sends are those of `Expected` and `AttemptsMade`, and at most 30 requests are sent |
| `RequestExecutor.NoRequestIffLowQuota` | main.py:99-102 | no request is made (the call returns `None`) exactly when the quota is 10 or less |
| `RequestExecutor.FirstOkReturned` | main.py:111-112 | the first 200 is returned, whatever failed before it, after exactly that many requests |
| `RequestExecutor.NoOkReturnsLast` | main.py:104-130 | without a 200, all 30 requests are made and the latest response comes back |
| `RequestExecutor.AllRaisedUnbound` | main.py:113-130 | when every attempt raises, the final `return response` raises `UnboundLocalError` |
| `RequestExecutor.ReturnedCameFromNetwork` | main.py:104-130 | a returned response is one the network gave in an attempt made; it is not a 200 only when no attempt answered 200 |
| `Progress.WithDefaults` | main.py:296-316 | reference function, no contract; see the `Progress.WithDefaults` lemmas and `Progress.ProgressStore.UpdateVerificationFileWithDefaultValues` |
| `Progress.CountKey` | main.py:330-337 | reference function, no contract; see `Progress.CountKeyInMainLoop` |
| `Progress.Applied` | main.py:330-337 | reference function, no contract; see `Progress.AppliedChangesOnlyCounters` and `Progress.GetAfterUpdate` |
| `Progress.SetDefaultKey` | main.py:305 | `setdefault(key, 0)` adds `key` with 0 when it is missing and changes no existing value |
| `Progress.UpdateError` | main.py:331 | the `+=` raises `KeyError` exactly when the repository or the count key is missing |
| `Progress.GetVerificationDataValues` | main.py:257-282 | a value comes back exactly when the record has the endpoint's resource key, and it is that key's value |
| `Progress.ProgressStore.constructor` | main.py:457-466 | the store holds the file's content, or `{}` when there is no file |
| `Progress.ProgressStore.SetDefault` | main.py:305 | the record of the repository gains the key with 0 if it lacked it; nothing else changes |
| `Progress.ProgressStore.SetCounterDefaults` | main.py:304-313 | the count, last-page and current-page keys of one resource key are set to 0 where missing |
| `Progress.ProgressStore.UpdateVerificationFileWithDefaultValues` | main.py:296-316 | after the loop over the seven names, the file is `WithDefaults` of the old file |
| `Progress.ProgressStore.UpdateVerificationData` | main.py:318-340 | a `KeyError` leaves the file as it was; otherwise the count grows by the items (0 for `None`) and the two page numbers are set |
| `Progress.WithDefaultsKeepsValues` | main.py:305-313 | the defaults pass never changes a value already present, in any repository |
| `Progress.WithDefaultsOtherRepos` | main.py:296-316 | the defaults pass adds the repository and leaves every other record untouched |
| `Progress.WithDefaultsNewKeys` | main.py:301-313 | the record gains exactly the missing default keys, each with value 0 |
| `Progress.WithDefaultsIdempotent` | main.py:474-478 | running the defaults pass again (the main program runs it seven times per repository) changes nothing |
| `Progress.DefaultKeysOfEndpoints` | main.py:301-313 | the default keys are exactly the three counter keys of each of the seven names |
| `Progress.CountKeyInMainLoop` | main.py:330-337 | called with the loop's own category, the key incremented is the endpoint's resource key |
| `Progress.UpdateAfterDefaults` | main.py:330-337 | after the defaults pass, updating any of the seven endpoints cannot raise `KeyError` |
| `Progress.AppliedChangesOnlyCounters` | main.py:330-337 | an update changes only the three counter keys of one record: count plus `n`, last page and current page as given |
| `Progress.GetAfterUpdate` | main.py:257-282 | reading back after an update gives the old count plus the new items |
| `Progress.GetAfterDefaults` | main.py:257-282 | a repository new to the file reads 0 for every endpoint after the defaults pass |
| `Resume.FirstMissingFacts` | main.py:225-236 | the result is the first missing page in the range, with all earlier ones present, or 0 with all present; from page 1 on, 0 means all present and conversely |
| `Resume.CheckIfFileExists` | main.py:225-236 | the loop returns `FirstMissing` over the range |
| `Resume.DownloadedSpec` | main.py:406-437 | reference function, no contract; see `Resume.IsDataDownloaded` and the `Resume` lemmas below it |
| `Resume.IsDataDownloaded` | main.py:406-437 | the method's result is `DownloadedSpec`: probe the first page, read the last page, then decide from the record and the files |
| `Resume.DownloadedScanMeansAllPresent` | main.py:435-437 | the final scan reads "done" exactly when every page file from 1 to the last is on disk |
| `Resume.UncategorisedIgnoresFiles` | main.py:418-425 | without a category a stored current page alone decides, "done" exactly when it is not behind the last page |
| `Resume.CategorisedNeedsFiles` | main.py:427-437 | with a category, "done" needs every page file, and a stored current page that is not behind |
| `Resume.UnknownRepositoryScansFiles` | main.py:415-437 | a repository the file does not know is decided by the file scan alone |
| `Resume.FreshRepositoryNotDownloaded` | main.py:418-422 | after the defaults pass, an endpoint without category and with at least one page is not downloaded |
| `Resume.PageRange` | main.py:516 | the pages from the first missing page to the last, in increasing order, one each; see `IngestionFacts.PagesFromWalksRange` |
| `IssueFanout.IssueUrlAsWrittenDropsInner` | main.py:397 | the replacement removes every `/events`, not only the final one |
| `IssueFanout.IssueUrlAsWrittenDropsRepository` | main.py:397 | for a repository named `events`, the computed issue URL loses the repository segment |
| `IssueFanout.IssueUrl` | main.py:397 | the issue URL is the events URL without its final `/events` |
| `IssueFanout.IssueUrlOfEventsUrl` | main.py:397 | the events URL of an issue gives back that issue's URL, for every URL |
| `IssueFanout.IssueUrlAgreesWithoutInnerEvents` | main.py:397 | when `/events` occurs only at the end, the script's replacement and the corrected one agree |
| `IssueFanout.RewriteEvent` | main.py:387-389 | an event object keeps its keys, and its `url` (if any) becomes the issue URL; a string or list holding `url` and any other value raise `TypeError` |
| `IssueFanout.RewriteEvents` | main.py:387-391 | the loop succeeds exactly when every element does, and then gives each element's rewrite in order |
| `IssueFanout.GetIssueEventsByUrl` | main.py:380-391 | the in-place loop gives `RewriteEvents` of the fetched list; a failed fetch (`None`) raises `TypeError` |
| `IssueFanout.ReqInfo` | main.py:394-399 | reference function, no contract; see `IssueFanout.GetReqInfoPerIssue` and `IssueFanout.ReqInfoAgreesWithScript` |
| `IssueFanout.GetReqInfoPerIssue` | main.py:343-399 | the method's result is `ReqInfo`: comments as fetched, events rewritten to the issue URL; a non-string comments URL or a raising request gives `RequestError`, a non-string events URL has no `replace` |
| `IssueFanout.ReqInfoAgreesWithScript` | main.py:397 | when `/events` occurs only at the end of the events URL, the per-issue request with the corrected issue URL gives exactly what the script's own replacement gives |
| `IssueFanout.Contribution` | main.py:538-547 | reference function, no contract; see `IssueFanout.FanOutSkipsUnlinked` and `IssueFanout.ContributionEventsPointToIssue` |
| `IssueFanout.FanOut` | main.py:536-547 | reference function, no contract; see `IssueFanout.AggregateIssuePage` and the `IssueFanout.FanOut` lemmas |
| `IssueFanout.AggregateIssuePage` | main.py:536-547 | the loop over an issues page gives `FanOut`, the in-order concatenation over its linked issues, or the first exception |
| `IssueFanout.FanOutAppend` | main.py:536-547 | the fan-out of two runs of issues joined is the two fan-outs joined |
| `IssueFanout.FanOutSkipsUnlinked` | main.py:543-547 | an issue lacking either link adds nothing |
| `IssueFanout.ContributionEventsPointToIssue` | main.py:544-547 | each event object with a `url` from a linked issue points at that issue |
| `IssueFanout.FanOutEventsPointToIssues` | main.py:536-547 | every event object with a `url` on the page points at the issue it was fetched for |
| `Ingestion.SaveJsonData` | main.py:243-253 | the disk changes at `location` only; it holds the body there exactly when the body decoded; the result is `None` exactly for an undecodable body, a `TypeError` exactly for a body with no length, and otherwise its length (the item count of a list) |
| `Ingestion.PageOutcome` | main.py:517-555 | reference function, no contract; see `Ingestion.Downloader.DownloadPage` and the `IngestionFacts.PageOutcome` lemmas |
| `Ingestion.PagesFrom` | main.py:516-556 | reference function, no contract; see `Ingestion.Downloader.DownloadPages` and `IngestionFacts.PagesFromWalksRange` |
| `Ingestion.EndpointOutcome` | main.py:500-556 | reference function, no contract; see `Ingestion.Downloader.ProcessEndpoint` and `RunFacts.EndpointOutcomeFramed` |
| `Ingestion.EndpointsFrom` | main.py:497-556 | reference function, no contract; see `Ingestion.Downloader.ProcessRepository` and `RunFacts.RepositoryRerunDownloadsNothing` |
| `Ingestion.ReposFrom` | main.py:496-556 | reference function, no contract; see `Ingestion.Downloader.DownloadAll` and `RunFacts.ReposFromGrows` |
| `Ingestion.RunOutcome` | main.py:474-556 | reference function, no contract; see `Ingestion.Downloader.Run` and `RunFacts.RunRerunDownloadsNothing` |
| `Ingestion.Downloader.constructor` | main.py:454-466 | the run starts from the given disk and the progress file's content, or `{}` |
| `Ingestion.Downloader.DownloadPage` | main.py:517-555 | the new disk, progress file and exception are those of `PageOutcome` |
| `Ingestion.Downloader.DownloadPages` | main.py:516-556 | the new state and exception are those of `PagesFrom`, the page loop stopping at the first exception |
| `Ingestion.Downloader.ProcessEndpoint` | main.py:500-516 | the new state and exception are those of `EndpointOutcome` |
| `Ingestion.Downloader.ProcessRepository` | main.py:497-507 | the new state and exception are those of `EndpointsFrom`, with the two derived issue names skipped; what that pass may change and why repeating it changes nothing is in `RunFacts` |
| `Ingestion.Downloader.ApplyDefaults` | main.py:474-478 | the progress file after the first loop is `PhaseOne` of the old one, the defaults of every listed repository; the disk is unchanged |
| `Ingestion.Downloader.DownloadAll` | main.py:496-556 | the new state and exception are those of `ReposFrom`, the repository loop stopping at the first exception |
| `Ingestion.Downloader.Run` | main.py:474-556 | the new state and exception are those of `RunOutcome`: the defaults pass over every repository, then the downloads; a second run after a successful one changes nothing (`RunFacts.RunRerunDownloadsNothing`) |
| `IngestionFacts.IssueSidePagesFrame` | main.py:549-552 | the side pages write the comments file and the events file and nothing else |
| `IngestionFacts.PageOutcomeFiles` | main.py:525-552 | a page step keeps every file and changes only its page file and, for issues, its two side pages |
| `IngestionFacts.PageOutcomeStore` | main.py:555 | a page step leaves the progress file as it was or applies exactly one update of its counters |
| `IngestionFacts.SidePagesApart` | main.py:528-551 | an issues page file and its two side pages are three different files |
| `IngestionFacts.PageOutcomeSaved` | main.py:517-555 | a page that came back with a JSON body and raised nothing is on disk with that body, and the record points at it |
| `IngestionFacts.PagesFromKeepsFiles` | main.py:516-556 | files only accumulate over the page loop |
| `IngestionFacts.StepsOver` | main.py:516-556 | reference function, no contract: the page step over an explicit list of pages; see `IngestionFacts.PagesFromWalksRange` |
| `IngestionFacts.PagesFromWalksRange` | main.py:516-556 | the page loop runs the page step on exactly the pages of `PageRange`, in that order, and stops at the first exception |
| `IngestionFacts.PagesFromComplete` | main.py:516-556 | a page loop that raised nothing over pages that all answered leaves every one of them on disk |
| `IngestionFacts.PagesFromRecordsLast` | main.py:516-555 | it also leaves the record's current page at the last page |
| `IngestionFacts.AppliedMonotone` | main.py:331-337 | an update with a current page not past the last page and a non-negative item count leaves that pair in order and lowers no other value |
| `IngestionFacts.PageOutcomeMonotone` | main.py:517-555 | a page step inside the loop that updates the record writes a current page not past the last page, and lowers no value other than the two page numbers |
| `IngestionFacts.PagesFromMonotone` | main.py:516-556 | over the page loop no item count (nor any value other than the loop's own two page numbers) decreases; a record the loop wrote ends with the current page not past the last page, and a record in that order stays so |
| `IngestionFacts.CurrentPageCanDrop` | main.py:515-555 | the current page is not monotone: a restart at page 0 sets a stored current page above 0 back to 0, and adds that page's items to the count again |
| `IngestionFacts.ProcessedNamesDownloadable` | main.py:496-500 | the five names the main loop downloads have no `/`, and `issues` has no category |
| `IngestionFacts.PassFillsGaps` | main.py:515-556 | started at the first missing page, the loop fills every gap from page 1 to the last |
| `IngestionFacts.EndpointCompletesPages` | main.py:500-556 | an endpoint pass that raised nothing leaves pages 1 to last on disk and the record at the last page |
| `IngestionFacts.RerunDownloadsNothing` | main.py:501-507 | after such a pass, with the network's answers unchanged, the next pass over that endpoint finds it downloaded and changes nothing |
| `IngestionFacts.RedownloadStartsAtZero` | main.py:515-516 | when every file is there but the record is behind, the loop starts again at page 0 |
| `IngestionFacts.PhaseOneDefaults` | main.py:474-478 | after the defaults pass every listed repository holds every default key |
| `IngestionFacts.PhaseOneKeepsValues` | main.py:474-478 | the defaults pass changes no value already in the file |
| `RunFacts.PagesFromFramed` | main.py:516-556 | a page loop, whatever it ends with, keeps every file and record key, and changes stored current pages only under its own repository and resource key |
| `RunFacts.EndpointOutcomeFramed` | main.py:500-556 | so does one endpoint's pass, including its probe and its last-page request |
| `RunFacts.EndpointsFromGrows` | main.py:496-556 | over a repository pass, files and record keys only accumulate |
| `RunFacts.EndpointsFromKeepsCurrent` | main.py:330-337 | a repository pass changes no stored current page other than its own names' current-page keys |
| `RunFacts.ReposFromGrows` | main.py:496-556 | over the repository loop, files and record keys only accumulate |
| `RunFacts.DoneKept` | main.py:406-437 | an endpoint found downloaded stays so when files are added and its stored current page is unchanged |
| `RunFacts.EndpointStepDone` | main.py:501-507 | one endpoint pass that raised nothing, on a network that answers the same way, leaves that endpoint downloaded |
| `RunFacts.EndpointsFromKeepsDone` | main.py:497-556 | the later names of a repository pass keep every earlier name downloaded |
| `RunFacts.EndpointsFromAllDone` | main.py:497-507 | when every downloaded name is found downloaded, a repository pass changes nothing and raises nothing |
| `RunFacts.RepositoryRerunDownloadsNothing` | main.py:497-556 | after a repository pass that raised nothing, on a network that answers the same way, a second pass over it changes nothing and raises nothing |
| `RunFacts.ReposFromKeepsRecord` | main.py:496-556 | passes over other repositories keep every file and leave the stored current pages of a repository's record unchanged |
| `RunFacts.ReposFromAllDone` | main.py:496-507 | when every listed repository is done, the repository loop changes nothing |
| `RunFacts.PhaseOneNoop` | main.py:474-478 | the defaults pass leaves a file holding every listed repository's defaults as it is |
| `RunFacts.RunRerunDownloadsNothing` | main.py:474-556 | after a run that raised nothing, over repositories with distinct `{user}_{repo}` keys on a network that answers the same way, a second run changes neither the disk nor the progress file and raises nothing |

## Left out

- Logging, `print`, the `time.sleep` calls and the clock: they change nothing the model states.
- `check_token_validity`, `get_rate_json_category_data` and `get_verified_and_non_verified_lists` (main.py:59-67, 167-204): token checking, CSV reading and URL validation are I/O. The repository list is a parameter of `Run`.
- `create_directory` is not part of this model. The disk is a map, so there are no directories.
- The rate-limit reads (`get_github_category_value`, main.py:161-164): the quota is a number the network value supplies. Failures of the rate-limit request itself are not modelled.
- `RequestExecutor.GetGithubApiRequest`: the quota read again inside the loop (main.py:106) is not modelled, because its value is never used. The timeouts appear only as attempts that raise.
- `check_rate_limit` and its wait loop in `get_issue_events` (main.py:343-372) are not part of this model. The fetched per-issue list is taken from the network value.
- `IssueFanout.ReqInfo`: a per-issue payload that is JSON but not a list (main.py:351-352) is not modelled. The network value gives a list, `None` (a status other than 200, or a body that is not JSON), or a raised exception of `requests.get` (main.py:347), which becomes `RequestError`. The kind of request exception is not distinguished.
- `IssueFanout.GetReqInfoPerIssue`: the fan-out derives the issue URL with the corrected `IssueFanout.IssueUrl` (only the final `/events` removed), not with the replacement of every `/events` at main.py:397; see "## Findings". `IssueFanout.ReqInfoAgreesWithScript` proves the two agree whenever `/events` occurs only at the end of the events URL.
- `RunFacts.RunRerunDownloadsNothing`: proved only for a run that raised nothing, over a repository list whose entries have pairwise distinct `{user}_{repo}` keys (two entries such as (`a_b`, `c`) and (`a`, `b_c`) share a key and a page directory), on a network that announces the same last page (at least 1) to the probe and the download and answers every page with a JSON body. Nothing is proved about a second run after a run that raised, or on a network whose answers change.
- `RunFacts.RepositoryRerunDownloadsNothing`: the same network conditions, for one repository, after a pass over it that raised nothing.
- The list `verification_data_keys` built at main.py:486-492 is not part of this model, because it is never read.
- The `FileNotFoundError` path of `update_verification_data` (main.py:323-325) is not modelled. The file always exists by then (main.py:458-461), so the store is always present.
- JSON formatting (indentation, `sort_keys`, key order) is not modelled. A file's content is a JSON value.
- `Text.ParseInt` strips only ASCII whitespace and accepts only ASCII digits. Python's `int()` also accepts other Unicode whitespace and digits. Like Python's `int()`, it accepts single `_` separators between digits and refuses a leading, trailing or doubled `_`.
- The `github_endpoint` parameter of `update_verification_file_with_default_values` is left out, because the function overwrites it before use.
- `Resume.DownloadedSpec`: the final implicit `None` of `is_data_downloaded` is modelled as `False`, since its only caller tests it with `if`.
- The network answers per (caller, URL) pair, and the answers do not change over time. Within one call to `is_data_downloaded` or the main loop, a URL is requested once.

## Notes on the code

- Responses other than 200 are retried like exceptions, up to 30 attempts. After the loop, the latest response is returned, whatever its status.
- For a category, `is_data_downloaded` returns `False` as soon as the stored current page is behind the last page. Otherwise it falls through to the file scan, as it does when the repository or key is missing.
- A page whose body is not JSON is not written, yet its progress is still recorded with 0 items. On an issues page the same body then makes `json.loads` raise.
- `update_verification_data` tests the module-level `category` rather than its own argument. The main loop passes that same category, so the key is the endpoint's resource key (`Progress.CountKeyInMainLoop`).
- The stored current page does not only grow. When every file is present but the record is behind, the loop starts again at page 0 (main.py:515-516), and page 0's update sets the current page back to 0 (`IngestionFacts.CurrentPageCanDrop`). Every page walked again adds its items to the count a second time, so after such a restart the count includes those pages twice. What the loop does keep: each update writes a current page not past the last page, and no count decreases (`IngestionFacts.PagesFromMonotone`).
- `check_if_file_exists` returns 0 both for "nothing missing" and for a missing page 0. When every file is present but the record is behind, the main loop starts again at page 0 (`IngestionFacts.RedownloadStartsAtZero`).

## Findings

| source | as written | input that shows it | evidently intended | confidence | as-written member | corrected member |
|---|---|---|---|---|---|---|
| main.py:397 | `issue_events_url.replace('/events', '')` removes every occurrence of `/events` | the events URL `https://api.github.com/repos/o/events/issues/1/events` of a repository named `events` gives `https://api.github.com/repos/o/issues/1` | remove only the final `/events`, giving `https://api.github.com/repos/o/events/issues/1` | not executed | `IssueFanout.IssueUrlAsWrittenDropsRepository` | `IssueFanout.IssueUrlOfEventsUrl` |

The model's fan-out uses the corrected `IssueFanout.IssueUrl`. `IssueFanout.IssueUrlAgreesWithoutInnerEvents` shows that the two agree on every events URL whose only `/events` is at the end.
