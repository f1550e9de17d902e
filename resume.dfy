/** Resume planning: which page files are already on disk, and whether an endpoint needs
    downloading at all. */
module Resume {
  import opened Wrappers
  import opened Errors
  import opened Json
  import opened Endpoints
  import opened Pagination
  import opened RequestExecutor
  import opened Progress

  /** The disk: file path to the JSON content saved there. */
  type Disk = map<string, Json>

  predicate PageExists(files: Disk, user: string, repo: string, endpoint: string, category: string, p: int) {
    PagePath(user, repo, endpoint, category, p) in files
  }

  predicate AllPagesPresent(files: Disk, user: string, repo: string, endpoint: string, category: string,
                            first: int, last: int) {
    forall p :: first <= p <= last ==> PageExists(files, user, repo, endpoint, category, p)
  }

  /** The first page in `[first, last]` whose file is missing, or 0 when there is none. */
  function FirstMissing(files: Disk, user: string, repo: string, endpoint: string, category: string,
                        first: int, last: int): int
    decreases last - first
  {
    if first > last then 0
    else if !PageExists(files, user, repo, endpoint, category, first) then first
    else FirstMissing(files, user, repo, endpoint, category, first + 1, last)
  }

  /** The search finds the first gap, or reports 0 with every page present. A missing page 0
      also reads as 0, so 0 means "nothing missing" only when the range starts at 1 or later. */
  lemma {:induction false} FirstMissingFacts(files: Disk, user: string, repo: string, endpoint: string,
                                             category: string, first: int, last: int)
    ensures var r := FirstMissing(files, user, repo, endpoint, category, first, last);
            || (&& first <= r <= last
                && !PageExists(files, user, repo, endpoint, category, r)
                && AllPagesPresent(files, user, repo, endpoint, category, first, r - 1))
            || (r == 0 && AllPagesPresent(files, user, repo, endpoint, category, first, last))
    ensures first >= 1 ==>
              (FirstMissing(files, user, repo, endpoint, category, first, last) == 0
               <==> AllPagesPresent(files, user, repo, endpoint, category, first, last))
    decreases last - first
  {
    if first <= last && PageExists(files, user, repo, endpoint, category, first) {
      FirstMissingFacts(files, user, repo, endpoint, category, first + 1, last);
    }
  }

  /** `check_if_file_exists`: scan the pages in order and stop at the first missing file. */
  method CheckIfFileExists(files: Disk, user: string, repo: string, currentPage: int, lastPage: int,
                           endpoint: string, category: string) returns (r: int)
    ensures r == FirstMissing(files, user, repo, endpoint, category, currentPage, lastPage)
  {
    var item := currentPage;
    while item <= lastPage
      invariant FirstMissing(files, user, repo, endpoint, category, item, lastPage)
                == FirstMissing(files, user, repo, endpoint, category, currentPage, lastPage)
      decreases lastPage - item
    {
      if PagePath(user, repo, endpoint, category, item) !in files {
        return item;
      }
      item := item + 1;
    }
    return 0;
  }

  /** The last page a reply announces, or the exception reading it raises: `None` has no
      `headers` attribute, and a call that never got a response raised already. */
  function ResolveLastPage(reply: Reply): (r: Result<int, Error>)
    ensures reply.NoRequest? ==> r == Err(AttributeError)
    ensures reply.Unbound? ==> r == Err(UnboundLocalError)
    ensures reply.Returned? ==> r == GetLastPageNum(reply.resp.link)
  {
    match reply
    case NoRequest => Err(AttributeError)
    case Unbound => Err(UnboundLocalError)
    case Returned(resp) => GetLastPageNum(resp.link)
  }

  /** The stored current page of a resource key, if the record has one. */
  function StoredCurrent(store: Store, rk: string, key: string): Option<int> {
    if rk in store && CurrKey(key) in store[rk] then Some(store[rk][CurrKey(key)]) else None
  }

  /** The decision of `is_data_downloaded` once the last page is known. A stored current
      page behind the last page means "not downloaded"; otherwise an endpoint without
      category is done, and a categorised one (or one with no stored page) is done only when
      every page file is present. The source's final `None` is read as `False`, as its
      caller's `if` reads it. */
  function DownloadedDecision(store: Store, rk: string, key: string, category: string, last: int,
                              allPresent: bool): bool {
    match StoredCurrent(store, rk, key)
    case Some(v) =>
      if v < last then false
      else if category == NoCategory then true
      else allPresent
    case None => allPresent
  }

  /** `is_data_downloaded`, stated without its loops. */
  function DownloadedSpec(remote: Remote, files: Disk, store: Store, user: string, repo: string,
                          endpoint: string, category: string): Result<bool, Error> {
    match ResolveLastPage(Fetch(remote, Probe, GithubUrl(user, repo, endpoint, category)))
    case Err(e) => Err(e)
    case Ok(last) =>
      Ok(DownloadedDecision(store, RepoKey(user, repo), ResourceKey(endpoint, category), category, last,
                            FirstMissing(files, user, repo, endpoint, category, 1, last) == 0))
  }

  /** `is_data_downloaded`: request the first page, read its last page, then decide. */
  method IsDataDownloaded(remote: Remote, files: Disk, store: Store, user: string, repo: string,
                          endpoint: string, category: string) returns (r: Result<bool, Error>)
    ensures r == DownloadedSpec(remote, files, store, user, repo, endpoint, category)
  {
    var url := GithubUrl(user, repo, endpoint, category);
    var reply, _ := GetGithubApiRequest(remote.quota(Probe)(url), remote.net(Probe)(url));
    var resolved := ResolveLastPage(reply);
    if resolved.Err? {
      return Err(resolved.error);
    }
    var last := resolved.value;
    var rk := RepoKey(user, repo);
    var key := ResourceKey(endpoint, category);
    if rk in store && CurrKey(key) in store[rk] {
      var v := store[rk][CurrKey(key)];
      if v < last {
        return Ok(false);
      } else if category == NoCategory {
        return Ok(true);
      }
    }
    var missing := CheckIfFileExists(files, user, repo, 1, last, endpoint, category);
    return Ok(missing == 0);
  }

  /** The scan that ends the decision reads "done" exactly when every page file is there. */
  lemma DownloadedScanMeansAllPresent(files: Disk, user: string, repo: string, endpoint: string,
                                      category: string, last: int)
    ensures (FirstMissing(files, user, repo, endpoint, category, 1, last) == 0)
            == AllPagesPresent(files, user, repo, endpoint, category, 1, last)
  {
    FirstMissingFacts(files, user, repo, endpoint, category, 1, last);
  }

  /** Without a category the stored page alone decides: not downloaded exactly when it is
      behind the last page, whatever is on disk. */
  lemma UncategorisedIgnoresFiles(store: Store, rk: string, endpoint: string, last: int, a: bool, b: bool)
    requires StoredCurrent(store, rk, ResourceKey(endpoint, NoCategory)).Some?
    ensures var v := StoredCurrent(store, rk, ResourceKey(endpoint, NoCategory)).value;
            && DownloadedDecision(store, rk, ResourceKey(endpoint, NoCategory), NoCategory, last, a)
               == DownloadedDecision(store, rk, ResourceKey(endpoint, NoCategory), NoCategory, last, b)
            && (DownloadedDecision(store, rk, ResourceKey(endpoint, NoCategory), NoCategory, last, a) <==> v >= last)
  {
  }

  /** With a category, "downloaded" needs every page file, and a stored page that is not behind. */
  lemma CategorisedNeedsFiles(store: Store, rk: string, key: string, category: string, last: int, allPresent: bool)
    requires category != NoCategory
    ensures DownloadedDecision(store, rk, key, category, last, allPresent)
            <==> allPresent && (StoredCurrent(store, rk, key).None? || StoredCurrent(store, rk, key).value >= last)
  {
  }

  /** A repository the file does not know falls through to the file scan. */
  lemma UnknownRepositoryScansFiles(store: Store, rk: string, key: string, category: string, last: int, allPresent: bool)
    requires rk !in store
    ensures DownloadedDecision(store, rk, key, category, last, allPresent) == allPresent
  {
  }

  /** After the defaults pass a repository's stored page is 0, so an endpoint with one page or
      more counts as not downloaded when it has no category. */
  lemma FreshRepositoryNotDownloaded(s: Store, user: string, repo: string, i: nat, last: int, allPresent: bool)
    requires i < |MainEndpoints| && RepoKey(user, repo) !in s && last >= 1
    requires CheckGithubEndpoints(MainEndpoints[i]).1 == NoCategory
    ensures DownloadedDecision(WithDefaults(s, RepoKey(user, repo)), RepoKey(user, repo),
                               NameKey(MainEndpoints[i]), NoCategory, last, allPresent) == false
  {
    var key := NameKey(MainEndpoints[i]);
    assert CurrKey(key) in CounterKeys(key);
    assert CurrKey(key) in DefaultKeys();
  }

  /** The pages the main loop walks: from the first missing page up to the last page, both
      included, in increasing order. */
  function PageRange(pageNotFound: int, last: int): (r: seq<int>)
    ensures |r| == if pageNotFound <= last then last - pageNotFound + 1 else 0
    ensures forall j :: 0 <= j < |r| ==> r[j] == pageNotFound + j
    decreases last - pageNotFound
  {
    if pageNotFound > last then [] else [pageNotFound] + PageRange(pageNotFound + 1, last)
  }
}
