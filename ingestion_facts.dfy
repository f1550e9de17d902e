/** What one page, one endpoint and the defaults pass of a run guarantee, and why a second
    run after a successful one has nothing left to do. */
module IngestionFacts {
  import opened Wrappers
  import opened Errors
  import opened Json
  import opened Endpoints
  import opened RequestExecutor
  import opened Progress
  import opened Resume
  import opened IssueFanout
  import opened Ingestion

  /** The files one page pass may write. */
  function PageWrites(user: string, repo: string, endpoint: string, category: string, page: int): set<string> {
    {PagePath(user, repo, endpoint, category, page)}
    + (if endpoint == "issues" then {CommentsPagePath(user, repo, page), EventsPagePath(user, repo, page)} else {})
  }

  /** The item count one page pass adds: the saved value's length, or 0. */
  function PageItems(remote: Remote, url: string, page: int): nat {
    match Fetch(remote, Download, PageUrl(url, page))
    case Returned(resp) =>
      (match resp.body
       case Some(j) => (match PyLen(j) case Ok(n) => n case Err(_) => 0)
       case None => 0)
    case _ => 0
  }

  /** The issue side pages write the comments file and the events file and nothing else. */
  lemma IssueSidePagesFrame(remote: Remote, files: Disk, body: Option<Json>, user: string, repo: string, page: int)
    ensures var side := IssueSidePages(remote, files, body, user, repo, page);
            side.Ok? ==>
              && files.Keys <= side.value.Keys
              && forall path ::
                   (path in files && path != CommentsPagePath(user, repo, page) && path != EventsPagePath(user, repo, page))
                   ==> side.value[path] == files[path]
  {
  }

  /** A page pass only adds or replaces its own files. */
  lemma PageOutcomeFiles(remote: Remote, st: State, url: string, user: string, repo: string,
                         endpoint: string, category: string, page: int, last: int)
    ensures var o := PageOutcome(remote, st, url, user, repo, endpoint, category, page, last);
            && st.files.Keys <= o.st.files.Keys
            && (forall path :: path in st.files && path !in PageWrites(user, repo, endpoint, category, page) ==>
                  o.st.files[path] == st.files[path])
  {
    match Fetch(remote, Download, PageUrl(url, page)) {
      case Returned(resp) =>
        var (files1, _) := SaveJsonData(st.files, resp.body, PagePath(user, repo, endpoint, category, page));
        IssueSidePagesFrame(remote, files1, resp.body, user, repo, page);
      case _ =>
    }
  }

  /** A page pass changes the progress file only by the one update of its counters. */
  lemma PageOutcomeStore(remote: Remote, st: State, url: string, user: string, repo: string,
                         endpoint: string, category: string, page: int, last: int)
    ensures var o := PageOutcome(remote, st, url, user, repo, endpoint, category, page, last);
            var rk, key := RepoKey(user, repo), CountKey(endpoint, category, category);
            || o.st.store == st.store
            || (&& o.err.None? && rk in st.store && key in st.store[rk]
                && o.st.store == Applied(st.store, rk, key, last, page, PageItems(remote, url, page)))
  {
    match Fetch(remote, Download, PageUrl(url, page)) {
      case Returned(resp) =>
        var (files1, saved) := SaveJsonData(st.files, resp.body, PagePath(user, repo, endpoint, category, page));
        if saved.Ok? {
          assert saved.value == match resp.body case None => None case Some(j) =>
            (match PyLen(j) case Ok(n) => Some(n as int) case Err(_) => None);
        }
      case _ =>
    }
  }

  /** The endpoints the main loop downloads keep their files apart from the side pages. */
  predicate Downloadable(endpoint: string, category: string) {
    && '/' !in endpoint && '/' !in category
    && (endpoint == "issues" ==> category == NoCategory)
  }

  lemma SidePagesApart(user: string, repo: string, endpoint: string, category: string, page: int)
    requires Downloadable(endpoint, category) && endpoint == "issues"
    ensures PagePath(user, repo, endpoint, category, page) != CommentsPagePath(user, repo, page)
    ensures PagePath(user, repo, endpoint, category, page) != EventsPagePath(user, repo, page)
  {
    assert ResourceKey(endpoint, category) == "issues";
    assert ResourceKey("issues", "comments") == "issues_comments";
    assert ResourceKey("issues", "events") == "issues_events";
    if PagePath(user, repo, endpoint, category, page) == CommentsPagePath(user, repo, page) {
      PagePathInjective(user, repo, endpoint, category, page, "issues", "comments", page);
    }
    if PagePath(user, repo, endpoint, category, page) == EventsPagePath(user, repo, page) {
      PagePathInjective(user, repo, endpoint, category, page, "issues", "events", page);
    }
  }

  /** A page that came back with a JSON body and went through without an exception is on
      disk with that body, and the record's current page is that page. */
  lemma PageOutcomeSaved(remote: Remote, st: State, url: string, user: string, repo: string,
                         endpoint: string, category: string, page: int, last: int)
    requires Downloadable(endpoint, category)
    requires Fetch(remote, Download, PageUrl(url, page)).Returned?
    requires Fetch(remote, Download, PageUrl(url, page)).resp.body.Some?
    requires PageOutcome(remote, st, url, user, repo, endpoint, category, page, last).err.None?
    ensures var o := PageOutcome(remote, st, url, user, repo, endpoint, category, page, last);
            var rk, key := RepoKey(user, repo), ResourceKey(endpoint, category);
            && PagePath(user, repo, endpoint, category, page) in o.st.files
            && o.st.files[PagePath(user, repo, endpoint, category, page)]
               == Fetch(remote, Download, PageUrl(url, page)).resp.body.value
            && StoredCurrent(o.st.store, rk, key) == Some(page)
            && o.st.store[rk][LastKey(key)] == last
  {
    var rk, key := RepoKey(user, repo), ResourceKey(endpoint, category);
    CountKeyInMainLoop(endpoint, category);
    if endpoint == "issues" {
      SidePagesApart(user, repo, endpoint, category, page);
    }
    PageOutcomeFiles(remote, st, url, user, repo, endpoint, category, page, last);
    PageOutcomeStore(remote, st, url, user, repo, endpoint, category, page, last);
    AppliedChangesOnlyCounters(st.store, rk, key, last, page, PageItems(remote, url, page));
  }

  /** Files only accumulate over a page loop. */
  lemma {:induction false} PagesFromKeepsFiles(remote: Remote, st: State, url: string, user: string, repo: string,
                                               endpoint: string, category: string, page: int, last: int)
    ensures st.files.Keys <= PagesFrom(remote, st, url, user, repo, endpoint, category, page, last).st.files.Keys
    decreases last - page
  {
    if page <= last {
      var o := PageOutcome(remote, st, url, user, repo, endpoint, category, page, last);
      PageOutcomeFiles(remote, st, url, user, repo, endpoint, category, page, last);
      if o.err.None? {
        PagesFromKeepsFiles(remote, o.st, url, user, repo, endpoint, category, page + 1, last);
      }
    }
  }

  /** The page passes over an explicit list of page numbers, in list order, ending at the
      first exception. */
  function StepsOver(remote: Remote, st: State, url: string, user: string, repo: string,
                     endpoint: string, category: string, pages: seq<int>, last: int): Outcome
    decreases |pages|
  {
    if pages == [] then Outcome(st, None)
    else
      var o := PageOutcome(remote, st, url, user, repo, endpoint, category, pages[0], last);
      if o.err.Some? then o else StepsOver(remote, o.st, url, user, repo, endpoint, category, pages[1..], last)
  }

  /** The page loop visits exactly the pages of `PageRange(page, last)`, one after the other. */
  lemma {:induction false} PagesFromWalksRange(remote: Remote, st: State, url: string, user: string, repo: string,
                                               endpoint: string, category: string, page: int, last: int)
    ensures PagesFrom(remote, st, url, user, repo, endpoint, category, page, last)
            == StepsOver(remote, st, url, user, repo, endpoint, category, PageRange(page, last), last)
    decreases last - page
  {
    if page <= last {
      var r := PageRange(page, last);
      assert r[0] == page;
      assert r[1..] == PageRange(page + 1, last);
      var o := PageOutcome(remote, st, url, user, repo, endpoint, category, page, last);
      if o.err.None? {
        PagesFromWalksRange(remote, o.st, url, user, repo, endpoint, category, page + 1, last);
      }
    }
  }

  /** Every page of `[from, last]` answers with a JSON body. */
  predicate PagesServed(remote: Remote, url: string, from: int, last: int) {
    forall p :: from <= p <= last ==>
      Fetch(remote, Download, PageUrl(url, p)).Returned? && Fetch(remote, Download, PageUrl(url, p)).resp.body.Some?
  }

  /** One step of the page loop, when the page goes through. */
  lemma PagesFromStep(remote: Remote, st: State, url: string, user: string, repo: string,
                      endpoint: string, category: string, page: int, last: int)
    requires page <= last
    requires PagesFrom(remote, st, url, user, repo, endpoint, category, page, last).err.None?
    ensures var o1 := PageOutcome(remote, st, url, user, repo, endpoint, category, page, last);
            && o1.err.None?
            && PagesFrom(remote, st, url, user, repo, endpoint, category, page, last)
               == PagesFrom(remote, o1.st, url, user, repo, endpoint, category, page + 1, last)
  {
  }

  lemma PresentExtend(files1: Disk, files2: Disk, user: string, repo: string,
                      endpoint: string, category: string, page: int, last: int)
    requires PageExists(files1, user, repo, endpoint, category, page) && files1.Keys <= files2.Keys
    requires AllPagesPresent(files2, user, repo, endpoint, category, page + 1, last)
    ensures AllPagesPresent(files2, user, repo, endpoint, category, page, last)
  {
  }

  /** A page loop that ends without an exception, over pages that all answered, leaves
      every one of them on disk. */
  lemma {:induction false} PagesFromComplete(remote: Remote, st: State, url: string, user: string, repo: string,
                                             endpoint: string, category: string, page: int, last: int)
    requires Downloadable(endpoint, category) && PagesServed(remote, url, page, last)
    requires PagesFrom(remote, st, url, user, repo, endpoint, category, page, last).err.None?
    ensures AllPagesPresent(PagesFrom(remote, st, url, user, repo, endpoint, category, page, last).st.files,
                            user, repo, endpoint, category, page, last)
    decreases last - page
  {
    if page <= last {
      PagesFromStep(remote, st, url, user, repo, endpoint, category, page, last);
      var o1 := PageOutcome(remote, st, url, user, repo, endpoint, category, page, last);
      var o := PagesFrom(remote, o1.st, url, user, repo, endpoint, category, page + 1, last);
      PageOutcomeSaved(remote, st, url, user, repo, endpoint, category, page, last);
      assert PagesServed(remote, url, page + 1, last);
      PagesFromComplete(remote, o1.st, url, user, repo, endpoint, category, page + 1, last);
      PagesFromKeepsFiles(remote, o1.st, url, user, repo, endpoint, category, page + 1, last);
      PresentExtend(o1.st.files, o.st.files, user, repo, endpoint, category, page, last);
    }
  }

  /** ... and leaves the record's current page at the last page. */
  lemma {:induction false} PagesFromRecordsLast(remote: Remote, st: State, url: string, user: string, repo: string,
                                                endpoint: string, category: string, page: int, last: int)
    requires Downloadable(endpoint, category) && PagesServed(remote, url, page, last) && page <= last
    requires PagesFrom(remote, st, url, user, repo, endpoint, category, page, last).err.None?
    ensures StoredCurrent(PagesFrom(remote, st, url, user, repo, endpoint, category, page, last).st.store,
                          RepoKey(user, repo), ResourceKey(endpoint, category)) == Some(last)
    decreases last - page
  {
    PagesFromStep(remote, st, url, user, repo, endpoint, category, page, last);
    var o1 := PageOutcome(remote, st, url, user, repo, endpoint, category, page, last);
    if page == last {
      PageOutcomeSaved(remote, st, url, user, repo, endpoint, category, page, last);
    } else {
      assert PagesServed(remote, url, page + 1, last);
      PagesFromRecordsLast(remote, o1.st, url, user, repo, endpoint, category, page + 1, last);
    }
  }

  /** The record `rk` holds both page numbers of `key`, and the current page is not past the
      last page. */
  predicate WrittenInOrder(s: Store, rk: string, key: string) {
    && rk in s && CurrKey(key) in s[rk] && LastKey(key) in s[rk]
    && s[rk][CurrKey(key)] <= s[rk][LastKey(key)]
  }

  /** Where the record `rk` holds both page numbers of `key`, the current page is not past
      the last page. */
  predicate PagesInOrder(s: Store, rk: string, key: string) {
    rk in s && CurrKey(key) in s[rk] && LastKey(key) in s[rk] ==> s[rk][CurrKey(key)] <= s[rk][LastKey(key)]
  }

  /** An update with a current page not past the last page and a non-negative item count
      leaves its page numbers in order and lowers no other value. */
  lemma AppliedMonotone(s: Store, rk: string, key: string, last: int, curr: int, n: nat, r: string, k: string)
    requires rk in s && key in s[rk] && curr <= last
    ensures WrittenInOrder(Applied(s, rk, key, last, curr, n), rk, key)
    ensures r in s && k in s[r] && (r != rk || (k != LastKey(key) && k != CurrKey(key)))
            ==> r in Applied(s, rk, key, last, curr, n) && k in Applied(s, rk, key, last, curr, n)[r]
                && Applied(s, rk, key, last, curr, n)[r][k] >= s[r][k]
  {
    AppliedChangesOnlyCounters(s, rk, key, last, curr, n);
    if r == rk && k in s[r] && k != LastKey(key) && k != CurrKey(key) && k != key {
      assert k !in CounterKeys(key);
    }
  }

  /** One page pass inside the loop: a progress update writes a current page not past the
      last page, and lowers no value other than the two page numbers it sets. */
  lemma PageOutcomeMonotone(remote: Remote, st: State, url: string, user: string, repo: string,
                            endpoint: string, category: string, page: int, last: int, r: string, k: string)
    requires page <= last
    ensures var t := PageOutcome(remote, st, url, user, repo, endpoint, category, page, last).st.store;
            var rk, key := RepoKey(user, repo), CountKey(endpoint, category, category);
            && (t != st.store ==> WrittenInOrder(t, rk, key))
            && (r in st.store && k in st.store[r] && (r != rk || (k != LastKey(key) && k != CurrKey(key)))
                ==> r in t && k in t[r] && t[r][k] >= st.store[r][k])
  {
    var rk, key := RepoKey(user, repo), CountKey(endpoint, category, category);
    PageOutcomeStore(remote, st, url, user, repo, endpoint, category, page, last);
    var t := PageOutcome(remote, st, url, user, repo, endpoint, category, page, last).st.store;
    if t != st.store {
      AppliedMonotone(st.store, rk, key, last, page, PageItems(remote, url, page), r, k);
    }
  }

  /** Over the page loop the record of its resource key ends with a current page not past
      the last page whenever the loop wrote it, and no other value (item counts included)
      decreases. */
  lemma {:induction false} PagesFromMonotone(remote: Remote, st: State, url: string, user: string, repo: string,
                                             endpoint: string, category: string, page: int, last: int,
                                             r: string, k: string)
    ensures var o := PagesFrom(remote, st, url, user, repo, endpoint, category, page, last);
            var rk, key := RepoKey(user, repo), CountKey(endpoint, category, category);
            && (o.st.store != st.store ==> WrittenInOrder(o.st.store, rk, key))
            && (PagesInOrder(st.store, rk, key) ==> PagesInOrder(o.st.store, rk, key))
            && (r in st.store && k in st.store[r] && (r != rk || (k != LastKey(key) && k != CurrKey(key)))
                ==> r in o.st.store && k in o.st.store[r] && o.st.store[r][k] >= st.store[r][k])
    decreases last - page
  {
    if page <= last {
      var o1 := PageOutcome(remote, st, url, user, repo, endpoint, category, page, last);
      PageOutcomeMonotone(remote, st, url, user, repo, endpoint, category, page, last, r, k);
      if o1.err.None? {
        PagesFromMonotone(remote, o1.st, url, user, repo, endpoint, category, page + 1, last, r, k);
      }
    }
  }

  /** The current page is not monotone: when the loop restarts at page 0 (every file present,
      record behind), a page 0 that comes back as a JSON list sets the stored current page
      back to 0, whatever it was, and adds that page's items to the count once more. */
  lemma CurrentPageCanDrop(remote: Remote, st: State, url: string, user: string, repo: string,
                           endpoint: string, category: string, last: int)
    requires endpoint != "issues" && last >= 0
    requires var rk, key := RepoKey(user, repo), CountKey(endpoint, category, category);
             rk in st.store && key in st.store[rk] && StoredCurrent(st.store, rk, key).Some?
             && StoredCurrent(st.store, rk, key).value > 0
    requires Fetch(remote, Download, PageUrl(url, 0)).Returned?
    requires Fetch(remote, Download, PageUrl(url, 0)).resp.body.Some?
    requires Fetch(remote, Download, PageUrl(url, 0)).resp.body.value.JArr?
    ensures var o := PageOutcome(remote, st, url, user, repo, endpoint, category, 0, last);
            var rk, key := RepoKey(user, repo), CountKey(endpoint, category, category);
            && o.err.None?
            && StoredCurrent(o.st.store, rk, key) == Some(0)
            && StoredCurrent(o.st.store, rk, key).value < StoredCurrent(st.store, rk, key).value
            && o.st.store[rk][key] == st.store[rk][key] + |Fetch(remote, Download, PageUrl(url, 0)).resp.body.value.elems|
  {
    var rk, key := RepoKey(user, repo), CountKey(endpoint, category, category);
    var n := PageItems(remote, url, 0);
    AppliedChangesOnlyCounters(st.store, rk, key, last, 0, n);
  }

  /** The five names the main loop downloads satisfy `Downloadable`. */
  lemma ProcessedNamesDownloadable(i: nat)
    requires i < |MainEndpoints| && !Skipped(MainEndpoints[i])
    ensures Downloadable(CheckGithubEndpoints(MainEndpoints[i]).0, CheckGithubEndpoints(MainEndpoints[i]).1)
  {
  }

  lemma PresentUnion(files1: Disk, files2: Disk, user: string, repo: string,
                     endpoint: string, category: string, first: int, mid: int, last: int)
    requires files1.Keys <= files2.Keys
    requires AllPagesPresent(files1, user, repo, endpoint, category, first, mid - 1)
    requires AllPagesPresent(files2, user, repo, endpoint, category, mid, last)
    ensures AllPagesPresent(files2, user, repo, endpoint, category, first, last)
  {
    forall p | first <= p <= last ensures PageExists(files2, user, repo, endpoint, category, p) {
      if p < mid {
        assert PageExists(files1, user, repo, endpoint, category, p);
      }
    }
  }

  /** The page loop started at the first missing page fills every gap from page 1 on. */
  lemma PassFillsGaps(remote: Remote, st: State, user: string, repo: string,
                      endpoint: string, category: string, last: int)
    requires Downloadable(endpoint, category) && last >= 1
    requires PagesServed(remote, GithubUrl(user, repo, endpoint, category), 0, last)
    requires var from := FirstMissing(st.files, user, repo, endpoint, category, 1, last);
             PagesFrom(remote, st, GithubUrl(user, repo, endpoint, category), user, repo, endpoint, category, from, last).err.None?
    ensures var from := FirstMissing(st.files, user, repo, endpoint, category, 1, last);
            var o := PagesFrom(remote, st, GithubUrl(user, repo, endpoint, category), user, repo, endpoint, category, from, last);
            && AllPagesPresent(o.st.files, user, repo, endpoint, category, 1, last)
            && StoredCurrent(o.st.store, RepoKey(user, repo), ResourceKey(endpoint, category)) == Some(last)
  {
    var url := GithubUrl(user, repo, endpoint, category);
    var from := FirstMissing(st.files, user, repo, endpoint, category, 1, last);
    var o := PagesFrom(remote, st, url, user, repo, endpoint, category, from, last);
    FirstMissingFacts(st.files, user, repo, endpoint, category, 1, last);
    assert PagesServed(remote, url, from, last);
    PagesFromComplete(remote, st, url, user, repo, endpoint, category, from, last);
    PagesFromRecordsLast(remote, st, url, user, repo, endpoint, category, from, last);
    PagesFromKeepsFiles(remote, st, url, user, repo, endpoint, category, from, last);
    if from != 0 {
      PresentUnion(st.files, o.st.files, user, repo, endpoint, category, 1, from, last);
    }
  }

  /** An endpoint that needed downloading and whose pass ended without an exception has every
      page from 1 to the last on disk, and its record's current page is the last page. */
  lemma EndpointCompletesPages(remote: Remote, st: State, user: string, repo: string, i: nat, last: int)
    requires i < |MainEndpoints| && !Skipped(MainEndpoints[i])
    requires var (endpoint, category) := CheckGithubEndpoints(MainEndpoints[i]);
             && DownloadedSpec(remote, st.files, st.store, user, repo, endpoint, category) == Ok(false)
             && ResolveLastPage(Fetch(remote, Download, GithubUrl(user, repo, endpoint, category))) == Ok(last)
             && PagesServed(remote, GithubUrl(user, repo, endpoint, category), 0, last)
    requires last >= 1
    requires EndpointOutcome(remote, st, user, repo, MainEndpoints[i]).err.None?
    ensures var (endpoint, category) := CheckGithubEndpoints(MainEndpoints[i]);
            var o := EndpointOutcome(remote, st, user, repo, MainEndpoints[i]);
            && AllPagesPresent(o.st.files, user, repo, endpoint, category, 1, last)
            && StoredCurrent(o.st.store, RepoKey(user, repo), ResourceKey(endpoint, category)) == Some(last)
  {
    var (endpoint, category) := CheckGithubEndpoints(MainEndpoints[i]);
    ProcessedNamesDownloadable(i);
    PassFillsGaps(remote, st, user, repo, endpoint, category, last);
  }

  /** After a pass over an endpoint that ended without an exception, with every page
      answering and both requests for the first page announcing the same last page, the
      next run finds the endpoint downloaded and changes nothing. */
  lemma RerunDownloadsNothing(remote: Remote, st: State, user: string, repo: string, i: nat, last: int)
    requires i < |MainEndpoints| && !Skipped(MainEndpoints[i])
    requires var (endpoint, category) := CheckGithubEndpoints(MainEndpoints[i]);
             var url := GithubUrl(user, repo, endpoint, category);
             && ResolveLastPage(Fetch(remote, Probe, url)) == Ok(last)
             && ResolveLastPage(Fetch(remote, Download, url)) == Ok(last)
             && PagesServed(remote, url, 0, last)
    requires last >= 1
    requires EndpointOutcome(remote, st, user, repo, MainEndpoints[i]).err.None?
    ensures var (endpoint, category) := CheckGithubEndpoints(MainEndpoints[i]);
            var o := EndpointOutcome(remote, st, user, repo, MainEndpoints[i]);
            && DownloadedSpec(remote, o.st.files, o.st.store, user, repo, endpoint, category) == Ok(true)
            && EndpointOutcome(remote, o.st, user, repo, MainEndpoints[i]) == Outcome(o.st, None)
  {
    var (endpoint, category) := CheckGithubEndpoints(MainEndpoints[i]);
    var o := EndpointOutcome(remote, st, user, repo, MainEndpoints[i]);
    if DownloadedSpec(remote, st.files, st.store, user, repo, endpoint, category) == Ok(false) {
      EndpointCompletesPages(remote, st, user, repo, i, last);
      DownloadedScanMeansAllPresent(o.st.files, user, repo, endpoint, category, last);
    }
  }

  /** When no page file is missing but the record is behind, the loop starts over at page 0. */
  lemma RedownloadStartsAtZero(remote: Remote, st: State, user: string, repo: string, name: string, last: int)
    requires var (endpoint, category) := CheckGithubEndpoints(name);
             && DownloadedSpec(remote, st.files, st.store, user, repo, endpoint, category) == Ok(false)
             && ResolveLastPage(Fetch(remote, Download, GithubUrl(user, repo, endpoint, category))) == Ok(last)
             && AllPagesPresent(st.files, user, repo, endpoint, category, 1, last)
    ensures var (endpoint, category) := CheckGithubEndpoints(name);
            EndpointOutcome(remote, st, user, repo, name)
            == PagesFrom(remote, st, GithubUrl(user, repo, endpoint, category), user, repo, endpoint, category, 0, last)
  {
    var (endpoint, category) := CheckGithubEndpoints(name);
    DownloadedScanMeansAllPresent(st.files, user, repo, endpoint, category, last);
  }

  /** A record that holds every default key. */
  predicate HasDefaults(s: Store, rk: string) {
    rk in s && DefaultKeys() <= s[rk].Keys
  }

  lemma WithDefaultsHasDefaults(s: Store, rk: string, other: string)
    ensures HasDefaults(WithDefaults(s, rk), rk)
    ensures HasDefaults(s, other) ==> HasDefaults(WithDefaults(s, rk), other)
  {
    WithDefaultsNewKeys(s, rk);
    if other != rk && HasDefaults(s, other) {
      assert WithDefaults(s, rk)[other] == s[other];
    }
  }

  /** After the defaults pass, every listed repository's record holds every default key. */
  lemma {:induction false} PhaseOneDefaults(store: Store, repos: seq<(string, string)>, n: nat)
    requires n <= |repos|
    ensures forall i :: 0 <= i < n ==> HasDefaults(PhaseOne(store, repos, n), RepoKey(repos[i].0, repos[i].1))
  {
    if n > 0 {
      var prev := PhaseOne(store, repos, n - 1);
      var rk := RepoKey(repos[n - 1].0, repos[n - 1].1);
      PhaseOneDefaults(store, repos, n - 1);
      forall i | 0 <= i < n ensures HasDefaults(WithDefaults(prev, rk), RepoKey(repos[i].0, repos[i].1)) {
        WithDefaultsHasDefaults(prev, rk, RepoKey(repos[i].0, repos[i].1));
      }
    }
  }

  /** The defaults pass changes no value that was already in the file. */
  lemma {:induction false} PhaseOneKeepsValues(store: Store, repos: seq<(string, string)>, n: nat)
    requires n <= |repos|
    ensures forall r, k :: r in store && k in store[r] ==>
              r in PhaseOne(store, repos, n) && k in PhaseOne(store, repos, n)[r]
              && PhaseOne(store, repos, n)[r][k] == store[r][k]
  {
    if n > 0 {
      PhaseOneKeepsValues(store, repos, n - 1);
      WithDefaultsKeepsValues(PhaseOne(store, repos, n - 1), RepoKey(repos[n - 1].0, repos[n - 1].1));
    }
  }
}
