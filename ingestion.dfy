/** The script's main program: the defaults pass over every repository, then the page loop
    that downloads each endpoint from its first missing page, fans out the issues pages, and
    records progress after every page. */
module Ingestion {
  import opened Wrappers
  import opened Errors
  import opened Json
  import opened Endpoints
  import opened RequestExecutor
  import opened Progress
  import opened Resume
  import opened IssueFanout

  /** The disk and the progress file together. */
  datatype State = State(files: Disk, store: Store)

  /** Where a run stopped, and the exception that stopped it, if any. */
  datatype Outcome = Outcome(st: State, err: Option<Error>)

  /** `save_json_data`: an undecodable body is skipped and counts as `None`; otherwise the
      value is written at `location` and nowhere else, and then its length is taken, which
      fails for a number, a boolean or `null` after the file is already written. */
  function SaveJsonData(files: Disk, body: Option<Json>, location: string): (r: (Disk, Result<Option<int>, Error>))
    ensures r.0.Keys == files.Keys + if body.Some? then {location} else {}
    ensures forall p :: p in files && p != location ==> p in r.0 && r.0[p] == files[p]
    ensures location in r.0 && body.Some? ==> r.0[location] == body.value
    ensures body.None? ==> r.0 == files
    ensures r.1 == Ok(None) <==> body.None?
    ensures r.1.Err? <==> body.Some? && !(body.value.JArr? || body.value.JObj? || body.value.JStr?)
    ensures r.1.Err? ==> r.1.error == TypeError
    ensures body.Some? && body.value.JArr? ==> r.1 == Ok(Some(|body.value.elems|))
    ensures r.1.Ok? && r.1.value.Some? ==> body.Some? && PyLen(body.value) == Ok(r.1.value.value)
  {
    match body
    case None => (files, Ok(None))
    case Some(j) => (files[location := j], match PyLen(j) case Ok(n) => Ok(Some(n as int)) case Err(e) => Err(e))
  }

  function CommentsPagePath(user: string, repo: string, page: int): string {
    PagePath(user, repo, "issues", "comments", page)
  }

  function EventsPagePath(user: string, repo: string, page: int): string {
    PagePath(user, repo, "issues", "events", page)
  }

  /** The two extra files an issues page produces: its issues' comments and their events. */
  function IssueSidePages(remote: Remote, files: Disk, body: Option<Json>, user: string, repo: string,
                          page: int): Result<Disk, Error> {
    match IssuesOf(body)
    case Err(e) => Err(e)
    case Ok(issues) =>
      match FanOut(remote, issues)
      case Err(e) => Err(e)
      case Ok((cs, es)) =>
        Ok(files[CommentsPagePath(user, repo, page) := JArr(cs)][EventsPagePath(user, repo, page) := JArr(es)])
  }

  /** One pass of the page loop: fetch, save, fan out an issues page, record progress. */
  function PageOutcome(remote: Remote, st: State, url: string, user: string, repo: string,
                       endpoint: string, category: string, page: int, last: int): Outcome {
    match Fetch(remote, Download, PageUrl(url, page))
    case NoRequest => Outcome(st, None)
    case Unbound => Outcome(st, Some(UnboundLocalError))
    case Returned(resp) =>
      var (files1, saved) := SaveJsonData(st.files, resp.body, PagePath(user, repo, endpoint, category, page));
      match saved
      case Err(e) => Outcome(State(files1, st.store), Some(e))
      case Ok(n) =>
        var side := if endpoint == "issues" then IssueSidePages(remote, files1, resp.body, user, repo, page)
                    else Ok(files1);
        match side
        case Err(e) => Outcome(State(files1, st.store), Some(e))
        case Ok(files2) =>
          var rk, key := RepoKey(user, repo), CountKey(endpoint, category, category);
          match UpdateError(st.store, rk, key)
          case Some(e) => Outcome(State(files2, st.store), Some(e))
          case None =>
            Outcome(State(files2, Applied(st.store, rk, key, last, page, match n case None => 0 case Some(k) => k)), None)
  }

  /** The page loop from `page` to `last`, ending at the first exception. */
  function PagesFrom(remote: Remote, st: State, url: string, user: string, repo: string,
                     endpoint: string, category: string, page: int, last: int): Outcome
    decreases last - page
  {
    if page > last then Outcome(st, None)
    else
      var o := PageOutcome(remote, st, url, user, repo, endpoint, category, page, last);
      if o.err.Some? then o else PagesFrom(remote, o.st, url, user, repo, endpoint, category, page + 1, last)
  }

  /** One endpoint of one repository in the main loop. */
  function EndpointOutcome(remote: Remote, st: State, user: string, repo: string, name: string): Outcome {
    var (endpoint, category) := CheckGithubEndpoints(name);
    match DownloadedSpec(remote, st.files, st.store, user, repo, endpoint, category)
    case Err(e) => Outcome(st, Some(e))
    case Ok(true) => Outcome(st, None)
    case Ok(false) =>
      var url := GithubUrl(user, repo, endpoint, category);
      match ResolveLastPage(Fetch(remote, Download, url))
      case Err(e) => Outcome(st, Some(e))
      case Ok(last) =>
        PagesFrom(remote, st, url, user, repo, endpoint, category,
                  FirstMissing(st.files, user, repo, endpoint, category, 1, last), last)
  }

  /** The two derived issue endpoints are never downloaded on their own. */
  predicate Skipped(name: string) {
    name == "issues_comments" || name == "issues_events"
  }

  /** The endpoints of one repository from the `j`-th name on. */
  function EndpointsFrom(remote: Remote, st: State, user: string, repo: string, j: nat): Outcome
    requires j <= |MainEndpoints|
    decreases |MainEndpoints| - j
  {
    if j == |MainEndpoints| then Outcome(st, None)
    else if Skipped(MainEndpoints[j]) then EndpointsFrom(remote, st, user, repo, j + 1)
    else
      var o := EndpointOutcome(remote, st, user, repo, MainEndpoints[j]);
      if o.err.Some? then o else EndpointsFrom(remote, o.st, user, repo, j + 1)
  }

  /** The repositories from the `i`-th on. */
  function ReposFrom(remote: Remote, st: State, repos: seq<(string, string)>, i: nat): Outcome
    requires i <= |repos|
    decreases |repos| - i
  {
    if i == |repos| then Outcome(st, None)
    else
      var o := EndpointsFrom(remote, st, repos[i].0, repos[i].1, 0);
      if o.err.Some? then o else ReposFrom(remote, o.st, repos, i + 1)
  }

  /** The progress file after the defaults pass over the first `n` repositories. */
  function PhaseOne(store: Store, repos: seq<(string, string)>, n: nat): Store
    requires n <= |repos|
  {
    if n == 0 then store else WithDefaults(PhaseOne(store, repos, n - 1), RepoKey(repos[n - 1].0, repos[n - 1].1))
  }

  /** A whole run: the defaults pass, then the download pass. */
  function RunOutcome(remote: Remote, st: State, repos: seq<(string, string)>): Outcome {
    ReposFrom(remote, State(st.files, PhaseOne(st.store, repos, |repos|)), repos, 0)
  }

  /** The running script: the network, the progress file and the disk. */
  class Downloader {
    const remote: Remote
    const progress: ProgressStore
    var files: Disk

    /** The progress file is read if it exists and created empty otherwise. */
    constructor(remote: Remote, existing: Option<Store>, files: Disk)
      ensures this.remote == remote && this.files == files && fresh(progress)
      ensures progress.data == (match existing case None => map[] case Some(s) => s)
    {
      this.remote := remote;
      this.files := files;
      progress := new ProgressStore(existing);
    }

    function Current(): State
      reads this, progress
    {
      State(files, progress.data)
    }

    /** One pass of the main page loop: fetch one page, save it, fan out an issues page, and
        record progress. */
    method DownloadPage(url: string, user: string, repo: string, endpoint: string, category: string,
                        page: int, last: int) returns (err: Option<Error>)
      modifies this, progress
      ensures Outcome(Current(), err) == PageOutcome(remote, old(Current()), url, user, repo, endpoint, category, page, last)
    {
      var urlByPage := PageUrl(url, page);
      var reply, _ := GetGithubApiRequest(remote.quota(Download)(urlByPage), remote.net(Download)(urlByPage));
      if reply.NoRequest? {
        return None;
      }
      if reply.Unbound? {
        return Some(UnboundLocalError);
      }
      var data := reply.resp.body;
      var location := PagePath(user, repo, endpoint, category, page);
      var numberOfItems: Option<int> := None;
      if data.Some? {
        files := files[location := data.value];
        var len := PyLen(data.value);
        if len.Err? {
          return Some(len.error);
        }
        numberOfItems := Some(len.value);
      }
      if endpoint == "issues" {
        var issuesInPage := IssuesOf(data);
        if issuesInPage.Err? {
          return Some(issuesInPage.error);
        }
        var aggregated := AggregateIssuePage(remote, issuesInPage.value);
        if aggregated.Err? {
          return Some(aggregated.error);
        }
        var (fullComments, fullIssueEvents) := aggregated.value;
        files := files[CommentsPagePath(user, repo, page) := JArr(fullComments)];
        files := files[EventsPagePath(user, repo, page) := JArr(fullIssueEvents)];
      }
      err := progress.UpdateVerificationData(RepoKey(user, repo), endpoint, category, category, page, last, numberOfItems);
    }

    /** One endpoint: skip it when already downloaded, otherwise download its pages from the
        first missing one. */
    method ProcessEndpoint(user: string, repo: string, name: string) returns (err: Option<Error>)
      modifies this, progress
      ensures Outcome(Current(), err) == EndpointOutcome(remote, old(Current()), user, repo, name)
    {
      var (endpoint, category) := CheckGithubEndpoints(name);
      var downloaded := IsDataDownloaded(remote, files, progress.data, user, repo, endpoint, category);
      if downloaded.Err? {
        return Some(downloaded.error);
      }
      if downloaded.value {
        return None;
      }
      var url := GithubUrl(user, repo, endpoint, category);
      var reply, _ := GetGithubApiRequest(remote.quota(Download)(url), remote.net(Download)(url));
      var resolved := ResolveLastPage(reply);
      if resolved.Err? {
        return Some(resolved.error);
      }
      var last := resolved.value;
      var pageNotFound := CheckIfFileExists(files, user, repo, 1, last, endpoint, category);
      err := DownloadPages(url, user, repo, endpoint, category, pageNotFound, last);
    }

    /** The main page loop, from the first missing page to the last page, ending at the first
        exception. */
    method DownloadPages(url: string, user: string, repo: string, endpoint: string, category: string,
                         pageNotFound: int, last: int) returns (err: Option<Error>)
      modifies this, progress
      ensures Outcome(Current(), err) == PagesFrom(remote, old(Current()), url, user, repo, endpoint, category, pageNotFound, last)
    {
      var currentPage := pageNotFound;
      while currentPage <= last
        invariant PagesFrom(remote, Current(), url, user, repo, endpoint, category, currentPage, last)
                  == PagesFrom(remote, old(Current()), url, user, repo, endpoint, category, pageNotFound, last)
        decreases last - currentPage
      {
        err := DownloadPage(url, user, repo, endpoint, category, currentPage, last);
        if err.Some? {
          return;
        }
        currentPage := currentPage + 1;
      }
      return None;
    }

    /** The seven endpoint names of one repository, the two derived issue names skipped. */
    method ProcessRepository(user: string, repo: string) returns (err: Option<Error>)
      modifies this, progress
      ensures Outcome(Current(), err) == EndpointsFrom(remote, old(Current()), user, repo, 0)
    {
      for j := 0 to |MainEndpoints|
        invariant EndpointsFrom(remote, Current(), user, repo, j) == EndpointsFrom(remote, old(Current()), user, repo, 0)
      {
        if Skipped(MainEndpoints[j]) {
          continue;
        }
        err := ProcessEndpoint(user, repo, MainEndpoints[j]);
        if err.Some? {
          return;
        }
      }
      return None;
    }

    /** The first loop of the main program: the defaults of every listed repository, each
        written once per endpoint name as the source does. */
    method ApplyDefaults(repos: seq<(string, string)>)
      modifies progress
      ensures progress.data == PhaseOne(old(progress.data), repos, |repos|)
    {
      for i := 0 to |repos|
        invariant progress.data == PhaseOne(old(progress.data), repos, i)
      {
        var (user, repo) := repos[i];
        for j := 0 to |MainEndpoints|
          invariant j == 0 ==> progress.data == PhaseOne(old(progress.data), repos, i)
          invariant j > 0 ==> progress.data == PhaseOne(old(progress.data), repos, i + 1)
        {
          progress.UpdateVerificationFileWithDefaultValues(user, repo);
          if j > 0 {
            WithDefaultsIdempotent(PhaseOne(old(progress.data), repos, i), RepoKey(user, repo));
          }
        }
      }
    }

    /** The second loop of the main program: every repository in turn, ending at the first
        exception. */
    method DownloadAll(repos: seq<(string, string)>) returns (err: Option<Error>)
      modifies this, progress
      ensures Outcome(Current(), err) == ReposFrom(remote, old(Current()), repos, 0)
    {
      for i := 0 to |repos|
        invariant ReposFrom(remote, Current(), repos, i) == ReposFrom(remote, old(Current()), repos, 0)
      {
        err := ProcessRepository(repos[i].0, repos[i].1);
        if err.Some? {
          return;
        }
      }
      return None;
    }

    /** The whole program after the token check and the repository list are read. */
    method Run(repos: seq<(string, string)>) returns (err: Option<Error>)
      modifies this, progress
      ensures Outcome(Current(), err) == RunOutcome(remote, old(Current()), repos)
    {
      ApplyDefaults(repos);
      err := DownloadAll(repos);
    }
  }
}
