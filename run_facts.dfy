/** Why a second run after a successful one has nothing left to do: a pass over one endpoint
    changes only its own page files and its own counters, so what one endpoint or one
    repository finished stays finished while the others run, and the defaults pass changes
    nothing in a file that already holds the defaults. */
module RunFacts {
  import opened Wrappers
  import opened Errors
  import opened Json
  import opened Endpoints
  import opened RequestExecutor
  import opened Progress
  import opened Resume
  import opened Ingestion
  import opened IngestionFacts

  /** Records, and the keys of each record, only accumulate. */
  ghost predicate StoreGrows(s: Store, t: Store) {
    forall r :: r in s ==> r in t && s[r].Keys <= t[r].Keys
  }

  /** Every stored current page is as before, except those that `key`'s counters in the
      record `rk` could overwrite. */
  ghost predicate CurrentKept(s: Store, t: Store, rk: string, key: string) {
    forall r, k :: (r != rk || CurrKey(k) !in CounterKeys(key)) ==> StoredCurrent(t, r, k) == StoredCurrent(s, r, k)
  }

  /** What a pass over resource `key` of repository `rk` may change. */
  ghost predicate Framed(a: State, b: State, rk: string, key: string) {
    a.files.Keys <= b.files.Keys && StoreGrows(a.store, b.store) && CurrentKept(a.store, b.store, rk, key)
  }

  lemma AppliedFramed(s: Store, rk: string, key: string, last: int, curr: int, n: int)
    requires rk in s && key in s[rk]
    ensures StoreGrows(s, Applied(s, rk, key, last, curr, n))
    ensures CurrentKept(s, Applied(s, rk, key, last, curr, n), rk, key)
  {
    AppliedChangesOnlyCounters(s, rk, key, last, curr, n);
  }

  /** One page pass stays inside the frame of its own resource key. */
  lemma PageOutcomeFramed(remote: Remote, st: State, url: string, user: string, repo: string,
                          endpoint: string, category: string, page: int, last: int)
    ensures Framed(st, PageOutcome(remote, st, url, user, repo, endpoint, category, page, last).st,
                   RepoKey(user, repo), CountKey(endpoint, category, category))
  {
    var o := PageOutcome(remote, st, url, user, repo, endpoint, category, page, last);
    var rk, key := RepoKey(user, repo), CountKey(endpoint, category, category);
    PageOutcomeFiles(remote, st, url, user, repo, endpoint, category, page, last);
    PageOutcomeStore(remote, st, url, user, repo, endpoint, category, page, last);
    if o.st.store != st.store {
      AppliedFramed(st.store, rk, key, last, page, PageItems(remote, url, page));
    }
  }

  lemma FramedTrans(a: State, b: State, c: State, rk: string, key: string)
    requires Framed(a, b, rk, key) && Framed(b, c, rk, key)
    ensures Framed(a, c, rk, key)
  {
    forall r, k | r != rk || CurrKey(k) !in CounterKeys(key)
      ensures StoredCurrent(c.store, r, k) == StoredCurrent(a.store, r, k)
    {
      assert StoredCurrent(b.store, r, k) == StoredCurrent(a.store, r, k);
    }
  }

  /** The page loop stays inside the frame of its resource key. */
  lemma {:induction false} PagesFromFramed(remote: Remote, st: State, url: string, user: string, repo: string,
                                           endpoint: string, category: string, page: int, last: int)
    ensures Framed(st, PagesFrom(remote, st, url, user, repo, endpoint, category, page, last).st,
                   RepoKey(user, repo), CountKey(endpoint, category, category))
    decreases last - page
  {
    if page <= last {
      var o1 := PageOutcome(remote, st, url, user, repo, endpoint, category, page, last);
      PageOutcomeFramed(remote, st, url, user, repo, endpoint, category, page, last);
      if o1.err.None? {
        var o := PagesFrom(remote, o1.st, url, user, repo, endpoint, category, page + 1, last);
        PagesFromFramed(remote, o1.st, url, user, repo, endpoint, category, page + 1, last);
        FramedTrans(st, o1.st, o.st, RepoKey(user, repo), CountKey(endpoint, category, category));
      }
    }
  }

  /** One endpoint's pass, whatever it ends with, changes only its own page files, the issue
      side pages and its own counters. */
  lemma EndpointOutcomeFramed(remote: Remote, st: State, user: string, repo: string, name: string)
    ensures Framed(st, EndpointOutcome(remote, st, user, repo, name).st, RepoKey(user, repo), NameKey(name))
  {
    var (endpoint, category) := CheckGithubEndpoints(name);
    CountKeyInMainLoop(endpoint, category);
    var url := GithubUrl(user, repo, endpoint, category);
    match ResolveLastPage(Fetch(remote, Download, url)) {
      case Ok(last) =>
        PagesFromFramed(remote, st, url, user, repo, endpoint, category,
                        FirstMissing(st.files, user, repo, endpoint, category, 1, last), last);
      case Err(_) =>
    }
  }

  lemma StoreGrowsTrans(s: Store, t: Store, u: Store)
    requires StoreGrows(s, t) && StoreGrows(t, u)
    ensures StoreGrows(s, u)
  {
  }

  /** A file on disk, a record in the progress file, a key in a record. */
  predicate HasFile(files: Disk, path: string) { path in files }

  predicate HasRecord(s: Store, r: string) { r in s }

  predicate HasEntry(s: Store, r: string, k: string) { r in s && k in s[r] }

  /** The step past name `j` drops no file, record or record key. */
  lemma NextKeepsEntries(remote: Remote, st: State, user: string, repo: string, j: nat,
                         path: string, r: string, k: string)
    requires j < |MainEndpoints|
    ensures HasFile(st.files, path) ==> HasFile(NextState(remote, st, user, repo, j).files, path)
    ensures HasRecord(st.store, r) ==> HasRecord(NextState(remote, st, user, repo, j).store, r)
    ensures HasEntry(st.store, r, k) ==> HasEntry(NextState(remote, st, user, repo, j).store, r, k)
  {
    if !Skipped(MainEndpoints[j]) {
      EndpointOutcomeFramed(remote, st, user, repo, MainEndpoints[j]);
    }
  }

  /** No file, record or record key disappears over a repository pass. */
  lemma {:induction false} EndpointsFromKeepsEntries(remote: Remote, st: State, user: string, repo: string, j: nat,
                                                     path: string, r: string, k: string)
    requires j <= |MainEndpoints|
    ensures HasFile(st.files, path) ==> HasFile(EndpointsFrom(remote, st, user, repo, j).st.files, path)
    ensures HasRecord(st.store, r) ==> HasRecord(EndpointsFrom(remote, st, user, repo, j).st.store, r)
    ensures HasEntry(st.store, r, k) ==> HasEntry(EndpointsFrom(remote, st, user, repo, j).st.store, r, k)
    decreases |MainEndpoints| - j
  {
    if j < |MainEndpoints| {
      EndpointsFromStep(remote, st, user, repo, j);
      NextKeepsEntries(remote, st, user, repo, j, path, r, k);
      EndpointsFromKeepsEntries(remote, NextState(remote, st, user, repo, j), user, repo, j + 1, path, r, k);
    }
  }

  /** Files and record keys only accumulate over a repository pass. */
  lemma EndpointsFromGrows(remote: Remote, st: State, user: string, repo: string, j: nat)
    requires j <= |MainEndpoints|
    ensures st.files.Keys <= EndpointsFrom(remote, st, user, repo, j).st.files.Keys
    ensures StoreGrows(st.store, EndpointsFrom(remote, st, user, repo, j).st.store)
  {
    var o := EndpointsFrom(remote, st, user, repo, j);
    forall path | path in st.files ensures path in o.st.files {
      EndpointsFromKeepsEntries(remote, st, user, repo, j, path, "", "");
      assert HasFile(st.files, path);
    }
    forall r | r in st.store ensures r in o.st.store && st.store[r].Keys <= o.st.store[r].Keys {
      EndpointsFromKeepsEntries(remote, st, user, repo, j, "", r, "");
      assert HasRecord(st.store, r);
      forall k | k in st.store[r] ensures k in o.st.store[r] {
        EndpointsFromKeepsEntries(remote, st, user, repo, j, "", r, k);
        assert HasEntry(st.store, r, k);
      }
    }
  }

  /** The step past name `j` leaves alone every stored current page its counters cannot
      overwrite. */
  lemma NextKeepsCurrent(remote: Remote, st: State, user: string, repo: string, j: nat, r: string, k: string)
    requires j < |MainEndpoints|
    requires r != RepoKey(user, repo) || !Processed(j) || CurrKey(k) !in CounterKeys(NameKey(MainEndpoints[j]))
    ensures StoredCurrent(NextState(remote, st, user, repo, j).store, r, k) == StoredCurrent(st.store, r, k)
  {
    if !Skipped(MainEndpoints[j]) {
      EndpointOutcomeFramed(remote, st, user, repo, MainEndpoints[j]);
    }
  }

  /** No name from the `j`-th on has counters that overwrite the current page of `k`. */
  ghost predicate KeyOutside(k: string, j: int) {
    forall n :: j <= n && Processed(n) ==> CurrKey(k) !in CounterKeys(NameKey(MainEndpoints[n]))
  }

  /** A repository pass from name `j` on leaves alone every stored current page that no
      later name's counters can overwrite, in particular all of another repository's. */
  lemma {:induction false} EndpointsFromKeepsCurrent(remote: Remote, st: State, user: string, repo: string, j: nat,
                                                     r: string, k: string)
    requires j <= |MainEndpoints|
    requires r != RepoKey(user, repo) || KeyOutside(k, j)
    ensures StoredCurrent(EndpointsFrom(remote, st, user, repo, j).st.store, r, k) == StoredCurrent(st.store, r, k)
    decreases |MainEndpoints| - j
  {
    if j < |MainEndpoints| {
      EndpointsFromStep(remote, st, user, repo, j);
      if r == RepoKey(user, repo) && Processed(j) {
        assert CurrKey(k) !in CounterKeys(NameKey(MainEndpoints[j]));
      }
      NextKeepsCurrent(remote, st, user, repo, j, r, k);
      EndpointsFromKeepsCurrent(remote, NextState(remote, st, user, repo, j), user, repo, j + 1, r, k);
    }
  }

  /** Files and record keys only accumulate over the repository loop. */
  lemma {:induction false} ReposFromGrows(remote: Remote, st: State, repos: seq<(string, string)>, i: nat)
    requires i <= |repos|
    ensures st.files.Keys <= ReposFrom(remote, st, repos, i).st.files.Keys
    ensures StoreGrows(st.store, ReposFrom(remote, st, repos, i).st.store)
    decreases |repos| - i
  {
    if i < |repos| {
      var o1 := EndpointsFrom(remote, st, repos[i].0, repos[i].1, 0);
      EndpointsFromGrows(remote, st, repos[i].0, repos[i].1, 0);
      if o1.err.None? {
        var o := ReposFrom(remote, o1.st, repos, i + 1);
        assert ReposFrom(remote, st, repos, i) == o;
        ReposFromGrows(remote, o1.st, repos, i + 1);
        StoreGrowsTrans(st.store, o1.st.store, o.st.store);
      } else {
        assert ReposFrom(remote, st, repos, i) == o1;
      }
    }
  }

  /** The probe of the next run finds endpoint `name` downloaded. */
  predicate Done(remote: Remote, st: State, user: string, repo: string, name: string) {
    var (endpoint, category) := CheckGithubEndpoints(name);
    DownloadedSpec(remote, st.files, st.store, user, repo, endpoint, category) == Ok(true)
  }

  /** "Downloaded" survives more files and an unchanged stored current page. */
  lemma DoneKept(remote: Remote, a: State, b: State, user: string, repo: string, name: string)
    requires Done(remote, a, user, repo, name) && a.files.Keys <= b.files.Keys
    requires StoredCurrent(b.store, RepoKey(user, repo), NameKey(name)) == StoredCurrent(a.store, RepoKey(user, repo), NameKey(name))
    ensures Done(remote, b, user, repo, name)
  {
    var (endpoint, category) := CheckGithubEndpoints(name);
    var last := ResolveLastPage(Fetch(remote, Probe, GithubUrl(user, repo, endpoint, category))).value;
    DownloadedScanMeansAllPresent(a.files, user, repo, endpoint, category, last);
    DownloadedScanMeansAllPresent(b.files, user, repo, endpoint, category, last);
    if AllPagesPresent(a.files, user, repo, endpoint, category, 1, last) {
      forall p | 1 <= p <= last ensures PageExists(b.files, user, repo, endpoint, category, p) {
        assert PageExists(a.files, user, repo, endpoint, category, p);
      }
    }
  }

  /** The names the main loop downloads. */
  predicate Processed(j: int) {
    0 <= j < |MainEndpoints| && !Skipped(MainEndpoints[j])
  }

  /** Two different downloaded names never share a current-page key: their names have
      different lengths. */
  lemma ProcessedKeysApart(i: int, j: int)
    requires Processed(i) && Processed(j) && i != j
    ensures CurrKey(NameKey(MainEndpoints[i])) !in CounterKeys(NameKey(MainEndpoints[j]))
  {
    EndpointKeyRoundTrip(MainEndpoints[i]);
    EndpointKeyRoundTrip(MainEndpoints[j]);
    assert |MainEndpoints[i]| != |MainEndpoints[j]| && |MainEndpoints[j]| < 17;
  }

  /** The network as a second run finds it for one endpoint: both requests for the first page
      announce the same last page, at least 1, and every page answers with a JSON body. */
  predicate StableEndpoint(remote: Remote, user: string, repo: string, name: string) {
    var (endpoint, category) := CheckGithubEndpoints(name);
    var url := GithubUrl(user, repo, endpoint, category);
    var probe := ResolveLastPage(Fetch(remote, Probe, url));
    && probe.Ok? && probe.value >= 1
    && ResolveLastPage(Fetch(remote, Download, url)) == probe
    && PagesServed(remote, url, 0, probe.value)
  }

  ghost predicate StableRepository(remote: Remote, user: string, repo: string) {
    forall j :: Processed(j) ==> StableEndpoint(remote, user, repo, MainEndpoints[j])
  }

  /** One downloaded name's pass that ended without an exception, on a stable network,
      leaves that name done. */
  lemma EndpointStepDone(remote: Remote, st: State, user: string, repo: string, j: int)
    requires Processed(j) && StableEndpoint(remote, user, repo, MainEndpoints[j])
    requires EndpointOutcome(remote, st, user, repo, MainEndpoints[j]).err.None?
    ensures Done(remote, EndpointOutcome(remote, st, user, repo, MainEndpoints[j]).st, user, repo, MainEndpoints[j])
  {
    var (endpoint, category) := CheckGithubEndpoints(MainEndpoints[j]);
    var last := ResolveLastPage(Fetch(remote, Probe, GithubUrl(user, repo, endpoint, category))).value;
    RerunDownloadsNothing(remote, st, user, repo, j, last);
  }

  /** A repository pass from name `j` on keeps every earlier name that was done. */
  lemma EndpointsFromKeepsDone(remote: Remote, st: State, user: string, repo: string, j: nat, i: int)
    requires j <= |MainEndpoints| && Processed(i) && i < j
    requires Done(remote, st, user, repo, MainEndpoints[i])
    ensures Done(remote, EndpointsFrom(remote, st, user, repo, j).st, user, repo, MainEndpoints[i])
  {
    var o := EndpointsFrom(remote, st, user, repo, j);
    var key := NameKey(MainEndpoints[i]);
    forall n | j <= n && Processed(n) ensures CurrKey(key) !in CounterKeys(NameKey(MainEndpoints[n])) {
      ProcessedKeysApart(i, n);
    }
    EndpointsFromGrows(remote, st, user, repo, j);
    EndpointsFromKeepsCurrent(remote, st, user, repo, j, RepoKey(user, repo), key);
    DoneKept(remote, st, o.st, user, repo, MainEndpoints[i]);
  }

  /** A repository pass from a downloaded name `j` on that ends without an exception, on a
      stable network, leaves that name done. */
  lemma EndpointsFromDoneHere(remote: Remote, st: State, user: string, repo: string, j: nat)
    requires Processed(j) && StableEndpoint(remote, user, repo, MainEndpoints[j])
    requires EndpointsFrom(remote, st, user, repo, j).err.None?
    ensures Done(remote, EndpointsFrom(remote, st, user, repo, j).st, user, repo, MainEndpoints[j])
  {
    EndpointsFromNext(remote, st, user, repo, j);
    EndpointStepDone(remote, st, user, repo, j);
    EndpointsFromKeepsDone(remote, NextState(remote, st, user, repo, j), user, repo, j + 1, j);
  }

  /** The state the repository pass moves on from after name `j`. */
  function NextState(remote: Remote, st: State, user: string, repo: string, j: nat): State
    requires j < |MainEndpoints|
  {
    if Skipped(MainEndpoints[j]) then st else EndpointOutcome(remote, st, user, repo, MainEndpoints[j]).st
  }

  /** A repository pass either stops at name `j`, in the state after it, or goes on from
      `j + 1`. */
  lemma EndpointsFromStep(remote: Remote, st: State, user: string, repo: string, j: nat)
    requires j < |MainEndpoints|
    ensures || EndpointsFrom(remote, st, user, repo, j).st == NextState(remote, st, user, repo, j)
            || EndpointsFrom(remote, st, user, repo, j) == EndpointsFrom(remote, NextState(remote, st, user, repo, j), user, repo, j + 1)
  {
  }

  /** A repository pass that goes through name `j` is the pass from `j + 1` on. */
  lemma EndpointsFromNext(remote: Remote, st: State, user: string, repo: string, j: nat)
    requires j < |MainEndpoints|
    requires EndpointsFrom(remote, st, user, repo, j).err.None?
    ensures EndpointsFrom(remote, st, user, repo, j) == EndpointsFrom(remote, NextState(remote, st, user, repo, j), user, repo, j + 1)
    ensures Processed(j) ==> EndpointOutcome(remote, st, user, repo, MainEndpoints[j]).err.None?
                             && NextState(remote, st, user, repo, j) == EndpointOutcome(remote, st, user, repo, MainEndpoints[j]).st
  {
  }

  /** A repository pass from name `j` on that ends without an exception, on a stable
      network, leaves every later downloaded name done. */
  lemma {:induction false} EndpointsFromDone(remote: Remote, st: State, user: string, repo: string, j: nat, i: int)
    requires j <= |MainEndpoints| && StableRepository(remote, user, repo)
    requires EndpointsFrom(remote, st, user, repo, j).err.None?
    requires j <= i && Processed(i)
    ensures Done(remote, EndpointsFrom(remote, st, user, repo, j).st, user, repo, MainEndpoints[i])
    decreases |MainEndpoints| - j
  {
    if i == j {
      EndpointsFromDoneHere(remote, st, user, repo, j);
    } else {
      EndpointsFromNext(remote, st, user, repo, j);
      EndpointsFromDone(remote, NextState(remote, st, user, repo, j), user, repo, j + 1, i);
    }
  }

  /** With every downloaded name done, a repository pass changes nothing. */
  lemma {:induction false} EndpointsFromAllDone(remote: Remote, st: State, user: string, repo: string, j: nat)
    requires j <= |MainEndpoints|
    requires forall i :: j <= i && Processed(i) ==> Done(remote, st, user, repo, MainEndpoints[i])
    ensures EndpointsFrom(remote, st, user, repo, j) == Outcome(st, None)
    decreases |MainEndpoints| - j
  {
    if j < |MainEndpoints| {
      if !Skipped(MainEndpoints[j]) {
        assert Processed(j);
      }
      EndpointsFromAllDone(remote, st, user, repo, j + 1);
    }
  }

  /** After a repository pass that ended without an exception, on a network that answers the
      same way again, a second pass over the repository changes nothing. */
  lemma RepositoryRerunDownloadsNothing(remote: Remote, st: State, user: string, repo: string)
    requires StableRepository(remote, user, repo)
    requires EndpointsFrom(remote, st, user, repo, 0).err.None?
    ensures var o := EndpointsFrom(remote, st, user, repo, 0);
            EndpointsFrom(remote, o.st, user, repo, 0) == Outcome(o.st, None)
  {
    var o := EndpointsFrom(remote, st, user, repo, 0);
    RepositoryDone(remote, st, user, repo);
    EndpointsFromAllDone(remote, o.st, user, repo, 0);
  }

  /** Two listed repositories never share a record. */
  predicate DistinctRepos(repos: seq<(string, string)>) {
    forall a, b :: 0 <= a < b < |repos| ==> RepoKey(repos[a].0, repos[a].1) != RepoKey(repos[b].0, repos[b].1)
  }

  ghost predicate RepoDone(remote: Remote, st: State, user: string, repo: string) {
    forall j :: Processed(j) ==> Done(remote, st, user, repo, MainEndpoints[j])
  }

  /** A repository whose processed names are all done after its own pass. */
  lemma RepositoryDone(remote: Remote, st: State, user: string, repo: string)
    requires StableRepository(remote, user, repo)
    requires EndpointsFrom(remote, st, user, repo, 0).err.None?
    ensures RepoDone(remote, EndpointsFrom(remote, st, user, repo, 0).st, user, repo)
  {
    forall j | Processed(j) ensures Done(remote, EndpointsFrom(remote, st, user, repo, 0).st, user, repo, MainEndpoints[j]) {
      EndpointsFromDone(remote, st, user, repo, 0, j);
    }
  }

  /** The files only grew and the record `rk` holds the same current pages. */
  ghost predicate RecordKept(a: State, b: State, rk: string) {
    a.files.Keys <= b.files.Keys && forall k :: StoredCurrent(b.store, rk, k) == StoredCurrent(a.store, rk, k)
  }

  lemma RecordKeptTrans(a: State, b: State, c: State, rk: string)
    requires RecordKept(a, b, rk) && RecordKept(b, c, rk)
    ensures RecordKept(a, c, rk)
  {
    forall k ensures StoredCurrent(c.store, rk, k) == StoredCurrent(a.store, rk, k) {
      assert StoredCurrent(b.store, rk, k) == StoredCurrent(a.store, rk, k);
    }
  }

  /** The repository loop from the `i`-th repository on, however it ends, leaves alone the
      record of a repository it does not reach. */
  lemma {:induction false} ReposFromKeepsRecord(remote: Remote, st: State, repos: seq<(string, string)>, i: nat, rk: string)
    requires i <= |repos|
    requires forall n :: i <= n < |repos| ==> RepoKey(repos[n].0, repos[n].1) != rk
    ensures RecordKept(st, ReposFrom(remote, st, repos, i).st, rk)
    decreases |repos| - i
  {
    if i < |repos| {
      var o1 := EndpointsFrom(remote, st, repos[i].0, repos[i].1, 0);
      EndpointsFromGrows(remote, st, repos[i].0, repos[i].1, 0);
      forall k ensures StoredCurrent(o1.st.store, rk, k) == StoredCurrent(st.store, rk, k) {
        EndpointsFromKeepsCurrent(remote, st, repos[i].0, repos[i].1, 0, rk, k);
      }
      if o1.err.None? {
        var o := ReposFrom(remote, o1.st, repos, i + 1);
        ReposFromKeepsRecord(remote, o1.st, repos, i + 1, rk);
        RecordKeptTrans(st, o1.st, o.st, rk);
      }
    }
  }

  lemma RepoDoneKept(remote: Remote, a: State, b: State, user: string, repo: string)
    requires RepoDone(remote, a, user, repo) && RecordKept(a, b, RepoKey(user, repo))
    ensures RepoDone(remote, b, user, repo)
  {
    forall j | Processed(j) ensures Done(remote, b, user, repo, MainEndpoints[j]) {
      DoneKept(remote, a, b, user, repo, MainEndpoints[j]);
    }
  }

  /** The repository loop from the `i`-th repository on, ending without an exception on a
      stable network, leaves every later repository done. */
  lemma {:induction false} ReposFromDone(remote: Remote, st: State, repos: seq<(string, string)>, i: nat, m: int)
    requires i <= m < |repos| && DistinctRepos(repos)
    requires forall n :: 0 <= n < |repos| ==> StableRepository(remote, repos[n].0, repos[n].1)
    requires ReposFrom(remote, st, repos, i).err.None?
    ensures RepoDone(remote, ReposFrom(remote, st, repos, i).st, repos[m].0, repos[m].1)
    decreases |repos| - i
  {
    var o1 := EndpointsFrom(remote, st, repos[i].0, repos[i].1, 0);
    if m == i {
      RepositoryDone(remote, st, repos[i].0, repos[i].1);
      ReposFromKeepsRecord(remote, o1.st, repos, i + 1, RepoKey(repos[i].0, repos[i].1));
      RepoDoneKept(remote, o1.st, ReposFrom(remote, o1.st, repos, i + 1).st, repos[i].0, repos[i].1);
    } else {
      ReposFromDone(remote, o1.st, repos, i + 1, m);
    }
  }

  /** With every repository done, the repository loop changes nothing. */
  lemma {:induction false} ReposFromAllDone(remote: Remote, st: State, repos: seq<(string, string)>, i: nat)
    requires i <= |repos|
    requires forall m :: i <= m < |repos| ==> RepoDone(remote, st, repos[m].0, repos[m].1)
    ensures ReposFrom(remote, st, repos, i) == Outcome(st, None)
    decreases |repos| - i
  {
    if i < |repos| {
      EndpointsFromAllDone(remote, st, repos[i].0, repos[i].1, 0);
      ReposFromAllDone(remote, st, repos, i + 1);
    }
  }

  lemma WithDefaultsNoop(s: Store, rk: string)
    requires HasDefaults(s, rk)
    ensures WithDefaults(s, rk) == s
  {
    assert Defaulted(RecordOf(s, rk), DefaultKeys()) == s[rk];
  }

  /** The defaults pass leaves a file that already holds every listed repository's defaults
      as it is. */
  lemma {:induction false} PhaseOneNoop(s: Store, repos: seq<(string, string)>, n: nat)
    requires n <= |repos|
    requires forall m :: 0 <= m < n ==> HasDefaults(s, RepoKey(repos[m].0, repos[m].1))
    ensures PhaseOne(s, repos, n) == s
  {
    if n > 0 {
      PhaseOneNoop(s, repos, n - 1);
      WithDefaultsNoop(s, RepoKey(repos[n - 1].0, repos[n - 1].1));
    }
  }

  /** After a run that ended without an exception, over repositories with distinct
      `{user}_{repo}` keys, on a network that answers every endpoint the same way again, a
      second run changes neither the disk nor the progress file. */
  lemma RunRerunDownloadsNothing(remote: Remote, st: State, repos: seq<(string, string)>)
    requires DistinctRepos(repos)
    requires forall m :: 0 <= m < |repos| ==> StableRepository(remote, repos[m].0, repos[m].1)
    requires RunOutcome(remote, st, repos).err.None?
    ensures var o := RunOutcome(remote, st, repos);
            RunOutcome(remote, o.st, repos) == Outcome(o.st, None)
  {
    var s1 := State(st.files, PhaseOne(st.store, repos, |repos|));
    var o := ReposFrom(remote, s1, repos, 0);
    forall m | 0 <= m < |repos| ensures RepoDone(remote, o.st, repos[m].0, repos[m].1) {
      ReposFromDone(remote, s1, repos, 0, m);
    }
    PhaseOneDefaults(st.store, repos, |repos|);
    ReposFromGrows(remote, s1, repos, 0);
    forall m | 0 <= m < |repos| ensures HasDefaults(o.st.store, RepoKey(repos[m].0, repos[m].1)) {
      assert HasDefaults(s1.store, RepoKey(repos[m].0, repos[m].1));
    }
    PhaseOneNoop(o.st.store, repos, |repos|);
    assert State(o.st.files, PhaseOne(o.st.store, repos, |repos|)) == o.st;
    ReposFromAllDone(remote, o.st, repos, 0);
  }
}
