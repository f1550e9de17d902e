/** The verification file: per repository, an item count and the last and current page
    numbers of every endpoint, kept as nested dictionaries and updated in place. */
module Progress {
  import opened Wrappers
  import opened Errors
  import opened Endpoints

  /** One repository's record: key to integer. */
  type Record = map<string, int>

  /** The whole file: `"{user}_{repo}"` to that repository's record. */
  type Store = map<string, Record>

  function LastKey(key: string): string { key + "_last_page_number" }

  function CurrKey(key: string): string { key + "_curr_page_number" }

  /** The three keys kept for one resource key: its item count and its two page numbers. */
  function CounterKeys(key: string): set<string> {
    {key, LastKey(key), CurrKey(key)}
  }

  /** The resource key of one of the seven endpoint names. */
  function NameKey(name: string): string {
    var (endpoint, category) := CheckGithubEndpoints(name);
    ResourceKey(endpoint, category)
  }

  /** The counter keys of the first `n` endpoint names. */
  function KeysUpTo(n: nat): set<string>
    requires n <= |MainEndpoints|
  {
    set i, k | 0 <= i < n && k in CounterKeys(NameKey(MainEndpoints[i])) :: k
  }

  /** Every key the defaults pass creates in a repository's record. */
  function DefaultKeys(): set<string> {
    KeysUpTo(|MainEndpoints|)
  }

  /** A repository's record, or the `{}` that `setdefault` would insert. */
  function RecordOf(s: Store, rk: string): Record {
    if rk in s then s[rk] else map[]
  }

  /** The record with a zero under `key`, unless it already has a value there. */
  function SetDefaultKey(rec: Record, key: string): (r: Record)
    ensures r.Keys == rec.Keys + {key}
    ensures forall k :: k in rec ==> r[k] == rec[k]
    ensures key !in rec ==> r[key] == 0
  {
    if key in rec then rec else rec[key := 0]
  }

  /** `rec` with every key of `keys` it lacks added with value 0. */
  function Defaulted(rec: Record, keys: set<string>): Record {
    map k | k in rec.Keys + keys :: if k in rec then rec[k] else 0
  }

  /** The file after the defaults pass for repository `rk`. */
  function WithDefaults(s: Store, rk: string): Store {
    s[rk := Defaulted(RecordOf(s, rk), DefaultKeys())]
  }

  /** The key whose count `update_verification_data` increments. It tests the module-level
      `category`, not its own `temp_category` parameter, to choose the key's form. */
  function CountKey(tempEndpoint: string, tempCategory: string, category: string): string {
    if category != NoCategory then tempEndpoint + "_" + tempCategory else tempEndpoint
  }

  /** The exception, if any, that adding to the counter `key` of the record `rk` raises: a
      missing record or a missing counter. */
  function UpdateError(s: Store, rk: string, key: string): (r: Option<Error>)
    ensures r.None? <==> rk in s && key in s[rk]
  {
    if rk !in s then Some(KeyError(rk))
    else if key !in s[rk] then Some(KeyError(key))
    else None
  }

  /** The file after a successful update: count increased by `n`, both page numbers set. */
  function Applied(s: Store, rk: string, key: string, last: int, curr: int, n: int): Store
    requires rk in s && key in s[rk]
  {
    s[rk := s[rk][key := s[rk][key] + n][LastKey(key) := last][CurrKey(key) := curr]]
  }

  /** `get_verification_data_values`: the branch structure of the source's loop over the
      record. The second and fourth branches are never taken: their guards repeat a test
      an earlier branch has already decided. */
  function GetVerificationDataValues(s: Store, rk: string, endpoint: string, category: string,
                                     subCategory: string): (r: Option<int>)
    ensures r.Some? <==> rk in s && ResourceKey(endpoint, category) in s[rk]
    ensures r.Some? ==> r.value == s[rk][ResourceKey(endpoint, category)]
  {
    if rk !in s then None else LookupIn(s[rk], endpoint, category, subCategory)
  }

  function LookupIn(rec: Record, endpoint: string, category: string, subCategory: string): Option<int> {
    if category == NoCategory then Lookup(rec, endpoint)
    else if category == NoCategory && subCategory != NoCategory then Lookup(rec, endpoint + "_" + subCategory)
    else if category != NoCategory then Lookup(rec, endpoint + "_" + category)
    else Lookup(rec, endpoint + "_" + category + "_" + subCategory)
  }

  function Lookup(rec: Record, key: string): Option<int> {
    if key in rec then Some(rec[key]) else None
  }

  /** The progress file, held in memory between reads and writes. */
  class ProgressStore {
    var data: Store

    /** The file's content when it exists, otherwise the `{}` the script writes first. */
    constructor(existing: Option<Store>)
      ensures data == (match existing case None => map[] case Some(s) => s)
    {
      data := match existing case None => map[] case Some(s) => s;
    }

    /** Creates the repository's record if it is missing, then puts a zero under `key` unless
        the record already has a value there. */
    method SetDefault(rk: string, key: string)
      modifies this
      ensures data == old(data)[rk := SetDefaultKey(RecordOf(old(data), rk), key)]
    {
      data := data[rk := SetDefaultKey(RecordOf(data, rk), key)];
    }

    /** The three `setdefault` calls for one resource key. */
    method SetCounterDefaults(rk: string, key: string)
      modifies this
      ensures data == old(data)[rk := SetDefaultKey(SetDefaultKey(SetDefaultKey(
                        RecordOf(old(data), rk), key), LastKey(key)), CurrKey(key))]
    {
      SetDefault(rk, key);
      SetDefault(rk, LastKey(key));
      SetDefault(rk, CurrKey(key));
    }

    /** `update_verification_file_with_default_values`: the three counter keys of each of
        the seven endpoint names, created with 0 where missing. */
    method UpdateVerificationFileWithDefaultValues(user: string, repo: string)
      modifies this
      ensures data == WithDefaults(old(data), RepoKey(user, repo))
    {
      var rk := RepoKey(user, repo);
      for i := 0 to |MainEndpoints|
        invariant data == DefaultsUpTo(old(data), rk, i)
      {
        var key := NameKey(MainEndpoints[i]);
        SetCounterDefaults(rk, key);
        DefaultsUpToStep(old(data), rk, i);
      }
      DefaultsUpToAll(old(data), rk);
    }

    /** `update_verification_data`, with the module-level `category` passed explicitly.
        A missing repository or count key raises `KeyError` and the file is left as it was. */
    method UpdateVerificationData(userRepoKey: string, tempEndpoint: string, tempCategory: string,
                                  category: string, currentPage: int, lastPageNumber: int,
                                  numberOfItems: Option<int>) returns (err: Option<Error>)
      modifies this
      ensures var key := CountKey(tempEndpoint, tempCategory, category);
              && err == UpdateError(old(data), userRepoKey, key)
              && (err.Some? ==> data == old(data))
              && (err.None? ==> data == Applied(old(data), userRepoKey, key, lastPageNumber, currentPage,
                                                match numberOfItems case None => 0 case Some(n) => n))
    {
      var n := match numberOfItems case None => 0 case Some(v) => v;
      var key := if category != NoCategory then tempEndpoint + "_" + tempCategory else tempEndpoint;
      if userRepoKey !in data {
        return Some(KeyError(userRepoKey));
      }
      var rec := data[userRepoKey];
      if key !in rec {
        return Some(KeyError(key));
      }
      rec := rec[key := rec[key] + n];
      rec := rec[LastKey(key) := lastPageNumber];
      rec := rec[CurrKey(key) := currentPage];
      data := data[userRepoKey := rec];
      return None;
    }
  }

  /** The file after the defaults pass has handled the first `i` endpoint names. */
  ghost function DefaultsUpTo(s: Store, rk: string, i: nat): Store
    requires i <= |MainEndpoints|
  {
    if i == 0 then s else s[rk := Defaulted(RecordOf(s, rk), KeysUpTo(i))]
  }

  lemma KeysUpToStep(i: nat)
    requires i < |MainEndpoints|
    ensures KeysUpTo(i + 1) == KeysUpTo(i) + CounterKeys(NameKey(MainEndpoints[i]))
  {
  }

  lemma DefaultsUpToStep(s: Store, rk: string, i: nat)
    requires i < |MainEndpoints|
    ensures var key, t := NameKey(MainEndpoints[i]), DefaultsUpTo(s, rk, i);
            t[rk := SetDefaultKey(SetDefaultKey(SetDefaultKey(RecordOf(t, rk), key), LastKey(key)), CurrKey(key))]
            == DefaultsUpTo(s, rk, i + 1)
  {
    var key := NameKey(MainEndpoints[i]);
    KeysUpToStep(i);
    if i == 0 {
      assert KeysUpTo(0) == {};
      StoreDefaultFirst(s, rk, key);
    } else {
      StoreDefaultStep(s, rk, KeysUpTo(i), key);
    }
  }

  lemma StoreDefaultFirst(s: Store, rk: string, key: string)
    ensures s[rk := SetDefaultKey(SetDefaultKey(SetDefaultKey(RecordOf(s, rk), key), LastKey(key)), CurrKey(key))]
            == s[rk := Defaulted(RecordOf(s, rk), {} + CounterKeys(key))]
  {
    var rec := RecordOf(s, rk);
    assert Defaulted(rec, {}) == rec;
    DefaultedStep(rec, {}, key);
  }

  lemma StoreDefaultStep(s: Store, rk: string, keys: set<string>, key: string)
    ensures var t := s[rk := Defaulted(RecordOf(s, rk), keys)];
            t[rk := SetDefaultKey(SetDefaultKey(SetDefaultKey(RecordOf(t, rk), key), LastKey(key)), CurrKey(key))]
            == s[rk := Defaulted(RecordOf(s, rk), keys + CounterKeys(key))]
  {
    DefaultedStep(RecordOf(s, rk), keys, key);
  }

  lemma DefaultsUpToAll(s: Store, rk: string)
    ensures DefaultsUpTo(s, rk, |MainEndpoints|) == WithDefaults(s, rk)
  {
  }

  lemma DefaultedStep(rec: Record, keys: set<string>, key: string)
    ensures SetDefaultKey(SetDefaultKey(SetDefaultKey(Defaulted(rec, keys), key), LastKey(key)), CurrKey(key))
            == Defaulted(rec, keys + CounterKeys(key))
  {
  }

  /** The defaults pass never changes a value that is already there, in any repository. */
  lemma WithDefaultsKeepsValues(s: Store, rk: string)
    ensures forall r, k :: r in s && k in s[r] ==>
              r in WithDefaults(s, rk) && k in WithDefaults(s, rk)[r] && WithDefaults(s, rk)[r][k] == s[r][k]
  {
  }

  /** Other repositories' records are untouched. */
  lemma WithDefaultsOtherRepos(s: Store, rk: string)
    ensures WithDefaults(s, rk).Keys == s.Keys + {rk}
    ensures forall r :: r in s && r != rk ==> WithDefaults(s, rk)[r] == s[r]
  {
  }

  /** The repository's record gains exactly the missing default keys, each with value 0. */
  lemma WithDefaultsNewKeys(s: Store, rk: string)
    ensures WithDefaults(s, rk)[rk].Keys == RecordOf(s, rk).Keys + DefaultKeys()
    ensures forall k :: k in WithDefaults(s, rk)[rk] && k !in RecordOf(s, rk) ==>
              k in DefaultKeys() && WithDefaults(s, rk)[rk][k] == 0
  {
  }

  /** Running the defaults pass a second time changes nothing. */
  lemma WithDefaultsIdempotent(s: Store, rk: string)
    ensures WithDefaults(WithDefaults(s, rk), rk) == WithDefaults(s, rk)
  {
    var once := WithDefaults(s, rk);
    assert RecordOf(once, rk) == Defaulted(RecordOf(s, rk), DefaultKeys());
    assert Defaulted(RecordOf(once, rk), DefaultKeys()) == RecordOf(once, rk);
  }

  /** The default keys are the count, last-page and current-page keys of the seven names. */
  lemma DefaultKeysOfEndpoints(k: string)
    ensures k in DefaultKeys() <==>
              exists i :: 0 <= i < |MainEndpoints| && k in CounterKeys(NameKey(MainEndpoints[i]))
  {
  }

  /** Called as the main loop calls it (its `category` is the one passed), the count key
      is the endpoint's resource key. */
  lemma CountKeyInMainLoop(endpoint: string, category: string)
    ensures CountKey(endpoint, category, category) == ResourceKey(endpoint, category)
  {
  }

  /** After the defaults pass, updating any of the seven endpoints of that repository
      cannot raise `KeyError`. */
  lemma UpdateAfterDefaults(s: Store, user: string, repo: string, i: nat)
    requires i < |MainEndpoints|
    ensures var (endpoint, category) := CheckGithubEndpoints(MainEndpoints[i]);
            UpdateError(WithDefaults(s, RepoKey(user, repo)), RepoKey(user, repo),
                        CountKey(endpoint, category, category)) == None
  {
    var key := NameKey(MainEndpoints[i]);
    assert key in CounterKeys(key);
    assert key in DefaultKeys();
  }

  /** An update touches only the three counter keys of one record: the count grows by `n`
      and the page numbers take the given values. */
  lemma AppliedChangesOnlyCounters(s: Store, rk: string, key: string, last: int, curr: int, n: int)
    requires rk in s && key in s[rk]
    ensures var t := Applied(s, rk, key, last, curr, n);
            && t.Keys == s.Keys
            && (forall r :: r in s && r != rk ==> t[r] == s[r])
            && t[rk].Keys == s[rk].Keys + {LastKey(key), CurrKey(key)}
            && t[rk][key] == s[rk][key] + n
            && t[rk][LastKey(key)] == last
            && t[rk][CurrKey(key)] == curr
            && (forall k :: k in s[rk] && k !in CounterKeys(key) ==> t[rk][k] == s[rk][k])
  {
    assert key != LastKey(key) && key != CurrKey(key) by {
      assert |LastKey(key)| > |key| && |CurrKey(key)| > |key|;
    }
    assert LastKey(key) != CurrKey(key) by {
      assert LastKey(key)[|key| + 1] == 'l' && CurrKey(key)[|key| + 1] == 'c';
    }
  }

  /** Reading back after an update gives the old count plus the new items. */
  lemma GetAfterUpdate(s: Store, rk: string, endpoint: string, category: string, sub: string,
                       last: int, curr: int, n: int)
    requires rk in s && ResourceKey(endpoint, category) in s[rk]
    ensures var key := ResourceKey(endpoint, category);
            GetVerificationDataValues(Applied(s, rk, key, last, curr, n), rk, endpoint, category, sub)
            == Some(s[rk][key] + n)
  {
    AppliedChangesOnlyCounters(s, rk, ResourceKey(endpoint, category), last, curr, n);
  }

  /** A repository that was not in the file reads 0 for every endpoint after the defaults pass. */
  lemma GetAfterDefaults(s: Store, user: string, repo: string, i: nat, sub: string)
    requires i < |MainEndpoints| && RepoKey(user, repo) !in s
    ensures var (endpoint, category) := CheckGithubEndpoints(MainEndpoints[i]);
            GetVerificationDataValues(WithDefaults(s, RepoKey(user, repo)), RepoKey(user, repo),
                                      endpoint, category, sub) == Some(0)
  {
    var key := NameKey(MainEndpoints[i]);
    assert key in CounterKeys(key);
    assert key in DefaultKeys();
  }
}
