/** The seven endpoint names, the (base, category) pair each one stands for, and the
    request URLs and page-file paths derived from them. */
module Endpoints {
  import opened Text

  /** The sentinel the script uses for "no category". */
  const NoCategory: string := "None"

  const BaseUrl: string := "https://api.github.com"

  /** The endpoint names in the order the script walks them. */
  const MainEndpoints: seq<string> :=
    ["issues", "pulls", "comments", "commits", "issues_comments", "issues_events", "pulls_comments"]

  /** `check_github_endpoints`: split a derived name into its base resource and category. */
  function CheckGithubEndpoints(name: string): (string, string) {
    if name == "issues_comments" then ("issues", "comments")
    else if name == "issues_events" then ("issues", "events")
    else if name == "pulls_comments" then ("pulls", "comments")
    else (name, NoCategory)
  }

  /** The key a (base, category) pair is stored and filed under: `{endpoint}` or `{endpoint}_{category}`. */
  function ResourceKey(endpoint: string, category: string): string {
    if category == NoCategory then endpoint else endpoint + "_" + category
  }

  /** The progress-file key of a repository: `{user}_{repo}`. */
  function RepoKey(user: string, repo: string): string {
    user + "_" + repo
  }

  /** `get_github_urls`: the first-page request URL of an endpoint. */
  function GithubUrl(user: string, repo: string, endpoint: string, category: string): string {
    if category == NoCategory then
      BaseUrl + "/repos/" + user + "/" + repo + "/" + endpoint + "?state=all&per_page=100"
    else
      BaseUrl + "/repos/" + user + "/" + repo + "/" + endpoint + "/" + category + "?per_page=100"
  }

  /** The request URL of one page: `url + f"&page={page}"`. */
  function PageUrl(url: string, page: int): string {
    url + "&page=" + IntToString(page)
  }

  /** The file a page of an endpoint is saved to:
      `./config/data/{user}_{repo}/{key}/{user}_{repo}_{key}_page_{page}.json`. */
  function PagePath(user: string, repo: string, endpoint: string, category: string, page: int): string {
    var ur := RepoKey(user, repo);
    var key := ResourceKey(endpoint, category);
    ("./config/data/" + ur + "/") + (key + "/" + ((ur + "_" + key + "_page_") + (IntToString(page) + ".json")))
  }

  /** Splitting a name and joining the pair again gives the name back, for every string. */
  lemma EndpointKeyRoundTrip(name: string)
    ensures var (endpoint, category) := CheckGithubEndpoints(name);
            ResourceKey(endpoint, category) == name
  {
  }

  /** The seven names are distinct, none of them contains a '/', and only the three derived
      ones carry a category. */
  lemma MainEndpointFacts()
    ensures forall i, j :: 0 <= i < j < |MainEndpoints| ==> MainEndpoints[i] != MainEndpoints[j]
    ensures forall i :: 0 <= i < |MainEndpoints| ==> '/' !in MainEndpoints[i]
    ensures forall i :: 0 <= i < |MainEndpoints| ==>
              (CheckGithubEndpoints(MainEndpoints[i]).1 != NoCategory <==> 4 <= i)
  {
  }

  /** A page path determines its resource key and its page number. */
  lemma PagePathInjective(user: string, repo: string, e1: string, c1: string, p1: int,
                          e2: string, c2: string, p2: int)
    requires '/' !in ResourceKey(e1, c1) && '/' !in ResourceKey(e2, c2)
    requires PagePath(user, repo, e1, c1, p1) == PagePath(user, repo, e2, c2, p2)
    ensures ResourceKey(e1, c1) == ResourceKey(e2, c2) && p1 == p2
  {
    var ur := RepoKey(user, repo);
    var k1, k2 := ResourceKey(e1, c1), ResourceKey(e2, c2);
    var t1, t2 := IntToString(p1) + ".json", IntToString(p2) + ".json";
    CancelPrefix("./config/data/" + ur + "/", k1 + "/" + ((ur + "_" + k1 + "_page_") + t1),
                 k2 + "/" + ((ur + "_" + k2 + "_page_") + t2));
    HeadBeforeSeparator(k1, (ur + "_" + k1 + "_page_") + t1, k2, (ur + "_" + k2 + "_page_") + t2, '/');
    CancelPrefix(ur + "_" + k1 + "_page_", t1, t2);
    CancelSuffix(IntToString(p1), IntToString(p2), ".json");
    IntToStringInjective(p1, p2);
  }

  /** A character found in none of the parts or fixed pieces is not in the request URL. */
  lemma GithubUrlAvoids(user: string, repo: string, endpoint: string, category: string, ch: char)
    requires ch !in user && ch !in repo && ch !in endpoint && ch !in category
    requires ch !in BaseUrl + "/repos/" && ch !in "?state=all&per_page=100" && ch != '/'
    ensures ch !in GithubUrl(user, repo, endpoint, category)
  {
    assert ch !in "?per_page=100" by {
      assert "?per_page=100" == "?" + "per_page=100";
      assert "?state=all&per_page=100" == "?state=all&" + "per_page=100";
    }
  }

  /** The request URL asks for all states exactly when the endpoint has no category
      (given names without '=', as repository names and the fixed endpoints are). */
  lemma GithubUrlStateAll(user: string, repo: string, endpoint: string, category: string)
    requires '=' !in user && '=' !in repo && '=' !in endpoint && '=' !in category
    ensures Contains(GithubUrl(user, repo, endpoint, category), "state=all") <==> category == NoCategory
  {
    var url := GithubUrl(user, repo, endpoint, category);
    if category == NoCategory {
      var pre := BaseUrl + "/repos/" + user + "/" + repo + "/" + endpoint + "?";
      assert url == pre + "state=all" + "&per_page=100";
      assert url[|pre|..|pre| + 9] == "state=all";
      assert OccursAt(url, "state=all", |pre|);
    } else {
      var pre := BaseUrl + "/repos/" + user + "/" + repo + "/" + endpoint + "/" + category;
      var tail := "?per_page=100";
      assert url == pre + tail;
      assert '=' !in pre;
      forall k | 0 <= k <= |url| ensures !OccursAt(url, "state=all", k) {
        if k + 9 <= |url| {
          if k + 5 < |pre| {
            assert url[k..k + 9][5] == url[k + 5] == pre[k + 5] != '=';
          } else {
            assert url[k..k + 9][6] == url[k + 6] == tail[k + 6 - |pre|];
            assert tail[k + 5 - |pre|] == url[k + 5];
          }
        }
      }
    }
  }
}
