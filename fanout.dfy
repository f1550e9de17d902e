/** The per-issue fan-out of an issues page: each issue's comments and events are fetched,
    each event's `url` is pointed at its issue, and the results are concatenated. */
module IssueFanout {
  import opened Wrappers
  import opened Errors
  import opened Json
  import opened Text
  import opened RequestExecutor

  const EventsSuffix: string := "/events"

  /** The issue URL as the script derives it: every occurrence of `/events` removed from the
      events URL, wherever it occurs. */
  function IssueUrlAsWritten(eventsUrl: string): string {
    RemoveAll(eventsUrl, EventsSuffix)
  }

  /** Every `/events` is removed, not only the last one. */
  lemma IssueUrlAsWrittenDropsInner(x: string, y: string)
    requires !Contains(x, EventsSuffix) && !Contains(y, EventsSuffix)
    ensures IssueUrlAsWritten(x + EventsSuffix + (y + EventsSuffix)) == x + y
  {
    var s := x + EventsSuffix + (y + EventsSuffix);
    UniqueHeadBorderless(EventsSuffix);
    FirstIndexAfterPrefix(x, EventsSuffix, y + EventsSuffix);
    assert s[..|x|] == x;
    assert s[|x| + |EventsSuffix|..] == y + EventsSuffix;
    RemoveAllSuffix(y, EventsSuffix);
  }

  /** For a repository named `events`, the replacement also removes the repository from the
      path, and the events point at a URL that is no issue of it. */
  lemma IssueUrlAsWrittenDropsRepository(owner: string, number: nat)
    requires 'v' !in owner
    ensures IssueUrlAsWritten("https://api.github.com/repos/" + owner + "/events/issues/" + Decimal(number) + "/events")
            == "https://api.github.com/repos/" + owner + "/issues/" + Decimal(number)
  {
    var x, y := "https://api.github.com/repos/" + owner, "/issues/" + Decimal(number);
    assert 'v' !in x;
    assert 'v' !in y;
    DropsInnerWithoutV(x, y);
    UrlRegroup(x, Decimal(number));
  }

  lemma DropsInnerWithoutV(x: string, y: string)
    requires 'v' !in x && 'v' !in y
    ensures IssueUrlAsWritten(x + EventsSuffix + (y + EventsSuffix)) == x + y
  {
    MissingCharNoOccurrence(x, EventsSuffix, 'v');
    MissingCharNoOccurrence(y, EventsSuffix, 'v');
    IssueUrlAsWrittenDropsInner(x, y);
  }

  lemma UrlRegroup(x: string, d: string)
    ensures x + "/events/issues/" + d + "/events" == x + EventsSuffix + ("/issues/" + d + EventsSuffix)
  {
    assert "/events/issues/" == EventsSuffix + "/issues/";
  }

  predicate EndsWithEvents(u: string) {
    |u| >= |EventsSuffix| && u[|u| - |EventsSuffix|..] == EventsSuffix
  }

  /** The issue URL: the events URL without its final `/events`. */
  function IssueUrl(eventsUrl: string): (r: string)
    ensures EndsWithEvents(eventsUrl) ==> r + EventsSuffix == eventsUrl
    ensures !EndsWithEvents(eventsUrl) ==> r == eventsUrl
  {
    if EndsWithEvents(eventsUrl) then eventsUrl[..|eventsUrl| - |EventsSuffix|] else eventsUrl
  }

  /** The events URL of an issue gives back that issue's URL, whatever the URL holds. */
  lemma IssueUrlOfEventsUrl(issueUrl: string)
    ensures IssueUrl(issueUrl + EventsSuffix) == issueUrl
  {
    var u := issueUrl + EventsSuffix;
    assert u[|u| - |EventsSuffix|..] == EventsSuffix;
    assert u[..|u| - |EventsSuffix|] == issueUrl;
  }

  /** When `/events` occurs only at the end, the script's replacement gives the same URL. */
  lemma IssueUrlAgreesWithoutInnerEvents(issueUrl: string)
    requires !Contains(issueUrl, EventsSuffix)
    ensures IssueUrlAsWritten(issueUrl + EventsSuffix) == IssueUrl(issueUrl + EventsSuffix)
  {
    UniqueHeadBorderless(EventsSuffix);
    RemoveAllSuffix(issueUrl, EventsSuffix);
    IssueUrlOfEventsUrl(issueUrl);
  }

  /** One pass of the loop in `getIssueEventsByUrl` over one element. An object with a `url`
      gets the issue URL there; `'url' in x` on a string is a substring test and on a list a
      membership test, and assigning into either raises, as does testing any other value. */
  function RewriteEvent(e: Json, issueUrl: string): (r: Result<Json, Error>)
    ensures r.Err? ==> r.error == TypeError
    ensures e.JObj? ==> r.Ok? && r.value.JObj? && r.value.fields.Keys == e.fields.Keys
    ensures e.JObj? ==> forall k :: k in e.fields && k != "url" ==> r.value.fields[k] == e.fields[k]
    ensures e.JObj? && "url" in e.fields ==> r.value.fields["url"] == JStr(issueUrl)
    ensures r.Ok? && !(e.JObj? && "url" in e.fields) ==> r.value == e
  {
    match e
    case JObj(f) => Ok(if "url" in f then JObj(f["url" := JStr(issueUrl)]) else e)
    case JStr(s) => if Contains(s, "url") then Err(TypeError) else Ok(e)
    case JArr(xs) => if JStr("url") in xs then Err(TypeError) else Ok(e)
    case _ => Err(TypeError)
  }

  /** The loop over all fetched events, element by element; the first failing one decides. */
  function RewriteEvents(events: seq<Json>, issueUrl: string): (r: Result<seq<Json>, Error>)
    ensures r.Ok? <==> forall j :: 0 <= j < |events| ==> RewriteEvent(events[j], issueUrl).Ok?
    ensures r.Ok? ==> |r.value| == |events|
                      && forall j :: 0 <= j < |events| ==> RewriteEvent(events[j], issueUrl) == Ok(r.value[j])
    ensures r.Err? ==> r.error == TypeError
    decreases |events|
  {
    if events == [] then Ok([])
    else match RewriteEvents(events[..|events| - 1], issueUrl)
      case Err(e) => Err(e)
      case Ok(done) =>
        match RewriteEvent(events[|events| - 1], issueUrl)
        case Err(e) => Err(e)
        case Ok(v) => Ok(done + [v])
  }

  /** `getIssueEventsByUrl`: rewrite, in place and in order, the events fetched for an issue.
      A failed fetch (`None`) cannot be iterated. */
  method GetIssueEventsByUrl(fetched: Option<seq<Json>>, issueUrl: string) returns (r: Result<seq<Json>, Error>)
    ensures r == EventsOfFetch(fetched, issueUrl)
  {
    if fetched.None? {
      return Err(TypeError);
    }
    var events := fetched.value;
    for i := 0 to |events|
      invariant |events| == |fetched.value|
      invariant events[i..] == fetched.value[i..]
      invariant RewriteEvents(fetched.value[..i], issueUrl) == Ok(events[..i])
    {
      assert fetched.value[..i + 1][..i] == fetched.value[..i];
      assert events[i] == fetched.value[i];
      var step := RewriteEvent(events[i], issueUrl);
      if step.Err? {
        RewriteEventsFailsFrom(fetched.value, issueUrl, i + 1);
        return Err(step.error);
      }
      events := events[i := step.value];
      assert events[..i + 1] == events[..i] + [step.value];
    }
    assert fetched.value[..|events|] == fetched.value;
    assert events[..|events|] == events;
    return Ok(events);
  }

  /** Once a prefix fails, the whole sequence fails with the same error. */
  lemma {:induction false} RewriteEventsFailsFrom(events: seq<Json>, issueUrl: string, n: nat)
    requires n <= |events| && RewriteEvents(events[..n], issueUrl).Err?
    ensures RewriteEvents(events, issueUrl) == RewriteEvents(events[..n], issueUrl)
    decreases |events| - n
  {
    if n < |events| {
      assert events[..n + 1][..n] == events[..n];
      RewriteEventsFailsFrom(events, issueUrl, n + 1);
    } else {
      assert events[..n] == events;
    }
  }

  /** An issue's link under `key`, when it has one; a JSON `null` counts as absent. */
  function LinkOf(issue: Item, key: string): (r: Option<Json>)
    ensures r.Some? <==> key in issue && issue[key] != JNull
    ensures r.Some? ==> r.value == issue[key]
  {
    if key in issue && issue[key] != JNull then Some(issue[key]) else None
  }

  /** `getReqInfoPerIssue`: the comments as fetched (possibly `None`), and the rewritten events.
      A comments URL that is not a string is refused by `requests.get`; an events URL that is
      not a string has no `replace`; a raising fetch propagates. */
  function ReqInfo(remote: Remote, commentsUrl: Json, eventsUrl: Json): Result<(Option<seq<Json>>, seq<Json>), Error> {
    ReqInfoWith(remote, commentsUrl, eventsUrl, IssueUrl)
  }

  /** The same, with the issue URL derived from the events URL by `issueUrlOf`. */
  function ReqInfoWith(remote: Remote, commentsUrl: Json, eventsUrl: Json, issueUrlOf: string -> string)
    : Result<(Option<seq<Json>>, seq<Json>), Error>
  {
    if !commentsUrl.JStr? then Err(RequestError)
    else match remote.payload(commentsUrl.s)
      case FetchRaised => Err(RequestError)
      case FetchedList(comments) =>
        if !eventsUrl.JStr? then Err(AttributeError)
        else match remote.payload(eventsUrl.s)
          case FetchRaised => Err(RequestError)
          case FetchedList(fetched) =>
            match EventsOfFetch(fetched, issueUrlOf(eventsUrl.s))
            case Err(e) => Err(e)
            case Ok(evs) => Ok((comments, evs))
  }

  /** For an events URL in which `/events` occurs only at the end, the script's replacement
      and the issue URL used here give the same comments and events. */
  lemma ReqInfoAgreesWithScript(remote: Remote, commentsUrl: Json, issueUrl: string)
    requires !Contains(issueUrl, EventsSuffix)
    ensures ReqInfo(remote, commentsUrl, JStr(issueUrl + EventsSuffix))
            == ReqInfoWith(remote, commentsUrl, JStr(issueUrl + EventsSuffix), IssueUrlAsWritten)
  {
    IssueUrlAgreesWithoutInnerEvents(issueUrl);
  }

  function EventsOfFetch(fetched: Option<seq<Json>>, issueUrl: string): Result<seq<Json>, Error> {
    match fetched case None => Err(TypeError) case Some(evs) => RewriteEvents(evs, issueUrl)
  }

  method GetReqInfoPerIssue(remote: Remote, commentsUrl: Json, eventsUrl: Json)
    returns (r: Result<(Option<seq<Json>>, seq<Json>), Error>)
    ensures r == ReqInfo(remote, commentsUrl, eventsUrl)
  {
    if !commentsUrl.JStr? {
      return Err(RequestError);
    }
    var commentsFetch := remote.payload(commentsUrl.s);
    if commentsFetch.FetchRaised? {
      return Err(RequestError);
    }
    var fullComments := commentsFetch.list;
    if !eventsUrl.JStr? {
      return Err(AttributeError);
    }
    var eventsFetch := remote.payload(eventsUrl.s);
    if eventsFetch.FetchRaised? {
      return Err(RequestError);
    }
    var events := GetIssueEventsByUrl(eventsFetch.list, IssueUrl(eventsUrl.s));
    if events.Err? {
      return Err(events.error);
    }
    return Ok((fullComments, events.value));
  }

  /** The events URL an issue carries, or "" when it has none that is a string. */
  function EventsUrlOf(issue: Json): string {
    if issue.JObj? && "events_url" in issue.fields && issue.fields["events_url"].JStr?
    then issue.fields["events_url"].s
    else ""
  }

  /** What one issue adds to the page's comments and events: nothing when either link is
      missing; `.get` on a value that is not an object raises, and so does `extend(None)`
      when the comments could not be fetched. */
  function Contribution(remote: Remote, issue: Json): Result<Option<(seq<Json>, seq<Json>)>, Error> {
    if !issue.JObj? then Err(AttributeError)
    else
      var c, e := LinkOf(issue.fields, "comments_url"), LinkOf(issue.fields, "events_url");
      if c.None? || e.None? then Ok(None)
      else match ReqInfo(remote, c.value, e.value)
        case Err(x) => Err(x)
        case Ok((comments, events)) =>
          match comments
          case None => Err(TypeError)
          case Some(cs) => Ok(Some((cs, events)))
  }

  /** The page's comments and events: the in-order concatenation over its linked issues. */
  function FanOut(remote: Remote, issues: seq<Json>): Result<(seq<Json>, seq<Json>), Error>
    decreases |issues|
  {
    if issues == [] then Ok(([], []))
    else Extend(FanOut(remote, issues[..|issues| - 1]), Contribution(remote, issues[|issues| - 1]))
  }

  /** One issue's contribution added to what the earlier issues gave. */
  function Extend(acc: Result<(seq<Json>, seq<Json>), Error>, c: Result<Option<(seq<Json>, seq<Json>)>, Error>)
    : Result<(seq<Json>, seq<Json>), Error>
  {
    match acc
    case Err(x) => Err(x)
    case Ok((cs, es)) =>
      match c
      case Err(x) => Err(x)
      case Ok(None) => Ok((cs, es))
      case Ok(Some((c1, e1))) => Ok((cs + c1, es + e1))
  }

  /** Two fan-out results one after the other. */
  function Concat(x: Result<(seq<Json>, seq<Json>), Error>, y: Result<(seq<Json>, seq<Json>), Error>)
    : Result<(seq<Json>, seq<Json>), Error>
  {
    match x
    case Err(e) => Err(e)
    case Ok((c1, e1)) =>
      match y
      case Err(e) => Err(e)
      case Ok((c2, e2)) => Ok((c1 + c2, e1 + e2))
  }

  lemma ExtendConcat(x: Result<(seq<Json>, seq<Json>), Error>, y: Result<(seq<Json>, seq<Json>), Error>,
                     c: Result<Option<(seq<Json>, seq<Json>)>, Error>)
    ensures Extend(Concat(x, y), c) == Concat(x, Extend(y, c))
  {
    if x.Ok? && y.Ok? && c.Ok? && c.value.Some? {
      var (c1, e1) := x.value;
      var (c2, e2) := y.value;
      var (c3, e3) := c.value.value;
      assert c1 + c2 + c3 == c1 + (c2 + c3) && e1 + e2 + e3 == e1 + (e2 + e3);
    }
  }

  /** The loop of the main page loop over the issues of a page, building `full_comments`
      and `full_issue_events` with `extend`. */
  method AggregateIssuePage(remote: Remote, issues: seq<Json>) returns (r: Result<(seq<Json>, seq<Json>), Error>)
    ensures r == FanOut(remote, issues)
  {
    var fullComments: seq<Json> := [];
    var fullIssueEvents: seq<Json> := [];
    for i := 0 to |issues|
      invariant FanOut(remote, issues[..i]) == Ok((fullComments, fullIssueEvents))
    {
      var issue := issues[i];
      assert issues[..i + 1][..i] == issues[..i] && issues[..i + 1][i] == issue;
      if !issue.JObj? {
        FanOutFailsFrom(remote, issues, i + 1);
        return Err(AttributeError);
      }
      var commentsUrl := LinkOf(issue.fields, "comments_url");
      var eventsUrl := LinkOf(issue.fields, "events_url");
      if commentsUrl.Some? && eventsUrl.Some? {
        var info := GetReqInfoPerIssue(remote, commentsUrl.value, eventsUrl.value);
        if info.Err? {
          FanOutFailsFrom(remote, issues, i + 1);
          return Err(info.error);
        }
        var (comments, events) := info.value;
        if comments.None? {
          FanOutFailsFrom(remote, issues, i + 1);
          return Err(TypeError);
        }
        fullComments := fullComments + comments.value;
        fullIssueEvents := fullIssueEvents + events;
      }
    }
    assert issues[..|issues|] == issues;
    return Ok((fullComments, fullIssueEvents));
  }

  lemma {:induction false} FanOutFailsFrom(remote: Remote, issues: seq<Json>, n: nat)
    requires n <= |issues| && FanOut(remote, issues[..n]).Err?
    ensures FanOut(remote, issues) == FanOut(remote, issues[..n])
    decreases |issues| - n
  {
    if n < |issues| {
      assert issues[..n + 1][..n] == issues[..n];
      FanOutFailsFrom(remote, issues, n + 1);
    } else {
      assert issues[..n] == issues;
    }
  }

  /** The results of two runs of issues joined: fan-out distributes over concatenation. */
  lemma {:induction false} FanOutAppend(remote: Remote, a: seq<Json>, b: seq<Json>)
    ensures FanOut(remote, a + b) == Concat(FanOut(remote, a), FanOut(remote, b))
    decreases |b|
  {
    if b == [] {
      assert a + b == a;
      if FanOut(remote, a).Ok? {
        var (c1, e1) := FanOut(remote, a).value;
        assert c1 + [] == c1 && e1 + [] == e1;
      }
    } else {
      var b' := b[..|b| - 1];
      assert (a + b)[..|a + b| - 1] == a + b';
      assert (a + b)[|a + b| - 1] == b[|b| - 1];
      FanOutAppend(remote, a, b');
      ExtendConcat(FanOut(remote, a), FanOut(remote, b'), Contribution(remote, b[|b| - 1]));
    }
  }

  /** An issue lacking either link adds nothing and fetches nothing. */
  lemma FanOutSkipsUnlinked(remote: Remote, issues: seq<Json>, issue: Json)
    requires issue.JObj?
    requires LinkOf(issue.fields, "comments_url").None? || LinkOf(issue.fields, "events_url").None?
    ensures FanOut(remote, issues + [issue]) == FanOut(remote, issues)
  {
    assert (issues + [issue])[..|issues|] == issues;
  }

  /** One linked issue's events: each event object that carries a `url` now carries its
      issue's URL. */
  lemma ContributionEventsPointToIssue(remote: Remote, issue: Json)
    requires Contribution(remote, issue).Ok? && Contribution(remote, issue).value.Some?
    ensures forall ev :: ev in Contribution(remote, issue).value.value.1 && ev.JObj? && "url" in ev.fields ==>
              ev.fields["url"] == JStr(IssueUrl(EventsUrlOf(issue)))
  {
    var f := issue.fields;
    var ev := f["events_url"];
    var evs := remote.payload(ev.s).list.value;
    var out := Contribution(remote, issue).value.value.1;
    assert RewriteEvents(evs, IssueUrl(ev.s)) == Ok(out);
    forall x | x in out && x.JObj? && "url" in x.fields
      ensures x.fields["url"] == JStr(IssueUrl(EventsUrlOf(issue)))
    {
      var j :| 0 <= j < |out| && out[j] == x;
      assert RewriteEvent(evs[j], IssueUrl(ev.s)) == Ok(x);
    }
  }

  /** Every event object of the page that carries a `url` points at the issue whose events
      URL it was fetched from. */
  lemma {:induction false} FanOutEventsPointToIssues(remote: Remote, issues: seq<Json>)
    requires FanOut(remote, issues).Ok?
    ensures forall ev :: ev in FanOut(remote, issues).value.1 && ev.JObj? && "url" in ev.fields ==>
              exists j :: 0 <= j < |issues| && ev.fields["url"] == JStr(IssueUrl(EventsUrlOf(issues[j])))
    decreases |issues|
  {
    if issues != [] {
      var init, last := issues[..|issues| - 1], issues[|issues| - 1];
      FanOutEventsPointToIssues(remote, init);
      var es := FanOut(remote, init).value.1;
      forall ev | ev in FanOut(remote, issues).value.1 && ev.JObj? && "url" in ev.fields
        ensures exists j :: 0 <= j < |issues| && ev.fields["url"] == JStr(IssueUrl(EventsUrlOf(issues[j])))
      {
        if ev in es {
          var j :| 0 <= j < |init| && ev.fields["url"] == JStr(IssueUrl(EventsUrlOf(init[j])));
          assert issues[j] == init[j];
        } else {
          ContributionEventsPointToIssue(remote, last);
          assert issues[|issues| - 1] == last;
        }
      }
    }
  }

  /** The issues of a decoded issues page: an undecodable body raises, a list gives
      its elements, an empty object or string gives nothing, and a non-empty one yields keys or
      characters, which have no `.get`. Other values cannot be iterated. */
  function IssuesOf(body: Option<Json>): (r: Result<seq<Json>, Error>)
    ensures body.None? ==> r == Err(ValueError)
    ensures body.Some? && body.value.JArr? ==> r == Ok(body.value.elems)
  {
    match body
    case None => Err(ValueError)
    case Some(JArr(xs)) => Ok(xs)
    case Some(JObj(f)) => if |f| == 0 then Ok([]) else Err(AttributeError)
    case Some(JStr(s)) => if s == "" then Ok([]) else Err(AttributeError)
    case Some(_) => Err(TypeError)
  }
}
