/** `get_github_api_request`: the bounded retry loop around one GET request, with the
    network replaced by the outcomes it would produce. */
module RequestExecutor {
  import opened Wrappers
  import opened Json

  /** `MAX_RETRIES`. */
  const MaxRetries: nat := 30

  /** At or below this many remaining core requests the function only sleeps. */
  const QuotaFloor: int := 10

  const StatusOk: int := 200

  /** What the script uses of a response: its status, its `Link` header and its body
      (`None` when the body is not valid JSON text). */
  datatype Response = Response(status: int, link: Option<string>, body: Option<Json>)

  /** One attempt: `requests.get` raised one of the caught request exceptions, or answered. */
  datatype Attempt = Raised | Answered(resp: Response)

  /** What a call gives its caller: a response, `None` (no request was made), or the
      `UnboundLocalError` raised when no attempt ever produced a response. */
  datatype Reply = Returned(resp: Response) | NoRequest | Unbound

  /** Which of the two callers sends a request: `is_data_downloaded` probing the first page,
      or the main loop downloading. The network may answer them differently. */
  datatype Visit = Probe | Download

  /** What `get_issue_events` makes of one comments or events URL: its single `requests.get`
      raised (a timeout or a connection error, which nothing there catches), or it returned the
      decoded list, `None` when the status is not 200 or the body is not JSON. */
  datatype Fetched = FetchRaised | FetchedList(list: Option<seq<Json>>)

  /** The network: for each caller and request URL, the remaining-quota reading taken before
      the loop and the outcome of attempt number `i` (counting from 0); and for each comments
      or events URL, what `get_issue_events` makes of it. */
  datatype Remote = Remote(quota: Visit -> string -> int, net: Visit -> string -> nat -> Attempt,
                           payload: string -> Fetched)

  predicate IsOk(a: Attempt) {
    a.Answered? && a.resp.status == StatusOk
  }

  /** The first of attempts `0 .. n-1` that answered 200. */
  function FirstOk(net: nat -> Attempt, n: nat): (r: Option<nat>)
    ensures r.Some? ==> r.value < n && IsOk(net(r.value))
                        && forall j :: 0 <= j < r.value ==> !IsOk(net(j))
    ensures r.None? ==> forall j :: 0 <= j < n ==> !IsOk(net(j))
  {
    if n == 0 then None
    else match FirstOk(net, n - 1)
      case Some(i) => Some(i)
      case None => if IsOk(net(n - 1)) then Some(n - 1) else None
  }

  /** The last of attempts `0 .. n-1` that produced a response at all. */
  function LastAnswer(net: nat -> Attempt, n: nat): (r: Option<nat>)
    ensures r.Some? ==> r.value < n && net(r.value).Answered?
                        && forall j :: r.value < j < n ==> net(j).Raised?
    ensures r.None? ==> forall j :: 0 <= j < n ==> net(j).Raised?
  {
    if n == 0 then None
    else if net(n - 1).Answered? then Some(n - 1)
    else LastAnswer(net, n - 1)
  }

  /** The reply the loop produces, stated without the loop. */
  function Expected(remaining: int, net: nat -> Attempt): Reply {
    if remaining <= QuotaFloor then NoRequest
    else match FirstOk(net, MaxRetries)
      case Some(i) => Returned(net(i).resp)
      case None =>
        match LastAnswer(net, MaxRetries)
        case Some(i) => Returned(net(i).resp)
        case None => Unbound
  }

  /** How many requests the loop sends. */
  function AttemptsMade(remaining: int, net: nat -> Attempt): nat {
    if remaining <= QuotaFloor then 0
    else match FirstOk(net, MaxRetries)
      case Some(i) => i + 1
      case None => MaxRetries
  }

  /** The retry loop: stop at the first 200, keep the latest response otherwise. */
  method GetGithubApiRequest(remaining: int, net: nat -> Attempt) returns (r: Reply, attempts: nat)
    ensures r == Expected(remaining, net)
    ensures attempts == AttemptsMade(remaining, net)
    ensures attempts <= MaxRetries
  {
    if remaining <= QuotaFloor {
      return NoRequest, 0;
    }
    var attempt: nat := 0;
    var response: Option<Response> := None;
    while attempt < MaxRetries
      invariant attempt <= MaxRetries
      invariant FirstOk(net, attempt) == None
      invariant response == (match LastAnswer(net, attempt)
                             case None => None
                             case Some(i) => Some(net(i).resp))
    {
      match net(attempt) {
        case Answered(resp) =>
          response := Some(resp);
          if resp.status == StatusOk {
            FirstOkReturned(remaining, net, attempt);
            return Returned(resp), attempt + 1;
          }
        case Raised =>
      }
      attempt := attempt + 1;
    }
    assert FirstOk(net, MaxRetries) == None;
    attempts := attempt;
    match response {
      case None => r := Unbound;
      case Some(resp) => r := Returned(resp);
    }
  }

  /** With quota above the floor, the first 200 among the 30 attempts is what comes back,
      whatever failed before it. */
  lemma FirstOkReturned(remaining: int, net: nat -> Attempt, k: nat)
    requires remaining > QuotaFloor
    requires k < MaxRetries && IsOk(net(k))
    requires forall j :: 0 <= j < k ==> !IsOk(net(j))
    ensures Expected(remaining, net) == Returned(net(k).resp)
    ensures AttemptsMade(remaining, net) == k + 1
  {
    match FirstOk(net, MaxRetries)
    case None =>
    case Some(i) =>
      assert !(i < k) && !(k < i);
  }

  /** Without a 200, every one of the 30 attempts is made and the latest response comes back. */
  lemma NoOkReturnsLast(remaining: int, net: nat -> Attempt, k: nat)
    requires remaining > QuotaFloor
    requires forall j :: 0 <= j < MaxRetries ==> !IsOk(net(j))
    requires k < MaxRetries && net(k).Answered?
    requires forall j :: k < j < MaxRetries ==> net(j).Raised?
    ensures Expected(remaining, net) == Returned(net(k).resp)
    ensures AttemptsMade(remaining, net) == MaxRetries
  {
    match LastAnswer(net, MaxRetries)
    case None =>
    case Some(i) =>
      assert !(i < k) && !(k < i);
  }

  /** When every attempt raises, the final `return response` fails. */
  lemma AllRaisedUnbound(remaining: int, net: nat -> Attempt)
    requires remaining > QuotaFloor
    requires forall j :: 0 <= j < MaxRetries ==> net(j).Raised?
    ensures Expected(remaining, net) == Unbound
  {
  }

  /** Whatever comes back is a response the network gave in one of the attempts made, and
      it is not a 200 only when no attempt made answered 200. */
  lemma ReturnedCameFromNetwork(remaining: int, net: nat -> Attempt)
    requires Expected(remaining, net).Returned?
    ensures var k := AttemptsMade(remaining, net);
            && 1 <= k <= MaxRetries
            && (exists j :: 0 <= j < k && net(j) == Answered(Expected(remaining, net).resp))
            && (Expected(remaining, net).resp.status != StatusOk ==>
                  forall j :: 0 <= j < k ==> !IsOk(net(j)))
  {
    var r := Expected(remaining, net);
    match FirstOk(net, MaxRetries)
    case Some(i) =>
      assert net(i) == Answered(r.resp);
    case None =>
      var i := LastAnswer(net, MaxRetries).value;
      assert net(i) == Answered(r.resp);
  }

  /** `NoRequest` and `Unbound` are told apart by the quota alone. */
  lemma NoRequestIffLowQuota(remaining: int, net: nat -> Attempt)
    ensures Expected(remaining, net) == NoRequest <==> remaining <= QuotaFloor
    ensures Expected(remaining, net) == NoRequest <==> AttemptsMade(remaining, net) == 0
  {
  }

  /** The reply to a request for `url`. */
  function Fetch(remote: Remote, visit: Visit, url: string): Reply {
    Expected(remote.quota(visit)(url), remote.net(visit)(url))
  }
}
