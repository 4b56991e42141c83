/**
 * The Jira worklog client of src/worklog_api.rs: the two REST operations
 * (list the worklogs of an issue, create a worklog on an issue), the
 * request each one builds, and how each classifies what comes back.
 *
 * The HTTP exchange is a parameter `send` from the built request to a
 * SendOutcome: either the request could not be built, or it failed in
 * transport, or a status code arrived together with what parsing the
 * response body as a PagedWorklogResponse gives (None when it does not parse).
 */
module WorklogApi {
  import opened Wrappers
  import opened Civil
  import opened Format

  // ------------------------------------------------------------ data

  datatype ApiError =
    | InvalidBaseUrl(baseUrl: string)
    | Unauthorized
    | NotFound(kind: string, name: string)
    | SerializationError
    | UnknownError

  datatype AuthorResponse = AuthorResponse(displayName: string)

  datatype WorklogResponse = WorklogResponse(author: AuthorResponse, comment: Option<string>, timeSpent: string)

  datatype PagedWorklogResponse = PagedWorklogResponse(worklogs: seq<WorklogResponse>)

  /** Parameters of a list request: the issue and optional bounds on the worklogs' start. */
  datatype ViewWorklogDto = ViewWorklogDto(issue: string, from: Option<DateTime>, until: Option<DateTime>)

  datatype CreateWorklogDto = CreateWorklogDto(issue: string, comment: Option<string>, timeSpent: string, started: Date)

  /** The JSON body of a create request: `comment`, `timeSpent`, `started`. */
  datatype WorklogAddBody = WorklogAddBody(comment: Option<string>, timeSpent: string, started: string)

  datatype Authorization =
    | ApiToken(username: string, apiToken: string)
    | AccessToken(accessToken: string)

  /**
   * How a request is authenticated: reqwest's `basic_auth(user, password)`
   * (its Base64 encoding is not modelled) or one extra header.
   */
  datatype AuthMechanism =
    | BasicAuth(username: string, password: Option<string>)
    | HeaderAuth(name: string, value: string)

  datatype Method = Get | Post

  /** HTTP status codes as reqwest's StatusCode holds them. */
  type StatusCode = s: int | 100 <= s <= 999 witness 200

  predicate IsSuccess(s: StatusCode) {
    200 <= s <= 299
  }

  /** What reqwest's builder chain has accumulated when `send` is called. */
  datatype RequestBuilder = RequestBuilder(
    httpMethod: Method,
    url: string,
    headers: seq<(string, string)>,
    query: map<string, string>,
    body: Option<WorklogAddBody>,
    auth: seq<AuthMechanism>)

  datatype SendOutcome =
    | BuilderError
    | TransportError
    | Received(status: StatusCode, body: Option<PagedWorklogResponse>)

  /** The client: the Jira domain every request is addressed to (the HTTP client itself is `send`). */
  datatype WorklogApi = WorklogApi(domain: string)

  const StartedAfter: string := "startedAfter"
  const StartedBefore: string := "startedBefore"
  const UrlPrefix: string := "/rest/api/2/issue/"
  const UrlSuffix: string := "/worklog"

  // ------------------------------------------------------------ request building

  /** `{domain}/rest/api/2/issue/{issue}/worklog`, the address of both operations. */
  function WorklogUrl(domain: string, issue: string): (url: string)
    ensures |url| == |domain| + |UrlPrefix| + |issue| + |UrlSuffix|
    ensures url[..|domain|] == domain
    ensures url[|domain|..|domain| + |UrlPrefix|] == UrlPrefix
    ensures url[|domain| + |UrlPrefix|..|url| - |UrlSuffix|] == issue
    ensures url[|url| - |UrlSuffix|..] == UrlSuffix
  {
    domain + UrlPrefix + issue + UrlSuffix
  }

  /** Reads the issue back out of a worklog URL of a known domain. */
  function IssueOfUrl(domain: string, url: string): string
    requires |url| >= |domain| + |UrlPrefix| + |UrlSuffix|
  {
    url[|domain| + |UrlPrefix|..|url| - |UrlSuffix|]
  }

  function NewRequest(httpMethod: Method, url: string): RequestBuilder {
    RequestBuilder(httpMethod, url, [], map[], None, [])
  }

  function Mechanism(authorization: Authorization): AuthMechanism {
    match authorization
    case ApiToken(username, apiToken) => BasicAuth(username, Some(apiToken))
    case AccessToken(accessToken) => HeaderAuth("Authorization", "Bearer " + accessToken)
  }

  /** Recovers the credentials from the mechanism that `Authorize` attaches. */
  function AuthorizationOf(m: AuthMechanism): Option<Authorization> {
    match m
    case BasicAuth(username, Some(password)) => Some(ApiToken(username, password))
    case BasicAuth(_, None) => None
    case HeaderAuth(name, value) =>
      if name == "Authorization" && |value| >= 7 && value[..7] == "Bearer "
      then Some(AccessToken(value[7..]))
      else None
  }

  /** `Authorize::authorize`: attaches exactly one authentication mechanism and changes nothing else. */
  function Authorize(b: RequestBuilder, authorization: Authorization): (r: RequestBuilder)
    ensures r.httpMethod == b.httpMethod && r.url == b.url && r.headers == b.headers
    ensures r.query == b.query && r.body == b.body
    ensures |r.auth| == |b.auth| + 1 && r.auth[..|b.auth|] == b.auth
    ensures authorization.ApiToken? ==>
      r.auth[|b.auth|] == BasicAuth(authorization.username, Some(authorization.apiToken))
    ensures authorization.AccessToken? ==>
      r.auth[|b.auth|] == HeaderAuth("Authorization", "Bearer " + authorization.accessToken)
  {
    b.(auth := b.auth + [Mechanism(authorization)])
  }

  function Header(b: RequestBuilder, name: string, value: string): RequestBuilder {
    b.(headers := b.headers + [(name, value)])
  }

  predicate HasHeader(b: RequestBuilder, name: string) {
    exists i :: 0 <= i < |b.headers| && b.headers[i].0 == name
  }

  /** reqwest's `json`: sets the body and adds a JSON Content-Type only when none is present. */
  function Json(b: RequestBuilder, body: WorklogAddBody): RequestBuilder {
    var withBody := b.(body := Some(body));
    if HasHeader(b, "Content-Type") then withBody
    else Header(withBody, "Content-Type", "application/json")
  }

  /** `From<CreateWorklogDto> for WorklogAddBody`. */
  function ToAddBody(dto: CreateWorklogDto): (body: WorklogAddBody)
    ensures body.comment == dto.comment && body.timeSpent == dto.timeSpent
    ensures body.started == FormatDate(dto.started) + "T12:00:00.000+0000"
  {
    FormatIsoMillisAtNoon(dto.started);
    WorklogAddBody(dto.comment, dto.timeSpent, FormatIsoMillis(AndHms(dto.started, 12, 0, 0)))
  }

  /**
   * The request `create_worklog` sends: a POST to the worklog URL with one
   * JSON Content-Type (reqwest's `json` adds none when one is set), the
   * converted body and one authentication mechanism.
   */
  function CreateRequest(api: WorklogApi, dto: CreateWorklogDto, authorization: Authorization): (r: RequestBuilder)
    ensures r.httpMethod == Post && r.url == WorklogUrl(api.domain, dto.issue)
    ensures r.headers == [("Content-Type", "application/json")]
    ensures r.query == map[]
    ensures r.body == Some(ToAddBody(dto))
    ensures r.auth == [Mechanism(authorization)]
  {
    var post := Header(NewRequest(Post, WorklogUrl(api.domain, dto.issue)), "Content-Type", "application/json");
    assert post.headers[0].0 == "Content-Type";
    Authorize(Json(post, ToAddBody(dto)), authorization)
  }

  // ------------------------------------------------------------ response classification

  /** The status check both operations share. */
  function CheckStatus(status: StatusCode, issue: string): (r: Result<(), ApiError>)
    ensures r.Success? <==> IsSuccess(status)
    ensures r == Failure(NotFound("issue", issue)) <==> status == 404
    ensures r == Failure(Unauthorized) <==> status == 401 || status == 403
    ensures r == Failure(UnknownError) <==> !IsSuccess(status) && status != 401 && status != 403 && status != 404
  {
    if IsSuccess(status) then Success(())
    else if status == 404 then Failure(NotFound("issue", issue))
    else if status == 401 || status == 403 then Failure(Unauthorized)
    else Failure(UnknownError)
  }

  /** The outcome of `worklogs`: transport errors, then the status, then the parsed body. */
  function ClassifyList(outcome: SendOutcome, domain: string, issue: string): Result<seq<WorklogResponse>, ApiError> {
    match outcome
    case BuilderError => Failure(InvalidBaseUrl(domain))
    case TransportError => Failure(UnknownError)
    case Received(status, body) =>
      match CheckStatus(status, issue)
      case Failure(e) => Failure(e)
      case Success(_) =>
        match body
        case None => Failure(SerializationError)
        case Some(paged) => Success(paged.worklogs)
  }

  /** The outcome of `create_worklog`: every transport error is unknown; no body is read. */
  function ClassifyCreate(outcome: SendOutcome, issue: string): Result<(), ApiError> {
    match outcome
    case BuilderError => Failure(UnknownError)
    case TransportError => Failure(UnknownError)
    case Received(status, _) => CheckStatus(status, issue)
  }

  // ------------------------------------------------------------ the operations

  /** `WorklogApi::worklogs`. */
  method Worklogs(api: WorklogApi, context: ViewWorklogDto, authorization: Authorization,
                  send: RequestBuilder -> SendOutcome)
    returns (request: RequestBuilder, result: Result<seq<WorklogResponse>, ApiError>)
    ensures request.httpMethod == Get && request.url == WorklogUrl(api.domain, context.issue)
    ensures request.headers == [] && request.body == None
    ensures request.auth == [Mechanism(authorization)]
    ensures StartedAfter in request.query <==> context.from.Some?
    ensures StartedBefore in request.query <==> context.until.Some?
    ensures forall k :: k in request.query ==> k == StartedAfter || k == StartedBefore
    ensures context.from.Some? ==> request.query[StartedAfter] == TimestampMillis(context.from.value)
    ensures context.until.Some? ==> request.query[StartedBefore] == TimestampMillis(context.until.value)
    ensures result == ClassifyList(send(request), api.domain, context.issue)
  {
    var url := WorklogUrl(api.domain, context.issue);
    var query: map<string, string> := map[];
    if context.from.Some? {
      query := query[StartedAfter := TimestampMillis(context.from.value)];
    }
    if context.until.Some? {
      query := query[StartedBefore := TimestampMillis(context.until.value)];
    }
    var authorized := Authorize(NewRequest(Get, url), authorization);
    request := authorized.(query := authorized.query + query);
    result := ClassifyList(send(request), api.domain, context.issue);
  }

  /**
   * `WorklogApi::create_worklog`: the result depends only on what `send`
   * returns for the create request, and no response body is read.
   */
  function CreateWorklog(api: WorklogApi, dto: CreateWorklogDto, authorization: Authorization,
                         send: RequestBuilder -> SendOutcome): (r: Result<(), ApiError>)
    ensures var outcome := send(CreateRequest(api, dto, authorization));
      r.Success? <==> outcome.Received? && IsSuccess(outcome.status)
    ensures var outcome := send(CreateRequest(api, dto, authorization));
      !outcome.Received? ==> r == Failure(UnknownError)
    ensures var outcome := send(CreateRequest(api, dto, authorization));
      outcome.Received? ==> r == CheckStatus(outcome.status, dto.issue)
  {
    ClassifyCreate(send(CreateRequest(api, dto, authorization)), dto.issue)
  }

  // ------------------------------------------------------------ lemmas

  /** The issue can be read back from the URL, so under one domain distinct issues have distinct URLs. */
  lemma WorklogUrlRoundTrip(domain: string, issue: string, other: string)
    ensures IssueOfUrl(domain, WorklogUrl(domain, issue)) == issue
    ensures WorklogUrl(domain, issue) == WorklogUrl(domain, other) ==> issue == other
  {
  }

  /** Authorization loses nothing: the credentials can be read back from the mechanism. */
  lemma MechanismRoundTrip(authorization: Authorization)
    ensures AuthorizationOf(Mechanism(authorization)) == Some(authorization)
  {
  }

  /** Listing: a builder failure is an invalid base URL naming the domain, nothing else is. */
  lemma ListInvalidBaseUrlExactly(outcome: SendOutcome, domain: string, issue: string, url: string)
    ensures ClassifyList(outcome, domain, issue) == Failure(InvalidBaseUrl(domain)) <==> outcome == BuilderError
    ensures ClassifyList(outcome, domain, issue) == Failure(InvalidBaseUrl(url)) ==> url == domain
  {
  }

  /** Listing: the body is parsed only after a 2xx, and only a failed parse is a serialization error. */
  lemma ListParsesOnlyAfterSuccess(status: StatusCode, body: Option<PagedWorklogResponse>, other: Option<PagedWorklogResponse>,
                                   domain: string, issue: string)
    ensures !IsSuccess(status) ==>
      ClassifyList(Received(status, body), domain, issue) == ClassifyList(Received(status, other), domain, issue)
    ensures ClassifyList(Received(status, body), domain, issue) == Failure(SerializationError)
        <==> IsSuccess(status) && body == None
  {
  }

  /** Listing: success yields exactly the page's worklogs, in server order, and only on 2xx with a parsed body. */
  lemma ListSuccessExactly(outcome: SendOutcome, domain: string, issue: string, logs: seq<WorklogResponse>)
    ensures ClassifyList(outcome, domain, issue) == Success(logs)
        <==> outcome.Received? && IsSuccess(outcome.status) && outcome.body == Some(PagedWorklogResponse(logs))
  {
  }

  /** Creating: every transport failure is an unknown error; creation never reports a bad base URL or a parse failure. */
  lemma CreateErrorKinds(outcome: SendOutcome, issue: string, url: string)
    ensures !outcome.Received? ==> ClassifyCreate(outcome, issue) == Failure(UnknownError)
    ensures ClassifyCreate(outcome, issue) != Failure(InvalidBaseUrl(url))
    ensures ClassifyCreate(outcome, issue) != Failure(SerializationError)
    ensures ClassifyCreate(outcome, issue).Success? <==> outcome.Received? && IsSuccess(outcome.status)
  {
  }

  /** Once a status has arrived, both operations report the same error for it. */
  lemma SharedStatusMapping(status: StatusCode, body: Option<PagedWorklogResponse>, domain: string, issue: string)
    ensures ClassifyList(Received(status, body), domain, issue).Failure? && ClassifyList(Received(status, body), domain, issue).error != SerializationError
        <==> ClassifyCreate(Received(status, body), issue).Failure?
    ensures ClassifyCreate(Received(status, body), issue).Failure? ==>
      ClassifyList(Received(status, body), domain, issue) == Failure(ClassifyCreate(Received(status, body), issue).error)
  {
  }

  /** The two operations part ways only on a request that could not be built. */
  lemma BuilderErrorAsymmetry(domain: string, issue: string)
    ensures ClassifyList(BuilderError, domain, issue) == Failure(InvalidBaseUrl(domain))
    ensures ClassifyCreate(BuilderError, issue) == Failure(UnknownError)
    ensures ClassifyList(TransportError, domain, issue) == Failure(UnknownError)
    ensures ClassifyCreate(TransportError, issue) == Failure(UnknownError)
  {
  }

  /**
   * A server that answers every request with 401 makes both operations
   * report Unauthorized, whichever Authorization variant was used.
   */
  lemma UnauthorizedRegardlessOfAuthorization(api: WorklogApi, dto: CreateWorklogDto, send: RequestBuilder -> SendOutcome,
                                              issue: string)
    requires forall r :: send(r).Received? && send(r).status == 401
    ensures forall a :: CreateWorklog(api, dto, a, send) == Failure(Unauthorized)
    ensures forall r :: ClassifyList(send(r), api.domain, issue) == Failure(Unauthorized)
  {
  }

  /** A 404 names the requested issue, for either operation. */
  lemma NotFoundNamesIssue(status: StatusCode, body: Option<PagedWorklogResponse>, domain: string, issue: string)
    requires status == 404
    ensures ClassifyList(Received(status, body), domain, issue) == Failure(NotFound("issue", issue))
    ensures ClassifyCreate(Received(status, body), issue) == Failure(NotFound("issue", issue))
  {
  }
}
