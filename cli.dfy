/**
 * The command side of src/main.rs: choosing a context from the
 * configuration, converting the configured credentials and the command
 * arguments into the client's DTOs, and the lines `view` prints.
 */
module Cli {
  import opened Wrappers
  import opened Civil
  import opened Format
  import Api = WorklogApi

  // ------------------------------------------------------------ configuration

  /** Credentials as the configuration file stores them. */
  datatype Authorization =
    | ApiToken(username: string, apiToken: string)
    | AccessToken(accessToken: string)

  /** A named bundle of tracker domain and credentials. */
  datatype Context = Context(name: Option<string>, authorization: Authorization, jiraDomain: string)

  datatype Config =
    | SingleContext(context: Context)
    | MultipleContexts(contexts: seq<Context>)

  datatype ReadConfigError =
    | NoContextNameGiven
    | ContextNotFound(name: string)

  /** `contexts.into_iter().find(|c| c.name == Some(name))`. */
  function FindContext(contexts: seq<Context>, name: string): (r: Option<Context>)
    ensures r.Some? ==> r.value in contexts && r.value.name == Some(name)
    ensures r.None? <==> forall i :: 0 <= i < |contexts| ==> contexts[i].name != Some(name)
  {
    if contexts == [] then None
    else if contexts[0].name == Some(name) then Some(contexts[0])
    else FindContext(contexts[1..], name)
  }

  /** The selection `read_config` makes once the configuration is loaded. */
  function SelectContext(config: Config, name: Option<string>): (r: Result<Context, ReadConfigError>)
    ensures config.SingleContext? ==> r == Success(config.context)
    ensures config.MultipleContexts? && name.None? ==> r == Failure(NoContextNameGiven)
    ensures config.MultipleContexts? && name.Some? && r.Success? ==>
      r.value in config.contexts && r.value.name == name
    ensures config.MultipleContexts? && name.Some? && r.Failure? ==>
      r == Failure(ContextNotFound(name.value))
  {
    match config
    case SingleContext(context) => Success(context)
    case MultipleContexts(contexts) =>
      match name
      case None => Failure(NoContextNameGiven)
      case Some(n) =>
        match FindContext(contexts, n)
        case Some(context) => Success(context)
        case None => Failure(ContextNotFound(n))
  }

  /** `From<Authorization> for worklog_api::Authorization`: same variant, same field values. */
  function ToApiAuthorization(a: Authorization): (r: Api.Authorization)
    ensures r.ApiToken? <==> a.ApiToken?
    ensures a.ApiToken? ==> r.username == a.username && r.apiToken == a.apiToken
    ensures a.AccessToken? ==> r.accessToken == a.accessToken
  {
    match a
    case ApiToken(username, apiToken) => Api.ApiToken(username, apiToken)
    case AccessToken(accessToken) => Api.AccessToken(accessToken)
  }

  // ------------------------------------------------------------ view

  datatype ViewContext = ViewContext(date: Date, issue: string)

  /** `From<ViewContext> for ViewWorklogDto`: the whole UTC day of the date, 00:00:00 to 23:59:59. */
  function ToViewDto(context: ViewContext): (dto: Api.ViewWorklogDto)
    ensures dto.issue == context.issue && dto.from.Some? && dto.until.Some?
    ensures dto.from.value.date == context.date && dto.until.value.date == context.date
    ensures EpochSeconds(dto.from.value) == DaysFromCivil(context.date) * 86400
    ensures EpochSeconds(dto.until.value) == EpochSeconds(dto.from.value) + 86399
  {
    Api.ViewWorklogDto(context.issue, Some(AndHms(context.date, 0, 0, 0)), Some(AndHms(context.date, 23, 59, 59)))
  }

  /** `log.comment().unwrap_or("`no comment`")`. */
  function CommentText(comment: Option<string>): string {
    match comment
    case Some(c) => c
    case None => "`no comment`"
  }

  /** One line of `view` output: `> {issue} <{display name}> `{time spent}` {comment}`. */
  function LogLine(issue: string, log: Api.WorklogResponse): string {
    "> " + issue + " <" + log.author.displayName + "> `" + log.timeSpent + "` " + CommentText(log.comment)
  }

  /** The loop of `view_worklog`: one line per worklog, in the order received. */
  method ViewLines(issue: string, logs: seq<Api.WorklogResponse>) returns (lines: seq<string>)
    ensures |lines| == |logs|
    ensures forall i :: 0 <= i < |logs| ==> lines[i] == LogLine(issue, logs[i])
  {
    lines := [];
    for i := 0 to |logs|
      invariant |lines| == i
      invariant forall j :: 0 <= j < i ==> lines[j] == LogLine(issue, logs[j])
    {
      lines := lines + [LogLine(issue, logs[i])];
    }
  }

  /**
   * `view_worklog`: lists the worklogs of the context's day and renders them.
   * Returns the request sent and either the printed lines or the client's error.
   */
  method ViewWorklog(config: Context, context: ViewContext, send: Api.RequestBuilder -> Api.SendOutcome)
    returns (request: Api.RequestBuilder, output: Result<seq<string>, Api.ApiError>)
    ensures request.httpMethod == Api.Get && request.url == Api.WorklogUrl(config.jiraDomain, context.issue)
    ensures request.headers == [] && request.body == None
    ensures request.auth == [Api.Mechanism(ToApiAuthorization(config.authorization))]
    ensures request.query.Keys == {Api.StartedAfter, Api.StartedBefore}
    ensures request.query[Api.StartedAfter] == TimestampMillis(AndHms(context.date, 0, 0, 0))
    ensures request.query[Api.StartedBefore] == TimestampMillis(AndHms(context.date, 23, 59, 59))
    ensures Api.ClassifyList(send(request), config.jiraDomain, context.issue).Failure? ==>
      output == Failure(Api.ClassifyList(send(request), config.jiraDomain, context.issue).error)
    ensures Api.ClassifyList(send(request), config.jiraDomain, context.issue).Success? ==>
      var logs := Api.ClassifyList(send(request), config.jiraDomain, context.issue).value;
      output.Success? && |output.value| == |logs| &&
      forall i :: 0 <= i < |logs| ==> output.value[i] == LogLine(context.issue, logs[i])
  {
    var api := Api.WorklogApi(config.jiraDomain);
    var result;
    request, result := Api.Worklogs(api, ToViewDto(context), ToApiAuthorization(config.authorization), send);
    match result {
      case Failure(e) =>
        output := Failure(e);
      case Success(logs) =>
        var lines := ViewLines(context.issue, logs);
        output := Success(lines);
    }
  }

  // ------------------------------------------------------------ add

  datatype AddContext = AddContext(date: Date, issue: string, comment: Option<string>, timeSpend: string)

  /** `From<AddContext> for CreateWorklogDto`: every field copied unchanged. */
  function ToCreateDto(context: AddContext): (dto: Api.CreateWorklogDto)
    ensures dto.issue == context.issue && dto.comment == context.comment
    ensures dto.timeSpent == context.timeSpend && dto.started == context.date
  {
    Api.CreateWorklogDto(context.issue, context.comment, context.timeSpend, context.date)
  }

  /**
   * The request `add_worklog` sends: the create request for the context's
   * domain and credentials, carrying the arguments unchanged and the date at noon.
   */
  function AddRequest(config: Context, context: AddContext): (r: Api.RequestBuilder)
    ensures r.httpMethod == Api.Post && r.url == Api.WorklogUrl(config.jiraDomain, context.issue)
    ensures r.body.Some? && r.body.value.comment == context.comment && r.body.value.timeSpent == context.timeSpend
    ensures r.body.value.started == FormatDate(context.date) + "T12:00:00.000+0000"
    ensures r.auth == [Api.Mechanism(ToApiAuthorization(config.authorization))]
  {
    Api.CreateRequest(Api.WorklogApi(config.jiraDomain), ToCreateDto(context), ToApiAuthorization(config.authorization))
  }

  /**
   * `add_worklog`: creates the worklog through the context's domain and
   * credentials; its result is the create classification of what the
   * server answers to exactly AddRequest.
   */
  function AddWorklog(config: Context, context: AddContext, send: Api.RequestBuilder -> Api.SendOutcome): (r: Result<(), Api.ApiError>)
    ensures r == Api.ClassifyCreate(send(AddRequest(config, context)), context.issue)
    ensures r.Success? <==> send(AddRequest(config, context)).Received? && Api.IsSuccess(send(AddRequest(config, context)).status)
  {
    Api.CreateWorklog(Api.WorklogApi(config.jiraDomain), ToCreateDto(context), ToApiAuthorization(config.authorization), send)
  }

  // ------------------------------------------------------------ lemmas

  /** `find` picks the first context in list order that carries the name. */
  lemma {:induction false} FindContextIsFirst(contexts: seq<Context>, name: string, i: nat)
    requires i < |contexts| && contexts[i].name == Some(name)
    requires forall j :: 0 <= j < i ==> contexts[j].name != Some(name)
    ensures FindContext(contexts, name) == Some(contexts[i])
  {
    if i > 0 {
      FindContextIsFirst(contexts[1..], name, i - 1);
    }
  }

  /** A single-context configuration yields its context whatever name is passed. */
  lemma SingleContextIgnoresName(context: Context, name: Option<string>, other: Option<string>)
    ensures SelectContext(SingleContext(context), name) == SelectContext(SingleContext(context), other)
    ensures SelectContext(SingleContext(context), name) == Success(context)
  {
  }

  /** A missing name is reported before the list is looked at, even when the list is empty. */
  lemma NoNameWithManyContexts(contexts: seq<Context>)
    ensures SelectContext(MultipleContexts(contexts), None) == Failure(NoContextNameGiven)
  {
  }

  /** With a name, the configuration selection returns the first listed context carrying it. */
  lemma SelectContextIsFirst(contexts: seq<Context>, name: string, i: nat)
    requires i < |contexts| && contexts[i].name == Some(name)
    requires forall j :: 0 <= j < i ==> contexts[j].name != Some(name)
    ensures SelectContext(MultipleContexts(contexts), Some(name)) == Success(contexts[i])
  {
    FindContextIsFirst(contexts, name, i);
  }

  /** ContextNotFound carries exactly the requested name, and is returned exactly when no context has it. */
  lemma ContextNotFoundExactly(contexts: seq<Context>, name: string, reported: string)
    ensures SelectContext(MultipleContexts(contexts), Some(name)) == Failure(ContextNotFound(reported))
        <==> reported == name && forall i :: 0 <= i < |contexts| ==> contexts[i].name != Some(name)
  {
  }

  /** The configured credentials convert without loss: distinct credentials stay distinct. */
  lemma ToApiAuthorizationInjective(a: Authorization, b: Authorization)
    ensures ToApiAuthorization(a) == ToApiAuthorization(b) ==> a == b
  {
  }

  /** The day window contains exactly the instants of that calendar day. */
  lemma ViewWindowIsTheDay(context: ViewContext, t: DateTime)
    ensures var dto := ToViewDto(context);
      (EpochSeconds(dto.from.value) <= EpochSeconds(t) <= EpochSeconds(dto.until.value)) <==> t.date == context.date
  {
    var d, e := context.date, t.date;
    if e != d {
      if e.year < d.year || (e.year == d.year && (e.month < d.month || (e.month == d.month && e.day < d.day))) {
        DaysFromCivilMonotone(e, d);
      } else {
        DaysFromCivilMonotone(d, e);
      }
    }
  }

  /** A line starts with the requested issue and ends with the comment, or with the `no comment` marker. */
  lemma LogLineEnds(issue: string, log: Api.WorklogResponse)
    ensures |LogLine(issue, log)| >= |issue| + 2 && LogLine(issue, log)[..|issue| + 2] == "> " + issue
    ensures log.comment.Some? ==>
      |LogLine(issue, log)| >= |log.comment.value| &&
      LogLine(issue, log)[|LogLine(issue, log)| - |log.comment.value|..] == log.comment.value
    ensures log.comment.None? ==>
      |LogLine(issue, log)| >= 12 && LogLine(issue, log)[|LogLine(issue, log)| - 12..] == "`no comment`"
  {
  }

  /** A worklog without a comment renders with the `no comment` marker. */
  lemma LogLineWithoutComment()
    ensures LogLine("ISSUE-1", Api.WorklogResponse(Api.AuthorResponse("Jane"), None, "2h"))
         == "> ISSUE-1 <Jane> `2h` `no comment`"
  {
  }
}
