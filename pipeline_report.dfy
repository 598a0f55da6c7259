/**
 * The deploy report Lambda (LambdaFiles/PipelineReport/PipelineReport.py):
 * invoked by a CodePipeline job, it reads the pipeline's state, writes a
 * text report of every stage and action, appends a preview of the web
 * page the deploy serves, stores the report in S3, mails it through SNS
 * and tells CodePipeline how the job went. The AWS answers come in as a
 * value of `Aws`; the clock's text comes in as `now`.
 */
module PipelineReport {
  import opened Common
  import opened JsonValue
  import opened HubCommon

  // ---------------------------------------------------------------------
  // The pipeline state, as get_pipeline_state returns it

  /** A time stamp: its microseconds since the epoch (a datetime's precision) and its `%Y-%m-%d %H:%M:%S` text in UTC. */
  datatype Time = Time(micros: int, utcText: string)

  /** An action's latest execution; absent (or an empty dictionary) is None in `Action`. */
  datatype Execution = Execution(status: Option<string>, summary: Option<string>,
                                 lastStatusChange: Option<Time>, externalExecutionUrl: Option<string>)

  datatype Action = Action(actionName: Option<string>, latestExecution: Option<Execution>)

  /** A stage; `latestStatus` is None when the stage has no (or an empty) latestExecution, and inside holds its status. */
  datatype Stage = Stage(stageName: Option<string>, latestStatus: Option<Option<string>>, actionStates: seq<Action>)

  datatype State = State(pipelineName: Option<string>, pipelineVersion: Option<string>, stageStates: seq<Stage>,
                         created: Option<Time>, updated: Option<Time>)

  /** `d.get(key, default)` for a text field. */
  function Or(v: Option<string>, default: string): string {
    if v.Some? then v.value else default
  }

  function Rule(c: char): (line: string)
    ensures |line| == 60 && forall k :: 0 <= k < 60 ==> line[k] == c
  {
    seq(60, _ => c)
  }

  // ---------------------------------------------------------------------
  // The overall status

  /** The status of the last stage that has a latest execution, or 'N/A'. */
  function OverallStatus(stages: seq<Stage>): string
    decreases |stages|
  {
    if |stages| == 0 then "N/A"
    else if stages[|stages| - 1].latestStatus.Some? then Or(stages[|stages| - 1].latestStatus.value, "N/A")
    else OverallStatus(stages[..|stages| - 1])
  }

  /** The overall status is the one of stage `k` when `k` is the last stage with an execution. */
  lemma {:induction false} OverallStatusOfLast(stages: seq<Stage>, k: nat)
    requires k < |stages| && stages[k].latestStatus.Some?
    requires forall i :: k < i < |stages| ==> stages[i].latestStatus.None?
    ensures OverallStatus(stages) == Or(stages[k].latestStatus.value, "N/A")
    decreases |stages|
  {
    if k < |stages| - 1 {
      var front := stages[..|stages| - 1];
      assert forall i :: k < i < |front| ==> front[i] == stages[i];
      OverallStatusOfLast(front, k);
    }
  }

  /** Without any stage execution the overall status is 'N/A'. */
  lemma {:induction false} OverallStatusWithoutExecutions(stages: seq<Stage>)
    requires forall i :: 0 <= i < |stages| ==> stages[i].latestStatus.None?
    ensures OverallStatus(stages) == "N/A"
    decreases |stages|
  {
    if |stages| > 0 {
      var front := stages[..|stages| - 1];
      assert forall i :: 0 <= i < |front| ==> front[i] == stages[i];
      OverallStatusWithoutExecutions(front);
    }
  }

  // ---------------------------------------------------------------------
  // The report lines

  /**
   * The duration: `divmod` of the difference's `total_seconds()` by 60 floors
   * the minutes, and `int()` truncates the non-negative remainder to whole
   * seconds, so a sub-second part of the difference is dropped, not rounded.
   */
  function Duration(created: Time, updated: Time): (d: (int, int))
    ensures 0 <= d.1 < 60
    ensures d.0 * 60_000_000 + d.1 * 1_000_000 <= updated.micros - created.micros
    ensures updated.micros - created.micros < d.0 * 60_000_000 + (d.1 + 1) * 1_000_000
  {
    var total := updated.micros - created.micros;
    (total / 60_000_000, (total % 60_000_000) / 1_000_000)
  }

  /** Created at 10.9 s and updated at 70.1 s: 59.2 seconds, reported as 0 minutes and 59 seconds. */
  lemma DurationDropsFraction()
    ensures Duration(Time(10_900_000, ""), Time(70_100_000, "")) == (0, 59)
  {
  }

  /** The split is unique: any minutes and seconds that bracket the difference as Duration's are Duration's. */
  lemma DurationUnique(created: Time, updated: Time, minutes: int, seconds: int)
    requires 0 <= seconds < 60
    requires minutes * 60_000_000 + seconds * 1_000_000 <= updated.micros - created.micros
    requires updated.micros - created.micros < minutes * 60_000_000 + (seconds + 1) * 1_000_000
    ensures Duration(created, updated) == (minutes, seconds)
  {
    var d := Duration(created, updated);
    var a := minutes * 60 + seconds;
    var b := d.0 * 60 + d.1;
    assert a * 1_000_000 <= updated.micros - created.micros < (a + 1) * 1_000_000;
    assert b * 1_000_000 <= updated.micros - created.micros < (b + 1) * 1_000_000;
    assert a == b;
  }

  /** The header: the title, name and version, overall status and, when both times are known, the timing. */
  function HeaderLines(state: State): (lines: seq<string>)
    ensures |lines| == (if state.created.Some? && state.updated.Some? then 8 else 5)
    ensures lines[4] == "Status Geral: " + OverallStatus(state.stageStates)
  {
    var head := [Rule('='), "        Relatório de Execução do AWS CodePipeline", Rule('='),
                 "\nPipeline: " + Or(state.pipelineName, "N/A") + " (Versão: " + Or(state.pipelineVersion, "N/A") + ")",
                 "Status Geral: " + OverallStatus(state.stageStates)];
    if state.created.Some? && state.updated.Some? then
      var (minutes, seconds) := Duration(state.created.value, state.updated.value);
      head + ["Início da Execução: " + state.created.value.utcText + " (UTC)",
              "Última Atualização: " + state.updated.value.utcText + " (UTC)",
              "Duração Total: " + IntToString(minutes) + " minutos e " + IntToString(seconds) + " segundos\n"]
    else head
  }

  const Unavailable := "    - Status: Informação não disponível nesta execução."

  /**
   * One action: its name, then status and summary (with their defaults),
   * the time and the link when present; an action without an execution
   * says that no information is available. A blank line closes it.
   */
  function ActionLines(action: Action): (lines: seq<string>)
    ensures 3 <= |lines| <= 6
    ensures lines[0] == "  - Ação: " + Or(action.actionName, "Ação Desconhecida") && lines[|lines| - 1] == ""
    ensures action.latestExecution.None? ==> lines == [lines[0], Unavailable, ""]
    ensures action.latestExecution.Some? ==> 4 <= |lines|
    ensures action.latestExecution.Some? ==> lines[1] == "    - Status: " + Or(action.latestExecution.value.status, "N/A")
    ensures action.latestExecution.Some? ==> lines[2] == "    - Sumário: " + Or(action.latestExecution.value.summary, "Sem sumário.")
  {
    var head := "  - Ação: " + Or(action.actionName, "Ação Desconhecida");
    match action.latestExecution
    case None => [head, Unavailable, ""]
    case Some(e) =>
      var time := if e.lastStatusChange.Some? then ["    - Horário: " + e.lastStatusChange.value.utcText + " (UTC)"] else [];
      var link := if e.externalExecutionUrl.Some? && e.externalExecutionUrl.value != "" then
                    ["    - Link para Detalhes: " + e.externalExecutionUrl.value] else [];
      [head, "    - Status: " + Or(e.status, "N/A"), "    - Sumário: " + Or(e.summary, "Sem sumário.")] + time + link + [""]
  }

  /** The head of one stage: its name between two rules. */
  function StageHead(stage: Stage): seq<string> {
    [Rule('-'), "▶ Estágio: " + Or(stage.stageName, "Estágio Desconhecido"), Rule('-')]
  }

  /** The lines of a list of actions, in order. */
  function ActionsLines(actions: seq<Action>): seq<string>
    decreases |actions|
  {
    if |actions| == 0 then [] else ActionsLines(actions[..|actions| - 1]) + ActionLines(actions[|actions| - 1])
  }

  /** One stage: its head, then its actions. */
  function StageLines(stage: Stage): seq<string> {
    StageHead(stage) + ActionsLines(stage.actionStates)
  }

  /** The lines of a list of stages, in order. */
  function StagesLines(stages: seq<Stage>): seq<string>
    decreases |stages|
  {
    if |stages| == 0 then [] else StagesLines(stages[..|stages| - 1]) + StageLines(stages[|stages| - 1])
  }

  function ReportLines(state: State): seq<string> {
    HeaderLines(state) + StagesLines(state.stageStates)
  }

  /** The report text: the report lines joined with newlines. */
  function ReportText(state: State): string {
    Join(ReportLines(state), "\n")
  }

  /** Every line of action `j` appears among the lines of its list. */
  lemma {:induction false} ActionLinesListed(actions: seq<Action>, j: nat)
    requires j < |actions|
    ensures forall line :: line in ActionLines(actions[j]) ==> line in ActionsLines(actions)
    decreases |actions|
  {
    if j < |actions| - 1 {
      var front := actions[..|actions| - 1];
      assert front[j] == actions[j];
      ActionLinesListed(front, j);
    }
  }

  /** Every line of stage `i` appears among the lines of the stage list. */
  lemma {:induction false} StageLinesListed(stages: seq<Stage>, i: nat)
    requires i < |stages|
    ensures forall line :: line in ActionsLines(stages[i].actionStates) ==> line in StagesLines(stages)
    decreases |stages|
  {
    if i < |stages| - 1 {
      var front := stages[..|stages| - 1];
      assert front[i] == stages[i];
      StageLinesListed(front, i);
    }
  }

  /** An action of any stage that has no latest execution is reported as without information. */
  lemma UnavailableReported(state: State, i: nat, j: nat)
    requires i < |state.stageStates| && j < |state.stageStates[i].actionStates|
    requires state.stageStates[i].actionStates[j].latestExecution.None?
    ensures Unavailable in ReportLines(state)
  {
    var actions := state.stageStates[i].actionStates;
    ActionLinesListed(actions, j);
    assert Unavailable in ActionLines(actions[j]);
    StageLinesListed(state.stageStates, i);
  }

  /** The overall-status search: backwards over the stages, stopping at the first with an execution. */
  method FindOverallStatus(stages: seq<Stage>) returns (overall: string)
    ensures overall == OverallStatus(stages)
  {
    overall := "N/A";
    var i := |stages|;
    while i > 0
      invariant 0 <= i <= |stages|
      invariant forall k :: i <= k < |stages| ==> stages[k].latestStatus.None?
      decreases i
    {
      if stages[i - 1].latestStatus.Some? {
        overall := Or(stages[i - 1].latestStatus.value, "N/A");
        OverallStatusOfLast(stages, i - 1);
        return;
      }
      i := i - 1;
    }
    OverallStatusWithoutExecutions(stages);
  }

  /** The inner loop: the lines of each action appended in turn. */
  method AppendActions(lines: seq<string>, actions: seq<Action>) returns (out: seq<string>)
    ensures out == lines + ActionsLines(actions)
  {
    out := lines;
    for a := 0 to |actions|
      invariant out == lines + ActionsLines(actions[..a])
    {
      assert actions[..a + 1][..a] == actions[..a];
      assert ActionsLines(actions[..a + 1]) == ActionsLines(actions[..a]) + ActionLines(actions[a]);
      AppendAssoc(lines, ActionsLines(actions[..a]), ActionLines(actions[a]));
      out := out + ActionLines(actions[a]);
    }
    assert actions[..|actions|] == actions;
  }

  /** One pass of the outer loop: the stage's head, then its actions. */
  method AppendStage(lines: seq<string>, stage: Stage) returns (out: seq<string>)
    ensures out == lines + StageLines(stage)
  {
    out := AppendActions(lines + StageHead(stage), stage.actionStates);
    AppendAssoc(lines, StageHead(stage), ActionsLines(stage.actionStates));
  }

  /** The outer loop: each stage's lines appended in turn. */
  method AppendStages(lines: seq<string>, stages: seq<Stage>) returns (out: seq<string>)
    ensures out == lines + StagesLines(stages)
  {
    out := lines;
    for s := 0 to |stages|
      invariant out == lines + StagesLines(stages[..s])
    {
      var stage := stages[s];
      assert stages[..s + 1][..s] == stages[..s];
      assert StagesLines(stages[..s + 1]) == StagesLines(stages[..s]) + StageLines(stage);
      AppendAssoc(lines, StagesLines(stages[..s]), StageLines(stage));
      out := AppendStage(out, stage);
    }
    assert stages[..|stages|] == stages;
  }

  /**
   * format_pipeline_report: the overall status by a backward search with
   * `break`, then the lines appended stage by stage and action by action,
   * joined with newlines.
   */
  method FormatReport(state: State) returns (report: string, overall: string, name: string)
    ensures overall == OverallStatus(state.stageStates)
    ensures report == ReportText(state)
    ensures name == Or(state.pipelineName, "N/A")
  {
    name := Or(state.pipelineName, "N/A");
    overall := FindOverallStatus(state.stageStates);
    var lines := AppendStages(HeaderLines(state), state.stageStates);
    report := Join(lines, "\n");
  }

  // ---------------------------------------------------------------------
  // The web server's domain

  /** A resource of the SSM document that names the web domain: a Route 53 zone with a non-empty Domain. */
  predicate IsZoneDomain(resource: Json) {
    resource.JObj? && Get(resource, "ResourceType") == Some(JStr("aws_route53_zone"))
    && Get(resource, "Domain").Some? && Truthy(Get(resource, "Domain").value)
  }

  const NoZone := "Recurso 'aws_route53_zone' com 'Domain' não encontrado no SSM."

  /**
   * The search of get_url_from_ssm: the Domain of the first zone; `.get`
   * raises on an entry that is not a dictionary; without a zone the
   * ValueError is raised.
   */
  function ZoneDomain(items: seq<Json>): (r: Result<Json>)
    ensures (forall k :: 0 <= k < |items| ==> items[k].JObj? && !IsZoneDomain(items[k])) ==> r == Err(NoZone)
    decreases |items|
  {
    if |items| == 0 then Err(NoZone)
    else if !items[0].JObj? then Err("'resource' has no attribute 'get'")
    else if IsZoneDomain(items[0]) then Ok(Get(items[0], "Domain").value)
    else
      assert forall k :: 0 <= k < |items[1..]| ==> items[1..][k] == items[k + 1];
      ZoneDomain(items[1..])
  }

  /** `ZoneDomain` on a suffix of checked entries is `ZoneDomain` of the whole list. */
  lemma {:induction false} ZoneDomainSkips(items: seq<Json>, i: nat)
    requires i <= |items|
    requires forall k :: 0 <= k < i ==> items[k].JObj? && !IsZoneDomain(items[k])
    ensures ZoneDomain(items) == ZoneDomain(items[i..])
    decreases i
  {
    if i > 0 {
      ZoneDomainSkips(items, i - 1);
      assert items[i - 1..][1..] == items[i..];
    }
  }

  /**
   * get_url_from_ssm over the decoded parameter, as the source's search
   * loop: the result is the Domain of the first zone, provided every entry
   * before it is a dictionary.
   */
  method DomainFrom(resources: Json) returns (r: Result<Json>)
    ensures r == ParameterDomain(resources)
    ensures r.Ok? <==> (resources.JArr? && exists k :: (0 <= k < |resources.items| && IsZoneDomain(resources.items[k])
      && forall i :: 0 <= i < k ==> resources.items[i].JObj?))
    ensures r.Ok? ==> (exists k :: (0 <= k < |resources.items| && IsZoneDomain(resources.items[k])
      && (forall i :: 0 <= i < k ==> !IsZoneDomain(resources.items[i])) && r.value == Get(resources.items[k], "Domain").value))
  {
    if !resources.JArr? {
      return Err("the parameter is not a list of resources");
    }
    var items := resources.items;
    var i := 0;
    while i < |items|
      invariant 0 <= i <= |items|
      invariant forall k :: 0 <= k < i ==> items[k].JObj? && !IsZoneDomain(items[k])
    {
      ZoneDomainSkips(items, i);
      if !items[i].JObj? {
        return Err("'resource' has no attribute 'get'");
      }
      if IsZoneDomain(items[i]) {
        r := Ok(Get(items[i], "Domain").value);
        assert IsZoneDomain(items[i]) && forall j :: 0 <= j < i ==> items[j].JObj? && !IsZoneDomain(items[j]);
        return;
      }
      i := i + 1;
    }
    ZoneDomainSkips(items, i);
    return Err(NoZone);
  }

  /** The domain of a parameter that does not decode to a list is never found. */
  function ParameterDomain(parameter: Json): (r: Result<Json>)
    ensures !parameter.JArr? ==> r.Err?
    ensures parameter.JArr? ==> r == ZoneDomain(parameter.items)
  {
    if parameter.JArr? then ZoneDomain(parameter.items) else Err("the parameter is not a list of resources")
  }

  // ---------------------------------------------------------------------
  // The final report

  /** The first 1000 characters of the page, and '...' exactly when it is longer. */
  function Preview(content: string): (p: string)
    ensures |content| <= 1000 ==> p == content
    ensures |content| > 1000 ==> |p| == 1003 && StartsWith(p, content[..1000]) && EndsWith(p, "...")
  {
    if |content| > 1000 then
      var p := content[..1000] + "...";
      assert p[..1000] == content[..1000];
      assert p[1000..] == "...";
      p
    else content
  }

  const PageOk := "Acesso com sucesso."
  const PageUnexpected := "Conteúdo inesperado ou erro."

  /** Success exactly when `<html>` occurs in the page, lower-cased. */
  function PageStatus(content: string): (s: string)
    ensures s == PageOk <==> Contains(Lower(content), "<html>")
    ensures s == PageOk || s == PageUnexpected
  {
    if Contains(Lower(content), "<html>") then PageOk else PageUnexpected
  }

  /** An upper-case `<HTML>` tag counts as well: the test ignores case. */
  lemma UpperTagAccepted(content: string, i: nat)
    requires OccursAt(content, "<HTML>", i)
    ensures PageStatus(content) == PageOk
  {
    var low := Lower(content);
    assert low[i..i + 6] == "<html>" by {
      forall k | 0 <= k < 6 ensures low[i..i + 6][k] == "<html>"[k] {
        assert content[i + k] == "<HTML>"[k];
      }
    }
    ContainsIff(low, "<html>");
    assert OccursAt(low, "<html>", i);
  }

  /** The report sent and stored: the pipeline report, then the web page's status and preview. */
  function FinalReport(pipelineReport: string, domain: string, content: string): string {
    pipelineReport + "\n" + Rule('=') + "\n" + "        Status da Aplicação em Produção\n" + Rule('=') + "\n\n"
    + "URL Acessada: https://" + domain + "\n" + "Status: " + PageStatus(content) + "\n"
    + "Conteúdo da Página (Prévia):\n" + Preview(content)
  }

  // ---------------------------------------------------------------------
  // The handler

  /**
   * The AWS side of one run: the pipeline state (None when the call
   * raises), the SSM parameter decoded (None when the call or json.loads
   * raises), the page text (fetch_url_content turns its own failure into
   * text), whether the S3 upload succeeded, the caller's account (None when
   * STS raises) and whether put_job_success_result succeeded.
   */
  datatype Aws = Aws(state: Option<State>, parameter: Option<Json>, page: string, uploaded: bool,
                     account: Option<string>, jobAcknowledged: bool)

  datatype Upload = Upload(bucket: string, key: string, body: string)

  /**
   * What the run did: the status code returned, whether CodePipeline was
   * told of a failure, the report stored, and the SNS subject and message
   * published (a publish failure is swallowed).
   */
  datatype Answer = Answer(statusCode: int, failureNotified: bool, upload: Option<Upload>, notice: Option<(string, string)>)

  const InvalidInvocation := "ERRO: Invocação inválida. O evento recebido não contém a chave 'CodePipeline.job'. "
    + "Esta função deve ser acionada por uma ação 'Invoke' do AWS CodePipeline. "
    + "Se estiver testando manualmente, configure um evento de teste com o formato do CodePipeline."

  /** `event['CodePipeline.job']['id']`, None when the lookup raises. */
  function JobId(event: Json): Option<Json> {
    match Get(event, "CodePipeline.job")
    case None => None
    case Some(job) => Get(job, "id")
  }

  /** The failure answer: CodePipeline hears of it only when a truthy job id was read. */
  function Failed(event: Json, upload: Option<Upload>, notice: Option<(string, string)>): (a: Answer)
    ensures a.statusCode == 500
    ensures a.failureNotified <==> JobId(event).Some? && Truthy(JobId(event).value)
  {
    Answer(500, JobId(event).Some? && Truthy(JobId(event).value), upload, notice)
  }

  /** The five variables the handler reads with `os.environ[...]`, which raises when one is unset. */
  predicate HasVariables(env: Env) {
    "REGION" in env && "AWS_CODEPIPELINE_TARGET_NAME_0" in env && "AWS_S3_BUCKET_TARGET_NAME_0" in env
    && "AWS_SSM_PARAMETER_SOURCE_ARN_0" in env && "AWS_SNS_TOPIC_TARGET_NAME_0" in env
  }

  /**
   * The `try` block of lambda_handler: the job id, the variables, the
   * pipeline state, the domain, the upload, the account and the success
   * notice, each failure caught and answered with 500.
   */
  function Run(event: Json, env: Env, aws: Aws, now: string): (a: Answer)
    ensures a.statusCode == 200 || a.statusCode == 500
    ensures a.failureNotified ==> a.statusCode == 500 && JobId(event).Some? && Truthy(JobId(event).value)
    ensures a.statusCode == 500 && JobId(event).Some? && Truthy(JobId(event).value) ==> a.failureNotified
    ensures a.statusCode == 200 ==> JobId(event).Some? && HasVariables(env) && aws.state.Some? && aws.parameter.Some?
    ensures a.statusCode == 200 ==> ParameterDomain(aws.parameter.value).Ok? && aws.uploaded && aws.account.Some? && aws.jobAcknowledged
    ensures a.statusCode == 200 ==>
      a.upload == Some(Upload(env["AWS_S3_BUCKET_TARGET_NAME_0"], "deploy-report-" + now + ".txt",
                              FinalReport(ReportText(aws.state.value), PyStr(ParameterDomain(aws.parameter.value).value), aws.page)))
  {
    if JobId(event).None? || !HasVariables(env) || aws.state.None? || aws.parameter.None? then Failed(event, None, None)
    else
      var state := aws.state.value;
      match ParameterDomain(aws.parameter.value)
      case Err(_) => Failed(event, None, None)
      case Ok(domain) =>
        if !aws.uploaded then Failed(event, None, None)
        else
          var report := FinalReport(ReportText(state), PyStr(domain), aws.page);
          var upload := Some(Upload(env["AWS_S3_BUCKET_TARGET_NAME_0"], "deploy-report-" + now + ".txt", report));
          if aws.account.None? then Failed(event, upload, None)
          else
            var subject := "Relatório de Deploy: Pipeline " + Or(state.pipelineName, "N/A") + " - Status: "
                           + OverallStatus(state.stageStates);
            if !aws.jobAcknowledged then Failed(event, upload, Some((subject, report)))
            else Answer(200, false, upload, Some((subject, report)))
  }

  /**
   * lambda_handler: an event without `CodePipeline.job` raises the
   * ValueError before the `try` (a scalar event raises the TypeError of the
   * `in` test); every other event is answered.
   */
  function Handle(event: Json, env: Env, aws: Aws, now: string): (r: Result<Answer>)
    ensures r.Err? <==> PyIn("CodePipeline.job", event) != Some(true)
    ensures PyIn("CodePipeline.job", event) == Some(false) ==> r == Err(InvalidInvocation)
    ensures r.Ok? ==> r.value == Run(event, env, aws, now)
  {
    match PyIn("CodePipeline.job", event)
    case None => Err("argument of type is not iterable")
    case Some(present) => if !present then Err(InvalidInvocation) else Ok(Run(event, env, aws, now))
  }

  /** The SNS topic the report goes to: the ARN built from the region, the caller's account and the topic name. */
  function ReportTopic(env: Env, account: string): (arn: string)
    requires "REGION" in env && "AWS_SNS_TOPIC_TARGET_NAME_0" in env
    ensures StartsWith(arn, "arn:aws:sns:" + env["REGION"] + ":" + account + ":")
    ensures Free(env["AWS_SNS_TOPIC_TARGET_NAME_0"], ':') ==> LastPart(arn, ":") == env["AWS_SNS_TOPIC_TARGET_NAME_0"]
  {
    var arn := SnsArn(Some(env["REGION"]), Some(account), env["AWS_SNS_TOPIC_TARGET_NAME_0"]);
    if Free(env["AWS_SNS_TOPIC_TARGET_NAME_0"], ':') then
      SnsArnName(Some(env["REGION"]), Some(account), env["AWS_SNS_TOPIC_TARGET_NAME_0"]);
      arn
    else arn
  }
}
