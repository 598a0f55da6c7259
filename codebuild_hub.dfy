/**
 * The CodeBuild hub (CodeBuild/CodeBuildHub/CodeBuildHub.py): the event
 * comes from the EVENT variable, the source from the first record (API on
 * any lookup failure), then the shared chain of HubEvents without a
 * CodePipeline branch; the messages go out as `CodeBuild: ...`. Its SNS
 * topics fall back to the global account.
 */
module CodeBuildHub {
  import opened Common
  import opened JsonValue
  import opened HubCommon
  import opened HubEvents

  /**
   * The script's entry: EVENT unset or empty is `{}`; otherwise its JSON
   * decoding (`loads`, None when json.loads raises), or the raw text itself
   * when it does not decode.
   */
  function EventFromEnv(raw: Option<string>, loads: string -> Option<Json>): (event: Json)
    ensures (raw.None? || raw.value == "") ==> event == JObj([])
    ensures raw.Some? && raw.value != "" && loads(raw.value).Some? ==> event == loads(raw.value).value
    ensures raw.Some? && raw.value != "" && loads(raw.value).None? ==> event == JStr(raw.value)
  {
    if raw.None? || raw.value == "" then JObj([])
    else match loads(raw.value)
      case Some(j) => j
      case None => JStr(raw.value)
  }

  /** `event['Records'][0]['eventSource']`, or API when any of the lookups raises. */
  function InitialSource(event: Json): (r: Json)
    ensures RecordOf(event).Some? && Get(RecordOf(event).value, "eventSource").Some? ==>
      r == Get(RecordOf(event).value, "eventSource").value
    ensures RecordOf(event).None? || Get(RecordOf(event).value, "eventSource").None? ==> r == JStr("API")
  {
    match RecordOf(event)
    case None => JStr("API")
    case Some(record) =>
      match Get(record, "eventSource")
      case None => JStr("API")
      case Some(source) => source
  }

  /** main: `name` is `os.getenv("Name")`; there is no CodePipeline branch and no CodePipeline answer. */
  function Handle(event: Json, name: Option<string>, now: string, objectText: string): (r: Result<Handled>)
    ensures r == LegacyHandle(event, InitialSource(event), false, true, "CodeBuild", Shown(name), now, objectText, "")
    ensures r.Ok? ==> r.value.artifact.None? && !r.value.reply.PipelineReply?
  {
    LegacyHandle(event, InitialSource(event), false, true, "CodeBuild", Shown(name), now, objectText, "")
  }

  /**
   * An event that is not a dictionary with records, source and message (an
   * EVENT text that did not decode, say) is an API call whose message is
   * str(event), answered with the outgoing message.
   */
  lemma PlainEventAnswered(event: Json, name: Option<string>, now: string, objectText: string)
    requires !event.JObj?
    requires PyIn("requestContext", event) != None
    ensures Handle(event, name, now, objectText).Err? <==> PyIn("requestContext", event) == Some(true)
    ensures PyIn("requestContext", event) == Some(false) ==>
      Handle(event, name, now, objectText)
      == Ok(Handled(JStr("API"), NewMessage("CodeBuild", Shown(name), "API", now, PyStr(event)),
                    TextReply(NewMessage("CodeBuild", Shown(name), "API", now, PyStr(event))), None))
  {
    assert InitialSource(event) == JStr("API");
    var x := ApiExtract(event);
    assert x == Extracted(JStr("API"), JStr(PyStr(event)), "Event from API");
    if PyIn("requestContext", event) == Some(false) {
      assert BranchOf(event, JStr("API"), false) == Ok(ApiBranch);
      assert Extract(event, JStr("API"), false, true, objectText) == Ok(x);
    } else {
      assert BranchOf(event, JStr("API"), false).Err?;
    }
  }

  /** An API event without source and message uses str(event) and the API source. */
  lemma ApiWithoutSourceUsesEvent(event: Json)
    requires Get(event, "source").None? || Get(event, "message").None?
    ensures ApiExtract(event) == Extracted(JStr("API"), JStr(PyStr(event)), "Event from API")
  {
  }

  /** `Account` when truthy, else the global `AccountID`. */
  function AccountOr(account: Option<string>, global: Option<string>): (r: Option<string>)
    ensures account.Some? && account.value != "" ==> r == account
    ensures account.None? || account.value == "" ==> r == global
  {
    if account.Some? && account.value != "" then account else global
  }

  /**
   * The SNS loop: like the first hub's, but an unset or empty per-target
   * account is replaced by the global one before the ARN is built.
   */
  method ScanTopics(env: Env, nameVar: string, regionVar: string, accountVar: string, global: Option<string>)
    returns (targets: seq<Target>)
    ensures forall j :: 0 <= j < |targets| ==> IndexedName(nameVar, j) in env
    ensures IndexedName(nameVar, |targets|) !in env
    ensures forall j :: 0 <= j < |targets| ==>
      targets[j] == TargetOf(env[IndexedName(nameVar, j)],
                             Getenv(env, IndexedName(regionVar, j)),
                             AccountOr(Getenv(env, IndexedName(accountVar, j)), global), true)
  {
    var names := [nameVar];
    var found := Scan(env, names, [regionVar, accountVar], false);
    var all := names + [regionVar, accountVar];
    assert all[0] == nameVar && all[1] == regionVar && all[2] == accountVar;
    ListedOne(env, nameVar, |found|);
    targets := [];
    var j := 0;
    while j < |found|
      invariant 0 <= j <= |found| && |targets| == j
      invariant forall k :: 0 <= k < j ==>
        IndexedName(nameVar, k) in env &&
        targets[k] == TargetOf(env[IndexedName(nameVar, k)],
                               Getenv(env, IndexedName(regionVar, k)),
                               AccountOr(Getenv(env, IndexedName(accountVar, k)), global), true)
    {
      ListedOne(env, nameVar, j);
      var read := found[j];
      assert read == ReadAt(env, all, j);
      assert read[0] == Getenv(env, IndexedName(all[0], j));
      assert read[1] == Getenv(env, IndexedName(all[1], j));
      assert read[2] == Getenv(env, IndexedName(all[2], j));
      ghost var before := targets;
      targets := targets + [TargetOf(read[0].value, read[1], AccountOr(read[2], global), true)];
      forall k | 0 <= k < j + 1
        ensures IndexedName(nameVar, k) in env &&
          targets[k] == TargetOf(env[IndexedName(nameVar, k)],
                                 Getenv(env, IndexedName(regionVar, k)),
                                 AccountOr(Getenv(env, IndexedName(accountVar, k)), global), true)
      {
        if k < j { assert targets[k] == before[k]; }
      }
      j := j + 1;
    }
  }

  /** The topics `aws_sns_topic_Target_*`, with `Account` as the global account. */
  method SnsTargets(env: Env) returns (targets: seq<Target>)
    ensures forall j :: 0 <= j < |targets| ==>
      targets[j].address == SnsArn(Getenv(env, IndexedName("aws_sns_topic_Target_Region_", j)),
        AccountOr(Getenv(env, IndexedName("aws_sns_topic_Target_Account_", j)), Getenv(env, "Account")), targets[j].name)
    ensures forall j :: 0 <= j < |targets| ==> Getenv(env, IndexedName("aws_sns_topic_Target_Name_", j)) == Some(targets[j].name)
    ensures IndexedName("aws_sns_topic_Target_Name_", |targets|) !in env
  {
    targets := ScanTopics(env, "aws_sns_topic_Target_Name_", "aws_sns_topic_Target_Region_", "aws_sns_topic_Target_Account_",
                          Getenv(env, "Account"));
  }

  /**
   * The SQS loop: the queue URL is read as it is from
   * `aws_sqs_queue_Target_URL_{i}` (None when unset), not built.
   */
  method SqsTargets(env: Env) returns (names: seq<string>, urls: seq<Option<string>>)
    ensures |names| == |urls|
    ensures forall j :: 0 <= j < |names| ==> Getenv(env, IndexedName("aws_sqs_queue_Target_Name_", j)) == Some(names[j])
    ensures forall j :: 0 <= j < |urls| ==> urls[j] == Getenv(env, IndexedName("aws_sqs_queue_Target_URL_", j))
    ensures IndexedName("aws_sqs_queue_Target_Name_", |names|) !in env
  {
    var required := ["aws_sqs_queue_Target_Name_"];
    var all := required + ["aws_sqs_queue_Target_Region_", "aws_sqs_queue_Target_URL_"];
    var found := Scan(env, required, ["aws_sqs_queue_Target_Region_", "aws_sqs_queue_Target_URL_"], false);
    ListedOne(env, "aws_sqs_queue_Target_Name_", |found|);
    names, urls := [], [];
    for j := 0 to |found|
      invariant |names| == j && |urls| == j
      invariant forall k :: 0 <= k < j ==> Getenv(env, IndexedName("aws_sqs_queue_Target_Name_", k)) == Some(names[k])
      invariant forall k :: 0 <= k < j ==> urls[k] == Getenv(env, IndexedName("aws_sqs_queue_Target_URL_", k))
    {
      ListedOne(env, "aws_sqs_queue_Target_Name_", j);
      var read := found[j];
      assert read == ReadAt(env, all, j);
      assert read[0] == Getenv(env, IndexedName(all[0], j));
      assert read[2] == Getenv(env, IndexedName(all[2], j));
      names := names + [read[0].value];
      urls := urls + [read[2]];
    }
  }
}
