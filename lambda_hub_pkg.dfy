/**
 * The packaged Lambda hub (LambdaFiles/LambdaHub/LambdaHub.py): the same
 * chain as the first hub, but the source starts out as the empty string, so
 * an event with neither `CodePipeline.job` nor `Records` runs through the
 * chain unmatched instead of raising.
 */
module LambdaHubPackage {
  import opened Common
  import opened JsonValue
  import opened HubCommon
  import opened HubEvents

  /**
   * The first lookup: `CodePipeline.job` wins over `Records`; a Records
   * event whose first record has no `eventSource` is API; with neither key
   * the source stays `""`. Err is an `in` test that raises.
   */
  function InitialSource(event: Json): (r: Result<Json>)
    ensures PyIn("CodePipeline.job", event) == Some(true) ==> r == Ok(JStr("aws:codepipeline"))
    ensures PyIn("CodePipeline.job", event) == Some(false) && PyIn("Records", event) == Some(false) ==> r == Ok(JStr(""))
    ensures PyIn("CodePipeline.job", event) == Some(false) && PyIn("Records", event) == Some(true) ==>
      r.Ok? && (r.value == JStr("API") || Some(r.value) == (match RecordOf(event) case None => None case Some(rec) => Get(rec, "eventSource")))
    ensures r.Err? <==> PyIn("CodePipeline.job", event).None? || (PyIn("CodePipeline.job", event) == Some(false) && PyIn("Records", event).None?)
  {
    match PyIn("CodePipeline.job", event)
    case None => Err(LookupFailed)
    case Some(pipeline) =>
      if pipeline then Ok(JStr("aws:codepipeline"))
      else match PyIn("Records", event)
        case None => Err(LookupFailed)
        case Some(records) =>
          if !records then Ok(JStr(""))
          else match RecordOf(event)
            case None => Ok(JStr("API"))
            case Some(record) =>
              match Get(record, "eventSource")
              case None => Ok(JStr("API"))
              case Some(source) => Ok(source)
  }

  /** lambda_handler: `name` is `os.getenv("LAMBDA_NAME")`, `now` the text of `datetime.now()`. */
  function Handle(event: Json, name: Option<string>, now: string, objectText: string, artifactText: string): (r: Result<Handled>)
    ensures InitialSource(event).Err? ==> r.Err?
    ensures InitialSource(event).Ok? ==>
      r == LegacyHandle(event, InitialSource(event).value, true, true, "Lambda", Shown(name), now, objectText, artifactText)
  {
    match InitialSource(event)
    case Err(e) => Err(e)
    case Ok(source) => LegacyHandle(event, source, true, true, "Lambda", Shown(name), now, objectText, artifactText)
  }

  /**
   * A dictionary event with neither key (and no ALB request context) keeps
   * the defaults: the outgoing message ends in 'No Message!!' under an empty
   * source, and nothing is answered.
   */
  lemma NeitherKeyNoMessage(event: Json, name: Option<string>, now: string, objectText: string, artifactText: string)
    requires event.JObj? && !Has(event, "CodePipeline.job") && !Has(event, "Records") && !Has(event, "requestContext")
    ensures Handle(event, name, now, objectText, artifactText)
      == Ok(Handled(JStr(""), NewMessage("Lambda", Shown(name), "", now, "No Message!!"), NoReply, None))
  {
    assert InitialSource(event) == Ok(JStr(""));
    assert BranchOf(event, JStr(""), true) == Ok(NoBranch);
    assert Extract(event, JStr(""), true, true, objectText) == Ok(Extracted(JStr(""), JStr("No Message!!"), "Source unknown!!"));
  }

  /**
   * A CodePipeline job that also carries an ALB request context takes the
   * ALB branch (it comes first) and gets the ALB answer.
   */
  lemma ElbBeforePipeline(event: Json, context: Json, name: Option<string>, now: string, objectText: string, artifactText: string)
    requires PyIn("CodePipeline.job", event) == Some(true)
    requires PyIn("requestContext", event) == Some(true) && Get(event, "requestContext") == Some(context)
    requires PyIn("elb", context) == Some(true)
    requires LastColonPartAt(event, ["requestContext", "elb", "targetGroupArn"]).Some?
    ensures Handle(event, name, now, objectText, artifactText).Ok?
    ensures var h := Handle(event, name, now, objectText, artifactText).value;
      h.eventSource == JStr("aws:elb") && h.reply == AlbAnswer(200, h.newMessage)
  {
    assert InitialSource(event) == Ok(JStr("aws:codepipeline"));
    assert BranchOf(event, JStr("aws:codepipeline"), true) == Ok(ElbBranch);
  }

  /** An API event from another Lambda: the source is renamed Lambda and nothing is answered. */
  lemma LambdaEventAnswered(event: Json, message: Json, name: Option<string>, now: string, objectText: string, artifactText: string)
    requires InitialSource(event) == Ok(JStr("API")) && PyIn("requestContext", event) == Some(false)
    requires Get(event, "source") == Some(JStr("aws:lambda")) && Get(event, "message") == Some(message)
    ensures Handle(event, name, now, objectText, artifactText)
      == Ok(Handled(JStr("Lambda"), NewMessage("Lambda", Shown(name), "Lambda", now, PyStr(message)), NoReply, None))
  {
    LambdaEventHandled(event, message, true, true, "Lambda", Shown(name), now, objectText, artifactText);
  }
}
