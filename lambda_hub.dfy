/**
 * The first Lambda hub (LambdaFiles/LambdaHub.py): the source is looked up
 * from `CodePipeline.job` or `Records`, the shared chain of HubEvents reads
 * the message, and the answer depends on the final source. An event with
 * neither key leaves the source unassigned, so the handler raises.
 *
 * The handler assigns `s3` for the CodePipeline artifact step, which makes
 * `s3` local to the whole function: the S3 branch's get_object and the
 * S3-target writes find it unbound and raise. Handle models that;
 * HandleIntended uses the module's client, as the other hubs do.
 */
module LambdaHub {
  import opened Common
  import opened JsonValue
  import opened HubCommon
  import opened HubEvents

  /** The UnboundLocalError raised when `EventSource` is read before any assignment. */
  const Unassigned := "local variable 'EventSource' referenced before assignment"

  /**
   * The first lookup: `CodePipeline.job` wins over `Records`; a Records
   * event whose first record has no `eventSource` is API; with neither key
   * the variable stays unassigned (Err), as it does when the `in` test
   * itself raises.
   */
  function InitialSource(event: Json): (r: Result<Json>)
    ensures PyIn("CodePipeline.job", event) == Some(true) ==> r == Ok(JStr("aws:codepipeline"))
    ensures PyIn("CodePipeline.job", event) == Some(false) && PyIn("Records", event) == Some(true) ==>
      r.Ok? && (r.value == JStr("API") || Some(r.value) == (match RecordOf(event) case None => None case Some(rec) => Get(rec, "eventSource")))
    ensures r.Err? <==> PyIn("CodePipeline.job", event) != Some(true) && PyIn("Records", event) != Some(true)
  {
    match PyIn("CodePipeline.job", event)
    case None => Err(LookupFailed)
    case Some(pipeline) =>
      if pipeline then Ok(JStr("aws:codepipeline"))
      else match PyIn("Records", event)
        case None => Err(LookupFailed)
        case Some(records) =>
          if !records then Err(Unassigned)
          else match RecordOf(event)
            case None => Ok(JStr("API"))
            case Some(record) =>
              match Get(record, "eventSource")
              case None => Ok(JStr("API"))
              case Some(source) => Ok(source)
  }

  /**
   * lambda_handler as written: `name` is `os.getenv("LambdaName")`, `now`
   * the text of `datetime.now()` and `s3Targets` the number of S3 target
   * buckets configured; the messages go out as `Lambda: ...`. The S3 branch
   * sees no bound client, and once the chain has run, the first S3-target
   * write raises before any answer or artifact step.
   */
  function Handle(event: Json, name: Option<string>, s3Targets: nat, now: string, objectText: string, artifactText: string)
    : (r: Result<Handled>)
    ensures InitialSource(event).Err? ==> r.Err?
    ensures InitialSource(event).Ok? ==>
      var source := InitialSource(event).value;
      var x := Extract(event, source, true, false, objectText);
      && (x.Ok? && s3Targets > 0 ==> r == Err(UnboundClient))
      && (!(x.Ok? && s3Targets > 0) ==>
            r == LegacyHandle(event, source, true, false, "Lambda", Shown(name), now, objectText, artifactText))
  {
    match InitialSource(event)
    case Err(e) => Err(e)
    case Ok(source) =>
      if Extract(event, source, true, false, objectText).Ok? && s3Targets > 0 then Err(UnboundClient)
      else LegacyHandle(event, source, true, false, "Lambda", Shown(name), now, objectText, artifactText)
  }

  /**
   * lambda_handler with `s3` the module's client, as the other hubs read
   * it: the S3 branch reads `.txt` objects and the target writes do not
   * raise.
   */
  function HandleIntended(event: Json, name: Option<string>, now: string, objectText: string, artifactText: string)
    : (r: Result<Handled>)
    ensures InitialSource(event).Err? ==> r.Err?
    ensures InitialSource(event).Ok? ==>
      r == LegacyHandle(event, InitialSource(event).value, true, true, "Lambda", Shown(name), now, objectText, artifactText)
  {
    match InitialSource(event)
    case Err(e) => Err(e)
    case Ok(source) => LegacyHandle(event, source, true, true, "Lambda", Shown(name), now, objectText, artifactText)
  }

  /** The lookups of the S3 branch all succeed on `record`. */
  predicate S3RecordReadable(record: Json) {
    && StrAt(record, ["s3", "bucket", "arn"]).Some? && At(record, ["s3", "object", "size"]).Some?
    && StrAt(record, ["s3", "bucket", "name"]).Some? && StrAt(record, ["s3", "object", "key"]).Some?
  }

  /** As written: an S3 event for a `.txt` object raises, whatever the targets. */
  lemma TextObjectRaises(event: Json, record: Json, name: Option<string>, s3Targets: nat, now: string,
                         objectText: string, artifactText: string)
    requires InitialSource(event) == Ok(JStr("aws:s3")) && RecordOf(event) == Some(record)
    requires S3RecordReadable(record) && IsTxt(S3Path(StrAt(record, ["s3", "object", "key"]).value))
    ensures Handle(event, name, s3Targets, now, objectText, artifactText) == Err(UnboundClient)
  {
    assert BranchOf(event, JStr("aws:s3"), true) == Ok(S3Branch);
    assert S3Extract(event, objectText, false) == Err(UnboundClient);
  }

  /** As written: with an S3 target configured, no event the chain reads is answered. */
  lemma TargetsRaise(event: Json, name: Option<string>, s3Targets: nat, now: string, objectText: string, artifactText: string)
    requires s3Targets > 0
    ensures Handle(event, name, s3Targets, now, objectText, artifactText).Err?
  {
  }

  /**
   * As intended: the `.txt` object's text is the message the targets get,
   * after the bucket's name in the source.
   */
  lemma IntendedReadsTextObject(event: Json, record: Json, name: Option<string>, now: string,
                                objectText: string, artifactText: string)
    requires InitialSource(event) == Ok(JStr("aws:s3")) && RecordOf(event) == Some(record)
    requires S3RecordReadable(record) && IsTxt(S3Path(StrAt(record, ["s3", "object", "key"]).value))
    ensures var r := HandleIntended(event, name, now, objectText, artifactText);
      && r.Ok?
      && r.value.eventSource == JStr("aws:s3" + LastPart(StrAt(record, ["s3", "bucket", "arn"]).value, ":"))
      && r.value.newMessage == NewMessage("Lambda", Shown(name), PyStr(r.value.eventSource), now, objectText)
      && r.value.reply == NoReply && r.value.artifact.None?
  {
    var source := JStr("aws:s3" + LastPart(StrAt(record, ["s3", "bucket", "arn"]).value, ":"));
    S3SourceUnanswered(LastPart(StrAt(record, ["s3", "bucket", "arn"]).value, ":"));
    var x := S3Extract(event, objectText, true);
    assert x.Ok? && x.value.eventSource == source && x.value.message == JStr(objectText);
    assert BranchOf(event, JStr("aws:s3"), true) == Ok(S3Branch);
    assert Extract(event, JStr("aws:s3"), true, true, objectText) == x;
  }

  /** A bucket's source `aws:s3...` is neither of the answered sources. */
  lemma S3SourceUnanswered(bucket: string)
    ensures JStr("aws:s3" + bucket) != JStr("aws:elb") && JStr("aws:s3" + bucket) != JStr("API")
    ensures JStr("aws:s3" + bucket) != JStr("aws:codepipeline")
  {
    assert ("aws:s3" + bucket)[5] == '3';
    assert "aws:elb"[5] == 'l' && "aws:codepipeline"[5] == 'o';
  }

  /** A dictionary event with neither key makes the handler raise. */
  lemma NeitherKeyRaises(event: Json, name: Option<string>, s3Targets: nat, now: string, objectText: string, artifactText: string)
    requires event.JObj? && !Has(event, "CodePipeline.job") && !Has(event, "Records")
    ensures Handle(event, name, s3Targets, now, objectText, artifactText).Err?
  {
  }

  /** An event with both keys is a CodePipeline job. */
  lemma PipelineWinsOverRecords(event: Json)
    requires event.JObj? && Has(event, "CodePipeline.job") && Has(event, "Records")
    ensures InitialSource(event) == Ok(JStr("aws:codepipeline"))
  {
  }

  /** A Records list with no record makes the event an API call. */
  lemma EmptyRecordsIsApi(event: Json, records: Json)
    requires PyIn("CodePipeline.job", event) == Some(false) && Get(event, "Records") == Some(records)
    requires PyIn("Records", event) == Some(true)
    requires records.JArr? && |records.items| == 0
    ensures InitialSource(event) == Ok(JStr("API"))
  {
  }

  /**
   * An API event from another Lambda, with no S3 target: the source is
   * renamed Lambda and nothing is answered.
   */
  lemma LambdaEventAnswered(event: Json, message: Json, name: Option<string>, now: string, objectText: string, artifactText: string)
    requires InitialSource(event) == Ok(JStr("API")) && PyIn("requestContext", event) == Some(false)
    requires Get(event, "source") == Some(JStr("aws:lambda")) && Get(event, "message") == Some(message)
    ensures Handle(event, name, 0, now, objectText, artifactText)
      == Ok(Handled(JStr("Lambda"), NewMessage("Lambda", Shown(name), "Lambda", now, PyStr(message)), NoReply, None))
  {
    LambdaEventHandled(event, message, true, false, "Lambda", Shown(name), now, objectText, artifactText);
  }

  /** An S3 object whose key does not end in `txt` after its last `.` is not read. */
  lemma S3NonTextNotRead(event: Json, record: Json, key: string, objectText: string)
    requires InitialSource(event) == Ok(JStr("aws:s3"))
    requires RecordOf(event) == Some(record) && StrAt(record, ["s3", "object", "key"]) == Some(key)
    requires !IsTxt(S3Path(key))
    ensures Extract(event, JStr("aws:s3"), true, false, objectText).Ok? ==>
      Extract(event, JStr("aws:s3"), true, false, objectText).value.message == JStr("File is not .txt")
  {
  }
}
