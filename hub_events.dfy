/**
 * How the two earlier Lambda hubs (LambdaFiles/LambdaHub.py and
 * LambdaFiles/LambdaHub/LambdaHub.py) and the CodeBuild hub
 * (CodeBuild/CodeBuildHub/CodeBuildHub.py) read an incoming event: the same
 * if/elif chain on the event source, the same outgoing message and the same
 * answer. They differ only in how the source is first looked up and in
 * whether the chain has a CodePipeline branch; those parts live in each
 * hub's own module.
 */
module HubEvents {
  import opened Common
  import opened JsonValue

  /** The text of every exception an event lookup can raise (KeyError, TypeError, IndexError, AttributeError). */
  const LookupFailed := "event lookup raised"

  /**
   * The UnboundLocalError of a handler that assigns `s3` further down, so
   * that the name is local to the function and unbound before that line.
   */
  const UnboundClient := "local variable 's3' referenced before assignment"

  /** `event['Records'][0]`; None is the exception the lookup raises. */
  function RecordOf(event: Json): Option<Json> {
    match Get(event, "Records")
    case None => None
    case Some(records) => First(records)
  }

  /** `j[path[0]][path[1]]...`; None is the exception the lookup raises. */
  function At(j: Json, path: seq<string>): Option<Json>
    decreases |path|
  {
    if |path| == 0 then Some(j)
    else match Get(j, path[0])
      case None => None
      case Some(v) => At(v, path[1..])
  }

  /** `j[...].split(":")[-1]`: the text after the last colon of a str field. */
  function LastColonPartAt(j: Json, path: seq<string>): (r: Option<string>)
    ensures r.Some? ==> !Contains(r.value, ":")
    ensures r.Some? <==> StrAt(j, path).Some?
  {
    match StrAt(j, path)
    case None => None
    case Some(s) =>
      LastPartAfterSeparator(s, ":");
      Some(LastPart(s, ":"))
  }

  /** `unquote(key).replace('+', ' ')`, the object key as the hubs read it. */
  function S3Path(encoded: string): (p: string)
    ensures Free(p, '+')
  {
    ReplaceCharGone(Unquote(encoded), '+', " ");
    ReplaceAll(Unquote(encoded), "+", " ")
  }

  /** The escape `%2B` is unquoted to a plus and then turned into a space like a literal plus. */
  lemma EncodedPlusIsSpace()
    ensures S3Path("%2B") == " "
  {
    assert Unquote("%2B") == "+";
    assert Find("+", "+") == Some(0);
  }

  /** `file_path.split(".")[-1] == "txt"`. */
  predicate IsTxt(path: string) {
    LastPart(path, ".") == "txt"
  }

  /** The chain's results: the event source, the message and the information text. */
  datatype Extracted = Extracted(eventSource: Json, message: Json, information: string)

  /** Which branch of the chain runs. */
  datatype Branch = SnsBranch | SqsBranch | S3Branch | ElbBranch | PipelineBranch | ApiBranch | NoBranch

  /**
   * The branch tests in order: the source is compared with aws:sns, aws:sqs
   * and aws:s3; then `'requestContext' in event and 'elb' in
   * event['requestContext']`; then (when the hub has that branch)
   * `'CodePipeline.job' in event`; last the source is compared with API.
   * Err is a test that raises.
   */
  function BranchOf(event: Json, source: Json, pipelineBranch: bool): (r: Result<Branch>)
    ensures source == JStr("aws:sns") ==> r == Ok(SnsBranch)
    ensures source == JStr("aws:sqs") ==> r == Ok(SqsBranch)
    ensures source == JStr("aws:s3") ==> r == Ok(S3Branch)
    ensures r == Ok(ElbBranch) ==> PyIn("requestContext", event) == Some(true)
    ensures r == Ok(PipelineBranch) ==> pipelineBranch && PyIn("CodePipeline.job", event) == Some(true)
    ensures r == Ok(ApiBranch) ==> source == JStr("API")
  {
    if source == JStr("aws:sns") then Ok(SnsBranch)
    else if source == JStr("aws:sqs") then Ok(SqsBranch)
    else if source == JStr("aws:s3") then Ok(S3Branch)
    else
      match PyIn("requestContext", event)
      case None => Err(LookupFailed)
      case Some(hasContext) =>
        var elb: Result<bool> :=
          if !hasContext then Ok(false)
          else match Get(event, "requestContext")
            case None => Err(LookupFailed)
            case Some(context) =>
              match PyIn("elb", context)
              case None => Err(LookupFailed)
              case Some(b) => Ok(b);
        if elb.Err? then Err(LookupFailed)
        else if elb.value then Ok(ElbBranch)
        else if pipelineBranch && PyIn("CodePipeline.job", event) == None then Err(LookupFailed)
        else if pipelineBranch && PyIn("CodePipeline.job", event) == Some(true) then Ok(PipelineBranch)
        else if source == JStr("API") then Ok(ApiBranch)
        else Ok(NoBranch)
  }

  /**
   * The API branch: `Source = event["source"]; Message =
   * str(event["message"])`, both replaced by "API" and str(event) when either
   * lookup raises. Source aws:lambda renames the event source Lambda, but the
   * following if/else then sets the information to 'Event from API' for
   * every source other than aws:ec2.
   */
  function ApiExtract(event: Json): (x: Extracted)
    ensures var src := Get(event, "source"); var msg := Get(event, "message");
      if src.Some? && msg.Some? then
        x.message == JStr(PyStr(msg.value))
        && x.eventSource == (if src.value == JStr("aws:ec2") then JStr("EC2")
                             else if src.value == JStr("aws:lambda") then JStr("Lambda") else JStr("API"))
        && x.information == (if src.value == JStr("aws:ec2") then "Event from EC2" else "Event from API")
      else x == Extracted(JStr("API"), JStr(PyStr(event)), "Event from API")
  {
    var src := Get(event, "source");
    var msg := Get(event, "message");
    var source: Json := if src.Some? && msg.Some? then src.value else JStr("API");
    var message := if src.Some? && msg.Some? then PyStr(msg.value) else PyStr(event);
    var eventSource :=
      if source == JStr("aws:ec2") then JStr("EC2")
      else if source == JStr("aws:lambda") then JStr("Lambda") else JStr("API");
    var information := if source == JStr("aws:ec2") then "Event from EC2" else "Event from API";
    Extracted(eventSource, JStr(message), information)
  }

  /** The SNS branch: the topic name is appended to the source with no separator. */
  function SnsExtract(event: Json): (r: Result<Extracted>)
    ensures r.Ok? ==> RecordOf(event).Some? && LastColonPartAt(RecordOf(event).value, ["Sns", "TopicArn"]).Some?
    ensures r.Ok? ==> Some(r.value.message) == At(RecordOf(event).value, ["Sns", "Message"])
    ensures r.Ok? ==> var name := LastColonPartAt(RecordOf(event).value, ["Sns", "TopicArn"]).value;
      r.value.eventSource == JStr("aws:sns" + name) && r.value.information == "Message from SNS " + name
  {
    match RecordOf(event)
    case None => Err(LookupFailed)
    case Some(record) =>
      var name := LastColonPartAt(record, ["Sns", "TopicArn"]);
      var subject := At(record, ["Sns", "Subject"]);
      var message := At(record, ["Sns", "Message"]);
      if name.None? || subject.None? || message.None? then Err(LookupFailed)
      else Ok(Extracted(JStr("aws:sns" + name.value), message.value, "Message from SNS " + name.value))
  }

  /** The SQS branch: the body is the message, the queue is named after the ARN's last part. */
  function SqsExtract(event: Json): (r: Result<Extracted>)
    ensures r.Ok? ==> RecordOf(event).Some? && Some(r.value.message) == At(RecordOf(event).value, ["body"])
    ensures r.Ok? ==> r.value.eventSource == JStr("aws:sqs")
  {
    match RecordOf(event)
    case None => Err(LookupFailed)
    case Some(record) =>
      var name := LastColonPartAt(record, ["eventSourceARN"]);
      var body := At(record, ["body"]);
      if name.None? || body.None? then Err(LookupFailed)
      else Ok(Extracted(JStr("aws:sqs"), body.value, "Message from SQS " + name.value))
  }

  /** `"File " + file_path + " from S3 bucket " + bucket + ", with size of " + FileSize`. */
  function S3Information(path: string, bucket: string, size: string): (t: string)
    ensures StartsWith(t, "File " + path + " from S3 bucket ")
    ensures EndsWith(t, ", with size of " + size)
  {
    var head := "File " + path + " from S3 bucket ";
    var tail := ", with size of " + size;
    var t := head + bucket + tail;
    assert t[..|head|] == head;
    assert t[|t| - |tail|..] == tail;
    t
  }

  /**
   * The S3 branch: `objectText` is what get_object returns for the key; it
   * is read only for a key whose text after the last `.` is `txt`.
   * `clientBound` says whether the hub's `s3` client is bound when the
   * branch calls get_object; when it is not, that call raises.
   */
  function S3Extract(event: Json, objectText: string, clientBound: bool): (r: Result<Extracted>)
    ensures r.Ok? ==> RecordOf(event).Some? && StrAt(RecordOf(event).value, ["s3", "object", "key"]).Some?
    ensures r.Ok? ==> (var path := S3Path(StrAt(RecordOf(event).value, ["s3", "object", "key"]).value);
      r.value.message == (if IsTxt(path) then JStr(objectText) else JStr("File is not .txt")))
    ensures !clientBound && r.Ok? ==> r.value.message == JStr("File is not .txt")
    ensures r == Err(UnboundClient) <==>
      !clientBound && RecordOf(event).Some?
      && (var record := RecordOf(event).value;
          && StrAt(record, ["s3", "bucket", "arn"]).Some? && At(record, ["s3", "object", "size"]).Some?
          && StrAt(record, ["s3", "bucket", "name"]).Some? && StrAt(record, ["s3", "object", "key"]).Some?
          && IsTxt(S3Path(StrAt(record, ["s3", "object", "key"]).value)))
  {
    match RecordOf(event)
    case None => Err(LookupFailed)
    case Some(record) =>
      var arnName := LastColonPartAt(record, ["s3", "bucket", "arn"]);
      var size := At(record, ["s3", "object", "size"]);
      var bucket := StrAt(record, ["s3", "bucket", "name"]);
      var key := StrAt(record, ["s3", "object", "key"]);
      if arnName.None? || size.None? || bucket.None? || key.None? then Err(LookupFailed)
      else
        var path := S3Path(key.value);
        if IsTxt(path) && !clientBound then Err(UnboundClient)
        else
        var message := if IsTxt(path) then JStr(objectText) else JStr("File is not .txt");
        Ok(Extracted(JStr("aws:s3" + arnName.value), message, S3Information(path, bucket.value, PyStr(size.value))))
  }

  /** The ALB branch. */
  function ElbExtract(event: Json): (r: Result<Extracted>)
    ensures r.Ok? ==> r.value.eventSource == JStr("aws:elb") && r.value.message == JStr("HTTP request from ALB")
  {
    match LastColonPartAt(event, ["requestContext", "elb", "targetGroupArn"])
    case None => Err(LookupFailed)
    case Some(name) => Ok(Extracted(JStr("aws:elb"), JStr("HTTP request from ALB"), "Request from ALB " + name))
  }

  /** The CodePipeline branch: the job id must be a str to be appended. */
  function PipelineExtract(event: Json): (r: Result<Extracted>)
    ensures r.Ok? <==> StrAt(event, ["CodePipeline.job", "id"]).Some?
    ensures r.Ok? ==> r.value.eventSource == JStr("aws:codepipeline")
    ensures r.Ok? ==> r.value.message == JStr("Job ID: " + StrAt(event, ["CodePipeline.job", "id"]).value)
  {
    match StrAt(event, ["CodePipeline.job", "id"])
    case None => Err(LookupFailed)
    case Some(id) => Ok(Extracted(JStr("aws:codepipeline"), JStr("Job ID: " + id), "Event from CodePipeline"))
  }

  /**
   * The whole chain from the source the hub looked up. No branch leaves the
   * defaults: message 'No Message!!' and information 'Source unknown!!'.
   */
  function Extract(event: Json, source: Json, pipelineBranch: bool, clientBound: bool, objectText: string): (r: Result<Extracted>)
    ensures BranchOf(event, source, pipelineBranch).Err? ==> r.Err?
    ensures BranchOf(event, source, pipelineBranch) == Ok(NoBranch) ==>
      r == Ok(Extracted(source, JStr("No Message!!"), "Source unknown!!"))
    ensures BranchOf(event, source, pipelineBranch) == Ok(ApiBranch) ==> r == Ok(ApiExtract(event))
    ensures BranchOf(event, source, pipelineBranch) == Ok(SnsBranch) ==> r == SnsExtract(event)
    ensures BranchOf(event, source, pipelineBranch) == Ok(SqsBranch) ==> r == SqsExtract(event)
    ensures BranchOf(event, source, pipelineBranch) == Ok(S3Branch) ==> r == S3Extract(event, objectText, clientBound)
    ensures BranchOf(event, source, pipelineBranch) == Ok(ElbBranch) ==> r == ElbExtract(event)
    ensures BranchOf(event, source, pipelineBranch) == Ok(PipelineBranch) ==> r == PipelineExtract(event)
  {
    match BranchOf(event, source, pipelineBranch)
    case Err(e) => Err(e)
    case Ok(b) =>
      match b
      case SnsBranch => SnsExtract(event)
      case SqsBranch => SqsExtract(event)
      case S3Branch => S3Extract(event, objectText, clientBound)
      case ElbBranch => ElbExtract(event)
      case PipelineBranch => PipelineExtract(event)
      case ApiBranch => Ok(ApiExtract(event))
      case NoBranch => Ok(Extracted(source, JStr("No Message!!"), "Source unknown!!"))
  }

  /**
   * `f"{kind}: {name}. Source: {source}. Date/Time: {now}. <- {message}"`,
   * the text every target receives; `kind` is Lambda or CodeBuild.
   */
  function NewMessage(kind: string, name: string, source: string, now: string, message: string): (t: string)
    ensures StartsWith(t, kind + ": " + name + ". Source: " + source + ". Date/Time: ")
    ensures EndsWith(t, ". <- " + message)
  {
    var head := kind + ": " + name + ". Source: " + source + ". Date/Time: ";
    var tail := ". <- " + message;
    var t := head + now + tail;
    assert t[..|head|] == head;
    assert t[|t| - |tail|..] == tail;
    t
  }

  /** What a handler returns. */
  datatype Reply =
    /** The fixed ALB answer. */
    | AlbReply(statusCode: int, statusDescription: string, isBase64Encoded: bool, contentType: string, body: string)
    /** A bare string. */
    | TextReply(text: string)
    /** `{'statusCode': ..., 'body': json.dumps({'status': ...})}` after a CodePipeline job. */
    | PipelineReply(statusCode: int, status: string)
    /**
     * The API Gateway proxy answer of the newest hub: JSON with CORS headers
     * whose body holds a fixed message, the data and a timestamp.
     */
    | ProxyReply(statusCode: int, headers: seq<(string, string)>, message: string, originalData: string, timestamp: string)
    /** Falling off the end of the handler: None. */
    | NoReply

  /** The ALB answer: always 200 '200 OK' HTML carrying the message. */
  function AlbAnswer(statusCode: int, body: string): (r: Reply)
    ensures r.AlbReply? && r.statusCode == statusCode && r.body == body
    ensures r.statusDescription == "200 OK" && !r.isBase64Encoded && r.contentType == "text/html; charset=utf-8"
  {
    AlbReply(statusCode, "200 OK", false, "text/html; charset=utf-8", body)
  }

  /**
   * The end of the earlier handlers: ALB sources get the HTML answer, an API
   * source the message itself, a CodePipeline job (when the hub handles
   * one) success after its artifacts are copied, anything else None.
   */
  function LegacyReply(source: Json, newMessage: string, pipelineReturn: bool): (r: Reply)
    ensures source == JStr("aws:elb") ==> r == AlbAnswer(200, newMessage)
    ensures source == JStr("API") ==> r == TextReply(newMessage)
    ensures pipelineReturn && source == JStr("aws:codepipeline") ==> r == PipelineReply(200, "SUCCESS")
    ensures (source != JStr("aws:elb") && source != JStr("API")
             && !(pipelineReturn && source == JStr("aws:codepipeline"))) ==> r == NoReply
  {
    if source == JStr("aws:elb") then AlbAnswer(200, newMessage)
    else if source == JStr("API") then TextReply(newMessage)
    else if pipelineReturn && source == JStr("aws:codepipeline") then PipelineReply(200, "SUCCESS")
    else NoReply
  }

  // ---------------------------------------------------------------------
  // The CodePipeline artifact step of the two Lambda hubs

  /** The S3 write of the upper-cased input artifact. */
  datatype ArtifactPut = ArtifactPut(bucket: string, key: string, body: string)

  /** `event['CodePipeline.job']['data'][field]`. */
  function JobData(event: Json, field: string): Option<Json> {
    At(event, ["CodePipeline.job", "data", field])
  }

  /** The credentials, the input artifacts and the output artifacts can all be looked up. */
  predicate JobReadable(event: Json) {
    && At(event, ["CodePipeline.job", "data"]).Some?
    && At(event, ["CodePipeline.job", "data", "artifactCredentials", "accessKeyId"]).Some?
    && At(event, ["CodePipeline.job", "data", "artifactCredentials", "secretAccessKey"]).Some?
    && At(event, ["CodePipeline.job", "data", "artifactCredentials", "sessionToken"]).Some?
    && JobData(event, "inputArtifacts").Some?
    && JobData(event, "outputArtifacts").Some?
  }

  /** The write to the first output artifact's location, when there is one. */
  function WriteOutput(outputs: Json, content: string): (r: Result<Option<ArtifactPut>>)
    ensures !Truthy(outputs) ==> r == Ok(None)
    ensures r.Ok? && r.value.Some? ==>
      && Truthy(outputs) && First(outputs).Some?
      && StrAt(First(outputs).value, ["location", "s3Location", "bucketName"]).Some?
      && StrAt(First(outputs).value, ["location", "s3Location", "objectKey"]).Some?
      && r.value.value == ArtifactPut(
           StrAt(First(outputs).value, ["location", "s3Location", "bucketName"]).value,
           StrAt(First(outputs).value, ["location", "s3Location", "objectKey"]).value,
           Upper(content))
    ensures Truthy(outputs) ==> r.Err? || r.value.Some?
  {
    if !Truthy(outputs) then Ok(None)
    else match First(outputs)
      case None => Err(LookupFailed)
      case Some(output) =>
        var outBucket := StrAt(output, ["location", "s3Location", "bucketName"]);
        var outKey := StrAt(output, ["location", "s3Location", "objectKey"]);
        if outBucket.None? || outKey.None? then Err(LookupFailed)
        else Ok(Some(ArtifactPut(outBucket.value, outKey.value, Upper(content))))
  }

  /**
   * The first input artifact: its key (and, with `bucketFirst`, its bucket)
   * is looked up; a `.txt` key is read from a text bucket and copied out.
   */
  function CopyInput(artifact: Json, outputs: Json, content: string, bucketFirst: bool): (r: Result<Option<ArtifactPut>>)
    ensures var key := StrAt(artifact, ["location", "s3Location", "objectKey"]);
      && (bucketFirst && At(artifact, ["location", "s3Location", "bucketName"]).None? ==> r.Err?)
      && (key.None? ==> r.Err?)
      && ((key.Some? && !EndsWith(key.value, ".txt")
           && (bucketFirst ==> At(artifact, ["location", "s3Location", "bucketName"]).Some?)) ==> r == Ok(None))
      && (r.Ok? && r.value.Some? ==>
            key.Some? && EndsWith(key.value, ".txt")
            && StrAt(artifact, ["location", "s3Location", "bucketName"]).Some?
            && r == WriteOutput(outputs, content))
  {
    var bucket := At(artifact, ["location", "s3Location", "bucketName"]);
    var key := StrAt(artifact, ["location", "s3Location", "objectKey"]);
    if bucketFirst && bucket.None? then Err(LookupFailed)
    else if key.None? then Err(LookupFailed)
    else if !EndsWith(key.value, ".txt") then Ok(None)
    else if StrAt(artifact, ["location", "s3Location", "bucketName"]).None? then Err(LookupFailed)
    else WriteOutput(outputs, content)
  }

  /**
   * The artifact step before the success answer: the credentials and both
   * artifact lists must be present; from the first input artifact's
   * `location.s3Location`, a key ending in `.txt` is read (`content` is its
   * text) and, when there is an output artifact, written upper-cased to the
   * first one. `bucketFirst` says whether the hub looks up the input's
   * `bucketName` before testing the key (the earlier hubs) or only to read
   * a `.txt` key (LambdaHub2); reading needs it to be text. Err is a lookup
   * that raises.
   */
  function ArtifactCopy(event: Json, content: string, bucketFirst: bool): (r: Result<Option<ArtifactPut>>)
    ensures r.Ok? ==> JobReadable(event)
    ensures JobReadable(event) && !Truthy(JobData(event, "inputArtifacts").value) ==> r == Ok(None)
    ensures JobReadable(event) && Truthy(JobData(event, "inputArtifacts").value) ==>
      (First(JobData(event, "inputArtifacts").value).None? ==> r.Err?)
      && (First(JobData(event, "inputArtifacts").value).Some? ==>
            r == CopyInput(First(JobData(event, "inputArtifacts").value).value,
                           JobData(event, "outputArtifacts").value, content, bucketFirst))
  {
    if !JobReadable(event) then Err(LookupFailed)
    else
      var inputs := JobData(event, "inputArtifacts").value;
      var outputs := JobData(event, "outputArtifacts").value;
      if !Truthy(inputs) then Ok(None)
      else match First(inputs)
        case None => Err(LookupFailed)
        case Some(artifact) => CopyInput(artifact, outputs, content, bucketFirst)
  }

  /**
   * What the step writes: the upper-cased text of a `.txt` first input
   * whose bucket is text, to the first output artifact's bucket and key.
   */
  lemma ArtifactCopyWrites(event: Json, content: string, bucketFirst: bool)
    requires ArtifactCopy(event, content, bucketFirst).Ok? && ArtifactCopy(event, content, bucketFirst).value.Some?
    ensures var inputs := JobData(event, "inputArtifacts").value;
      var outputs := JobData(event, "outputArtifacts").value;
      && JobReadable(event) && Truthy(inputs) && First(inputs).Some?
      && StrAt(First(inputs).value, ["location", "s3Location", "objectKey"]).Some?
      && EndsWith(StrAt(First(inputs).value, ["location", "s3Location", "objectKey"]).value, ".txt")
      && StrAt(First(inputs).value, ["location", "s3Location", "bucketName"]).Some?
      && Truthy(outputs) && First(outputs).Some?
      && ArtifactCopy(event, content, bucketFirst).value.value == ArtifactPut(
           StrAt(First(outputs).value, ["location", "s3Location", "bucketName"]).value,
           StrAt(First(outputs).value, ["location", "s3Location", "objectKey"]).value,
           Upper(content))
  {
    var inputs := JobData(event, "inputArtifacts").value;
    var outputs := JobData(event, "outputArtifacts").value;
    var artifact := First(inputs).value;
    var r := CopyInput(artifact, outputs, content, bucketFirst);
    assert r == WriteOutput(outputs, content);
  }

  /**
   * A first input whose key does not end in `.txt` is not read and nothing
   * is written; this needs no `bucketName` unless the hub looks it up first,
   * and then any value will do.
   */
  lemma NonTextArtifactSkipped(event: Json, content: string, bucketFirst: bool)
    requires JobReadable(event)
    requires Truthy(JobData(event, "inputArtifacts").value) && First(JobData(event, "inputArtifacts").value).Some?
    requires var artifact := First(JobData(event, "inputArtifacts").value).value;
      && StrAt(artifact, ["location", "s3Location", "objectKey"]).Some?
      && !EndsWith(StrAt(artifact, ["location", "s3Location", "objectKey"]).value, ".txt")
      && (bucketFirst ==> At(artifact, ["location", "s3Location", "bucketName"]).Some?)
    ensures ArtifactCopy(event, content, bucketFirst) == Ok(None)
  {
  }

  // ---------------------------------------------------------------------
  // The whole handler of the earlier hubs

  /** What one invocation produces: the final event source, the outgoing message, the answer and the artifact write. */
  datatype Handled = Handled(eventSource: Json, newMessage: string, reply: Reply, artifact: Option<ArtifactPut>)

  /**
   * The handler from the source the hub first looked up: the chain, the
   * outgoing message (`kind` is Lambda or CodeBuild, `name` the function or
   * project name as the f-string shows it), and the answer. `pipeline` says
   * whether the hub has the CodePipeline branch and answer; `objectText` is
   * the S3 object of an S3 event and `artifactText` the input artifact of a
   * CodePipeline job; `clientBound` is passed on to the S3 branch. The
   * deliveries to the targets between the two are left out.
   */
  function LegacyHandle(event: Json, source: Json, pipeline: bool, clientBound: bool, kind: string, name: string, now: string,
                        objectText: string, artifactText: string): (r: Result<Handled>)
    ensures Extract(event, source, pipeline, clientBound, objectText).Err? ==> r.Err?
    ensures r.Ok? ==> Extract(event, source, pipeline, clientBound, objectText).Ok?
    ensures r.Ok? ==>
      (var x := Extract(event, source, pipeline, clientBound, objectText).value;
       r.value.eventSource == x.eventSource
       && r.value.newMessage == NewMessage(kind, name, PyStr(x.eventSource), now, PyStr(x.message))
       && r.value.reply == LegacyReply(x.eventSource, r.value.newMessage, pipeline))
    ensures r.Ok? && r.value.artifact.Some? ==> pipeline && r.value.eventSource == JStr("aws:codepipeline")
    ensures r.Ok? && pipeline && r.value.eventSource == JStr("aws:codepipeline") ==>
      ArtifactCopy(event, artifactText, true) == Ok(r.value.artifact)
    ensures (Extract(event, source, pipeline, clientBound, objectText).Ok?
             && !(pipeline && Extract(event, source, pipeline, clientBound, objectText).value.eventSource == JStr("aws:codepipeline")))
            ==> r.Ok?
  {
    match Extract(event, source, pipeline, clientBound, objectText)
    case Err(e) => Err(e)
    case Ok(x) =>
      var newMessage := NewMessage(kind, name, PyStr(x.eventSource), now, PyStr(x.message));
      var reply := LegacyReply(x.eventSource, newMessage, pipeline);
      if pipeline && x.eventSource == JStr("aws:codepipeline") then
        match ArtifactCopy(event, artifactText, true)
        case Err(e) => Err(e)
        case Ok(put) => Ok(Handled(x.eventSource, newMessage, reply, put))
      else Ok(Handled(x.eventSource, newMessage, reply, None))
  }

  /** Where SNS topic names end up: appended to the source, so nothing separates them. */
  lemma SnsSourceHasNoSeparator(event: Json, arn: string, topic: string)
    requires RecordOf(event).Some? && StrAt(RecordOf(event).value, ["Sns", "TopicArn"]) == Some(arn + ":" + topic)
    requires Free(topic, ':')
    requires SnsExtract(event).Ok?
    ensures SnsExtract(event).value.eventSource == JStr("aws:sns" + topic)
  {
    SplitConcat(arn, topic, ':');
    FreeNotContains(topic, ':');
    assert Split(topic, ":") == [topic];
    assert arn + ":" + topic == arn + [':'] + topic;
  }

  /** An API event from another Lambda is renamed Lambda but still described as coming from the API. */
  lemma LambdaSourceDescribedAsApi(event: Json, message: Json)
    requires Get(event, "source") == Some(JStr("aws:lambda")) && Get(event, "message") == Some(message)
    ensures ApiExtract(event).eventSource == JStr("Lambda")
    ensures ApiExtract(event).information == "Event from API"
  {
  }

  /**
   * The whole handler on an API event sent by another Lambda: the event
   * source becomes Lambda, the outgoing message carries it, and the handler
   * answers nothing (only an API source is answered with the message).
   */
  lemma LambdaEventHandled(event: Json, message: Json, pipeline: bool, clientBound: bool, kind: string, name: string, now: string,
                           objectText: string, artifactText: string)
    requires PyIn("requestContext", event) == Some(false)
    requires pipeline ==> PyIn("CodePipeline.job", event) == Some(false)
    requires Get(event, "source") == Some(JStr("aws:lambda")) && Get(event, "message") == Some(message)
    ensures LegacyHandle(event, JStr("API"), pipeline, clientBound, kind, name, now, objectText, artifactText)
      == Ok(Handled(JStr("Lambda"), NewMessage(kind, name, "Lambda", now, PyStr(message)), NoReply, None))
  {
    assert BranchOf(event, JStr("API"), pipeline) == Ok(ApiBranch);
    var x := ApiExtract(event);
    assert x == Extracted(JStr("Lambda"), JStr(PyStr(message)), "Event from API");
    assert Extract(event, JStr("API"), pipeline, clientBound, objectText) == Ok(x);
  }
}
