/**
 * The newest Lambda hub (LambdaFiles/LambdaHub2/LambdaHub2.py): the source
 * is classified first (any exception while classifying gives API), the
 * message is extracted per source, a message mentioning the Lambda's own
 * name is not forwarded, and the answer is shaped by `create_response`.
 */
module LambdaHub2 {
  import opened Common
  import opened JsonValue
  import opened HubCommon
  import opened HubEvents

  // ---------------------------------------------------------------------
  // Configuration

  /** `os.getenv("LAMBDA_NAME", '')`, replaced by `os.getenv("NAME", '')` when empty. */
  function LambdaName(env: Env): (name: string)
    ensures Getenv(env, "LAMBDA_NAME").Some? && env["LAMBDA_NAME"] != "" ==> name == env["LAMBDA_NAME"]
    ensures (Getenv(env, "LAMBDA_NAME").None? || env["LAMBDA_NAME"] == "") && "NAME" in env ==> name == env["NAME"]
    ensures (Getenv(env, "LAMBDA_NAME").None? || env["LAMBDA_NAME"] == "") && "NAME" !in env ==> name == ""
  {
    if "LAMBDA_NAME" in env && env["LAMBDA_NAME"] != "" then env["LAMBDA_NAME"]
    else if "NAME" in env then env["NAME"] else ""
  }

  /** `os.getenv("API_INTEGRATION_TYPE", "PROXY").upper()`. */
  function IntegrationType(env: Env): (mode: string)
    ensures "API_INTEGRATION_TYPE" !in env ==> mode == "PROXY"
    ensures "API_INTEGRATION_TYPE" in env ==> mode == Upper(env["API_INTEGRATION_TYPE"])
  {
    if "API_INTEGRATION_TYPE" in env then Upper(env["API_INTEGRATION_TYPE"]) else "PROXY"
  }

  /** Proxy mode is chosen case-insensitively: `proxy` works like `PROXY`. */
  lemma ProxyIgnoresCase(env: Env)
    requires Getenv(env, "API_INTEGRATION_TYPE") == Some("proxy")
    ensures IntegrationType(env) == "PROXY"
  {
    assert Upper("proxy") == "PROXY";
  }

  // ---------------------------------------------------------------------
  // Classification

  datatype Source = Sns | Sqs | S3 | Kinesis | Pipeline | Events | Elb | Ec2 | Api

  /** The text the handler keeps in EventSource for each classification. */
  function SourceName(s: Source): string {
    match s
    case Sns => "aws:sns"
    case Sqs => "aws:sqs"
    case S3 => "aws:s3"
    case Kinesis => "aws:kinesis"
    case Pipeline => "aws:codepipeline"
    case Events => "aws.events"
    case Elb => "aws:elb"
    case Ec2 => "AWS:EC2"
    case Api => "API"
  }

  /** `key in j and j[key] == value`; None is a test that raises. */
  function FieldIs(j: Json, key: string, value: Json): Option<bool> {
    match PyIn(key, j)
    case None => None
    case Some(present) =>
      if !present then Some(false)
      else match Get(j, key)
        case None => None
        case Some(v) => Some(v == value)
  }

  /** The tests on the first record; a raising test ends in API. */
  function RecordSource(record: Json): Source {
    match PyIn("Sns", record)
    case None => Api
    case Some(sns) =>
      if sns then Sns
      else match FieldIs(record, "eventSource", JStr("aws:sqs"))
        case None => Api
        case Some(sqs) =>
          if sqs then Sqs
          else match PyIn("s3", record)
            case None => Api
            case Some(s3) =>
              if s3 then S3
              else if PyIn("kinesis", record) == Some(true) then Kinesis
              else Api
  }

  /** The tests after the Records test; a raising test ends in API. */
  function OtherSource(event: Json): Source {
    match PyIn("CodePipeline.job", event)
    case None => Api
    case Some(pipeline) =>
      if pipeline then Pipeline
      else match FieldIs(event, "source", JStr("aws.events"))
        case None => Api
        case Some(events) =>
          if events then Events
          else match PyIn("requestContext", event)
            case None => Api
            case Some(hasContext) =>
              if hasContext then
                match Get(event, "requestContext")
                case None => Api
                case Some(context) => if PyIn("elb", context) == Some(true) then Elb else Api
              else if Contains(PyStr(event), "AWS:EC2") then Ec2
              else Api
  }

  /**
   * The classification: a non-empty Records list decides by its first
   * record; otherwise CodePipeline.job, an EventBridge source, an ALB
   * request context and a mention of `AWS:EC2` are tried in that order.
   */
  function Classify(event: Json): (s: Source)
    ensures PyIn("Records", event).None? ==> s == Api
  {
    match PyIn("Records", event)
    case None => Api
    case Some(hasRecords) =>
      if !hasRecords then OtherSource(event)
      else match Get(event, "Records")
        case None => Api
        case Some(records) =>
          match Len(records)
          case None => Api
          case Some(n) =>
            if n == 0 then OtherSource(event)
            else match First(records)
              case None => Api
              case Some(record) => RecordSource(record)
  }

  /** A dictionary event with a non-empty list of dictionary records is classified by its first record alone. */
  lemma RecordsComeFirst(event: Json, items: seq<Json>)
    requires event.JObj? && Get(event, "Records") == Some(JArr(items)) && |items| > 0 && items[0].JObj?
    ensures Classify(event) ==
      if Has(items[0], "Sns") then Sns
      else if Get(items[0], "eventSource") == Some(JStr("aws:sqs")) then Sqs
      else if Has(items[0], "s3") then S3
      else if Has(items[0], "kinesis") then Kinesis
      else Api
  {
  }

  /** A dictionary event without records goes through the other tests in their order. */
  lemma OtherTestsInOrder(event: Json)
    requires event.JObj? && (!Has(event, "Records") || Get(event, "Records") == Some(JArr([])))
    ensures Classify(event) ==
      if Has(event, "CodePipeline.job") then Pipeline
      else if Get(event, "source") == Some(JStr("aws.events")) then Events
      else if Has(event, "requestContext") then
        (if PyIn("elb", Get(event, "requestContext").value) == Some(true) then Elb else Api)
      else if Contains(PyStr(event), "AWS:EC2") then Ec2
      else Api
  {
    NoRecordsGoesOn(event);
    OtherSourceOrder(event);
  }

  lemma NoRecordsGoesOn(event: Json)
    requires event.JObj? && (!Has(event, "Records") || Get(event, "Records") == Some(JArr([])))
    ensures Classify(event) == OtherSource(event)
  {
    assert PyIn("Records", event) == Some(Has(event, "Records"));
  }

  lemma OtherSourceOrder(event: Json)
    requires event.JObj?
    ensures OtherSource(event) ==
      if Has(event, "CodePipeline.job") then Pipeline
      else if Get(event, "source") == Some(JStr("aws.events")) then Events
      else if Has(event, "requestContext") then
        (if PyIn("elb", Get(event, "requestContext").value) == Some(true) then Elb else Api)
      else if Contains(PyStr(event), "AWS:EC2") then Ec2
      else Api
  {
    assert PyIn("CodePipeline.job", event) == Some(Has(event, "CodePipeline.job"));
    assert PyIn("requestContext", event) == Some(Has(event, "requestContext"));
  }

  // ---------------------------------------------------------------------
  // Extraction

  /** SNS: the topic name is appended after a colon. */
  function SnsExtract2(event: Json): (r: Result<Extracted>)
    ensures r.Ok? ==> RecordOf(event).Some? && LastColonPartAt(RecordOf(event).value, ["Sns", "TopicArn"]).Some?
    ensures r.Ok? ==> r.value.eventSource == JStr("aws:sns:" + LastColonPartAt(RecordOf(event).value, ["Sns", "TopicArn"]).value)
  {
    match RecordOf(event)
    case None => Err(LookupFailed)
    case Some(record) =>
      var name := LastColonPartAt(record, ["Sns", "TopicArn"]);
      var subject := At(record, ["Sns", "Subject"]);
      var message := At(record, ["Sns", "Message"]);
      if name.None? || subject.None? || message.None? then Err(LookupFailed)
      else Ok(Extracted(JStr("aws:sns:" + name.value), message.value, "Message from SNS " + name.value))
  }

  /** EventBridge: the rule named after the last `/` of the first resource. */
  function EventsExtract(event: Json): (r: Result<Extracted>)
    ensures r.Ok? ==> r.value.eventSource == JStr("aws.events")
    ensures r.Ok? ==> (match Get(event, "resources") case None => false case Some(resources) => First(resources).Some?)
  {
    match Get(event, "resources")
    case None => Err(LookupFailed)
    case Some(resources) =>
      match First(resources)
      case Some(JStr(arn)) =>
        var rule := LastPart(arn, "/");
        Ok(Extracted(JStr("aws.events"), JStr("Event from " + rule), "Message from EventBridge " + rule))
      case _ => Err(LookupFailed)
  }

  /** `f"File {file_path} from S3 bucket {bucket_name}, size {FileSize}"`. */
  function S3Information2(path: string, bucket: string, size: string): (t: string)
    ensures StartsWith(t, "File " + path + " from S3 bucket ")
    ensures EndsWith(t, ", size " + size)
  {
    var head := "File " + path + " from S3 bucket ";
    var tail := ", size " + size;
    var t := head + bucket + tail;
    assert t[..|head|] == head;
    assert t[|t| - |tail|..] == tail;
    t
  }

  /** S3: as in the earlier hubs, but a non-text object's message names the file. */
  function S3Extract2(event: Json, objectText: string): (r: Result<Extracted>)
    ensures r.Ok? ==> RecordOf(event).Some? && StrAt(RecordOf(event).value, ["s3", "object", "key"]).Some?
    ensures r.Ok? ==> (var path := S3Path(StrAt(RecordOf(event).value, ["s3", "object", "key"]).value);
      r.value.message == (if IsTxt(path) then JStr(objectText) else JStr("File " + path + " is not .txt")))
  {
    match RecordOf(event)
    case None => Err(LookupFailed)
    case Some(record) =>
      var arnName := LastColonPartAt(record, ["s3", "bucket", "arn"]);
      var size := At(record, ["s3", "object", "size"]);
      var bucket := At(record, ["s3", "bucket", "name"]);
      var key := StrAt(record, ["s3", "object", "key"]);
      if arnName.None? || size.None? || bucket.None? || key.None? then Err(LookupFailed)
      else
        var path := S3Path(key.value);
        var message := if IsTxt(path) then JStr(objectText) else JStr("File " + path + " is not .txt");
        Ok(Extracted(JStr("aws:s3" + arnName.value), message, S3Information2(path, PyStr(bucket.value), PyStr(size.value))))
  }

  /** EC2: `event.get("message", "No message")`; `get` raises on anything but a dictionary. */
  function Ec2Extract(event: Json): (r: Result<Extracted>)
    ensures r.Ok? <==> event.JObj?
    ensures r.Ok? && Get(event, "message").None? ==> r.value.message == JStr("No message")
    ensures r.Ok? && Get(event, "message").Some? ==> r.value.message == Get(event, "message").value
  {
    if !event.JObj? then Err("'AWS:EC2' event has no attribute 'get'")
    else
      var message := match Get(event, "message") case Some(m) => m case None => JStr("No message");
      Ok(Extracted(JStr("AWS:EC2"), message, "Event from EC2"))
  }

  /**
   * The proxy body: `event.get('body', '{}')`, `'{}'` for None, decoded when
   * a string (`loads` is json.loads, None when it raises); a dictionary
   * gives its `message` (or itself), anything else itself. A failure gives
   * 'Error parsing Proxy Body: ' and the exception's text, `error`.
   */
  function ProxyMessage(event: Json, loads: string -> Option<Json>, error: string): (m: string)
    ensures !event.JObj? ==> m == "Error parsing Proxy Body: " + error
    ensures event.JObj? && Get(event, "body") == Some(JStr("")) && loads("").None? ==> m == "Error parsing Proxy Body: " + error
    ensures (event.JObj? && Get(event, "body").Some? && Get(event, "body").value.JObj?) ==>
      m == PyStr(match Get(Get(event, "body").value, "message") case Some(v) => v case None => Get(event, "body").value)
  {
    if !event.JObj? then "Error parsing Proxy Body: " + error
    else
      var raw := match Get(event, "body") case None => JStr("{}") case Some(JNull) => JStr("{}") case Some(b) => b;
      var data := if raw.JStr? then loads(raw.s) else Some(raw);
      match data
      case None => "Error parsing Proxy Body: " + error
      case Some(d) =>
        if d.JObj? then PyStr(match Get(d, "message") case Some(v) => v case None => d)
        else PyStr(d)
  }

  /** The non-proxy message: `str(event.get("message", event))`, or str(event) when `get` raises. */
  function ServiceMessage(event: Json): (m: string)
    ensures event.JObj? && Get(event, "message").Some? ==> m == PyStr(Get(event, "message").value)
    ensures !(event.JObj? && Get(event, "message").Some?) ==> m == PyStr(event)
  {
    if event.JObj? then PyStr(match Get(event, "message") case Some(v) => v case None => event)
    else PyStr(event)
  }

  /** The API branch in the given integration mode. */
  function ApiExtract2(event: Json, mode: string, loads: string -> Option<Json>, error: string): (x: Extracted)
    ensures x.eventSource == JStr("API")
    ensures x.information == "Event from API (Mode: " + mode + ")"
    ensures mode == "PROXY" ==> x.message == JStr(ProxyMessage(event, loads, error))
    ensures mode != "PROXY" ==> x.message == JStr(ServiceMessage(event))
  {
    var message := if mode == "PROXY" then ProxyMessage(event, loads, error) else ServiceMessage(event);
    Extracted(JStr("API"), JStr(message), "Event from API (Mode: " + mode + ")")
  }

  /** The extraction for the classified source; Kinesis records are not read (empty message and information). */
  function Extract2(event: Json, s: Source, mode: string, objectText: string, loads: string -> Option<Json>, error: string)
    : (r: Result<Extracted>)
    ensures s == Kinesis ==> r == Ok(Extracted(JStr("aws:kinesis"), JStr(""), ""))
    ensures s == Api ==> r == Ok(ApiExtract2(event, mode, loads, error))
    ensures s == Sns ==> r == SnsExtract2(event)
    ensures s == Sqs ==> r == SqsExtract(event)
    ensures s == S3 ==> r == S3Extract2(event, objectText)
    ensures s == Elb ==> r == ElbExtract(event)
    ensures s == Pipeline ==> r == PipelineExtract(event)
    ensures s == Events ==> r == EventsExtract(event)
    ensures s == Ec2 ==> r == Ec2Extract(event)
  {
    match s
    case Sns => SnsExtract2(event)
    case Sqs => SqsExtract(event)
    case S3 => S3Extract2(event, objectText)
    case Kinesis => Ok(Extracted(JStr("aws:kinesis"), JStr(""), ""))
    case Pipeline => PipelineExtract(event)
    case Events => EventsExtract(event)
    case Elb => ElbExtract(event)
    case Ec2 => Ec2Extract(event)
    case Api => Ok(ApiExtract2(event, mode, loads, error))
  }

  // ---------------------------------------------------------------------
  // Answers

  /**
   * create_response: the ALB answer for an ALB source; for an API source the
   * proxy JSON with CORS headers in PROXY mode, else the bare message; the
   * bare message for every other source.
   */
  function CreateResponse(source: string, message: string, statusCode: int, mode: string, timestamp: string): (r: Reply)
    ensures source == "aws:elb" ==> r == AlbAnswer(statusCode, message)
    ensures source == "API" && mode == "PROXY" ==> r.ProxyReply? && r.statusCode == statusCode
    ensures source == "API" && mode == "PROXY" ==>
      r == ProxyReply(statusCode, [("Content-Type", "application/json"), ("Access-Control-Allow-Origin", "*")],
                      "Message processed", message, timestamp)
    ensures source == "API" && mode != "PROXY" ==> r == TextReply(message)
    ensures source != "aws:elb" && source != "API" ==> r == TextReply(message)
  {
    if source == "aws:elb" then AlbAnswer(statusCode, message)
    else if source == "API" && mode == "PROXY" then
      ProxyReply(statusCode, [("Content-Type", "application/json"), ("Access-Control-Allow-Origin", "*")],
                 "Message processed", message, timestamp)
    else TextReply(message)
  }

  /**
   * process_codepipeline: SUCCESS after the artifact step, FAILED (500) when
   * any of it raises. The input's `bucketName` is read only for a `.txt` key.
   */
  function ProcessPipeline(event: Json, artifactText: string): (r: (Reply, Option<ArtifactPut>))
    ensures ArtifactCopy(event, artifactText, false).Ok? ==>
      r == (PipelineReply(200, "SUCCESS"), ArtifactCopy(event, artifactText, false).value)
    ensures ArtifactCopy(event, artifactText, false).Err? ==> r == (PipelineReply(500, "FAILED"), None)
  {
    match ArtifactCopy(event, artifactText, false)
    case Ok(put) => (PipelineReply(200, "SUCCESS"), put)
    case Err(_) => (PipelineReply(500, "FAILED"), None)
  }

  /** A job whose first input is not a `.txt` key succeeds without writing, with or without a `bucketName`. */
  lemma NonTextJobSucceeds(event: Json, artifactText: string)
    requires JobReadable(event)
    requires Truthy(JobData(event, "inputArtifacts").value) && First(JobData(event, "inputArtifacts").value).Some?
    requires var artifact := First(JobData(event, "inputArtifacts").value).value;
      && StrAt(artifact, ["location", "s3Location", "objectKey"]).Some?
      && !EndsWith(StrAt(artifact, ["location", "s3Location", "objectKey"]).value, ".txt")
    ensures ProcessPipeline(event, artifactText) == (PipelineReply(200, "SUCCESS"), None)
  {
    NonTextArtifactSkipped(event, artifactText, false);
  }

  // ---------------------------------------------------------------------
  // The handler

  /** What one invocation produces; `newMessage` is None when the loop guard stopped it. */
  datatype Outcome = Outcome(eventSource: string, newMessage: Option<string>, reply: Reply, artifact: Option<ArtifactPut>)

  /** `LambdaName in Message`; None is the TypeError of a message that is neither text nor a container. */
  function LoopFound(name: string, message: Json): Option<bool> {
    PyIn(name, message)
  }

  /**
   * lambda_handler: classify, extract (Err is a lookup that raises), stop
   * with 'Loop prevented' when the message mentions the Lambda's name, else
   * build the outgoing message and answer. `now` and `timestamp` are the
   * two readings of the clock.
   */
  function Handle(event: Json, name: string, mode: string, now: string, timestamp: string, objectText: string,
                  artifactText: string, loads: string -> Option<Json>, error: string): (r: Result<Outcome>)
    ensures Extract2(event, Classify(event), mode, objectText, loads, error).Err? ==> r.Err?
    ensures Extract2(event, Classify(event), mode, objectText, loads, error).Ok? ==>
      (var x := Extract2(event, Classify(event), mode, objectText, loads, error).value;
       var source := PyStr(x.eventSource);
       && (LoopFound(name, x.message).None? <==> r.Err?)
       && (r.Ok? ==> r.value.eventSource == source)
       && (LoopFound(name, x.message) == Some(true) ==>
             r.value.newMessage.None? && r.value.artifact.None?
             && r.value.reply == CreateResponse(source, "Loop prevented", 200, mode, timestamp))
       && (LoopFound(name, x.message) == Some(false) ==>
             && r.value.newMessage == Some(NewMessage("Lambda", name, source, now, PyStr(x.message)))
             && r.value.reply == (if source == "aws:codepipeline" then ProcessPipeline(event, artifactText).0
                                  else CreateResponse(source, r.value.newMessage.value, 200, mode, timestamp))
             && r.value.artifact == (if source == "aws:codepipeline" then ProcessPipeline(event, artifactText).1
                                     else None)))
  {
    match Extract2(event, Classify(event), mode, objectText, loads, error)
    case Err(e) => Err(e)
    case Ok(x) =>
      var source := PyStr(x.eventSource);
      match LoopFound(name, x.message)
      case None => Err("argument of type is not iterable")
      case Some(found) =>
        if found then Ok(Outcome(source, None, CreateResponse(source, "Loop prevented", 200, mode, timestamp), None))
        else
          var newMessage := NewMessage("Lambda", name, source, now, PyStr(x.message));
          if source == "aws:codepipeline" then
            var (reply, put) := ProcessPipeline(event, artifactText);
            Ok(Outcome(source, Some(newMessage), reply, put))
          else Ok(Outcome(source, Some(newMessage), CreateResponse(source, newMessage, 200, mode, timestamp), None))
  }

  /** With an empty Lambda name every text message is taken for a loop, so nothing is forwarded. */
  lemma EmptyNameAlwaysPrevented(event: Json, mode: string, now: string, timestamp: string, objectText: string,
                                 artifactText: string, loads: string -> Option<Json>, error: string)
    requires Extract2(event, Classify(event), mode, objectText, loads, error).Ok?
    requires Extract2(event, Classify(event), mode, objectText, loads, error).value.message.JStr?
    ensures Handle(event, "", mode, now, timestamp, objectText, artifactText, loads, error).Ok?
    ensures Handle(event, "", mode, now, timestamp, objectText, artifactText, loads, error).value.newMessage.None?
  {
    var x := Extract2(event, Classify(event), mode, objectText, loads, error).value;
    assert OccursAt(x.message.s, "", 0);
    assert LoopFound("", x.message) == Some(true);
  }

  /** The SNS source is `aws:sns:` and the topic, the text after the ARN's last colon. */
  lemma SnsSourceHasColon(event: Json, arn: string, topic: string)
    requires RecordOf(event).Some? && StrAt(RecordOf(event).value, ["Sns", "TopicArn"]) == Some(arn + ":" + topic)
    requires Free(topic, ':')
    requires SnsExtract2(event).Ok?
    ensures SnsExtract2(event).value.eventSource == JStr("aws:sns:" + topic)
  {
    LastPartOfJoined(arn, ':', topic);
    assert arn + ":" + topic == arn + [':'] + topic;
  }

  // ---------------------------------------------------------------------
  // The module-level target loops

  /**
   * One target loop of this hub: indices are read while the upper-case
   * name variable is set, and each keeps its name and its companion
   * variable (the SQS queue URL, the SNS topic ARN, the S3 or EC2 region,
   * the EFS access point path) as read, None when unset.
   */
  method PairedTargets(env: Env, nameVar: string, valueVar: string) returns (names: seq<string>, values: seq<Option<string>>)
    ensures |names| == |values|
    ensures forall j :: 0 <= j < |names| ==> Getenv(env, IndexedName(nameVar, j)) == Some(names[j])
    ensures forall j :: 0 <= j < |values| ==> values[j] == Getenv(env, IndexedName(valueVar, j))
    ensures IndexedName(nameVar, |names|) !in env
  {
    var all := [nameVar] + [valueVar];
    var found := Scan(env, [nameVar], [valueVar], false);
    ListedOne(env, nameVar, |found|);
    names, values := [], [];
    for j := 0 to |found|
      invariant |names| == j && |values| == j
      invariant forall k :: 0 <= k < j ==> Getenv(env, IndexedName(nameVar, k)) == Some(names[k])
      invariant forall k :: 0 <= k < j ==> values[k] == Getenv(env, IndexedName(valueVar, k))
    {
      ListedOne(env, nameVar, j);
      var read := found[j];
      assert read == ReadAt(env, all, j);
      assert read[0] == Getenv(env, IndexedName(all[0], j));
      assert read[1] == Getenv(env, IndexedName(all[1], j));
      names := names + [read[0].value];
      values := values + [read[1]];
    }
  }

  /** The SSM parameter loop stops at the first index whose name or region is unset. */
  method SsmTargets(env: Env) returns (names: seq<string>, regions: seq<string>)
    ensures |names| == |regions|
    ensures forall j :: 0 <= j < |names| ==> Getenv(env, IndexedName("AWS_SSM_PARAMETER_TARGET_NAME_", j)) == Some(names[j])
    ensures forall j :: 0 <= j < |regions| ==> Getenv(env, IndexedName("AWS_SSM_PARAMETER_TARGET_REGION_", j)) == Some(regions[j])
    ensures IndexedName("AWS_SSM_PARAMETER_TARGET_NAME_", |names|) !in env
      || IndexedName("AWS_SSM_PARAMETER_TARGET_REGION_", |names|) !in env
  {
    var required := ["AWS_SSM_PARAMETER_TARGET_NAME_", "AWS_SSM_PARAMETER_TARGET_REGION_"];
    var found := Scan(env, required, [], false);
    assert required + [] == required;
    assert !Listed(env, required, |found|, false);
    names, regions := [], [];
    for j := 0 to |found|
      invariant |names| == j && |regions| == j
      invariant forall k :: 0 <= k < j ==> Getenv(env, IndexedName(required[0], k)) == Some(names[k])
      invariant forall k :: 0 <= k < j ==> Getenv(env, IndexedName(required[1], k)) == Some(regions[k])
    {
      assert Listed(env, required, j, false);
      assert IndexedName(required[0], j) in env && IndexedName(required[1], j) in env;
      var read := found[j];
      assert read == ReadAt(env, required, j);
      assert read[0] == Getenv(env, IndexedName(required[0], j));
      assert read[1] == Getenv(env, IndexedName(required[1], j));
      names := names + [read[0].value];
      regions := regions + [read[1].value];
    }
  }

  // ---------------------------------------------------------------------
  // The SSM counter

  /** `int(value) + 1`, or 0 when the read or the conversion raises; the parameter is always written. */
  function ProbeCounter(read: Option<string>): (value: string)
    ensures ParseInt(value) == Some(if read.Some? && ParseInt(read.value).Some? then ParseInt(read.value).value + 1 else 0)
  {
    if read.None? then
      ParseIntOfIntToString(0);
      IntToString(0)
    else
      NextCounterParses(read.value);
      NextCounter(read.value)
  }
}
