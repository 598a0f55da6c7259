/**
 * What the message hubs (LambdaFiles/LambdaHub.py, LambdaFiles/LambdaHub/,
 * LambdaFiles/LambdaHub2/, CodeBuild/CodeBuildHub/ and the two task hubs
 * under Docker/TaskHub/) have in common: the module-level `while True`
 * loops that enumerate numbered environment variables, the SQS URL and SNS
 * ARN formats, the database credential search, the SSM counter increment,
 * and the endpoint's host part.
 */
module HubCommon {
  import opened Common

  /** The process environment. */
  type Env = map<string, string>

  function Getenv(env: Env, name: string): (r: Option<string>)
    ensures r.Some? <==> name in env
    ensures r.Some? ==> r.value == env[name]
  {
    if name in env then Some(env[name]) else None
  }

  /** `f"{prefix}{i}"` (and `f"{prefix}{str(i)}"`). */
  function IndexedName(prefix: string, i: nat): string {
    prefix + NatToString(i)
  }

  /** Different indices name different variables. */
  lemma IndexedNameInjective(prefix: string, i: nat, j: nat)
    ensures IndexedName(prefix, i) == IndexedName(prefix, j) ==> i == j
  {
    assert IndexedName(prefix, i)[|prefix|..] == NatToString(i);
    assert IndexedName(prefix, j)[|prefix|..] == NatToString(j);
  }

  /** The variables `prefix0` .. `prefix{i-1}`. */
  ghost function NamesBelow(prefix: string, i: nat): set<string> {
    if i == 0 then {} else NamesBelow(prefix, i - 1) + {IndexedName(prefix, i - 1)}
  }

  lemma {:induction false} NotBelow(prefix: string, i: nat)
    ensures IndexedName(prefix, i) !in NamesBelow(prefix, i)
  {
    NotBelowFrom(prefix, i, i);
  }

  lemma {:induction false} NotBelowFrom(prefix: string, i: nat, k: nat)
    requires k <= i
    ensures IndexedName(prefix, i) !in NamesBelow(prefix, k)
  {
    if k > 0 {
      NotBelowFrom(prefix, i, k - 1);
      IndexedNameInjective(prefix, i, k - 1);
    }
  }

  /** Taking one more member out of a finite set leaves fewer. */
  lemma RemoveOneMore<T>(a: set<T>, s: set<T>, k: T)
    requires k in a && k !in s
    ensures |a - (s + {k})| < |a - s|
  {
    assert a - s == (a - (s + {k})) + {k};
  }

  // ---------------------------------------------------------------------
  // Enumerating numbered variables

  /**
   * Index `i` is listed when every required variable is set: `is not None`
   * when `truthy` is false, non-empty as well when the loop tests truthiness.
   */
  predicate Listed(env: Env, required: seq<string>, i: nat, truthy: bool) {
    forall k :: 0 <= k < |required| ==>
      IndexedName(required[k], i) in env && (!truthy || env[IndexedName(required[k], i)] != "")
  }

  /** The variables read for index `i`, in the order of `prefixes`. */
  function ReadAt(env: Env, prefixes: seq<string>, i: nat): (vs: seq<Option<string>>)
    ensures |vs| == |prefixes|
    ensures forall k :: 0 <= k < |prefixes| ==> vs[k] == Getenv(env, IndexedName(prefixes[k], i))
  {
    seq(|prefixes|, k requires 0 <= k < |prefixes| => Getenv(env, IndexedName(prefixes[k], i)))
  }

  /**
   * One module-level loop: indices 0, 1, ... are read until the first one
   * whose required variables are not all set; each listed index contributes
   * its required and then its optional variables. The loop ends because the
   * environment is finite and every index names a new variable.
   */
  method Scan(env: Env, required: seq<string>, optional: seq<string>, truthy: bool) returns (found: seq<seq<Option<string>>>)
    requires |required| >= 1
    ensures forall j :: 0 <= j < |found| ==> Listed(env, required, j, truthy)
    ensures forall j :: 0 <= j < |found| ==> found[j] == ReadAt(env, required + optional, j)
    ensures !Listed(env, required, |found|, truthy)
  {
    found := [];
    var i := 0;
    while Listed(env, required, i, truthy)
      invariant i == |found|
      invariant forall j :: 0 <= j < i ==> Listed(env, required, j, truthy)
      invariant forall j :: 0 <= j < i ==> found[j] == ReadAt(env, required + optional, j)
      invariant NamesBelow(required[0], i) <= env.Keys
      decreases |env.Keys - NamesBelow(required[0], i)|
    {
      NotBelow(required[0], i);
      RemoveOneMore(env.Keys, NamesBelow(required[0], i), IndexedName(required[0], i));
      ghost var before := found;
      found := found + [ReadAt(env, required + optional, i)];
      forall j | 0 <= j < i + 1 ensures Listed(env, required, j, truthy) && found[j] == ReadAt(env, required + optional, j) {
        if j < i {
          assert found[j] == before[j];
        }
      }
      i := i + 1;
    }
  }

  /** Python's f-string rendering of a value that may be None. */
  function Shown(v: Option<string>): string {
    if v.Some? then v.value else "None"
  }

  // ---------------------------------------------------------------------
  // Queue URLs and topic ARNs

  /** `f"https://sqs.{Region}.amazonaws.com/{Account}/{Name}"`. */
  function SqsUrl(region: Option<string>, account: Option<string>, name: string): string {
    "https://sqs." + Shown(region) + ".amazonaws.com/" + Shown(account) + "/" + name
  }

  /** `f"arn:aws:sns:{Region}:{Account}:{Name}"`. */
  function SnsArn(region: Option<string>, account: Option<string>, name: string): string {
    "arn:aws:sns:" + Shown(region) + ":" + Shown(account) + ":" + name
  }

  /** A target found by a scan: its name and the queue URL or topic ARN built for it. */
  datatype Target = Target(name: string, address: string)

  /** The target of one index: `name` with the URL or ARN built from it and its region and account. */
  function TargetOf(name: string, region: Option<string>, account: Option<string>, sns: bool): (t: Target)
    ensures t.name == name
    ensures !sns ==> t.address == SqsUrl(region, account, name)
    ensures sns ==> t.address == SnsArn(region, account, name)
  {
    Target(name, if sns then SnsArn(region, account, name) else SqsUrl(region, account, name))
  }

  /**
   * One of the SQS or SNS loops: the name, region and account variables of
   * i = 0, 1, ... (the name compared with `is not None`) until a name is missing.
   */
  method ScanTargets(env: Env, nameVar: string, regionVar: string, accountVar: string, sns: bool) returns (targets: seq<Target>)
    ensures forall j :: 0 <= j < |targets| ==> IndexedName(nameVar, j) in env
    ensures IndexedName(nameVar, |targets|) !in env
    ensures forall j :: 0 <= j < |targets| ==>
      targets[j] == TargetOf(env[IndexedName(nameVar, j)],
                             Getenv(env, IndexedName(regionVar, j)),
                             Getenv(env, IndexedName(accountVar, j)), sns)
  {
    var names := [nameVar];
    var found := Scan(env, names, [regionVar, accountVar], false);
    var all := names + [regionVar, accountVar];
    assert all[0] == nameVar && all[1] == regionVar && all[2] == accountVar;
    ListedOne(env, nameVar, |found|);
    targets := [];
    var j := 0;
    while j < |found|
      invariant 0 <= j <= |found| && |targets| == j
      invariant forall k :: 0 <= k < j ==>
        IndexedName(nameVar, k) in env &&
        targets[k] == TargetOf(env[IndexedName(nameVar, k)],
                               Getenv(env, IndexedName(regionVar, k)),
                               Getenv(env, IndexedName(accountVar, k)), sns)
    {
      ListedOne(env, nameVar, j);
      var read := found[j];
      assert read == ReadAt(env, all, j);
      assert read[0] == Getenv(env, IndexedName(all[0], j));
      assert read[1] == Getenv(env, IndexedName(all[1], j));
      assert read[2] == Getenv(env, IndexedName(all[2], j));
      ghost var before := targets;
      targets := targets + [TargetOf(read[0].value, read[1], read[2], sns)];
      forall k | 0 <= k < j + 1
        ensures IndexedName(nameVar, k) in env &&
          targets[k] == TargetOf(env[IndexedName(nameVar, k)],
                                 Getenv(env, IndexedName(regionVar, k)),
                                 Getenv(env, IndexedName(accountVar, k)), sns)
      {
        if k < j { assert targets[k] == before[k]; }
      }
      j := j + 1;
    }
  }

  /** The SQS targets `aws_sqs_queue_Target_*` of the first Lambda hub and the earlier TaskHub service. */
  method SqsTargets(env: Env) returns (targets: seq<Target>)
    ensures forall j :: 0 <= j < |targets| ==>
      targets[j].address == SqsUrl(Getenv(env, IndexedName("aws_sqs_queue_Target_Region_", j)),
        Getenv(env, IndexedName("aws_sqs_queue_Target_Account_", j)), targets[j].name)
    ensures forall j :: 0 <= j < |targets| ==> Getenv(env, IndexedName("aws_sqs_queue_Target_Name_", j)) == Some(targets[j].name)
    ensures IndexedName("aws_sqs_queue_Target_Name_", |targets|) !in env
  {
    targets := ScanTargets(env, "aws_sqs_queue_Target_Name_", "aws_sqs_queue_Target_Region_", "aws_sqs_queue_Target_Account_", false);
  }

  /** The SNS targets `aws_sns_topic_Target_*` of the same two hubs. */
  method SnsTargets(env: Env) returns (targets: seq<Target>)
    ensures forall j :: 0 <= j < |targets| ==>
      targets[j].address == SnsArn(Getenv(env, IndexedName("aws_sns_topic_Target_Region_", j)),
        Getenv(env, IndexedName("aws_sns_topic_Target_Account_", j)), targets[j].name)
    ensures forall j :: 0 <= j < |targets| ==> Getenv(env, IndexedName("aws_sns_topic_Target_Name_", j)) == Some(targets[j].name)
    ensures IndexedName("aws_sns_topic_Target_Name_", |targets|) !in env
  {
    targets := ScanTargets(env, "aws_sns_topic_Target_Name_", "aws_sns_topic_Target_Region_", "aws_sns_topic_Target_Account_", true);
  }

  /** With a single required variable, an index is listed when that variable is set. */
  lemma ListedOne(env: Env, name: string, i: nat)
    ensures Listed(env, [name], i, false) <==> IndexedName(name, i) in env
  {
    assert [name][0] == name;
  }

  /** The text after the last `sep` of `prefix + sep + name` is the name, when the name has no `sep`. */
  lemma LastPartOfJoined(prefix: string, sep: char, name: string)
    requires Free(name, sep)
    ensures LastPart(prefix + [sep] + name, [sep]) == name
  {
    SplitConcat(prefix, name, sep);
    FreeNotContains(name, sep);
    assert Split(name, [sep]) == [name];
  }

  /** The queue name is what follows the URL's last `/`. */
  lemma SqsUrlName(region: Option<string>, account: Option<string>, name: string)
    requires Free(name, '/')
    ensures LastPart(SqsUrl(region, account, name), "/") == name
  {
    var prefix := "https://sqs." + Shown(region) + ".amazonaws.com/" + Shown(account);
    assert SqsUrl(region, account, name) == prefix + "/" + name;
    LastPartOfJoined(prefix, '/', name);
  }

  /** The topic name is what follows the ARN's last `:`, the segment the hubs read back from an SNS event. */
  lemma SnsArnName(region: Option<string>, account: Option<string>, name: string)
    requires Free(name, ':')
    ensures LastPart(SnsArn(region, account, name), ":") == name
  {
    var prefix := "arn:aws:sns:" + Shown(region) + ":" + Shown(account);
    assert SnsArn(region, account, name) == prefix + ":" + name;
    LastPartOfJoined(prefix, ':', name);
  }

  // ---------------------------------------------------------------------
  // Database credentials

  /** `[SecretName, username, password]` of a fetched secret. */
  datatype Secret = Secret(name: string, username: string, password: string)

  /** The first secret whose name contains the database name. */
  function FirstContaining(database: string, secrets: seq<Secret>): (r: Option<nat>)
    ensures r.Some? ==> r.value < |secrets| && Contains(secrets[r.value].name, database)
    ensures r.Some? ==> forall j :: 0 <= j < r.value ==> !Contains(secrets[j].name, database)
    ensures r.None? ==> forall j :: 0 <= j < |secrets| ==> !Contains(secrets[j].name, database)
  {
    if |secrets| == 0 then None
    else if Contains(secrets[0].name, database) then Some(0)
    else match FirstContaining(database, secrets[1..])
      case None => None
      case Some(k) => Some(k + 1)
  }

  /**
   * The credential loop: the first matching secret wins; with no match the
   * first secret is used when `firstAsFallback` (and there is one), else
   * the placeholders.
   */
  method SelectCredentials(database: string, secrets: seq<Secret>, firstAsFallback: bool, placeholder: (string, string))
    returns (username: string, password: string)
    ensures FirstContaining(database, secrets).Some? ==>
      var s := secrets[FirstContaining(database, secrets).value]; username == s.username && password == s.password
    ensures FirstContaining(database, secrets).None? && firstAsFallback && |secrets| > 0 ==>
      username == secrets[0].username && password == secrets[0].password
    ensures FirstContaining(database, secrets).None? && (!firstAsFallback || |secrets| == 0) ==>
      (username, password) == placeholder
  {
    username, password := placeholder.0, placeholder.1;
    var found := false;
    var j := 0;
    while j < |secrets|
      invariant 0 <= j <= |secrets|
      invariant forall k :: 0 <= k < j ==> !Contains(secrets[k].name, database)
      invariant !found && (username, password) == placeholder
    {
      if Contains(secrets[j].name, database) {
        username, password := secrets[j].username, secrets[j].password;
        found := true;
        break;
      }
      j := j + 1;
    }
    if !found && firstAsFallback && |secrets| > 0 {
      username, password := secrets[0].username, secrets[0].password;
    }
  }

  /** `EndPoint.split(":")[0]`: the endpoint up to its first `:`. */
  function HostOf(endpoint: string): (h: string)
    ensures !Contains(h, ":") && StartsWith(endpoint, h)
    ensures !Contains(endpoint, ":") ==> h == endpoint
  {
    SplitPartsFree(endpoint, ":", 0);
    Split(endpoint, ":")[0]
  }

  /** A database target with the host and credentials the hub connects with. */
  datatype Database = Database(name: string, host: string, username: string, password: string)

  /**
   * One index of the RDS loop of the four message hubs: a missing endpoint
   * raises at `EndPoint.split` (Err); the credentials are those of the first
   * secret whose name contains the database name, else those of the first
   * secret, else `TypeNewUserName`/`TypeNewPassword`.
   */
  method MessageHubDatabase(name: string, endpoint: Option<string>, secrets: seq<Secret>) returns (r: Result<Database>)
    ensures endpoint.None? <==> r.Err?
    ensures r.Ok? ==> r.value.name == name && r.value.host == HostOf(endpoint.value)
    ensures r.Ok? && FirstContaining(name, secrets).Some? ==>
      var s := secrets[FirstContaining(name, secrets).value];
      r.value.username == s.username && r.value.password == s.password
    ensures r.Ok? && FirstContaining(name, secrets).None? && |secrets| > 0 ==>
      r.value.username == secrets[0].username && r.value.password == secrets[0].password
    ensures r.Ok? && |secrets| == 0 ==>
      r.value.username == "TypeNewUserName" && r.value.password == "TypeNewPassword"
  {
    if endpoint.None? {
      return Err("'NoneType' object has no attribute 'split'");
    }
    var username, password := SelectCredentials(name, secrets, true, ("TypeNewUserName", "TypeNewPassword"));
    r := Ok(Database(name, HostOf(endpoint.value), username, password));
  }

  // ---------------------------------------------------------------------
  // The SSM counter

  /** `str(int(value) + 1)`, or `'0'` when int() raises. */
  function NextCounter(value: string): string {
    match ParseInt(value)
    case Some(v) => IntToString(v + 1)
    case None => "0"
  }

  /** The stored text always reads back as a number: one more than before, or 0. */
  lemma NextCounterParses(value: string)
    ensures ParseInt(NextCounter(value)) == Some(if ParseInt(value).Some? then ParseInt(value).value + 1 else 0)
  {
    match ParseInt(value)
    case Some(v) => ParseIntOfIntToString(v + 1);
    case None => ParseIntOfIntToString(0);
  }

  /**
   * The SSM block of the three earlier hubs for one parameter: when the
   * read raises (None) nothing is written; otherwise the value written reads
   * back as one more than the stored number, or as 0.
   */
  function CounterWrite(read: Option<string>): (w: Option<string>)
    ensures read.None? <==> w.None?
    ensures w.Some? ==> ParseInt(w.value) == Some(if ParseInt(read.value).Some? then ParseInt(read.value).value + 1 else 0)
  {
    if read.None? then None
    else
      NextCounterParses(read.value);
      Some(NextCounter(read.value))
  }

  /** The loop over the SSM targets: the write for each target's value as read, in order. */
  method UpdateCounters(values: seq<Option<string>>) returns (writes: seq<Option<string>>)
    ensures |writes| == |values|
    ensures forall k :: 0 <= k < |values| ==> writes[k] == CounterWrite(values[k])
  {
    writes := [];
    for k := 0 to |values|
      invariant |writes| == k
      invariant forall j :: 0 <= j < k ==> writes[j] == CounterWrite(values[j])
    {
      writes := writes + [CounterWrite(values[k])];
    }
  }
}
