/**
 * The user back end's driver (CodeBuild/UserTerraformBackend/TerraBatch.py):
 * it checks two environment variables, splits the `Command` variable, reads
 * List.txt, then walks the states in order (downloading each state's files,
 * running modify_main_tf.py and InitTerraform.py), runs Copy.py after an
 * apply, and fails an unapproved destroy so that the pipeline can retry.
 * The downloads and the three scripts are outcomes given as inputs.
 */
module UserTerraBatch {
  import opened Common
  import UserCopy
  import PipelineTerraBatch

  // ---------------------------------------------------------------------
  // Start-up: environment checks, command, List.txt

  /**
   * List.txt once parsed: each key is None when it is absent. A file that
   * is missing or is not valid JSON reads as `{}`, every key absent.
   */
  datatype ListFile = ListFile(listStates: Option<seq<string>>, listStatesBlue: Option<seq<string>>,
                               approved: Option<bool>, isTest: Option<bool>)

  datatype Settings = Settings(command: UserCopy.Command, listStates: seq<string>, listStatesBlue: seq<string>,
                               approved: bool, isTest: bool)

  datatype StartupError = MissingBucket | MissingCommand

  datatype Startup = Started(settings: Settings) | Refused(error: StartupError)

  /** Python's `not x` for an environment variable: unset or empty. */
  predicate Unset(v: Option<string>) {
    v.None? || v.value == ""
  }

  function OrDefault<T>(v: Option<T>, d: T): T {
    if v.Some? then v.value else d
  }

  /** The module-level code that runs before `main`. */
  function Start(bucketName: Option<string>, command: Option<string>, listFile: Option<ListFile>): (r: Startup)
    ensures r.Refused? <==> Unset(bucketName) || Unset(command)
    ensures Unset(bucketName) ==> r == Refused(MissingBucket)
    ensures !Unset(bucketName) && Unset(command) ==> r == Refused(MissingCommand)
    ensures r.Started? ==> r.settings.command == UserCopy.ParseCommand(command.value)
  {
    if Unset(bucketName) then Refused(MissingBucket)
    else if Unset(command) then Refused(MissingCommand)
    else
      var f := OrDefault(listFile, ListFile(None, None, None, None));
      Started(Settings(UserCopy.ParseCommand(command.value), OrDefault(f.listStates, []),
                       OrDefault(f.listStatesBlue, []), OrDefault(f.approved, false), OrDefault(f.isTest, false)))
  }

  /** Without List.txt there are no states, nothing is approved and the stage is not a test stage. */
  lemma NoListFileDefaults(bucketName: string, command: string)
    requires bucketName != "" && command != ""
    ensures var r := Start(Some(bucketName), Some(command), None);
      r.Started? && r.settings.listStates == [] && r.settings.listStatesBlue == []
      && !r.settings.approved && !r.settings.isTest
  {
  }

  /** A join starts with its first piece; the rest follows. */
  lemma JoinHead(parts: seq<string>, sep: string)
    requires |parts| >= 1
    ensures Join(parts, sep) == parts[0] + Join(parts, sep)[|parts[0]|..]
  {
  }

  lemma PrefixOfConcat(p: string, y: string)
    ensures StartsWith(p + y, p)
  {
    assert (p + y)[..|p|] == p;
  }

  /** The first three pieces of a join, with their separators, start it. */
  lemma {:induction false} JoinPrefix(parts: seq<string>, sep: string)
    ensures |parts| >= 2 ==> StartsWith(Join(parts, sep), parts[0] + sep + parts[1])
    ensures |parts| >= 3 ==> StartsWith(Join(parts, sep), parts[0] + sep + parts[1] + sep + parts[2])
  {
    if |parts| >= 2 {
      var rest := Join(parts[1..], sep);
      assert Join(parts, sep) == parts[0] + sep + rest;
      JoinHead(parts[1..], sep);
      var y := rest[|parts[1]|..];
      assert Join(parts, sep) == (parts[0] + sep + parts[1]) + y;
      PrefixOfConcat(parts[0] + sep + parts[1], y);
      if |parts| >= 3 {
        var rest2 := Join(parts[2..], sep);
        assert parts[1..][1..] == parts[2..];
        assert rest == parts[1] + sep + rest2;
        JoinHead(parts[2..], sep);
        var z := rest2[|parts[2]|..];
        assert Join(parts, sep) == (parts[0] + sep + parts[1] + sep + parts[2]) + z;
        PrefixOfConcat(parts[0] + sep + parts[1] + sep + parts[2], z);
      }
    }
  }

  /**
   * The command type and the path are the first two `,` fields of the
   * variable, and the pipeline and stage the second and third `/` fields of
   * the path; a missing field reads as "".
   */
  lemma CommandFields(command: string)
    ensures var c := UserCopy.ParseCommand(command);
      && (|Split(command, ",")| >= 2 ==> StartsWith(command, c.commandType + "," + c.path))
      && (|Split(command, ",")| < 2 ==> c.commandType == command && c.path == "")
      && (|Split(c.path, "/")| >= 3 ==>
            StartsWith(c.path, Split(c.path, "/")[0] + "/" + c.pipelineName + "/" + c.stageName))
      && (|Split(c.path, "/")| < 3 ==> c.stageName == "")
      && (|Split(c.path, "/")| < 2 ==> c.pipelineName == "")
  {
    var c := UserCopy.ParseCommand(command);
    JoinSplit(command, ",");
    JoinPrefix(Split(command, ","), ",");
    JoinSplit(c.path, "/");
    JoinPrefix(Split(c.path, "/"), "/");
  }

  // ---------------------------------------------------------------------
  // main

  /** Destroy runs the states backwards (ListStates in a test stage, ListStatesBlue otherwise). */
  function StatesToProcess(s: Settings): (r: seq<string>)
    ensures s.command.commandType != "destroy" ==> r == s.listStates
    ensures s.command.commandType == "destroy" ==>
      var l := if s.isTest then s.listStates else s.listStatesBlue;
      |r| == |l| && forall i :: 0 <= i < |l| ==> r[i] == l[|l| - 1 - i]
  {
    if s.command.commandType == "destroy" then
      (if s.isTest then Reverse(s.listStates) else Reverse(s.listStatesBlue))
    else s.listStates
  }

  /** Both drivers put the states in the same order. */
  lemma OrderMatchesPipeline(s: Settings, m: PipelineTerraBatch.Manifest)
    requires m.listStates == s.listStates && m.listStatesBlue == s.listStatesBlue && m.isTest == s.isTest
    ensures StatesToProcess(s) == PipelineTerraBatch.StatesToProcess(s.command.commandType, m)
  {
  }

  /** How `main` ends: normally, by `sys.exit(1)`, or by a TypeError from storing None in os.environ. */
  datatype Status = Finished | ExitOne | EnvTypeError

  /** The states started, whether Copy.py was started, and how the run ended. */
  datatype RunEnd = RunEnd(processed: seq<string>, copyRan: bool, status: Status)

  /** The variables main sets before the loop, in its order; None means the assignment raised. */
  function ConstantVars(vars: map<string, string>, commandType: string, bucketName: string,
                        buildId: Option<string>, tableName: Option<string>, dynamoRegion: Option<string>,
                        userId: Option<string>): Option<map<string, string>>
  {
    var v := vars["COMMAND" := commandType]["AWS_S3_BUCKET_SOURCE_NAME_0" := bucketName]
                 ["CODEBUILD_BUILD_ID" := OrDefault(buildId, "")];
    if tableName.None? || dynamoRegion.None? then None
    else Some(v["AWS_DYNAMODB_TABLE_TARGET_NAME_0" := tableName.value]
               ["AWS_DYNAMODB_TABLE_TARGET_REGION_0" := dynamoRegion.value]
               ["USER_ID" := OrDefault(userId, "")])
  }

  /**
   * The environment after the loop: STATE_NAME holds the last started
   * state, set once its main.tf was downloaded.
   */
  function VarsAfter(vars: map<string, string>, processed: seq<string>, runs: string -> PipelineTerraBatch.StateRun): map<string, string>
    decreases |processed|
  {
    if |processed| == 0 then vars
    else
      var last := processed[|processed| - 1];
      var before := VarsAfter(vars, processed[..|processed| - 1], runs);
      if runs(last).hasMainTf then before["STATE_NAME" := last] else before
  }

  predicate AllStatesOk(states: seq<string>, runs: string -> PipelineTerraBatch.StateRun) {
    forall i :: 0 <= i < |states| ==> PipelineTerraBatch.StateOk(runs(states[i]))
  }

  /** The process environment that main writes to. */
  class Environment {
    var vars: map<string, string>

    constructor(vars: map<string, string>)
      ensures this.vars == vars
    {
      this.vars := vars;
    }

    /** The six assignments before the loop; a None table name or region raises. */
    method SetConstants(commandType: string, bucketName: string, buildId: Option<string>,
                        tableName: Option<string>, dynamoRegion: Option<string>, userId: Option<string>)
      returns (ok: bool)
      modifies this
      ensures ok <==> ConstantVars(old(vars), commandType, bucketName, buildId, tableName, dynamoRegion, userId).Some?
      ensures ok ==> vars == ConstantVars(old(vars), commandType, bucketName, buildId, tableName, dynamoRegion, userId).value
    {
      vars := vars["COMMAND" := commandType];
      vars := vars["AWS_S3_BUCKET_SOURCE_NAME_0" := bucketName];
      vars := vars["CODEBUILD_BUILD_ID" := if buildId.Some? then buildId.value else ""];
      if tableName.None? {
        return false;
      }
      vars := vars["AWS_DYNAMODB_TABLE_TARGET_NAME_0" := tableName.value];
      if dynamoRegion.None? {
        return false;
      }
      vars := vars["AWS_DYNAMODB_TABLE_TARGET_REGION_0" := dynamoRegion.value];
      vars := vars["USER_ID" := if userId.Some? then userId.value else ""];
      ok := true;
    }

    /**
     * The for loop over the states: each one gets its files, STATE_NAME once
     * main.tf is there, then the two scripts; the first failure exits.
     */
    method RunStates(states: seq<string>, runs: string -> PipelineTerraBatch.StateRun)
      returns (processed: seq<string>, allOk: bool)
      modifies this
      ensures allOk <==> AllStatesOk(states, runs)
      ensures allOk ==> processed == states
      ensures !allOk ==> 0 < |processed| <= |states| && processed == states[..|processed|]
                         && !PipelineTerraBatch.StateOk(runs(processed[|processed| - 1]))
      ensures forall i :: 0 <= i < |processed| - 1 ==> PipelineTerraBatch.StateOk(runs(processed[i]))
      ensures vars == VarsAfter(old(vars), processed, runs)
    {
      processed := [];
      for i := 0 to |states|
        invariant processed == states[..i]
        invariant forall j :: 0 <= j < i ==> PipelineTerraBatch.StateOk(runs(states[j]))
        invariant vars == VarsAfter(old(vars), processed, runs)
      {
        VarsAfterSnoc(old(vars), states, i, runs);
        processed := processed + [states[i]];
        var run := runs(states[i]);
        if !run.hasMainTf {
          return processed, false;
        }
        vars := vars["STATE_NAME" := states[i]];
        if !run.modifyOk || !run.initOk {
          return processed, false;
        }
      }
      assert states[..|states|] == states;
      allOk := true;
    }
  }

  lemma VarsAfterSnoc(vars: map<string, string>, states: seq<string>, i: nat, runs: string -> PipelineTerraBatch.StateRun)
    requires i < |states|
    ensures VarsAfter(vars, states[..i + 1], runs)
      == if runs(states[i]).hasMainTf then VarsAfter(vars, states[..i], runs)["STATE_NAME" := states[i]]
         else VarsAfter(vars, states[..i], runs)
  {
    assert states[..i + 1][..i] == states[..i];
  }

  /**
   * main. `runs` gives each state's downloads, modify_main_tf.py and
   * InitTerraform.py outcomes; `copyPresent` and `copyOk` say whether
   * Copy.py exists and exits with 0.
   */
  method RunMain(s: Settings, bucketName: string, buildId: Option<string>, tableName: Option<string>,
              dynamoRegion: Option<string>, userId: Option<string>, env: Environment,
              runs: string -> PipelineTerraBatch.StateRun, copyPresent: bool, copyOk: bool)
    returns (out: RunEnd)
    modifies env
    ensures (tableName.None? || dynamoRegion.None?) <==> out.status == EnvTypeError
    ensures out.status == EnvTypeError ==> out.processed == [] && !out.copyRan
    ensures out.status != EnvTypeError ==>
      var start := ConstantVars(old(env.vars), s.command.commandType, bucketName, buildId, tableName, dynamoRegion, userId);
      start.Some? && env.vars == VarsAfter(start.value, out.processed, runs)
    ensures |out.processed| <= |StatesToProcess(s)|
    ensures out.processed == StatesToProcess(s)[..|out.processed|]
    ensures forall i :: 0 <= i < |out.processed| - 1 ==> PipelineTerraBatch.StateOk(runs(out.processed[i]))
    ensures out.status != EnvTypeError && |out.processed| < |StatesToProcess(s)| ==>
      out.status == ExitOne && 0 < |out.processed| && !PipelineTerraBatch.StateOk(runs(out.processed[|out.processed| - 1]))
    ensures out.copyRan <==> (out.status != EnvTypeError && s.command.commandType == "apply"
                              && AllStatesOk(StatesToProcess(s), runs) && copyPresent)
    ensures out.status == Finished <==> (out.status != EnvTypeError && AllStatesOk(StatesToProcess(s), runs)
                                         && (s.command.commandType == "apply" ==> copyPresent && copyOk)
                                         && !(s.command.commandType == "destroy" && !s.approved))
  {
    var states := StatesToProcess(s);
    var ok := env.SetConstants(s.command.commandType, bucketName, buildId, tableName, dynamoRegion, userId);
    if !ok {
      return RunEnd([], false, EnvTypeError);
    }
    var processed, allOk := env.RunStates(states, runs);
    if !allOk {
      return RunEnd(processed, false, ExitOne);
    }
    var copyRan := false;
    if s.command.commandType == "apply" {
      if !copyPresent {
        return RunEnd(processed, false, ExitOne);
      }
      copyRan := true;
      if !copyOk {
        return RunEnd(processed, copyRan, ExitOne);
      }
    }
    if !s.approved && s.command.commandType == "destroy" {
      return RunEnd(processed, copyRan, ExitOne);
    }
    return RunEnd(processed, copyRan, Finished);
  }
}
