/**
 * The copy step of the user Terraform backend (CodeBuild/UserTerraformBackend/Copy.py).
 * In the test stage it backs the stage's Lambdas and S3 objects up into
 * one ZIP; in the other stages it restores that ZIP into the stage's own
 * Lambdas and buckets. Resource names carry one stage suffix in the test
 * stage ("s3-cloudman-test") and two elsewhere ("s3-cloudman-alpha-2"); the
 * model covers the name rules that connect the two sides, the object key of
 * the backup, the retry loop that updates a Lambda's code and the rules by
 * which a restored file becomes an S3 upload.
 */
module UserCopy {
  import opened Common
  import opened JsonValue

  // ---------------------------------------------------------------------
  // Shared string facts about '-' separated names

  /** Appending a separator and a separator-free piece adds one piece to the split. */
  lemma SplitSnoc(a: string, b: string, c: char)
    requires Free(b, c)
    ensures Split(a + [c] + b, [c]) == Split(a, [c]) + [b]
  {
    var ps := Split(a, [c]);
    var qs := ps + [b];
    JoinSplit(a, [c]);
    SplitFree(a, c);
    JoinSnoc(qs, [c]);
    assert qs[..|qs| - 1] == ps;
    SplitJoin(qs, c);
  }

  // ---------------------------------------------------------------------
  // Stage suffixes

  /** Everything before the last '-' (Python `name.rsplit('-', 1)[0]`); the name itself when it has none. */
  function StripSuffix(name: string): (r: string)
    ensures StartsWith(name, r)
    ensures Free(name, '-') <==> r == name
    ensures !Free(name, '-') ==> name[|r|] == '-' && Free(name[|r| + 1..], '-')
  {
    var i := RFind(name, '-');
    if i < 0 then name
    else
      assert name[i] == '-';
      assert forall j :: i + 1 <= j < |name| ==> name[i + 1..][j - i - 1] == name[j];
      name[..i]
  }

  /** Drops the last two '-' pieces when the name has at least three. */
  function StripTwoSuffixes(name: string): string {
    var parts := Split(name, "-");
    if |parts| >= 3 then Join(parts[..|parts| - 2], "-") else name
  }

  /** The Lambda or bucket of the development stage that backs a stage's resource. */
  function GetSourceName(targetName: string, isTestStage: bool): (r: string)
    ensures EndsWith(r, "-dev")
  {
    var base := if isTestStage then StripSuffix(targetName) else StripTwoSuffixes(targetName);
    assert (base + "-dev")[|base|..] == "-dev";
    base + "-dev"
  }

  /** One suffix stripped from a joined name removes its last piece. */
  lemma StripSuffixOfJoin(ps: seq<string>)
    requires |ps| >= 2
    requires forall k :: 0 <= k < |ps| ==> Free(ps[k], '-')
    ensures StripSuffix(Join(ps, "-")) == Join(ps[..|ps| - 1], "-")
  {
    var front := Join(ps[..|ps| - 1], "-");
    JoinSnoc(ps, "-");
    RFindAt(front, ps[|ps| - 1], '-');
    assert (front + "-" + ps[|ps| - 1])[..|front|] == front;
  }

  /** Stripping two suffixes is stripping one suffix twice, whenever there are two to strip. */
  lemma StripTwoIsStripTwice(name: string)
    ensures |Split(name, "-")| >= 3 ==> StripTwoSuffixes(name) == StripSuffix(StripSuffix(name))
    ensures |Split(name, "-")| < 3 ==> StripTwoSuffixes(name) == name
  {
    var ps := Split(name, "-");
    if |ps| >= 3 {
      JoinSplit(name, "-");
      SplitFree(name, '-');
      StripSuffixOfJoin(ps);
      var qs := ps[..|ps| - 1];
      StripSuffixOfJoin(qs);
      assert qs[..|qs| - 1] == ps[..|ps| - 2];
    }
  }

  /**
   * The two sides of a backup agree: a test-stage resource "base-s1" and a
   * later-stage resource "base-s2-s3" both map to the same "base", so the
   * backup folder written under one is the folder the other restores from,
   * and both take their code from "base-dev".
   */
  lemma BackupRestoreAgree(base: string, s1: string, s2: string, s3: string)
    requires Free(s1, '-') && Free(s2, '-') && Free(s3, '-')
    ensures StripSuffix(base + "-" + s1) == base
    ensures StripTwoSuffixes(base + "-" + s2 + "-" + s3) == base
    ensures BackupObjectDir(base + "-" + s1) == RestoreDir(base + "-" + s2 + "-" + s3)
    ensures GetSourceName(base + "-" + s1, true) == GetSourceName(base + "-" + s2 + "-" + s3, false)
  {
    StripSuffixOfBase(base, s1);
    StripTwoOfBase(base, s2, s3);
  }

  lemma StripSuffixOfBase(base: string, s1: string)
    requires Free(s1, '-')
    ensures StripSuffix(base + "-" + s1) == base
  {
    RFindAt(base, s1, '-');
    assert (base + "-" + s1)[..|base|] == base;
  }

  lemma StripTwoOfBase(base: string, s2: string, s3: string)
    requires Free(s2, '-') && Free(s3, '-')
    ensures StripTwoSuffixes(base + "-" + s2 + "-" + s3) == base
  {
    SplitSnoc(base, s2, '-');
    SplitSnoc(base + "-" + s2, s3, '-');
    var ps := Split(base, "-");
    var qs := Split(base + "-" + s2 + "-" + s3, "-");
    assert qs == ps + [s2] + [s3];
    assert qs[..|qs| - 2] == ps;
    JoinSplit(base, "-");
  }

  /** The examples given with the two strip functions. */
  lemma StripSuffixExample()
    ensures StripSuffix("s3-cloudman-test") == "s3-cloudman"
  {
    assert Free("test", '-');
    BackupRestoreAgree("s3-cloudman", "test", "x", "y");
    assert "s3-cloudman" + "-" + "test" == "s3-cloudman-test";
  }

  lemma StripSuffixNoDash()
    ensures StripSuffix("nome") == "nome"
  {
    assert Free("nome", '-');
  }

  lemma StripTwoSuffixesExample()
    ensures StripTwoSuffixes("s3-cloudman1-alpha-2") == "s3-cloudman1"
  {
    assert Free("alpha", '-') && Free("2", '-');
    BackupRestoreAgree("s3-cloudman1", "x", "alpha", "2");
    assert "s3-cloudman1" + "-" + "alpha" + "-" + "2" == "s3-cloudman1-alpha-2";
  }

  lemma StripTwoSuffixesShort()
    ensures StripTwoSuffixes("nome-beta") == "nome-beta"
  {
    assert Free("beta", '-') && Free("nome", '-');
    SplitJoin(["nome"], '-');
    SplitSnoc("nome", "beta", '-');
    assert "nome" + "-" + "beta" == "nome-beta";
  }

  // ---------------------------------------------------------------------
  // Backup naming

  /** The folder of the backup a bucket's objects are written under. */
  function BackupObjectDir(bucket: string): string {
    "S3/" + StripSuffix(bucket)
  }

  /** Where one downloaded object is stored inside the backup. */
  function BackupObjectPath(bucket: string, key: string): (r: string)
    ensures StartsWith(r, BackupObjectDir(bucket) + "/")
    ensures EndsWith(r, key)
  {
    var d := BackupObjectDir(bucket) + "/";
    assert (d + key)[..|d|] == d;
    assert (d + key)[|d + key| - |key|..] == key;
    d + key
  }

  /** The file beside it holding ContentType and Metadata. */
  function MetadataPath(path: string): string {
    path + ".metadata.json"
  }

  /** The folder a restore reads a target bucket's objects from. */
  function RestoreDir(bucket: string): string {
    "S3/" + StripTwoSuffixes(bucket)
  }

  /** The folder written for a test-stage object and the folder read for it are the same only through the base name. */
  lemma BackupPathInRestoreDir(testBucket: string, targetBucket: string, key: string)
    requires StripSuffix(testBucket) == StripTwoSuffixes(targetBucket)
    ensures StartsWith(BackupObjectPath(testBucket, key), RestoreDir(targetBucket) + "/")
  {
  }

  // ---------------------------------------------------------------------
  // Command and backup object key

  /** The pieces of the `Command` variable ("type,/pipeline/stage/..."). */
  datatype Command = Command(commandType: string, path: string, pipelineName: string, stageName: string)

  /** Python's `x[i] if len(x) > i else ''`. */
  function PieceOr(parts: seq<string>, i: nat): string {
    if |parts| > i then parts[i] else ""
  }

  /** Splits the `Command` variable; the user TerraBatch parses it the same way. */
  function ParseCommand(command: string): (c: Command)
    ensures Contains(command, ",") ==> Contains(command, c.commandType + ",")
    ensures !Contains(command, ",") ==> c.commandType == command && c.path == ""
  {
    var parts := Split(command, ",");
    var path := PieceOr(parts, 1);
    var pathParts := Split(path, "/");
    var c := Command(parts[0], path, PieceOr(pathParts, 1), PieceOr(pathParts, 2));
    SplitPrefix(command, ',');
    c
  }

  /** The first piece of a split is followed by the separator whenever there is one. */
  lemma SplitPrefix(s: string, ch: char)
    ensures !Contains(s, [ch]) ==> Split(s, [ch]) == [s]
    ensures Contains(s, [ch]) ==> Contains(s, Split(s, [ch])[0] + [ch])
  {
    match Find(s, [ch])
    case None =>
    case Some(i) =>
      var p := s[..i] + [ch];
      assert s[..i + 1] == p;
      assert OccursAt(s, p, 0);
      ContainsIff(s, p);
  }

  /** Python's str() of the `Version` read from List.txt ("None" when absent). */
  function VersionText(version: Option<string>): string {
    match version
    case None => "None"
    case Some(v) => v
  }

  /** `CopyArtifactS3Path`: empty when no command is set. */
  function CopyArtifactPath(command: string, version: Option<string>): string {
    if command == "" then ""
    else "/CopyArtifact/" + ParseCommand(command).pipelineName + "/" + VersionText(version)
  }

  /** The object key of the backup ZIP, written by the test stage and read by the others. */
  function BackupObjectKey(copyArtifactPath: string, version: Option<string>): (r: string)
    ensures EndsWith(r, "/backup_" + VersionText(version) + ".zip")
    ensures r[0] == '/' ==> StartsWith(r, "/backup_") && !Contains(copyArtifactPath, "/CopyArtifact")
  {
    var clean := LStrip(copyArtifactPath, Chars({'/'}));
    var tail := "/backup_" + VersionText(version) + ".zip";
    assert (clean + tail)[|clean + tail| - |tail|..] == tail;
    if |clean| == 0 then
      LStripAllOf(copyArtifactPath);
      assert clean + tail == tail;
      clean + tail
    else
      assert (clean + tail)[0] == clean[0];
      clean + tail
  }

  /** A path that strips to nothing is all slashes, so it holds no "/CopyArtifact". */
  lemma LStripAllOf(p: string)
    requires LStrip(p, Chars({'/'})) == ""
    ensures !Contains(p, "/CopyArtifact")
  {
    ContainsIff(p, "/CopyArtifact");
    forall i: nat | i + 13 <= |p| ensures !OccursAt(p, "/CopyArtifact", i) {
      assert p[i + 1] == p[i..i + 13][1];
    }
  }

  lemma LStripOneSlash(rest: string)
    requires |rest| > 0 && rest[0] != '/'
    ensures LStrip("/" + rest, Chars({'/'})) == rest
  {
    assert ("/" + rest)[1..] == rest;
  }

  /** With a command set, the key is "CopyArtifact/<pipeline>/<version>/backup_<version>.zip". */
  lemma BackupKeyShape(command: string, version: Option<string>)
    requires command != ""
    ensures BackupObjectKey(CopyArtifactPath(command, version), version)
      == "CopyArtifact/" + ParseCommand(command).pipelineName + "/" + VersionText(version)
         + "/backup_" + VersionText(version) + ".zip"
  {
    var p := ParseCommand(command).pipelineName;
    var v := VersionText(version);
    var rest := "CopyArtifact/" + p + "/" + v;
    assert CopyArtifactPath(command, version) == "/" + rest;
    assert rest[0] == 'C';
    LStripOneSlash(rest);
  }

  /** The stage decides the branch: backup in "test" (any case), restore otherwise. */
  predicate IsBackupStage(command: string) {
    command != "" && Lower(ParseCommand(command).stageName) == "test"
  }

  // ---------------------------------------------------------------------
  // Updating a Lambda's code with retries

  /** How one update_function_code call ends. */
  datatype UpdateOutcome = Updated | ResourceConflict | OtherError

  function Pow2(k: nat): (r: nat)
    ensures r >= 1
  {
    if k == 0 then 1 else 2 * Pow2(k - 1)
  }

  /** The waits after the first `k` conflicts: 2, 4, ..., 2^k seconds. */
  function Waits(k: nat): (w: seq<nat>)
    ensures |w| == k
    ensures forall i :: 0 <= i < k ==> w[i] == Pow2(i + 1)
  {
    if k == 0 then [] else Waits(k - 1) + [Pow2(k)]
  }

  function Sum(s: seq<nat>): nat {
    if |s| == 0 then 0 else Sum(s[..|s| - 1]) + s[|s| - 1]
  }

  /** All the waiting a run can do: 2 + 4 + ... + 2^k = 2^(k+1) - 2 (62 seconds for five retries). */
  lemma {:induction false} TotalWait(k: nat)
    ensures Sum(Waits(k)) == Pow2(k + 1) - 2
  {
    if k > 0 {
      TotalWait(k - 1);
      assert Waits(k)[..k - 1] == Waits(k - 1);
    }
  }

  /**
   * upload_lambda_code: calls update_function_code while fewer than
   * `maxRetries` conflicts have been seen, sleeping 2^attempt seconds after
   * each conflict; returns on success and gives up on any other error.
   * `outcome(i)` is how the (i+1)-th call ends.
   */
  method UploadLambdaCode(maxRetries: int, outcome: nat -> UpdateOutcome)
    returns (calls: nat, sleeps: seq<nat>, updated: bool)
    ensures calls <= if maxRetries < 0 then 0 else maxRetries
    ensures forall i :: 0 <= i < calls - 1 ==> outcome(i) == ResourceConflict
    ensures updated <==> calls > 0 && outcome(calls - 1) == Updated
    ensures calls < maxRetries ==> calls > 0 && outcome(calls - 1) != ResourceConflict
    ensures sleeps == Waits(if calls > 0 && outcome(calls - 1) != ResourceConflict then calls - 1 else calls)
  {
    var attempt: nat := 0;
    calls, sleeps, updated := 0, [], false;
    var stopped := false;
    while attempt < maxRetries && !stopped
      invariant calls == if stopped then attempt + 1 else attempt
      invariant forall i :: 0 <= i < attempt ==> outcome(i) == ResourceConflict
      invariant sleeps == Waits(attempt)
      invariant !stopped ==> !updated
      invariant stopped ==> outcome(attempt) != ResourceConflict && (updated <==> outcome(attempt) == Updated)
      invariant attempt <= if maxRetries < 0 then 0 else maxRetries
      invariant stopped ==> attempt < maxRetries
      decreases maxRetries - attempt, if stopped then 0 else 1
    {
      calls := calls + 1;
      match outcome(attempt)
      case Updated =>
        updated := true;
        stopped := true;
      case ResourceConflict =>
        attempt := attempt + 1;
        sleeps := sleeps + [Pow2(attempt)];
      case OtherError =>
        stopped := true;
    }
  }

  /** With the default of five retries, the waits are 2, 4, 8, 16 and 32 seconds, 62 in all. */
  lemma DefaultRetryWaits()
    ensures Waits(5) == [2, 4, 8, 16, 32]
    ensures Sum(Waits(5)) == 62
  {
    assert Pow2(1) == 2 && Pow2(2) == 4 && Pow2(3) == 8;
    assert Pow2(4) == 16 && Pow2(5) == 32 && Pow2(6) == 64;
    TotalWait(5);
  }

  // ---------------------------------------------------------------------
  // Restoring a bucket from the extracted backup

  /** A metadata file beside a restored object: absent, not JSON, or the decoded value. */
  datatype MetaFile = NoMetaFile | Unreadable | MetaJson(value: Json)

  /** One regular file found under the bucket's restore folder, in walk order. */
  datatype BackupFile = BackupFile(
    relPath: string,               // path relative to the folder, with the OS separator
    meta: MetaFile,                // `<file>.metadata.json`
    guessedType: Option<string>)   // mimetypes.guess_type

  /** The ExtraArgs of one upload_fileobj call; `metadata` is None when no Metadata is sent. */
  datatype S3Upload = S3Upload(bucket: string, key: string, contentType: Json, metadata: Option<Json>)

  datatype RestoreOutcome =
    | InvalidTarget          // the ListS3 entry is not [bucket, region, account]
    | NoBackupFolder         // S3/<base> is not in the backup
    | ClientFailed           // the S3 client could not be created
    | Restored(uploads: seq<S3Upload>)
    /** A metadata file that is not JSON or not an object ends the script. */
    | Crashed(uploads: seq<S3Upload>)

  const DefaultContentType := "binary/octet-stream"

  predicate IsMetadataFile(f: BackupFile, sep: char) {
    EndsWith(LastPart(f.relPath, [sep]), ".metadata.json")
  }

  /** The object key: the relative path with the OS separator turned into '/'. */
  function ObjectKey(relPath: string, sep: char): string {
    ReplaceAll(relPath, [sep], "/")
  }

  /** Content type and metadata of a file's upload; None when reading its metadata file fails. */
  function ExtraArgs(f: BackupFile): Option<(Json, Option<Json>)> {
    match f.meta
    case NoMetaFile =>
      Some((JStr(if f.guessedType.Some? then f.guessedType.value else DefaultContentType), None))
    case Unreadable => None
    case MetaJson(m) =>
      if !m.JObj? then None
      else
        var ct := match Get(m, "ContentType") case Some(v) => v case None => JStr(DefaultContentType);
        var md := match Get(m, "Metadata") case Some(v) => v case None => JObj([]);
        Some((ct, Some(md)))
  }

  /** The uploads the walk makes over the first files, and whether it crashed. */
  function WalkSpec(bucket: string, files: seq<BackupFile>, sep: char): (seq<S3Upload>, bool)
    decreases |files|
  {
    if |files| == 0 then ([], false)
    else
      var prev := WalkSpec(bucket, files[..|files| - 1], sep);
      var f := files[|files| - 1];
      if prev.1 || IsMetadataFile(f, sep) then prev
      else match ExtraArgs(f)
        case None => (prev.0, true)
        case Some(args) => (prev.0 + [S3Upload(bucket, ObjectKey(f.relPath, sep), args.0, args.1)], false)
  }

  function RestoreSpec(target: seq<string>, folderExists: bool, clientOk: bool, files: seq<BackupFile>, sep: char): RestoreOutcome {
    if |target| != 3 then InvalidTarget
    else if !folderExists then NoBackupFolder
    else if !clientOk then ClientFailed
    else
      var w := WalkSpec(target[0], files, sep);
      if w.1 then Crashed(w.0) else Restored(w.0)
  }

  /**
   * upload_s3_from_backup for one ListS3 entry. `folderExists` is whether
   * S3/<strip_two_suffixes(bucket)> is in the backup, `files` the walk's
   * files below it and `sep` the OS path separator. A failing upload is only
   * logged, so every file the walk reaches yields its call.
   */
  method UploadS3FromBackup(target: seq<string>, folderExists: bool, clientOk: bool, files: seq<BackupFile>, sep: char)
    returns (out: RestoreOutcome)
    ensures out == RestoreSpec(target, folderExists, clientOk, files, sep)
  {
    if |target| != 3 {
      return InvalidTarget;
    }
    if !folderExists {
      return NoBackupFolder;
    }
    if !clientOk {
      return ClientFailed;
    }
    var bucket := target[0];
    var uploads: seq<S3Upload> := [];
    var i := 0;
    while i < |files|
      invariant 0 <= i <= |files|
      invariant WalkSpec(bucket, files[..i], sep) == (uploads, false)
    {
      var f := files[i];
      assert files[..i + 1][..i] == files[..i];
      if !IsMetadataFile(f, sep) {
        var args := ExtraArgs(f);
        if args.None? {
          assert files[..i + 1] == files[..i + 1];
          CrashStays(bucket, files, i + 1, sep);
          return Crashed(uploads);
        }
        uploads := uploads + [S3Upload(bucket, ObjectKey(f.relPath, sep), args.value.0, args.value.1)];
      }
      i := i + 1;
    }
    assert files[..|files|] == files;
    return Restored(uploads);
  }

  /** Once the walk has crashed, later files change nothing. */
  lemma {:induction false} CrashStays(bucket: string, files: seq<BackupFile>, k: nat, sep: char)
    requires k <= |files|
    requires WalkSpec(bucket, files[..k], sep).1
    ensures WalkSpec(bucket, files, sep) == WalkSpec(bucket, files[..k], sep)
    decreases |files| - k
  {
    if k < |files| {
      assert files[..k + 1][..k] == files[..k];
      CrashStays(bucket, files, k + 1, sep);
    } else {
      assert files[..k] == files;
    }
  }

  /** The restore refuses any ListS3 entry that is not a triple, whatever the backup holds. */
  lemma RestoreNeedsTriple(target: seq<string>, folderExists: bool, clientOk: bool, files: seq<BackupFile>, sep: char)
    requires |target| != 3
    ensures RestoreSpec(target, folderExists, clientOk, files, sep) == InvalidTarget
  {
  }

  /** Each upload comes from a file of the walk that is not a metadata file, under its own key, to the target bucket. */
  lemma {:induction false} UploadsFromDataFiles(bucket: string, files: seq<BackupFile>, sep: char)
    ensures forall u :: u in WalkSpec(bucket, files, sep).0 ==>
      u.bucket == bucket &&
      exists k :: 0 <= k < |files| && !IsMetadataFile(files[k], sep) && u.key == ObjectKey(files[k].relPath, sep)
    decreases |files|
  {
    if |files| > 0 {
      var init := files[..|files| - 1];
      UploadsFromDataFiles(bucket, init, sep);
      assert forall k :: 0 <= k < |init| ==> init[k] == files[k];
    }
  }

  /** A walk that never crashes uploads every data file, in walk order. */
  lemma {:induction false} UploadsAllDataFiles(bucket: string, files: seq<BackupFile>, sep: char)
    requires forall k :: 0 <= k < |files| ==> IsMetadataFile(files[k], sep) || ExtraArgs(files[k]).Some?
    ensures !WalkSpec(bucket, files, sep).1
    ensures |WalkSpec(bucket, files, sep).0| == |DataFiles(files, sep)|
    ensures forall k :: 0 <= k < |DataFiles(files, sep)| ==>
      WalkSpec(bucket, files, sep).0[k].key == ObjectKey(DataFiles(files, sep)[k].relPath, sep)
    decreases |files|
  {
    if |files| > 0 {
      var init := files[..|files| - 1];
      assert forall k :: 0 <= k < |init| ==> init[k] == files[k];
      UploadsAllDataFiles(bucket, init, sep);
    }
  }

  /** The files of the walk that are not metadata files. */
  function DataFiles(files: seq<BackupFile>, sep: char): seq<BackupFile>
    decreases |files|
  {
    if |files| == 0 then []
    else
      var prev := DataFiles(files[..|files| - 1], sep);
      if IsMetadataFile(files[|files| - 1], sep) then prev else prev + [files[|files| - 1]]
  }

  /** On a '/' system the object key is the relative path itself. */
  lemma SlashKeyIsPath(relPath: string)
    ensures ObjectKey(relPath, '/') == relPath
  {
    ReplaceAllIsSplitJoin(relPath, "/", "/");
    JoinSplit(relPath, "/");
  }

  /** Content-type defaults: without a metadata file the guess or binary/octet-stream; with one, its ContentType or binary/octet-stream. */
  lemma ContentTypeDefaults(f: BackupFile)
    ensures f.meta.NoMetaFile? && f.guessedType.None? ==> ExtraArgs(f) == Some((JStr(DefaultContentType), None))
    ensures f.meta.NoMetaFile? && f.guessedType.Some? ==> ExtraArgs(f) == Some((JStr(f.guessedType.value), None))
    ensures f.meta.MetaJson? && f.meta.value.JObj? && !Has(f.meta.value, "ContentType") ==>
      ExtraArgs(f).Some? && ExtraArgs(f).value.0 == JStr(DefaultContentType)
    ensures f.meta.MetaJson? && f.meta.value.JObj? ==> ExtraArgs(f).Some? && ExtraArgs(f).value.1.Some?
  {
  }
}
