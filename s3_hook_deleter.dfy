/**
 * The WordPress hook that removes an attachment's objects from S3 when the
 * attachment is deleted (EC2/Scripts/s3-hook-deleter.php). It checks the
 * configuration, derives the original key and one key per thumbnail from
 * the attachment metadata, de-duplicates them, sends a single batch delete
 * and logs what came back; no failure escapes the hook.
 */
module S3HookDeleter {
  import opened Common

  const BucketPlaceholder := "seu-bucket-s3-aqui"
  const RegionPlaceholder := "sua-regiao-s3-aqui"
  /** The base path used when the site does not define one. */
  const DefaultBasePath := "wp-content/uploads/"

  datatype Config = Config(bucket: string, region: string, basePath: string)

  /** One entry of the metadata's `sizes` array; `file` is None when unset or null. */
  datatype SizeEntry = SizeEntry(name: string, file: Option<string>)

  /**
   * The attachment metadata array. `file` is None when `isset` is false;
   * `sizes` is None when it is unset or not an array.
   */
  datatype Metadata = Metadata(file: Option<string>, sizes: Option<seq<SizeEntry>>)

  datatype DeleteRequest = DeleteRequest(bucket: string, keys: seq<string>, quiet: bool)

  datatype KeyError = KeyError(key: string, code: string, message: string)

  /** What the SDK call produced: a result, or one of the two exception kinds caught. */
  datatype DeleteResponse =
    | Answered(deleted: seq<string>, errors: seq<KeyError>)
    | AwsException(message: string, requestId: string)
    | OtherException(message: string)

  /** Where the hook stopped and, if it got that far, the one request it sent. */
  datatype Outcome =
    | BucketNotConfigured
    | RegionNotConfigured
    | SdkMissing
    | NoMetadata
    | NoKeys
    | Sent(request: DeleteRequest, log: seq<string>)

  /** PHP `empty()` on a string value. */
  predicate PhpEmpty(s: string) {
    s == "" || s == "0"
  }

  predicate ConfigReady(cfg: Config) {
    !(PhpEmpty(cfg.bucket) || cfg.bucket == BucketPlaceholder)
    && !(PhpEmpty(cfg.region) || cfg.region == RegionPlaceholder)
  }

  // ---------------------------------------------------------------------
  // pathinfo()['dirname'] and trailingslashit()

  /** Drops the trailing run of characters other than '/'. */
  function DropFileName(s: string): (r: string)
    ensures StartsWith(s, r)
    ensures |r| > 0 ==> r[|r| - 1] == '/'
    ensures forall i :: |r| <= i < |s| ==> s[i] != '/'
    decreases |s|
  {
    if |s| > 0 && s[|s| - 1] != '/' then DropFileName(s[..|s| - 1]) else s
  }

  /** PHP's dirname of a path on a system whose only separator is '/'. */
  function PhpDirname(path: string): string {
    if path == "" then ""
    else
      var noTrailing := RStrip(path, Chars({'/'}));
      if noTrailing == "" then "/"
      else
        var dir := DropFileName(noTrailing);
        if dir == "" then "."
        else
          var trimmed := RStrip(dir, Chars({'/'}));
          if trimmed == "" then "/" else trimmed
  }

  /** `pathinfo($file)['dirname']`: the key is absent when the dirname is empty. */
  function PathinfoDirname(file: string): Option<string> {
    var d := PhpDirname(file);
    if d == "" then None else Some(d)
  }

  /** PHP truthiness of a string value. */
  predicate PhpTruthy(s: string) {
    !PhpEmpty(s)
  }

  /** WordPress trailingslashit(): strip '/' and '\' from the end, then add one '/'. */
  function TrailingSlashIt(s: string): (r: string)
    ensures EndsWith(r, "/")
  {
    RStrip(s, Chars({'/', '\\'})) + "/"
  }

  /** The directory part placed between the base path and a thumbnail name. */
  function BaseDirInUploads(file: string): string {
    match PathinfoDirname(file)
    case None => ""
    case Some(d) => if PhpTruthy(d) then TrailingSlashIt(d) else ""
  }

  // ---------------------------------------------------------------------
  // Key derivation

  function OriginalKey(cfg: Config, file: string): string {
    cfg.basePath + file
  }

  function ThumbnailKey(cfg: Config, file: string, thumb: string): string {
    cfg.basePath + BaseDirInUploads(file) + thumb
  }

  /** One key per size entry that has a file, in the order of the sizes array. */
  function ThumbnailKeys(cfg: Config, file: string, sizes: seq<SizeEntry>): seq<string>
    decreases |sizes|
  {
    if |sizes| == 0 then []
    else
      var last := sizes[|sizes| - 1];
      ThumbnailKeys(cfg, file, sizes[..|sizes| - 1])
        + (if last.file.Some? then [ThumbnailKey(cfg, file, last.file.value)] else [])
  }

  /** The key list before de-duplication. */
  function CandidateKeys(cfg: Config, file: string, sizes: Option<seq<SizeEntry>>): seq<string> {
    [OriginalKey(cfg, file)] + (if sizes.Some? then ThumbnailKeys(cfg, file, sizes.value) else [])
  }

  function DeletionKeys(cfg: Config, file: string, sizes: Option<seq<SizeEntry>>): seq<string> {
    Dedup(CandidateKeys(cfg, file, sizes))
  }

  // ---------------------------------------------------------------------
  // Log lines written after the call

  function DeletedLine(postId: int, keys: seq<string>): string {
    "MEU_S3_DELETER: Objetos deletados do S3 com sucesso para o anexo ID " + IntToString(postId)
      + ": " + Join(keys, ", ")
  }

  function ErrorLine(postId: int, e: KeyError): string {
    "MEU_S3_DELETER: Erro ao deletar objeto S3 '" + e.key + "' para o anexo ID " + IntToString(postId)
      + ": Code=" + e.code + ", Message=" + e.message
  }

  function AwsExceptionLine(postId: int, message: string, requestId: string): string {
    "MEU_S3_DELETER: Exceção AWS ao tentar deletar do S3 para o anexo ID " + IntToString(postId)
      + ": " + message + " | Request ID: " + requestId
  }

  function OtherExceptionLine(postId: int, message: string): string {
    "MEU_S3_DELETER: Exceção geral ao tentar deletar do S3 para o anexo ID " + IntToString(postId)
      + ": " + message
  }

  function ErrorLines(postId: int, errors: seq<KeyError>): seq<string>
    decreases |errors|
  {
    if |errors| == 0 then []
    else ErrorLines(postId, errors[..|errors| - 1]) + [ErrorLine(postId, errors[|errors| - 1])]
  }

  function ResponseLog(postId: int, response: DeleteResponse): seq<string> {
    match response
    case Answered(deleted, errors) =>
      (if |deleted| > 0 then [DeletedLine(postId, deleted)] else []) + ErrorLines(postId, errors)
    case AwsException(message, requestId) => [AwsExceptionLine(postId, message, requestId)]
    case OtherException(message) => [OtherExceptionLine(postId, message)]
  }

  // ---------------------------------------------------------------------
  // The hook

  /** What the hook does, given the SDK's answer to whatever request it sends. */
  function Handle(cfg: Config, sdkLoaded: bool, postId: int, metadata: Option<Metadata>,
                  respond: DeleteRequest -> DeleteResponse): Outcome
  {
    if PhpEmpty(cfg.bucket) || cfg.bucket == BucketPlaceholder then BucketNotConfigured
    else if PhpEmpty(cfg.region) || cfg.region == RegionPlaceholder then RegionNotConfigured
    else if !sdkLoaded then SdkMissing
    else if metadata.None? || metadata.value.file.None? then NoMetadata
    else
      var keys := DeletionKeys(cfg, metadata.value.file.value, metadata.value.sizes);
      if |keys| == 0 then NoKeys
      else
        var request := DeleteRequest(cfg.bucket, keys, false);
        Sent(request, ResponseLog(postId, respond(request)))
  }

  /** The foreach over `sizes` that appends one key per thumbnail. */
  method CollectKeys(cfg: Config, file: string, sizes: Option<seq<SizeEntry>>) returns (keys: seq<string>)
    ensures keys == CandidateKeys(cfg, file, sizes)
  {
    keys := [cfg.basePath + file];
    if sizes.Some? {
      var baseDir := BaseDirInUploads(file);
      var entries := sizes.value;
      var k := 0;
      while k < |entries|
        invariant 0 <= k <= |entries|
        invariant keys == [OriginalKey(cfg, file)] + ThumbnailKeys(cfg, file, entries[..k])
      {
        assert entries[..k + 1][..k] == entries[..k];
        if entries[k].file.Some? {
          keys := keys + [cfg.basePath + baseDir + entries[k].file.value];
        }
        k := k + 1;
      }
      assert entries[..|entries|] == entries;
    }
  }

  method HandleAttachmentDeletion(cfg: Config, sdkLoaded: bool, postId: int, metadata: Option<Metadata>,
                                  respond: DeleteRequest -> DeleteResponse) returns (out: Outcome)
    ensures out == Handle(cfg, sdkLoaded, postId, metadata, respond)
  {
    if PhpEmpty(cfg.bucket) || cfg.bucket == BucketPlaceholder {
      return BucketNotConfigured;
    }
    if PhpEmpty(cfg.region) || cfg.region == RegionPlaceholder {
      return RegionNotConfigured;
    }
    if !sdkLoaded {
      return SdkMissing;
    }
    if metadata.None? || metadata.value.file.None? {
      return NoMetadata;
    }
    var keys := CollectKeys(cfg, metadata.value.file.value, metadata.value.sizes);
    keys := Dedup(keys);
    if |keys| == 0 {
      return NoKeys;
    }
    var request := DeleteRequest(cfg.bucket, keys, false);
    var response := respond(request);
    var log := LogResponse(postId, response);
    return Sent(request, log);
  }

  /** The logging after the call: the success line, then one line per per-key error, or the exception line. */
  method LogResponse(postId: int, response: DeleteResponse) returns (log: seq<string>)
    ensures log == ResponseLog(postId, response)
  {
    match response {
      case Answered(deleted, errors) =>
        var head := if |deleted| > 0 then [DeletedLine(postId, deleted)] else [];
        log := LogErrors(postId, head, errors);
      case AwsException(message, requestId) =>
        log := [AwsExceptionLine(postId, message, requestId)];
      case OtherException(message) =>
        log := [OtherExceptionLine(postId, message)];
    }
  }

  /** The foreach over the per-key errors, appending one line each after `head`. */
  method LogErrors(postId: int, head: seq<string>, errors: seq<KeyError>) returns (log: seq<string>)
    ensures log == head + ErrorLines(postId, errors)
  {
    log := head;
    var k := 0;
    while k < |errors|
      invariant 0 <= k <= |errors|
      invariant log == head + ErrorLines(postId, errors[..k])
    {
      ErrorLinesSnoc(postId, errors, k);
      log := log + [ErrorLine(postId, errors[k])];
      k := k + 1;
    }
    assert errors[..|errors|] == errors;
  }

  lemma ErrorLinesSnoc(postId: int, errors: seq<KeyError>, k: nat)
    requires k < |errors|
    ensures ErrorLines(postId, errors[..k + 1]) == ErrorLines(postId, errors[..k]) + [ErrorLine(postId, errors[k])]
  {
    assert errors[..k + 1][..k] == errors[..k];
  }

  // ---------------------------------------------------------------------
  // Properties

  /** A bad bucket or region stops the hook before metadata or S3 is touched. */
  lemma ConfigGuard(cfg: Config, sdk1: bool, sdk2: bool, postId: int, md1: Option<Metadata>, md2: Option<Metadata>,
                    r1: DeleteRequest -> DeleteResponse, r2: DeleteRequest -> DeleteResponse)
    requires !ConfigReady(cfg)
    ensures Handle(cfg, sdk1, postId, md1, r1) == Handle(cfg, sdk2, postId, md2, r2)
    ensures Handle(cfg, sdk1, postId, md1, r1) in {BucketNotConfigured, RegionNotConfigured}
  {
  }

  /** No metadata, or metadata without `file`, sends no request. */
  lemma MissingFileSendsNothing(cfg: Config, postId: int, md: Option<Metadata>, respond: DeleteRequest -> DeleteResponse)
    requires ConfigReady(cfg)
    requires md.None? || md.value.file.None?
    ensures Handle(cfg, true, postId, md, respond) == NoMetadata
  {
  }

  lemma {:induction false} ThumbnailKeysBound(cfg: Config, file: string, sizes: seq<SizeEntry>)
    ensures |ThumbnailKeys(cfg, file, sizes)| <= |sizes|
    decreases |sizes|
  {
    if |sizes| > 0 {
      ThumbnailKeysBound(cfg, file, sizes[..|sizes| - 1]);
    }
  }

  /** Size entry `i` has a file and gives `key`. */
  predicate GivesKey(cfg: Config, file: string, sizes: seq<SizeEntry>, i: int, key: string) {
    0 <= i < |sizes| && sizes[i].file.Some? && key == ThumbnailKey(cfg, file, sizes[i].file.value)
  }

  /** Every thumbnail key comes from a size entry with a file, and every such entry gives one. */
  lemma {:induction false} ThumbnailKeysExact(cfg: Config, file: string, sizes: seq<SizeEntry>, key: string)
    ensures key in ThumbnailKeys(cfg, file, sizes) <==> exists i :: GivesKey(cfg, file, sizes, i, key)
    decreases |sizes|
  {
    if |sizes| > 0 {
      var init := sizes[..|sizes| - 1];
      var last := sizes[|sizes| - 1];
      ThumbnailKeysExact(cfg, file, init, key);
      GivesKeyInit(cfg, file, sizes, key);
      assert key in ThumbnailKeys(cfg, file, sizes)
        <==> key in ThumbnailKeys(cfg, file, init) || GivesKey(cfg, file, sizes, |init|, key);
      if key in ThumbnailKeys(cfg, file, init) {
        var i :| GivesKey(cfg, file, init, i, key);
        assert GivesKey(cfg, file, sizes, i, key);
      }
      if i :| GivesKey(cfg, file, sizes, i, key) {
        if i < |init| {
          assert GivesKey(cfg, file, init, i, key);
        }
      }
    }
  }

  lemma GivesKeyInit(cfg: Config, file: string, sizes: seq<SizeEntry>, key: string)
    requires |sizes| > 0
    ensures forall i :: (GivesKey(cfg, file, sizes[..|sizes| - 1], i, key)
                         <==> i < |sizes| - 1 && GivesKey(cfg, file, sizes, i, key))
  {
  }

  /** The request's keys: the verbatim original key first, then de-duplicated thumbnail keys. */
  lemma SentKeys(cfg: Config, postId: int, md: Metadata, respond: DeleteRequest -> DeleteResponse)
    requires ConfigReady(cfg) && md.file.Some?
    ensures var out := Handle(cfg, true, postId, Some(md), respond);
      && out.Sent?
      && out.request == DeleteRequest(cfg.bucket, DeletionKeys(cfg, md.file.value, md.sizes), false)
      && out.request.keys[0] == cfg.basePath + md.file.value
      && NoDuplicates(out.request.keys)
      && (forall k :: k in out.request.keys <==> k in CandidateKeys(cfg, md.file.value, md.sizes))
      && |out.request.keys| <= 1 + (if md.sizes.Some? then |md.sizes.value| else 0)
  {
    var cands := CandidateKeys(cfg, md.file.value, md.sizes);
    DedupKeepsHead(cands);
    DedupProperties(cands);
    if md.sizes.Some? {
      ThumbnailKeysBound(cfg, md.file.value, md.sizes.value);
    }
  }

  /** Once `file` is present the de-duplicated list is non-empty: the empty-list guard is dead. */
  lemma NeverNoKeys(cfg: Config, sdk: bool, postId: int, md: Option<Metadata>, respond: DeleteRequest -> DeleteResponse)
    ensures Handle(cfg, sdk, postId, md, respond) != NoKeys
  {
    if md.Some? && md.value.file.Some? {
      DedupKeepsHead(CandidateKeys(cfg, md.value.file.value, md.value.sizes));
    }
  }

  /** Without a sizes array exactly the original key is requested. */
  lemma NoSizesOnlyOriginal(cfg: Config, file: string)
    ensures DeletionKeys(cfg, file, None) == [cfg.basePath + file]
  {
    assert CandidateKeys(cfg, file, None) == [cfg.basePath + file];
    DedupOfDistinct([cfg.basePath + file]);
  }

  lemma {:induction false} ErrorLinesAt(postId: int, errors: seq<KeyError>, k: nat)
    requires k < |errors|
    ensures |ErrorLines(postId, errors)| == |errors|
    ensures ErrorLines(postId, errors)[k] == ErrorLine(postId, errors[k])
    decreases |errors|
  {
    if k < |errors| - 1 {
      ErrorLinesAt(postId, errors[..|errors| - 1], k);
    } else if |errors| > 1 {
      ErrorLinesAt(postId, errors[..|errors| - 1], 0);
    }
  }

  /**
   * Every per-key error is logged with its key, code and message, and both
   * exception kinds end in a logged line rather than escaping the hook.
   */
  lemma FailuresAreLogged(cfg: Config, postId: int, md: Metadata, respond: DeleteRequest -> DeleteResponse)
    requires ConfigReady(cfg) && md.file.Some?
    ensures var out := Handle(cfg, true, postId, Some(md), respond);
      && out.Sent?
      && match respond(out.request)
         case Answered(deleted, errors) =>
           forall e :: e in errors ==> ErrorLine(postId, e) in out.log
         case AwsException(m, id) => out.log == [AwsExceptionLine(postId, m, id)]
         case OtherException(m) => out.log == [OtherExceptionLine(postId, m)]
  {
    SentKeys(cfg, postId, md, respond);
    var out := Handle(cfg, true, postId, Some(md), respond);
    assert out.log == ResponseLog(postId, respond(out.request));
    ResponseLogComplete(postId, respond(out.request));
  }

  /** The log of one response names every per-key error, or is the single exception line. */
  lemma ResponseLogComplete(postId: int, response: DeleteResponse)
    ensures match response
      case Answered(deleted, errors) =>
        forall e :: e in errors ==> ErrorLine(postId, e) in ResponseLog(postId, response)
      case AwsException(m, id) => ResponseLog(postId, response) == [AwsExceptionLine(postId, m, id)]
      case OtherException(m) => ResponseLog(postId, response) == [OtherExceptionLine(postId, m)]
  {
    match response
    case Answered(deleted, errors) =>
      var head := if |deleted| > 0 then [DeletedLine(postId, deleted)] else [];
      var lines := ErrorLines(postId, errors);
      assert ResponseLog(postId, response) == head + lines;
      ErrorLinesListed(postId, errors);
      forall e | e in errors ensures ErrorLine(postId, e) in head + lines {
        assert ErrorLine(postId, e) in lines;
      }
    case AwsException(m, id) =>
    case OtherException(m) =>
  }

  lemma {:induction false} ErrorLinesListed(postId: int, errors: seq<KeyError>)
    ensures forall e :: e in errors ==> ErrorLine(postId, e) in ErrorLines(postId, errors)
    decreases |errors|
  {
    if |errors| > 0 {
      var init := errors[..|errors| - 1];
      ErrorLinesListed(postId, init);
      assert errors == init + [errors[|errors| - 1]];
      assert ErrorLines(postId, errors) == ErrorLines(postId, init) + [ErrorLine(postId, errors[|errors| - 1])];
    }
  }

  /** A file at the top of the uploads folder has dirname ".", which is truthy: thumbnails get "./". */
  lemma DotDirnameQuirk(cfg: Config)
    ensures PhpDirname("x.jpg") == "."
    ensures ThumbnailKey(cfg, "x.jpg", "x-150x150.jpg") == cfg.basePath + "./x-150x150.jpg"
  {
    TopLevelDirname();
    assert BaseDirInUploads("x.jpg") == TrailingSlashIt(".");
    assert RStrip(".", Chars({'/', '\\'})) == ".";
  }

  lemma TopLevelDirname()
    ensures PhpDirname("x.jpg") == "."
  {
    assert RStrip("x.jpg", Chars({'/'})) == "x.jpg";
    assert DropFileName("x.jpg") == "";
  }

  lemma {:induction false} DropFileNameOf(dir: string, name: string)
    requires |dir| > 0 && dir[|dir| - 1] == '/'
    requires forall i :: 0 <= i < |name| ==> name[i] != '/'
    ensures DropFileName(dir + name) == dir
    decreases |name|
  {
    if |name| > 0 {
      assert (dir + name)[..|dir + name| - 1] == dir + name[..|name| - 1];
      DropFileNameOf(dir, name[..|name| - 1]);
    } else {
      assert dir + name == dir;
    }
  }

  /** A file in a dated folder puts its thumbnails in the same folder. */
  lemma DatedFolderThumbnail(cfg: Config)
    ensures BaseDirInUploads("2023/05/img.jpg") == "2023/05/"
  {
    assert RStrip("2023/05/img.jpg", Chars({'/'})) == "2023/05/img.jpg";
    assert "2023/05/img.jpg" == "2023/05/" + "img.jpg";
    DropFileNameOf("2023/05/", "img.jpg");
    assert RStrip("2023/05/", Chars({'/'})) == "2023/05";
    assert RStrip("2023/05", Chars({'/', '\\'})) == "2023/05";
  }
}
