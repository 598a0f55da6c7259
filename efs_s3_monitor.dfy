/**
 * The EFS-to-S3 monitor's deletion queue and CloudFront batching
 * (EC2/Scripts/efs_s3_monitor.py): key derivation from a queue row, the
 * translation of a batch-delete answer, the per-row status machine, the
 * deduplicating invalidation batch with its size-triggered flush, and the
 * two path filters used by the file watcher.
 */
module EfsS3Monitor {
  import opened Common
  import opened JsonValue

  /** Default of WP_S3_BASE_PATH_FOR_DELETION_QUEUE. */
  const DefaultQueueBasePath := "wp-content/uploads/"
  /** Default of CF_INVALIDATION_BATCH_MAX_SIZE. */
  const DefaultBatchMaxSize := 15

  // ---------------------------------------------------------------------
  // parse_s3_keys_from_data

  /**
   * The queue row's `attachment_metadata_snapshot` after php_loads: empty or
   * missing, undecodable (php_loads raised), or the decoded value.
   */
  datatype Snapshot = Missing | Undecodable | Decoded(value: Json)

  /** `base.rstrip('/') + '/' + rel.lstrip('/')`. */
  function QueueKey(base: string, rel: string): string {
    RStrip(base, Chars({'/'})) + "/" + LStrip(rel, Chars({'/'}))
  }

  /** The thumbnail's path relative to the uploads folder. */
  function ThumbRelative(mainDir: string, thumb: string): string {
    if mainDir != "" && mainDir != "." then PyJoin(mainDir, thumb) else thumb
  }

  /**
   * The keys the loop over `sizes.values()` appends, from entry `values[0]`
   * on. An entry that is a dict with a non-string `file` raises inside the
   * loop; the exception handler then returns what was collected before it.
   */
  function ThumbKeysFrom(base: string, mainDir: string, values: seq<Json>): seq<string>
    decreases |values|
  {
    if |values| == 0 then []
    else
      var v := values[0];
      if v.JObj? && Has(v, "file") then
        match Get(v, "file").value
        case JStr(thumb) => [QueueKey(base, ThumbRelative(mainDir, thumb))] + ThumbKeysFrom(base, mainDir, values[1..])
        case _ => []
      else ThumbKeysFrom(base, mainDir, values[1..])
  }

  /** The values of a dict, in order. */
  function DictValues(members: seq<(string, Json)>): (r: seq<Json>)
    ensures |r| == |members|
    ensures forall i :: 0 <= i < |members| ==> r[i] == members[i].1
  {
    seq(|members|, i requires 0 <= i < |members| => members[i].1)
  }

  /**
   * `metadata.get('file')` when it is a non-empty string. A falsy value
   * appends nothing, and a truthy non-string raises at lstrip before
   * anything is appended, so both give no keys.
   */
  function MainFile(m: Json): Option<string> {
    match Get(m, "file")
    case Some(JStr(main)) => if main == "" then None else Some(main)
    case _ => None
  }

  /** The values of `metadata.get('sizes')` when it is a dict. */
  function SizeValues(m: Json): Option<seq<Json>> {
    match Get(m, "sizes")
    case Some(JObj(sizes)) => Some(DictValues(sizes))
    case _ => None
  }

  /** The keys collected from the metadata snapshot, before `list(set(...))`. */
  function SnapshotKeys(base: string, snapshot: Snapshot): seq<string> {
    if !snapshot.Decoded? || !snapshot.value.JObj? then []
    else
      var m := snapshot.value;
      match MainFile(m)
      case None => []
      case Some(main) =>
        [QueueKey(base, main)]
          + (match SizeValues(m)
             case Some(values) => ThumbKeysFrom(base, PyDirname(main), values)
             case None => [])
  }

  predicate AllStrings(items: seq<Json>) {
    forall i :: 0 <= i < |items| ==> items[i].JStr?
  }

  function Strings(items: seq<Json>): (r: seq<string>)
    requires AllStrings(items)
    ensures |r| == |items|
    ensures forall i :: 0 <= i < |items| ==> r[i] == items[i].s
  {
    seq(|items|, i requires 0 <= i < |items| => items[i].s)
  }

  /**
   * The keys for one queue row. `storedKeys` is json.loads of a non-empty
   * `s3_keys_to_delete_json`, None when that column is empty or not JSON.
   * `list(set(...))` has no fixed order; the model keeps first occurrences.
   */
  function ParseKeys(base: string, snapshot: Snapshot, storedKeys: Option<Json>): seq<string> {
    if storedKeys.Some? && storedKeys.value.JArr? && AllStrings(storedKeys.value.items) then
      Dedup(Strings(storedKeys.value.items))
    else Dedup(SnapshotKeys(base, snapshot))
  }

  /** The loop over `sizes.values()`, stopping where an entry raises. */
  method CollectThumbKeys(base: string, mainDir: string, values: seq<Json>) returns (keys: seq<string>)
    ensures keys == ThumbKeysFrom(base, mainDir, values)
  {
    keys := [];
    var k := 0;
    var raised := false;
    while k < |values| && !raised
      invariant 0 <= k <= |values|
      invariant ThumbKeysFrom(base, mainDir, values) == keys + (if raised then [] else ThumbKeysFrom(base, mainDir, values[k..]))
      decreases |values| - k, !raised
    {
      var v := values[k];
      assert values[k..][1..] == values[k + 1..];
      if v.JObj? && Has(v, "file") {
        var thumb := Get(v, "file").value;
        if thumb.JStr? {
          keys := keys + [QueueKey(base, ThumbRelative(mainDir, thumb.s))];
          k := k + 1;
        } else {
          raised := true;
        }
      } else {
        k := k + 1;
      }
    }
    assert values[|values|..] == [];
  }

  /** The imperative version: append the main key, then walk the sizes, then de-duplicate. */
  method ParseS3KeysFromData(base: string, snapshot: Snapshot, storedKeys: Option<Json>) returns (keys: seq<string>)
    ensures keys == ParseKeys(base, snapshot, storedKeys)
  {
    if storedKeys.Some? && storedKeys.value.JArr? && AllStrings(storedKeys.value.items) {
      keys := Dedup(Strings(storedKeys.value.items));
      return;
    }
    keys := [];
    if !snapshot.Decoded? || !snapshot.value.JObj? {
      return;
    }
    var m := snapshot.value;
    var file := MainFile(m);
    if file.Some? {
      var main := file.value;
      keys := keys + [QueueKey(base, main)];
      var mainDir := PyDirname(main);
      var sizes := SizeValues(m);
      if sizes.Some? {
        var thumbs := CollectThumbKeys(base, mainDir, sizes.value);
        keys := keys + thumbs;
      }
    }
    keys := Dedup(keys);
  }

  // ---------------------------------------------------------------------
  // delete_s3_objects_from_queue_item

  datatype KeyError = KeyError(key: string, code: string, message: string)

  datatype DeleteRequest = DeleteRequest(bucket: string, keys: seq<string>, quiet: bool)

  /** The SDK's answer to delete_objects, or the text of the exception it raised. */
  datatype DeleteReply = Reply(deleted: seq<string>, errors: seq<KeyError>) | Raised(message: string)

  function ErrorText(e: KeyError): string {
    "S3 Key: " + e.key + ", Code: " + e.code + ", Message: " + e.message
  }

  function ErrorTexts(errors: seq<KeyError>): (r: seq<string>)
    ensures |r| == |errors|
    ensures forall i :: 0 <= i < |errors| ==> r[i] == ErrorText(errors[i])
  {
    seq(|errors|, i requires 0 <= i < |errors| => ErrorText(errors[i]))
  }

  function StripLeadingSlashes(keys: seq<string>): (r: seq<string>)
    ensures |r| == |keys|
    ensures forall i :: 0 <= i < |keys| ==> r[i] == LStrip(keys[i], Chars({'/'}))
  {
    seq(|keys|, i requires 0 <= i < |keys| => LStrip(keys[i], Chars({'/'})))
  }

  function DeleteRequestFor(bucket: string, keys: seq<string>): DeleteRequest {
    DeleteRequest(bucket, StripLeadingSlashes(keys), false)
  }

  /** The (success, error message) pair the function returns. */
  function DeleteKeys(bucket: string, keys: seq<string>, respond: DeleteRequest -> DeleteReply): (bool, Option<string>) {
    if |keys| == 0 then (true, None)
    else match respond(DeleteRequestFor(bucket, keys))
      case Raised(message) => (false, Some(message))
      case Reply(deleted, errors) =>
        if |errors| > 0 then (|deleted| > 0, Some(Join(ErrorTexts(errors), "; ")))
        else (true, None)
  }

  // ---------------------------------------------------------------------
  // The invalidation batch (the deadlocking nested lock is replaced by a sequential flush)

  /** The pending paths and every invalidation requested so far, oldest first. */
  datatype BatchState = BatchState(paths: seq<string>, requested: seq<seq<string>>)

  function Slashed(paths: seq<string>): (r: seq<string>)
    ensures |r| == |paths|
    ensures forall i :: 0 <= i < |paths| ==> r[i] == "/" + paths[i]
  {
    seq(|paths|, i requires 0 <= i < |paths| => "/" + paths[i])
  }

  /** `_trigger_batched_cloudfront_invalidation`. */
  function FlushSpec(st: BatchState, distributionId: string): BatchState {
    if |st.paths| == 0 then st
    else if distributionId == "" then BatchState([], st.requested)
    else BatchState([], st.requested + [Slashed(st.paths)])
  }

  /** `_add_to_cf_invalidation_batch`. */
  function AddSpec(st: BatchState, key: string, distributionId: string, maxSize: int): BatchState {
    if distributionId == "" then st
    else
      var paths := if key in st.paths then st.paths else st.paths + [key];
      if |paths| >= maxSize then FlushSpec(BatchState(paths, st.requested), distributionId)
      else BatchState(paths, st.requested)
  }

  function AddAllSpec(st: BatchState, keys: seq<string>, distributionId: string, maxSize: int): BatchState
    decreases |keys|
  {
    if |keys| == 0 then st
    else AddSpec(AddAllSpec(st, keys[..|keys| - 1], distributionId, maxSize), keys[|keys| - 1], distributionId, maxSize)
  }

  class InvalidationBatch {
    const distributionId: string
    const maxSize: int
    var paths: seq<string>
    var requested: seq<seq<string>>

    constructor(distributionId: string, maxSize: int)
      ensures this.distributionId == distributionId && this.maxSize == maxSize
      ensures paths == [] && requested == []
    {
      this.distributionId := distributionId;
      this.maxSize := maxSize;
      paths := [];
      requested := [];
    }

    function State(): BatchState
      reads this
    {
      BatchState(paths, requested)
    }

    /** Flush, also what the batch timer calls when it fires. */
    method Trigger()
      modifies this
      ensures State() == FlushSpec(old(State()), distributionId)
    {
      if |paths| == 0 {
        return;
      }
      if distributionId == "" {
        paths := [];
        return;
      }
      var now := Slashed(paths);
      paths := [];
      requested := requested + [now];
    }

    method Add(key: string)
      modifies this
      ensures State() == AddSpec(old(State()), key, distributionId, maxSize)
    {
      if distributionId == "" {
        return;
      }
      if key !in paths {
        paths := paths + [key];
      }
      if |paths| >= maxSize {
        Trigger();
      }
    }

    /** Adds each key in turn. */
    method AddAll(keys: seq<string>)
      modifies this
      ensures State() == AddAllSpec(old(State()), keys, distributionId, maxSize)
    {
      var j := 0;
      while j < |keys|
        invariant 0 <= j <= |keys|
        invariant State() == AddAllSpec(old(State()), keys[..j], distributionId, maxSize)
      {
        assert keys[..j + 1][..j] == keys[..j];
        Add(keys[j]);
        j := j + 1;
      }
      assert keys[..|keys|] == keys;
    }
  }

  /** What the batch always satisfies when its maximum is at least one. */
  predicate BatchInvariant(st: BatchState, maxSize: int) {
    NoDuplicates(st.paths) && |st.paths| < maxSize
  }

  /** Adding keeps the batch duplicate-free and below its maximum. */
  lemma AddPreservesInvariant(st: BatchState, key: string, distributionId: string, maxSize: int)
    requires BatchInvariant(st, maxSize)
    ensures BatchInvariant(AddSpec(st, key, distributionId, maxSize), maxSize)
  {
    if distributionId != "" && key !in st.paths {
      assert NoDuplicates(st.paths + [key]) by {
        forall i, j | 0 <= i < j < |st.paths + [key]| ensures (st.paths + [key])[i] != (st.paths + [key])[j] {
          if j == |st.paths| {
            assert (st.paths + [key])[i] == st.paths[i];
          } else {
            assert (st.paths + [key])[i] == st.paths[i] && (st.paths + [key])[j] == st.paths[j];
          }
        }
      }
    }
  }

  /** Reaching the maximum flushes every pending path, each prefixed with '/', and empties the batch. */
  lemma FullBatchFlushes(st: BatchState, key: string, distributionId: string, maxSize: int)
    requires distributionId != "" && key !in st.paths && |st.paths| + 1 >= maxSize
    ensures AddSpec(st, key, distributionId, maxSize)
      == BatchState([], st.requested + [Slashed(st.paths + [key])])
  {
  }

  /** With no distribution configured nothing is ever added. */
  lemma NoDistributionAddsNothing(st: BatchState, keys: seq<string>, maxSize: int)
    ensures AddAllSpec(st, keys, "", maxSize) == st
  {
  }

  /** Below the maximum a new key is appended once; an old one changes nothing. */
  lemma AddBelowMaximum(st: BatchState, key: string, distributionId: string, maxSize: int)
    requires distributionId != ""
    requires |st.paths| + 1 < maxSize
    ensures key in st.paths ==> AddSpec(st, key, distributionId, maxSize) == st
    ensures key !in st.paths ==> AddSpec(st, key, distributionId, maxSize) == BatchState(st.paths + [key], st.requested)
  {
  }

  // ---------------------------------------------------------------------
  // process_s3_deletion_queue

  datatype Status = Processing | NoKeys | Done | Error

  datatype StatusWrite = StatusWrite(id: int, status: Status, message: Option<string>)

  datatype QueueItem = QueueItem(id: int, snapshot: Snapshot, storedKeys: Option<Json>)

  function ItemKeys(base: string, item: QueueItem): seq<string> {
    ParseKeys(base, item.snapshot, item.storedKeys)
  }

  /** The status written after PROCESSING. */
  function FinalWrite(base: string, bucket: string, item: QueueItem, respond: DeleteRequest -> DeleteReply): StatusWrite {
    var keys := ItemKeys(base, item);
    if |keys| == 0 then StatusWrite(item.id, NoKeys, Some("Could not determine S3 keys."))
    else
      var (success, message) := DeleteKeys(bucket, keys, respond);
      if success then StatusWrite(item.id, if message.Some? then Error else Done, message)
      else StatusWrite(item.id, Error, message)
  }

  function QueueWrites(base: string, bucket: string, items: seq<QueueItem>, respond: DeleteRequest -> DeleteReply): seq<StatusWrite>
    decreases |items|
  {
    if |items| == 0 then []
    else
      var last := items[|items| - 1];
      QueueWrites(base, bucket, items[..|items| - 1], respond)
        + [StatusWrite(last.id, Processing, None), FinalWrite(base, bucket, last, respond)]
  }

  /** The paths a row hands to the invalidation batch: its keys, if the delete call succeeded. */
  function InvalidationPaths(base: string, bucket: string, item: QueueItem, respond: DeleteRequest -> DeleteReply): seq<string> {
    var keys := ItemKeys(base, item);
    if |keys| > 0 && DeleteKeys(bucket, keys, respond).0 then StripLeadingSlashes(keys) else []
  }

  function QueueInvalidations(base: string, bucket: string, items: seq<QueueItem>, respond: DeleteRequest -> DeleteReply): seq<string>
    decreases |items|
  {
    if |items| == 0 then []
    else QueueInvalidations(base, bucket, items[..|items| - 1], respond) + InvalidationPaths(base, bucket, items[|items| - 1], respond)
  }

  lemma {:induction false} AddAllAppend(st: BatchState, a: seq<string>, b: seq<string>, d: string, m: int)
    ensures AddAllSpec(st, a + b, d, m) == AddAllSpec(AddAllSpec(st, a, d, m), b, d, m)
    decreases |b|
  {
    if |b| == 0 {
      assert a + b == a;
    } else {
      assert (a + b)[..|a + b| - 1] == a + b[..|b| - 1];
      AddAllAppend(st, a, b[..|b| - 1], d, m);
    }
  }

  lemma QueueSnoc(base: string, bucket: string, items: seq<QueueItem>, k: nat, respond: DeleteRequest -> DeleteReply)
    requires k < |items|
    ensures QueueWrites(base, bucket, items[..k + 1], respond)
      == QueueWrites(base, bucket, items[..k], respond)
         + [StatusWrite(items[k].id, Processing, None), FinalWrite(base, bucket, items[k], respond)]
    ensures QueueInvalidations(base, bucket, items[..k + 1], respond)
      == QueueInvalidations(base, bucket, items[..k], respond) + InvalidationPaths(base, bucket, items[k], respond)
  {
    assert items[..k + 1][..k] == items[..k];
  }

  /** The rows' status table, as the sequence of writes made to it. */
  class DeletionQueue {
    var writes: seq<StatusWrite>

    constructor()
      ensures writes == []
    {
      writes := [];
    }

    /** One row: PROCESSING, then its final status, then its paths to the invalidation batch. */
    method ProcessItem(base: string, bucket: string, item: QueueItem,
                       respond: DeleteRequest -> DeleteReply, batch: InvalidationBatch)
      modifies this, batch
      ensures writes == old(writes) + [StatusWrite(item.id, Processing, None), FinalWrite(base, bucket, item, respond)]
      ensures batch.distributionId != "" ==>
        batch.State() == AddAllSpec(old(batch.State()), InvalidationPaths(base, bucket, item, respond),
                                    batch.distributionId, batch.maxSize)
      ensures batch.distributionId == "" ==> batch.State() == old(batch.State())
    {
      writes := writes + [StatusWrite(item.id, Processing, None)];
      var keys := ParseS3KeysFromData(base, item.snapshot, item.storedKeys);
      if |keys| == 0 {
        writes := writes + [StatusWrite(item.id, NoKeys, Some("Could not determine S3 keys."))];
        return;
      }
      var (success, message) := DeleteKeys(bucket, keys, respond);
      assert FinalWrite(base, bucket, item, respond)
        == if success then StatusWrite(item.id, if message.Some? then Error else Done, message)
           else StatusWrite(item.id, Error, message);
      if !success {
        writes := writes + [StatusWrite(item.id, Error, message)];
        return;
      }
      writes := writes + [StatusWrite(item.id, if message.Some? then Error else Done, message)];
      if batch.distributionId != "" {
        assert InvalidationPaths(base, bucket, item, respond) == StripLeadingSlashes(keys);
        batch.AddAll(StripLeadingSlashes(keys));
      }
    }

    method ProcessQueue(connected: bool, base: string, bucket: string, items: seq<QueueItem>,
                        respond: DeleteRequest -> DeleteReply, batch: InvalidationBatch)
      modifies this, batch
      ensures !connected ==> writes == old(writes) && batch.State() == old(batch.State())
      ensures connected ==> writes == old(writes) + QueueWrites(base, bucket, items, respond)
      ensures connected && batch.distributionId != "" ==>
        batch.State() == AddAllSpec(old(batch.State()), QueueInvalidations(base, bucket, items, respond),
                                    batch.distributionId, batch.maxSize)
      ensures batch.distributionId == "" ==> batch.State() == old(batch.State())
    {
      if !connected {
        return;
      }
      ghost var start := batch.State();
      var k := 0;
      while k < |items|
        invariant 0 <= k <= |items|
        invariant writes == old(writes) + QueueWrites(base, bucket, items[..k], respond)
        invariant batch.distributionId != "" ==>
          batch.State() == AddAllSpec(start, QueueInvalidations(base, bucket, items[..k], respond),
                                      batch.distributionId, batch.maxSize)
        invariant batch.distributionId == "" ==> batch.State() == start
      {
        QueueSnoc(base, bucket, items, k, respond);
        AppendAssoc(old(writes), QueueWrites(base, bucket, items[..k], respond),
                    [StatusWrite(items[k].id, Processing, None), FinalWrite(base, bucket, items[k], respond)]);
        ProcessItem(base, bucket, items[k], respond, batch);
        if batch.distributionId != "" {
          AddAllAppend(start, QueueInvalidations(base, bucket, items[..k], respond),
                       InvalidationPaths(base, bucket, items[k], respond), batch.distributionId, batch.maxSize);
        }
        k := k + 1;
      }
      assert items[..|items|] == items;
    }
  }

  // ---------------------------------------------------------------------
  // Properties of key derivation and deletion

  /** A stored JSON list of strings wins over the snapshot. */
  lemma StoredListWins(base: string, s1: Snapshot, s2: Snapshot, items: seq<Json>)
    requires AllStrings(items)
    ensures ParseKeys(base, s1, Some(JArr(items))) == ParseKeys(base, s2, Some(JArr(items)))
    ensures NoDuplicates(ParseKeys(base, s1, Some(JArr(items))))
    ensures forall k :: k in ParseKeys(base, s1, Some(JArr(items))) <==> JStr(k) in items
  {
    var strs := Strings(items);
    DedupProperties(strs);
    forall k ensures k in strs <==> JStr(k) in items {
      if k in strs {
        var i :| 0 <= i < |strs| && strs[i] == k;
        assert items[i] == JStr(k);
      }
      if JStr(k) in items {
        var i :| 0 <= i < |items| && items[i] == JStr(k);
        assert strs[i] == k;
      }
    }
  }

  /** Exactly one '/' sits where the base path and the relative path meet. */
  lemma QueueKeySingleSlash(base: string, rel: string)
    ensures var b := RStrip(base, Chars({'/'}));
      var key := QueueKey(base, rel);
      && StartsWith(key, b + "/")
      && key[|b|] == '/'
      && (|b| > 0 ==> key[|b| - 1] != '/')
      && (|key| > |b| + 1 ==> key[|b| + 1] != '/')
  {
  }

  /** A thumbnail goes into the main file's folder unless that folder is empty or "." */
  lemma ThumbnailFolderRule(base: string, main: string, thumb: string)
    ensures PyDirname(main) == "" || PyDirname(main) == "." ==>
      QueueKey(base, ThumbRelative(PyDirname(main), thumb)) == QueueKey(base, thumb)
    ensures PyDirname(main) != "" && PyDirname(main) != "." ==>
      QueueKey(base, ThumbRelative(PyDirname(main), thumb)) == QueueKey(base, PyJoin(PyDirname(main), thumb))
  {
  }

  /** Python's dirname of a bare file name is empty, so its thumbnails get no "./" in front. */
  lemma BareFileThumbnail(base: string, thumb: string)
    ensures PyDirname("x.jpg") == ""
    ensures QueueKey(base, ThumbRelative(PyDirname("x.jpg"), thumb)) == QueueKey(base, thumb)
  {
    assert RFind("x.jpg", '/') == -1 by {
      assert RFind("x.jp", '/') == -1 by {
        assert RFind("x.j", '/') == -1 by {
          assert RFind("x.", '/') == -1 by {
            assert RFind("x", '/') == -1 by {
              assert RFind("", '/') == -1;
              assert "x"[..0] == "";
            }
            assert "x."[..1] == "x";
          }
          assert "x.j"[..2] == "x.";
        }
        assert "x.jp"[..3] == "x.j";
      }
      assert "x.jpg"[..4] == "x.jp";
    }
  }

  /** No snapshot, a non-dict snapshot, or no usable `file` gives no keys, whatever the sizes. */
  lemma NoFileNoKeys(base: string, snapshot: Snapshot)
    requires !snapshot.Decoded? || !snapshot.value.JObj? || MainFile(snapshot.value).None?
    ensures ParseKeys(base, snapshot, None) == []
  {
  }

  /** The result never repeats a key and holds exactly the collected ones. */
  lemma ParseKeysDistinct(base: string, snapshot: Snapshot, storedKeys: Option<Json>)
    ensures NoDuplicates(ParseKeys(base, snapshot, storedKeys))
    ensures storedKeys.None? ==> forall k :: k in ParseKeys(base, snapshot, None) <==> k in SnapshotKeys(base, snapshot)
  {
    if storedKeys.Some? && storedKeys.value.JArr? && AllStrings(storedKeys.value.items) {
      DedupProperties(Strings(storedKeys.value.items));
    } else {
      DedupProperties(SnapshotKeys(base, snapshot));
    }
  }

  /** The main key comes first among the snapshot keys. */
  lemma MainKeyFirst(base: string, m: Json, main: string)
    requires m.JObj? && Get(m, "file") == Some(JStr(main)) && main != ""
    ensures var keys := ParseKeys(base, Decoded(m), None);
      |keys| > 0 && keys[0] == QueueKey(base, main)
  {
    DedupKeepsHead(SnapshotKeys(base, Decoded(m)));
  }

  /** No keys: success with no call made. */
  lemma DeleteNothing(bucket: string, respond: DeleteRequest -> DeleteReply)
    ensures DeleteKeys(bucket, [], respond) == (true, None)
  {
  }

  /** The request strips the leading '/' of every key and asks for a verbose answer. */
  lemma DeleteRequestShape(bucket: string, keys: seq<string>, i: nat)
    requires i < |keys|
    ensures var req := DeleteRequestFor(bucket, keys);
      && req.bucket == bucket && !req.quiet && |req.keys| == |keys|
      && req.keys[i] == LStrip(keys[i], Chars({'/'}))
      && (|req.keys[i]| > 0 ==> req.keys[i][0] != '/')
  {
  }

  /** Errors: success iff something was deleted, with every error joined by "; "; an exception fails with its text. */
  lemma DeleteWithErrors(bucket: string, keys: seq<string>, respond: DeleteRequest -> DeleteReply)
    requires |keys| > 0
    ensures var reply := respond(DeleteRequestFor(bucket, keys));
      var out := DeleteKeys(bucket, keys, respond);
      && (reply.Reply? && |reply.errors| > 0 ==>
            out == (|reply.deleted| > 0, Some(Join(ErrorTexts(reply.errors), "; "))))
      && (reply.Reply? && |reply.errors| == 0 ==> out == (true, None))
      && (reply.Raised? ==> out == (false, Some(reply.message)))
  {
  }

  /**
   * Each row gets PROCESSING and then exactly one final status: NO_KEYS when
   * there are no keys, DONE on a clean success, ERROR otherwise.
   */
  lemma {:induction false} QueueStatusMachine(base: string, bucket: string, items: seq<QueueItem>,
                                              respond: DeleteRequest -> DeleteReply, k: nat)
    requires k < |items|
    ensures var w := QueueWrites(base, bucket, items, respond);
      && |w| == 2 * |items|
      && w[2 * k] == StatusWrite(items[k].id, Processing, None)
      && w[2 * k + 1].id == items[k].id
      && (w[2 * k + 1].status == NoKeys <==> |ItemKeys(base, items[k])| == 0)
      && (w[2 * k + 1].status == Done <==>
            |ItemKeys(base, items[k])| > 0 && DeleteKeys(bucket, ItemKeys(base, items[k]), respond) == (true, None))
      && w[2 * k + 1].status != Processing
    decreases |items|
  {
    var init := items[..|items| - 1];
    if k < |items| - 1 {
      QueueStatusMachine(base, bucket, init, respond, k);
      assert init[k] == items[k];
    } else if |init| > 0 {
      QueueStatusMachine(base, bucket, init, respond, 0);
    }
  }

  // ---------------------------------------------------------------------
  // Watcher._is_excluded and is_path_relevant

  const TempSuffixes: seq<string> := [".swp", ".swx", "~", ".part", ".crdownload", ".tmp"]
  const ExcludedDirs: seq<string> := ["/cache/", "/.git/", "/node_modules/", "/uploads/sites/"]

  function EndsWithAny(s: string, suffixes: seq<string>): (r: bool)
    ensures r <==> exists i :: 0 <= i < |suffixes| && EndsWith(s, suffixes[i])
  {
    if |suffixes| == 0 then false
    else
      var r := EndsWith(s, suffixes[0]) || EndsWithAny(s, suffixes[1..]);
      assert forall i :: 1 <= i < |suffixes| ==> suffixes[i] == suffixes[1..][i - 1];
      r
  }

  function ContainsAny(s: string, subs: seq<string>): (r: bool)
    ensures r <==> exists i :: 0 <= i < |subs| && Contains(s, subs[i])
  {
    if |subs| == 0 then false
    else
      var r := Contains(s, subs[0]) || ContainsAny(s, subs[1..]);
      assert forall i :: 1 <= i < |subs| ==> subs[i] == subs[1..][i - 1];
      r
  }

  /** Dot-files, editor/download temporaries, and caches, VCS, packages and sub-site uploads. */
  function IsExcluded(path: string): (r: bool)
    ensures r <==>
      || StartsWith(PyBasename(path), ".")
      || (exists i :: 0 <= i < |TempSuffixes| && EndsWith(PyBasename(path), TempSuffixes[i]))
      || (exists i :: 0 <= i < |ExcludedDirs| && Contains(path, ExcludedDirs[i]))
  {
    var name := PyBasename(path);
    StartsWith(name, ".") || EndsWithAny(name, TempSuffixes) || ContainsAny(path, ExcludedDirs)
  }

  /** A shell wildcard match supporting `*` and `?` (fnmatch without bracket sets). */
  predicate Glob(s: string, p: string)
    decreases |s| + |p|
  {
    if |p| == 0 then |s| == 0
    else if p[0] == '*' then Glob(s, p[1..]) || (|s| > 0 && Glob(s[1..], p))
    else |s| > 0 && (p[0] == '?' || p[0] == s[0]) && Glob(s[1..], p[1..])
  }

  predicate NoWildcards(p: string) {
    forall i :: 0 <= i < |p| ==> p[i] != '*' && p[i] != '?'
  }

  lemma {:induction false} GlobLiteral(s: string)
    requires NoWildcards(s)
    ensures Glob(s, s)
    decreases |s|
  {
    if |s| > 0 {
      GlobLiteral(s[1..]);
    }
  }

  /** `*` followed by a literal suffix matches every name ending in it, e.g. "*.jpg". */
  lemma {:induction false} GlobStarSuffix(prefix: string, lit: string)
    requires NoWildcards(lit)
    ensures Glob(prefix + lit, "*" + lit)
    decreases |prefix|
  {
    if |prefix| == 0 {
      assert prefix + lit == lit;
      assert ("*" + lit)[1..] == lit;
      GlobLiteral(lit);
    } else {
      GlobStarSuffix(prefix[1..], lit);
      assert (prefix + lit)[1..] == prefix[1..] + lit;
    }
  }

  function AnyGlob(s: string, patterns: seq<string>): (r: bool)
    ensures r <==> exists i :: 0 <= i < |patterns| && Glob(s, patterns[i])
  {
    if |patterns| == 0 then false
    else
      var r := Glob(s, patterns[0]) || AnyGlob(s, patterns[1..]);
      assert forall i :: 1 <= i < |patterns| ==> patterns[i] == patterns[1..][i - 1];
      r
  }

  /** Paths under `baseDir/` are relevant when their relative path matches a pattern. */
  function IsPathRelevant(path: string, baseDir: string, patterns: seq<string>): (r: (bool, Option<string>))
    ensures !StartsWith(path, baseDir + "/") ==> r == (false, None)
    ensures StartsWith(path, baseDir + "/") ==>
      && r.1.Some? && baseDir + "/" + r.1.value == path
      && (r.0 <==> exists i :: 0 <= i < |patterns| && Glob(r.1.value, patterns[i]))
  {
    if !StartsWith(path, baseDir + "/") then (false, None)
    else
      var rel := path[|baseDir| + 1..];
      assert baseDir + "/" + rel == path;
      (AnyGlob(rel, patterns), Some(rel))
  }

  /** RELEVANT_PATTERNS: the ';'-separated setting, each piece stripped, blanks dropped. */
  function ParsePatterns(setting: string): (r: seq<string>)
    ensures forall i :: 0 <= i < |r| ==> r[i] != "" && Strip(r[i]) == r[i]
  {
    KeepStripped(Split(setting, ";"))
  }

  /** The stripped pieces, in their order, minus the blank ones. */
  function KeepStripped(pieces: seq<string>): (r: seq<string>)
    ensures forall i :: 0 <= i < |r| ==> r[i] != "" && Strip(r[i]) == r[i]
    ensures |r| <= |pieces|
  {
    if |pieces| == 0 then []
    else
      var p := Strip(pieces[0]);
      StripIdempotent(pieces[0]);
      (if p != "" then [p] else []) + KeepStripped(pieces[1..])
  }

  /** Every kept pattern is some piece stripped. */
  lemma {:induction false} KeepStrippedFrom(pieces: seq<string>, x: string)
    requires x in KeepStripped(pieces)
    ensures x != "" && exists k :: 0 <= k < |pieces| && Strip(pieces[k]) == x
    decreases |pieces|
  {
    var p := Strip(pieces[0]);
    var rest := KeepStripped(pieces[1..]);
    assert KeepStripped(pieces) == (if p != "" then [p] else []) + rest;
    if x !in rest {
      assert Strip(pieces[0]) == x;
    } else {
      KeepStrippedFrom(pieces[1..], x);
      var k :| 0 <= k < |pieces[1..]| && Strip(pieces[1..][k]) == x;
      assert Strip(pieces[k + 1]) == x;
    }
  }

  /** Every piece that is not blank once stripped is kept. */
  lemma {:induction false} KeepStrippedKeeps(pieces: seq<string>, k: nat)
    requires k < |pieces| && Strip(pieces[k]) != ""
    ensures Strip(pieces[k]) in KeepStripped(pieces)
    decreases |pieces|
  {
    var p := Strip(pieces[0]);
    var rest := KeepStripped(pieces[1..]);
    assert KeepStripped(pieces) == (if p != "" then [p] else []) + rest;
    if k > 0 {
      assert pieces[1..][k - 1] == pieces[k];
      KeepStrippedKeeps(pieces[1..], k - 1);
    }
  }

  /** The kept patterns are exactly the non-blank stripped pieces. */
  lemma KeepStrippedMembers(pieces: seq<string>)
    ensures forall x :: x in KeepStripped(pieces) <==>
      x != "" && exists k :: 0 <= k < |pieces| && Strip(pieces[k]) == x
  {
    forall x | x in KeepStripped(pieces) ensures x != "" && exists k :: 0 <= k < |pieces| && Strip(pieces[k]) == x {
      KeepStrippedFrom(pieces, x);
    }
    forall k | 0 <= k < |pieces| && Strip(pieces[k]) != "" ensures Strip(pieces[k]) in KeepStripped(pieces) {
      KeepStrippedKeeps(pieces, k);
    }
  }

  /** What ParsePatterns keeps: exactly the non-blank stripped pieces of the setting. */
  lemma ParsePatternsMembers(setting: string)
    ensures forall x :: x in ParsePatterns(setting) <==>
      x != "" && exists k :: 0 <= k < |Split(setting, ";")| && Strip(Split(setting, ";")[k]) == x
  {
    assert ParsePatterns(setting) == KeepStripped(Split(setting, ";"));
    KeepStrippedMembers(Split(setting, ";"));
  }

  /** Stripping works piece by piece: the kept patterns of two runs follow each other. */
  lemma {:induction false} KeepStrippedConcat(a: seq<string>, b: seq<string>)
    ensures KeepStripped(a + b) == KeepStripped(a) + KeepStripped(b)
    decreases |a|
  {
    if |a| > 0 {
      var tail := a[1..];
      assert a == [a[0]] + tail;
      assert a + b == [a[0]] + (tail + b);
      KeepStrippedCons(a[0], tail + b);
      KeepStrippedCons(a[0], tail);
      KeepStrippedConcat(tail, b);
    } else {
      assert a + b == b;
    }
  }

  /** The first piece contributes its own stripped text, or nothing, ahead of the rest. */
  lemma KeepStrippedCons(p: string, rest: seq<string>)
    ensures KeepStripped([p] + rest) == KeepStripped([p]) + KeepStripped(rest)
  {
    assert ([p] + rest)[1..] == rest;
    assert [p][1..] == [];
  }

  /** One piece yields its stripped text, or nothing when that is blank. */
  lemma KeepStrippedOne(p: string)
    ensures KeepStripped([p]) == if Strip(p) != "" then [Strip(p)] else []
  {
    assert [p][1..] == [];
  }

  lemma StripIdempotent(s: string)
    ensures Strip(Strip(s)) == Strip(s)
  {
    var l := LStrip(s, Whitespace);
    var t := RStrip(l, Whitespace);
    if |t| > 0 {
      assert t[0] == l[0];
      assert LStrip(t, Whitespace) == t;
    }
  }
}
