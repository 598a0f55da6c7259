# CloudMan glue logic, modelled in Dafny

CloudMan provisions and runs small AWS stacks. Its Lambdas, CodeBuild
scripts and EC2 helpers delete and mirror files, consolidate cost reports,
rewrite Terraform files, run load tests and route events between AWS
services. Once the AWS SDK calls, subprocesses, threads and clocks are
replaced by inputs, each of these scripts is a small deterministic
procedure. This project models those procedures and proves what they
promise.

One Dafny module models each script. The script's pure code becomes
functions and lemmas. Its loops become methods proved against those
functions. State the script updates in place (a request record, an item
table, a load test's shared state, the Cloud Map registrations, an artifact
store) becomes a class. Every AWS answer, subprocess outcome, clock reading
and random draw is a parameter.

| module | file | models |
|---|---|---|
| `Common` | common.dfy | Option and Result; the Python and PHP string operations the scripts use (split/join, find, strip, replace, basename, `int()`, `str()`, percent-decoding, order-preserving de-duplication) |
| `JsonValue` | json.dfy | decoded JSON and event dictionaries, with `d[k]`, `d.get`, `in`, indexing, truthiness and `str()` |
| `CloudFront` | cloudfront.dfy | the header map CloudFront hands to a Lambda@Edge function |
| `Primes` | primes.dfy | primality, "the first n primes", and the existence of a next prime |
| `S3HookDeleter` | s3_hook_deleter.dfy | EC2/Scripts/s3-hook-deleter.php |
| `EfsS3Monitor` | efs_s3_monitor.dfy | EC2/Scripts/efs_s3_monitor.py |
| `ProcessCur` | process_cur.dfy | LambdaFiles/ProcessCUR/ProcessCUR.py |
| `UserCopy` | user_copy.dfy | CodeBuild/UserTerraformBackend/Copy.py |
| `PipelineTerraBatch` | pipeline_terrabatch.dfy | CodeBuild/Pipeline/buildspec/TerraBatch.py |
| `ModifyMainTf` | modify_main_tf.dfy | CodeBuild/Pipeline/buildspec/modify_main_tf.py |
| `UserTerraBatch` | user_terrabatch.dfy | CodeBuild/UserTerraformBackend/TerraBatch.py |
| `RampingLoadTester` | loadtester_ramping.dfy | EC2/Scripts/LoadTester.py |
| `BasicLoadTester` | loadtester_basic.dfy | EC2/Scripts/load_tester.py |
| `JmeterServer` | jmeter_server.dfy | EC2/Scripts/JmeterServer.py |
| `HubCommon` | hub_common.dfy | what all the message hubs share: the numbered-variable loops, the SQS URL and SNS ARN formats, credential search, the SSM counter |
| `HubEvents` | hub_events.dfy | the event chain shared by the two older Lambda hubs and the CodeBuild hub |
| `LambdaHub` | lambda_hub.dfy | LambdaFiles/LambdaHub.py |
| `LambdaHubPackage` | lambda_hub_pkg.dfy | LambdaFiles/LambdaHub/LambdaHub.py |
| `LambdaHub2` | lambda_hub2.dfy | LambdaFiles/LambdaHub2/LambdaHub2.py |
| `CodeBuildHub` | codebuild_hub.dfy | CodeBuild/CodeBuildHub/CodeBuildHub.py |
| `Ec2HubBkp` | ec2_hub_bkp.dfy | Docker/TaskHub/EC2HubBKP.py |
| `Ec2Hub` | ec2_hub.dfy | Docker/TaskHub/EC2Hub.py |
| `PipelineReport` | pipeline_report.dfy | LambdaFiles/PipelineReport/PipelineReport.py |
| `GenLambdaLayer` | gen_lambda_layer.dfy | LambdaFiles/GenLambdaLayer/GenLambdaLayer.py |
| `N8nUp` | n8n_up.dfy | LambdaFiles/n8nUp.py |
| `BlueGreenCtrl` | blue_green_ctrl.dfy | LambdaFiles/BlueGreenCtrl.py |
| `LambdaEdgeTest` | lambda_edge_test.dfy | LambdaFiles/LambdaEdgeTest.py |
| `ApiTest` | api_test.dfy | LambdaFiles/APITest.py |

Some quirks of the code are reproduced rather than corrected:

- The PHP hook treats `pathinfo` dirname `"."` as a directory, so it joins thumbnails as `base + "./" + thumb`. The Python monitor treats `"."` as no directory.
- load_tester.py sets the status to running before it checks the URL, so a 400 for a missing URL leaves the test running.
- An empty Lambda name in LambdaHub2 makes every message look like a loop.
- BlueGreenCtrl derives a parameter name from the function name, then always fetches `bluegreen` instead.
- LambdaHub.py raises on an event with neither `CodePipeline.job` nor `Records`.
- LambdaHub.py binds `s3` inside `lambda_handler`, so reading a `.txt` object or writing to an S3 target raises (see Findings); `LambdaHub.HandleIntended` models the handler with the module-level client.

modify_main_tf.py is mis-indented at lines 183-187 and does not parse as
written, so the model follows the evident intent: that block only logs.

## Model

| member | source | states |
|---|---|---|
| Common.Unquote | LambdaFiles/LambdaHub.py:424 | percent-decoding never lengthens the text |
| Common.UnquotePlain | LambdaFiles/LambdaHub.py:424 | text without '%' is unchanged by percent-decoding |
| Common.PyBasename | EC2/Scripts/efs_s3_monitor.py:439 | the base name is a suffix of the path and contains no '/' |
| Common.BasenameAfter | EC2/Scripts/efs_s3_monitor.py:439 | the base name of a path ending in '/' and f is f |
| Common.Reverse | CodeBuild/UserTerraformBackend/TerraBatch.py:67 | the reversed list holds the elements in opposite order |
| Common.DedupProperties | EC2/Scripts/s3-hook-deleter.php:96 | removing duplicates leaves no duplicate, the same elements and no more of them than before |
| Common.DedupOfDistinct | EC2/Scripts/s3-hook-deleter.php:96 | a list without duplicates is left as it is |
| Common.DedupKeepsHead | EC2/Scripts/s3-hook-deleter.php:96 | the first element survives in first place |
| Common.FirstIndex | EC2/Scripts/s3-hook-deleter.php:96 | the index of the first occurrence: it holds the element and no earlier position does |
| Common.DedupOrderAt | EC2/Scripts/s3-hook-deleter.php:96 | of two kept elements, the earlier one in the result first occurs earlier in the input |
| Common.DedupKeepsFirstOccurrenceOrder | EC2/Scripts/s3-hook-deleter.php:96 | the result lists the distinct elements in the order of their first occurrences (with DedupProperties, this fixes the result) |
| Common.ParseIntOfIntToString | EC2/Scripts/load_tester.py:232 | int() of the decimal rendering of an integer gives the integer back |
| Common.NatToString | EC2/Scripts/load_tester.py:232 | a natural number renders as digits without a leading zero whose value is the number |
| Common.FloatTextPlain | EC2/Scripts/LoadTester.py:212 | on text without an exponent mark or underscore, float() reads the plain decimal value |
| Common.FloatTextExponent | EC2/Scripts/LoadTester.py:212 | float('1.5e3') is 1500.0 |
| Common.FloatTextUnderscore | EC2/Scripts/LoadTester.py:212 | float('1_0.5') is 10.5 |
| JsonValue.EscapeChar | LambdaFiles/LambdaHub.py:455 | repr() keeps exactly the printable characters other than the backslash and the quote; every escape starts with a backslash and is printable; a non-printable Latin-1 character becomes its two-digit \\x escape |
| JsonValue.EscapedPrintable | LambdaFiles/LambdaHub.py:455 | a string's repr() holds no non-printable character |
| JsonValue.ControlCharEscaped | LambdaFiles/LambdaHub.py:455 | repr('a\\x01b') is 'a\\x01b' with the escape written out |
| JsonValue.TypeName | LambdaFiles/GenLambdaLayer/GenLambdaLayer.py:61 | the type name is 'str' exactly for a string |
| S3HookDeleter.DropFileName | EC2/Scripts/s3-hook-deleter.php:83 | the directory part PHP's `pathinfo` keeps: a prefix of the path, ending in '/' when non-empty, with no '/' after it |
| S3HookDeleter.TrailingSlashIt | EC2/Scripts/s3-hook-deleter.php:85 | `trailingslashit` always yields a string ending in '/' |
| S3HookDeleter.CollectKeys | EC2/Scripts/s3-hook-deleter.php:74-93 | the loop builds the original key followed by one key per size entry that has a file |
| S3HookDeleter.HandleAttachmentDeletion | EC2/Scripts/s3-hook-deleter.php:51-140 | the hook's outcome is that of the handler function: configuration guards, metadata guard, de-duplicated request, log of the answer |
| S3HookDeleter.LogResponse | EC2/Scripts/s3-hook-deleter.php:120-139 | the log is the success line when anything was deleted, then one line per error, or the single exception line |
| S3HookDeleter.LogErrors | EC2/Scripts/s3-hook-deleter.php:129-133 | the loop over the errors appends exactly one line per error, in order |
| S3HookDeleter.ConfigGuard | EC2/Scripts/s3-hook-deleter.php:52-59 | a bucket or region that is empty, "0" or the placeholder stops the hook whatever the SDK, metadata or S3 would do |
| S3HookDeleter.MissingFileSendsNothing | EC2/Scripts/s3-hook-deleter.php:67-72 | missing metadata or metadata without `file` sends no request |
| S3HookDeleter.ThumbnailKeysBound | EC2/Scripts/s3-hook-deleter.php:87-92 | at most one thumbnail key per size entry |
| S3HookDeleter.ThumbnailKeysExact | EC2/Scripts/s3-hook-deleter.php:87-92 | a key is a thumbnail key iff some size entry with a file gives it |
| S3HookDeleter.GivesKeyInit | EC2/Scripts/s3-hook-deleter.php:87-92 | dropping the last size entry removes exactly the keys it alone gives |
| S3HookDeleter.SentKeys | EC2/Scripts/s3-hook-deleter.php:74-118 | with a file the request goes to the bucket, non-quiet, original key first, no duplicates, exactly the candidate keys, at most one per size plus one |
| S3HookDeleter.NeverNoKeys | EC2/Scripts/s3-hook-deleter.php:96-102 | the "no keys" branch is dead: the de-duplicated list always holds the original key |
| S3HookDeleter.NoSizesOnlyOriginal | EC2/Scripts/s3-hook-deleter.php:78-82 | without sizes exactly the original key is requested |
| S3HookDeleter.ErrorLinesSnoc | EC2/Scripts/s3-hook-deleter.php:130-132 | one more error adds one more line at the end |
| S3HookDeleter.ErrorLinesAt | EC2/Scripts/s3-hook-deleter.php:130-132 | the k-th error line describes the k-th error |
| S3HookDeleter.FailuresAreLogged | EC2/Scripts/s3-hook-deleter.php:104-139 | every per-key error is logged with key, code and message; both exception kinds end in one logged line instead of escaping |
| S3HookDeleter.ResponseLogComplete | EC2/Scripts/s3-hook-deleter.php:120-139 | the log of a response names every per-key error, or is the exception's line |
| S3HookDeleter.ErrorLinesListed | EC2/Scripts/s3-hook-deleter.php:129-133 | every error of the list has its line among the error lines |
| S3HookDeleter.DotDirnameQuirk | EC2/Scripts/s3-hook-deleter.php:83-89 | a top-level file has dirname ".", which is truthy, so its thumbnails get "./" |
| S3HookDeleter.TopLevelDirname | EC2/Scripts/s3-hook-deleter.php:83 | `pathinfo('x.jpg')['dirname']` is "." |
| S3HookDeleter.DropFileNameOf | EC2/Scripts/s3-hook-deleter.php:83 | the directory part of dir + name is dir when name holds no '/' |
| S3HookDeleter.DatedFolderThumbnail | EC2/Scripts/s3-hook-deleter.php:83-89 | a file in a dated folder puts its thumbnails in the same folder |
| EfsS3Monitor.DictValues | EC2/Scripts/efs_s3_monitor.py:268 | `sizes.values()` lists each entry's value in order |
| EfsS3Monitor.Strings | EC2/Scripts/efs_s3_monitor.py:246-247 | a stored list of strings is taken element by element |
| EfsS3Monitor.CollectThumbKeys | EC2/Scripts/efs_s3_monitor.py:268-276 | the loop over the sizes appends one key per dict entry with a `file`, joined to the main file's directory unless that is empty or "." |
| EfsS3Monitor.ParseS3KeysFromData | EC2/Scripts/efs_s3_monitor.py:241-281 | the keys are the de-duplicated stored list when it is a list of strings, else the de-duplicated keys of the metadata snapshot |
| EfsS3Monitor.ErrorTexts | EC2/Scripts/efs_s3_monitor.py:296 | one "S3 Key: .., Code: .., Message: .." text per error, in order |
| EfsS3Monitor.StripLeadingSlashes | EC2/Scripts/efs_s3_monitor.py:287 | every key is sent with its leading '/' characters removed |
| EfsS3Monitor.Slashed | EC2/Scripts/efs_s3_monitor.py:459 | a flush prefixes every batched path with '/' |
| EfsS3Monitor.InvalidationBatch.constructor | EC2/Scripts/efs_s3_monitor.py:41-43 | a new batch is empty and keeps the distribution id and maximum size |
| EfsS3Monitor.InvalidationBatch.Trigger | EC2/Scripts/efs_s3_monitor.py:448-475 | an empty batch stays as it is; without a distribution the batch is dropped; otherwise one request with the '/'-prefixed paths is recorded and the batch emptied |
| EfsS3Monitor.InvalidationBatch.Add | EC2/Scripts/efs_s3_monitor.py:477-489 | without a distribution nothing changes; a new key is appended once; reaching the maximum flushes |
| EfsS3Monitor.InvalidationBatch.AddAll | EC2/Scripts/efs_s3_monitor.py:331-332 | adding the keys one after the other, in order |
| EfsS3Monitor.AddPreservesInvariant | EC2/Scripts/efs_s3_monitor.py:477-489 | the batch never holds a duplicate and stays below the maximum size |
| EfsS3Monitor.FullBatchFlushes | EC2/Scripts/efs_s3_monitor.py:484-485 | a new key that brings the batch to the maximum flushes all of it, '/'-prefixed, and empties it |
| EfsS3Monitor.NoDistributionAddsNothing | EC2/Scripts/efs_s3_monitor.py:479 | without a distribution id no key is ever batched |
| EfsS3Monitor.AddBelowMaximum | EC2/Scripts/efs_s3_monitor.py:481-488 | below the maximum a known key changes nothing and a new key is appended |
| EfsS3Monitor.AddAllAppend | EC2/Scripts/efs_s3_monitor.py:331-332 | adding a + b is adding a then b |
| EfsS3Monitor.QueueSnoc | EC2/Scripts/efs_s3_monitor.py:315-334 | each item adds PROCESSING then its final status, and its invalidation paths, after those of the earlier items |
| EfsS3Monitor.DeletionQueue.constructor | EC2/Scripts/efs_s3_monitor.py:227-235 | no status written yet |
| EfsS3Monitor.DeletionQueue.ProcessItem | EC2/Scripts/efs_s3_monitor.py:316-334 | one item writes PROCESSING then its final status, and batches its keys for invalidation only after a successful delete |
| EfsS3Monitor.DeletionQueue.ProcessQueue | EC2/Scripts/efs_s3_monitor.py:306-334 | without a connection nothing is written; otherwise every item's writes in order, and the invalidations of every successful item |
| EfsS3Monitor.StoredListWins | EC2/Scripts/efs_s3_monitor.py:243-249 | a stored list of strings decides the keys whatever the snapshot, without duplicates, exactly its strings |
| EfsS3Monitor.QueueKeySingleSlash | EC2/Scripts/efs_s3_monitor.py:263 | exactly one '/' sits at the join of base and relative path |
| EfsS3Monitor.ThumbnailFolderRule | EC2/Scripts/efs_s3_monitor.py:270-275 | a thumbnail joins the main file's directory unless that is empty or "." |
| EfsS3Monitor.BareFileThumbnail | EC2/Scripts/efs_s3_monitor.py:264-275 | a top-level main file has directory "" and its thumbnails sit under the base path itself |
| EfsS3Monitor.NoFileNoKeys | EC2/Scripts/efs_s3_monitor.py:253-260 | no snapshot, a non-dict snapshot or no `file` gives no keys |
| EfsS3Monitor.ParseKeysDistinct | EC2/Scripts/efs_s3_monitor.py:249-281 | the keys have no duplicates and, without a stored list, are exactly the snapshot's keys |
| EfsS3Monitor.MainKeyFirst | EC2/Scripts/efs_s3_monitor.py:262-264 | with a file, the main key is among the keys and comes first |
| EfsS3Monitor.DeleteNothing | EC2/Scripts/efs_s3_monitor.py:284-286 | no keys gives (True, None) with no request |
| EfsS3Monitor.DeleteRequestShape | EC2/Scripts/efs_s3_monitor.py:287-291 | the request names the bucket, is non-quiet, and holds every key with its leading '/' removed |
| EfsS3Monitor.DeleteWithErrors | EC2/Scripts/efs_s3_monitor.py:291-304 | with errors success iff something was deleted and the message joins all errors with "; "; no errors gives (True, None); an exception gives (False, its text) |
| EfsS3Monitor.QueueStatusMachine | EC2/Scripts/efs_s3_monitor.py:315-334 | item k writes PROCESSING then exactly one final status: NO_KEYS iff no keys, DONE iff a clean delete, never PROCESSING |
| EfsS3Monitor.EndsWithAny | EC2/Scripts/efs_s3_monitor.py:440 | `str.endswith` with a tuple: true iff some suffix ends the name |
| EfsS3Monitor.ContainsAny | EC2/Scripts/efs_s3_monitor.py:441 | true iff some listed directory occurs in the path |
| EfsS3Monitor.IsExcluded | EC2/Scripts/efs_s3_monitor.py:438-444 | excluded exactly for dot-files, the temp suffixes and the four excluded directories |
| EfsS3Monitor.GlobLiteral | EC2/Scripts/efs_s3_monitor.py:428 | a pattern without wildcards matches itself |
| EfsS3Monitor.GlobStarSuffix | EC2/Scripts/efs_s3_monitor.py:428 | "*.ext" matches every name ending in ".ext" |
| EfsS3Monitor.AnyGlob | EC2/Scripts/efs_s3_monitor.py:428 | true iff some pattern matches |
| EfsS3Monitor.IsPathRelevant | EC2/Scripts/efs_s3_monitor.py:425-428 | a path outside the base gives (False, None); inside it gives the relative path and whether some pattern matches it |
| EfsS3Monitor.ParsePatterns | EC2/Scripts/efs_s3_monitor.py:65 | every pattern is non-empty and already stripped |
| EfsS3Monitor.KeepStripped | EC2/Scripts/efs_s3_monitor.py:65 | keeps only non-blank pieces, stripped |
| EfsS3Monitor.KeepStrippedFrom | EC2/Scripts/efs_s3_monitor.py:65 | every kept piece is non-empty and the strip of some input piece |
| EfsS3Monitor.KeepStrippedKeeps | EC2/Scripts/efs_s3_monitor.py:65 | the strip of every non-blank input piece is kept |
| EfsS3Monitor.KeepStrippedMembers | EC2/Scripts/efs_s3_monitor.py:65 | a text is kept iff it is non-empty and the strip of some piece |
| EfsS3Monitor.ParsePatternsMembers | EC2/Scripts/efs_s3_monitor.py:65 | a pattern is in the list iff it is the non-empty strip of some ";"-separated piece of the setting |
| EfsS3Monitor.KeepStrippedOne | EC2/Scripts/efs_s3_monitor.py:65 | one piece gives its strip when that is non-empty, and nothing otherwise |
| EfsS3Monitor.KeepStrippedCons | EC2/Scripts/efs_s3_monitor.py:65 | the first piece is handled before the rest |
| EfsS3Monitor.KeepStrippedConcat | EC2/Scripts/efs_s3_monitor.py:65 | the filter distributes over concatenation, so the kept pieces stay in input order |
| EfsS3Monitor.StripIdempotent | EC2/Scripts/efs_s3_monitor.py:65 | stripping twice is stripping once |
| ProcessCur.RetentionDays | LambdaFiles/ProcessCUR/ProcessCUR.py:23-32 | the retention is the setting's integer when positive, otherwise 30, also for text that is not an integer; always positive |
| ProcessCur.DaysBeforeMonthGrows | LambdaFiles/ProcessCUR/ProcessCUR.py:288 | the calendar's day count before a month grows by at least each month's length |
| ProcessCur.DaysInYear | LambdaFiles/ProcessCUR/ProcessCUR.py:276 | a year has 366 days when leap and 365 otherwise, as the date arithmetic assumes |
| ProcessCur.OrdinalMonotoneInYear | LambdaFiles/ProcessCUR/ProcessCUR.py:288 | within a year, the day number orders dates as the comparison `data_date < cutoff_date` does |
| ProcessCur.FindSegment | LambdaFiles/ProcessCUR/ProcessCUR.py:91 | the search finds the first `/dddddddd'T'dddddd'Z'/` segment at or after the start, or reports there is none |
| ProcessCur.KeyDateOfLeadingSegment | LambdaFiles/ProcessCUR/ProcessCUR.py:91-96 | a key that starts with a valid YYYYMMDDTHHMMSSZ segment is dated YYYY-MM-DD |
| ProcessCur.AddRowInPlace | LambdaFiles/ProcessCUR/ProcessCUR.py:136-152 | one row's update of the nested tag → product → usage-type table equals the row's aggregation step |
| ProcessCur.AddCostInPlace | LambdaFiles/ProcessCUR/ProcessCUR.py:145-152 | creates the missing tag, product and usage entries and adds the cost to the tag total and to the usage entry |
| ProcessCur.AggregateStep | LambdaFiles/ProcessCUR/ProcessCUR.py:124-152 | one more row is one more aggregation step |
| ProcessCur.CurrencyStep | LambdaFiles/ProcessCUR/ProcessCUR.py:128-133 | the currency is looked for only in the first 10 rows, and only until one is found |
| ProcessCur.NoteCurrency | LambdaFiles/ProcessCUR/ProcessCUR.py:128-133 | the loop's currency and flag after row k are the first currency of the first min(10, k+1) rows |
| ProcessCur.ProcessRows | LambdaFiles/ProcessCUR/ProcessCUR.py:119-166 | the row loop yields the aggregation of all rows and the first currency among the first 10 rows |
| ProcessCur.MapSumRemove | LambdaFiles/ProcessCUR/ProcessCUR.py:145-152 | the sum of a cost map is one entry plus the sum of the rest |
| ProcessCur.MapSumUpdate | LambdaFiles/ProcessCUR/ProcessCUR.py:151-152 | writing one entry changes the sum by the difference |
| ProcessCur.NestedSumUpdate | LambdaFiles/ProcessCUR/ProcessCUR.py:148-152 | adding a cost to one usage entry adds that cost to the nested sum |
| ProcessCur.NestedSumSet | LambdaFiles/ProcessCUR/ProcessCUR.py:148-150 | replacing one product's map changes the nested sum by the difference |
| ProcessCur.NestedSumNoProducts | LambdaFiles/ProcessCUR/ProcessCUR.py:146 | a new tag, with no products, sums to 0 |
| ProcessCur.AddRowTotals | LambdaFiles/ProcessCUR/ProcessCUR.py:136-152 | one row keeps every tag's TotalUnblendedCost equal to the sum of its usage entries |
| ProcessCur.AddCostTotals | LambdaFiles/ProcessCUR/ProcessCUR.py:145-152 | adding a cost keeps every tag's total equal to the sum of its usage entries |
| ProcessCur.AggregateTotals | LambdaFiles/ProcessCUR/ProcessCUR.py:145-152 | after any rows every tag's TotalUnblendedCost is the sum over its products and usage types |
| ProcessCur.RowPlacement | LambdaFiles/ProcessCUR/ProcessCUR.py:136-152 | a costed row adds its cost to its tag ("Untagged" iff the tag is missing or empty) and to its product's usage entry, and no other tag changes |
| ProcessCur.RowCurrency | LambdaFiles/ProcessCUR/ProcessCUR.py:129 | a present lineItem/CurrencyCode column decides alone (a short row's unfilled cell or an empty one gives no currency); only without it is pricing/currency read |
| ProcessCur.ZeroCostSkipped | LambdaFiles/ProcessCUR/ProcessCUR.py:138-142 | a row whose cost is missing, empty or not a decimal is skipped |
| ProcessCur.FirstCurrencyIsFirst | LambdaFiles/ProcessCUR/ProcessCUR.py:128-133 | the currency is the first non-empty currency of the rows, and none iff no row has one |
| ProcessCur.MergedAll | LambdaFiles/ProcessCUR/ProcessCUR.py:267-271 | once every tag of the day is written, the table is the merge |
| ProcessCur.MergeEffect | LambdaFiles/ProcessCUR/ProcessCUR.py:262-271 | the merge writes `[tag][date] = day_data` for each tag of the day and leaves every other tag and date as it was |
| ProcessCur.PruneEffect | LambdaFiles/ProcessCUR/ProcessCUR.py:276-305 | pruning removes exactly the dates before the cutoff, keeps dates that do not parse, and leaves no empty tag |
| ProcessCur.PrunedAll | LambdaFiles/ProcessCUR/ProcessCUR.py:298-304 | removing the emptied tags after pruning every tag's dates gives the prune |
| ProcessCur.CurrencySetOnce | LambdaFiles/ProcessCUR/ProcessCUR.py:311-313 | a currency already in the metadata is never replaced |
| ProcessCur.ConsolidatedFile.constructor | LambdaFiles/ProcessCUR/ProcessCUR.py:48-55 | a missing consolidated file starts with no costs and empty metadata |
| ProcessCur.ConsolidatedFile.MergeTag | LambdaFiles/ProcessCUR/ProcessCUR.py:268-270 | one tag gets the day's entry under the date, creating the tag if needed |
| ProcessCur.ConsolidatedFile.Merge | LambdaFiles/ProcessCUR/ProcessCUR.py:262-271 | the merge loop leaves the table equal to the merge specification and the metadata unchanged |
| ProcessCur.ConsolidatedFile.DatesToDelete | LambdaFiles/ProcessCUR/ProcessCUR.py:283-292 | the dates collected are exactly those that parse and fall before the cutoff |
| ProcessCur.ConsolidatedFile.PruneTag | LambdaFiles/ProcessCUR/ProcessCUR.py:283-299 | one tag loses its old dates, and is reported emptied iff nothing is left |
| ProcessCur.ConsolidatedFile.Prune | LambdaFiles/ProcessCUR/ProcessCUR.py:276-305 | the prune loops leave the table equal to the prune specification and the metadata unchanged |
| ProcessCur.ConsolidatedFile.UpdateMetadata | LambdaFiles/ProcessCUR/ProcessCUR.py:307-313 | date, timestamp and retention are set; the currency only when none was set |
| ProcessCur.ConsolidatedFile.ApplyReport | LambdaFiles/ProcessCUR/ProcessCUR.py:243-335 | a failed CUR parse answers 200 and changes nothing; otherwise merge, prune, metadata, and 200 or 500 by the save |
| ProcessCur.ConsolidatedFile.ApplyDay | LambdaFiles/ProcessCUR/ProcessCUR.py:261-335 | one parsed day is merged, pruned with cutoff today − retention, the metadata updated, and the save decides 200 or 500 |
| UserCopy.StripSuffix | CodeBuild/UserTerraformBackend/Copy.py:20-30 | the result is the prefix before the last '-', and the name itself iff it has no '-' |
| UserCopy.GetSourceName | CodeBuild/UserTerraformBackend/Copy.py:46-55 | the source name always ends in "-dev" |
| UserCopy.SplitSnoc | CodeBuild/UserTerraformBackend/Copy.py:40 | splitting a + sep + b, with b free of sep, adds b as the last part |
| UserCopy.StripSuffixOfJoin | CodeBuild/UserTerraformBackend/Copy.py:28-29 | `rsplit('-', 1)[0]` of dash-joined parts is the join of all but the last part |
| UserCopy.StripTwoIsStripTwice | CodeBuild/UserTerraformBackend/Copy.py:33-43 | with at least 3 parts, stripping two suffixes is stripping one twice; otherwise the name is unchanged |
| UserCopy.BackupRestoreAgree | CodeBuild/UserTerraformBackend/Copy.py:215-216 | a test bucket `base-x` and a target bucket `base-y-z` back up to and restore from the same `S3/base` folder and share the source name (see also lines 328-330) |
| UserCopy.StripSuffixOfBase | CodeBuild/UserTerraformBackend/Copy.py:20-30 | stripping one suffix from `base-s` gives base |
| UserCopy.StripTwoOfBase | CodeBuild/UserTerraformBackend/Copy.py:33-43 | stripping two suffixes from `base-s-t` gives base |
| UserCopy.StripSuffixExample | CodeBuild/UserTerraformBackend/Copy.py:22-26 | 's3-cloudman-test' gives 's3-cloudman' |
| UserCopy.StripSuffixNoDash | CodeBuild/UserTerraformBackend/Copy.py:30 | a name without '-' is unchanged |
| UserCopy.StripTwoSuffixesExample | CodeBuild/UserTerraformBackend/Copy.py:35-38 | 's3-cloudman1-alpha-2' gives 's3-cloudman1' |
| UserCopy.StripTwoSuffixesShort | CodeBuild/UserTerraformBackend/Copy.py:43 | a name with fewer than 3 parts is unchanged |
| UserCopy.BackupObjectPath | CodeBuild/UserTerraformBackend/Copy.py:215-216 | a backed-up object lies under `S3/{strip_suffix(bucket)}/` and ends in its key |
| UserCopy.BackupPathInRestoreDir | CodeBuild/UserTerraformBackend/Copy.py:215-216 | when the one-suffix and two-suffix bases agree, the backup path lies inside the restore folder (see also lines 328-330) |
| UserCopy.ParseCommand | CodeBuild/UserTerraformBackend/Copy.py:412-419 | the command type is the text before the first ',' (the whole command without one, with an empty path) |
| UserCopy.SplitPrefix | CodeBuild/UserTerraformBackend/Copy.py:414 | `split` without the separator gives the text itself; with it, the first part is followed by the separator |
| UserCopy.BackupObjectKey | CodeBuild/UserTerraformBackend/Copy.py:516-517 | the backup key ends in `/backup_{Version}.zip`, and starts with '/' only when the artifact path is empty (see also lines 591-592) |
| UserCopy.LStripAllOf | CodeBuild/UserTerraformBackend/Copy.py:516 | a path that strips to nothing holds no "/CopyArtifact" |
| UserCopy.LStripOneSlash | CodeBuild/UserTerraformBackend/Copy.py:516 | stripping '/' from "/" + rest gives rest when rest does not start with '/' |
| UserCopy.BackupKeyShape | CodeBuild/UserTerraformBackend/Copy.py:420 | with a command the key is `CopyArtifact/{pipeline}/{Version}/backup_{Version}.zip`, the same in backup and restore (see also lines 516-517) |
| UserCopy.Pow2 | CodeBuild/UserTerraformBackend/Copy.py:307 | the wait `2**attempt` is at least 1 |
| UserCopy.Waits | CodeBuild/UserTerraformBackend/Copy.py:306-310 | the i-th wait is 2^(i+1) seconds |
| UserCopy.TotalWait | CodeBuild/UserTerraformBackend/Copy.py:306-310 | k waits add up to 2^(k+1) − 2 seconds |
| UserCopy.UploadLambdaCode | CodeBuild/UserTerraformBackend/Copy.py:291-316 | at most max_retries calls; every call but the last met a conflict; updated iff the last call succeeded; any other error stops the loop; one wait per conflict |
| UserCopy.DefaultRetryWaits | CodeBuild/UserTerraformBackend/Copy.py:291-307 | with the default 5 tries the waits are 2, 4, 8, 16, 32 seconds, 62 in all |
| UserCopy.UploadS3FromBackup | CodeBuild/UserTerraformBackend/Copy.py:320-386 | the restore loop gives the specified outcome: bad target, missing folder, client failure, or the uploads of the walk |
| UserCopy.CrashStays | CodeBuild/UserTerraformBackend/Copy.py:356-360 | once an unreadable metadata file ends the walk, later files add nothing |
| UserCopy.RestoreNeedsTriple | CodeBuild/UserTerraformBackend/Copy.py:323-325 | a target that is not [bucket, region, account] restores nothing |
| UserCopy.UploadsFromDataFiles | CodeBuild/UserTerraformBackend/Copy.py:346-353 | every upload goes to the target bucket under the key of some data file, never of a `.metadata.json` file |
| UserCopy.UploadsAllDataFiles | CodeBuild/UserTerraformBackend/Copy.py:346-386 | without a broken metadata file every data file is uploaded once, in order, under its '/'-separated key |
| UserCopy.SlashKeyIsPath | CodeBuild/UserTerraformBackend/Copy.py:353 | with '/' as the OS separator the key is the relative path |
| UserCopy.ContentTypeDefaults | CodeBuild/UserTerraformBackend/Copy.py:355-371 | the content type comes from the metadata file, else the guessed type, else binary/octet-stream; a metadata file also supplies Metadata |
| PipelineTerraBatch.SplitResourceName | CodeBuild/Pipeline/buildspec/TerraBatch.py:47-61 | the suffix always starts with '-'; a name with too few parts gives ('', '-' + name) |
| PipelineTerraBatch.CutParts | CodeBuild/Pipeline/buildspec/TerraBatch.py:57-60 | joining the base parts and the suffix parts with '-' between them restores the name, and each join splits back into its parts |
| PipelineTerraBatch.SplitResourceNameRoundTrip | CodeBuild/Pipeline/buildspec/TerraBatch.py:53-61 | with more parts than the suffix length, base + suffix is the name, the base holds all but the last n parts and the suffix exactly the last n |
| PipelineTerraBatch.SplitOfParts | CodeBuild/Pipeline/buildspec/TerraBatch.py:53-61 | a name built from dash-free parts splits into exactly the base and suffix it was built from |
| PipelineTerraBatch.BlockHeadThenBrace | CodeBuild/Pipeline/buildspec/TerraBatch.py:73-78 | the assume_role block is its head followed by its closing brace line |
| PipelineTerraBatch.BlockHeadFree | CodeBuild/Pipeline/buildspec/TerraBatch.py:73-78 | the inserted text holds no '}' when the role does not |
| PipelineTerraBatch.BlockHeadMentionsRole | CodeBuild/Pipeline/buildspec/TerraBatch.py:73-86 | the inserted text contains "assume_role", so a second pass leaves the provider alone |
| PipelineTerraBatch.SubAtMatch | CodeBuild/Pipeline/buildspec/TerraBatch.py:84-92 | `re.sub` replaces the provider block matched here and goes on after it |
| PipelineTerraBatch.SubNoP | CodeBuild/Pipeline/buildspec/TerraBatch.py:79-92 | text that cannot start a provider block is copied one character at a time |
| PipelineTerraBatch.SubSkip | CodeBuild/Pipeline/buildspec/TerraBatch.py:79-92 | a prefix without 'p' is copied unchanged |
| PipelineTerraBatch.SubNoClose | CodeBuild/Pipeline/buildspec/TerraBatch.py:79-92 | text without '}' holds no block and is unchanged |
| PipelineTerraBatch.SubKeepsRoles | CodeBuild/Pipeline/buildspec/TerraBatch.py:84-88 | when every provider body already contains assume_role, the substitution changes nothing |
| PipelineTerraBatch.InjectUnchanged | CodeBuild/Pipeline/buildspec/TerraBatch.py:68-92 | no role, no aws provider, or every provider already holding assume_role leaves the code unchanged |
| PipelineTerraBatch.NoMatchAgain | CodeBuild/Pipeline/buildspec/TerraBatch.py:79-92 | a position where no block starts still starts none after the rest is rewritten |
| PipelineTerraBatch.IdemNoMatch | CodeBuild/Pipeline/buildspec/TerraBatch.py:79-92 | idempotence carries over a position where no block starts |
| PipelineTerraBatch.IdemAgain | CodeBuild/Pipeline/buildspec/TerraBatch.py:84-90 | a block whose body now contains assume_role is kept on the second pass |
| PipelineTerraBatch.MatchAgain | CodeBuild/Pipeline/buildspec/TerraBatch.py:79 | after inserting text without '}', the same block is matched again, longer by the insertion |
| PipelineTerraBatch.IdemKept | CodeBuild/Pipeline/buildspec/TerraBatch.py:86-88 | idempotence carries over a block that already had assume_role |
| PipelineTerraBatch.IdemInjected | CodeBuild/Pipeline/buildspec/TerraBatch.py:89-90 | idempotence carries over a block that received the assume_role block |
| PipelineTerraBatch.SubIdempotent | CodeBuild/Pipeline/buildspec/TerraBatch.py:79-92 | the substitution applied twice equals applying it once |
| PipelineTerraBatch.InjectIdempotent | CodeBuild/Pipeline/buildspec/TerraBatch.py:63-92 | `inject_assume_role` applied twice equals applying it once, for a role without '}' |
| PipelineTerraBatch.ModifyAndPrepareMainTf | CodeBuild/Pipeline/buildspec/TerraBatch.py:94-155 | the written main.tf is the role injection followed by the placeholder substitution of every manifest lambda, in order |
| PipelineTerraBatch.SubstituteAllSnoc | CodeBuild/Pipeline/buildspec/TerraBatch.py:117-137 | each manifest lambda rewrites the content left by the earlier ones |
| PipelineTerraBatch.TargetNameSplits | CodeBuild/Pipeline/buildspec/TerraBatch.py:115-123 | the target name splits into the manifest name's base and the state name's suffix |
| PipelineTerraBatch.NameParts | CodeBuild/Pipeline/buildspec/TerraBatch.py:53-61 | a long enough name is its dash-free base parts followed by exactly n suffix parts |
| PipelineTerraBatch.ArtifactPathShape | CodeBuild/Pipeline/buildspec/TerraBatch.py:128 | the artifact path is `/tmp/artifacts/lambdas/{target}.zip` |
| PipelineTerraBatch.LambdasDirJoin | CodeBuild/Pipeline/buildspec/TerraBatch.py:128 | joining a relative file name under the lambdas folder |
| PipelineTerraBatch.ArtifactPathNoBackslash | CodeBuild/Pipeline/buildspec/TerraBatch.py:128 | the artifact path never holds a backslash |
| PipelineTerraBatch.SubstituteOneAbsent | CodeBuild/Pipeline/buildspec/TerraBatch.py:130-137 | content without the placeholder prefix is unchanged by one lambda |
| PipelineTerraBatch.SubstituteAllAbsent | CodeBuild/Pipeline/buildspec/TerraBatch.py:117-137 | content without the placeholder prefix is unchanged by all lambdas |
| PipelineTerraBatch.CreateSnapshot | CodeBuild/Pipeline/buildspec/TerraBatch.py:225-251 | fails iff Version or ArtifactsBucket is empty; each lambda is downloaded from `base-dev` into `lambdas/base.zip`, each bucket into `s3_content/base`; the key is `CopyArtifacts/{pipeline}/{Version}/backup_{Version}.zip` |
| PipelineTerraBatch.RestoreSnapshot | CodeBuild/Pipeline/buildspec/TerraBatch.py:253-261 | fails iff Version or ArtifactsBucket is empty; the key ends in `/backup_{Version}.zip` |
| PipelineTerraBatch.SnapshotKeysAgree | CodeBuild/Pipeline/buildspec/TerraBatch.py:245-260 | the snapshot is uploaded under the key the restore reads |
| PipelineTerraBatch.SnapshotSourceAgreesWithCopy | CodeBuild/Pipeline/buildspec/TerraBatch.py:232-233 | the download source is the name Copy.py's `get_source_name` gives in the test stage |
| PipelineTerraBatch.SnapshotSourceNoDash | CodeBuild/Pipeline/buildspec/TerraBatch.py:55-56 | a dash-free name has an empty base: the source is "-dev" and the artifact "lambdas/.zip" (see also lines 232-234) |
| PipelineTerraBatch.ContextSuffix | CodeBuild/Pipeline/buildspec/TerraBatch.py:276-286 | no suffix iff the chosen list (ListStatesBlue for a non-test destroy, ListStates otherwise) is empty; a suffix starts with '-' |
| PipelineTerraBatch.Rename | CodeBuild/Pipeline/buildspec/TerraBatch.py:294-296 | an existing source is renamed to the target; nothing else changes |
| PipelineTerraBatch.RenameAllOthers | CodeBuild/Pipeline/buildspec/TerraBatch.py:290-305 | files that are neither a source nor a target stay as they are |
| PipelineTerraBatch.RenameAllMoves | CodeBuild/Pipeline/buildspec/TerraBatch.py:290-305 | when names do not clash, every `base.zip` ends as `base+suffix.zip` |
| PipelineTerraBatch.RenameStepMoves | CodeBuild/Pipeline/buildspec/TerraBatch.py:294-296 | one more rename keeps the earlier ones done |
| PipelineTerraBatch.ArtifactStore.constructor | CodeBuild/Pipeline/buildspec/TerraBatch.py:288-305 | the artifact folders as found |
| PipelineTerraBatch.ArtifactStore.Contextualize | CodeBuild/Pipeline/buildspec/TerraBatch.py:273-307 | an empty state list renames nothing; otherwise every lambda zip and bucket folder present gets the first state's suffix |
| PipelineTerraBatch.RenameEach | CodeBuild/Pipeline/buildspec/TerraBatch.py:290-305 | the loop over a manifest list ends with exactly the names the specified renames give |
| PipelineTerraBatch.RenameAllSnoc | CodeBuild/Pipeline/buildspec/TerraBatch.py:290-296 | each manifest entry renames after the earlier ones |
| PipelineTerraBatch.StatesToProcess | CodeBuild/Pipeline/buildspec/TerraBatch.py:344 | destroy runs the reversed ListStates in test and the reversed ListStatesBlue otherwise; every other command runs ListStates in order |
| PipelineTerraBatch.StateDirFiles | CodeBuild/Pipeline/buildspec/TerraBatch.py:353-358 | the state folder holds main.tf, and `.terraform.lock.hcl` iff the lock file was downloaded |
| PipelineTerraBatch.RunMain | CodeBuild/Pipeline/buildspec/TerraBatch.py:330-405 | a failed phase one processes nothing; states run in order and the first failure stops; uploads happen iff apply succeeds everywhere; exit 0 iff all passed and a destroy was approved; the artifact folders are renamed with the state suffix exactly when phase one ran and passed and a suffix exists, and are otherwise unchanged |
| ModifyMainTf.OpeningChars | CodeBuild/Pipeline/buildspec/modify_main_tf.py:97 | after its leading 'p', a provider opening contains no 'p' and no '}' |
| ModifyMainTf.OpeningLength | CodeBuild/Pipeline/buildspec/modify_main_tf.py:97 | a found opening length covers a prefix matching `provider\s+"?aws"?\s*{` |
| ModifyMainTf.MatchAt | CodeBuild/Pipeline/buildspec/modify_main_tf.py:97 | a match is an aws provider opening followed by a body free of '}' and the closing '}' |
| ModifyMainTf.FindAll | CodeBuild/Pipeline/buildspec/modify_main_tf.py:97-98 | every match found by the provider regex is an opening plus a '}'-free body |
| ModifyMainTf.NoCloseNoBlock | CodeBuild/Pipeline/buildspec/modify_main_tf.py:97-98 | text without '}' holds no provider block |
| ModifyMainTf.InjectAssumeRole | CodeBuild/Pipeline/buildspec/modify_main_tf.py:78-125 | the loop's result is the specified injection of the assume_role block |
| ModifyMainTf.InjectWithoutProvider | CodeBuild/Pipeline/buildspec/modify_main_tf.py:83-85 | no role leaves the code unchanged; no provider block prepends the default cross-account provider |
| ModifyMainTf.NoBraceGetsDefault | CodeBuild/Pipeline/buildspec/modify_main_tf.py:102-111 | code without any '}' gets exactly the default provider and a blank line in front |
| ModifyMainTf.InjectSingleProvider | CodeBuild/Pipeline/buildspec/modify_main_tf.py:113-123 | a single provider block gets the assume_role block inserted just before its closing brace, the rest untouched |
| ModifyMainTf.ReplaceInCode | CodeBuild/Pipeline/buildspec/modify_main_tf.py:122 | replacing a pattern that occurs once replaces exactly that occurrence |
| ModifyMainTf.InjectOneBlock | CodeBuild/Pipeline/buildspec/modify_main_tf.py:115-122 | with one match, injection is the str.replace of that block by the block with assume_role |
| ModifyMainTf.LayoutSplit | CodeBuild/Pipeline/buildspec/modify_main_tf.py:113-123 | a code laid out around its blocks splits at any block into the part before, the block and the part after |
| ModifyMainTf.Turn | CodeBuild/Pipeline/buildspec/modify_main_tf.py:113-123 | after i replacements the first i blocks are replaced and the others unchanged |
| ModifyMainTf.ReplaceOnePiece | CodeBuild/Pipeline/buildspec/modify_main_tf.py:122 | a block whose first occurrence is its own and that does not occur after it is replaced by str.replace in place, the rest untouched |
| ModifyMainTf.ReplacePiecesTurn | CodeBuild/Pipeline/buildspec/modify_main_tf.py:113-123 | each turn of the loop replaces exactly its own block in the laid-out code |
| ModifyMainTf.ReplacePiecesAll | CodeBuild/Pipeline/buildspec/modify_main_tf.py:113-123 | the whole loop replaces every block in place and leaves the separators untouched |
| ModifyMainTf.Blocks | CodeBuild/Pipeline/buildspec/modify_main_tf.py:115 | the matched blocks' texts, one per match, never empty |
| ModifyMainTf.InjectedBlocks | CodeBuild/Pipeline/buildspec/modify_main_tf.py:116-121 | each matched block with the assume_role block before its closing brace |
| ModifyMainTf.ReplaceBlocksPieces | CodeBuild/Pipeline/buildspec/modify_main_tf.py:113-123 | the replacement loop over the matches is the piecewise replacement of the block texts |
| ModifyMainTf.InjectProviders | CodeBuild/Pipeline/buildspec/modify_main_tf.py:113-123 | with k matched blocks, each replaced only where it stands, every block gets the assume_role block before its closing brace and the text between and around the blocks is unchanged |
| ModifyMainTf.PathRun | CodeBuild/Pipeline/buildspec/modify_main_tf.py:141 | the run is the longest prefix free of quote and backslash |
| ModifyMainTf.LocalFiles | CodeBuild/Pipeline/buildspec/modify_main_tf.py:141 | every local path found starts with C:/Cloudman and holds no quote or backslash |
| ModifyMainTf.TmpPathUnderTmp | CodeBuild/Pipeline/buildspec/modify_main_tf.py:151-156 | the temporary path is /tmp/ plus the stripped relative path, so the /tmp guard never rejects |
| ModifyMainTf.GithubPathShape | CodeBuild/Pipeline/buildspec/modify_main_tf.py:161-162 | the GitHub path has no backslash and drops the cloudman/ prefix only when present |
| ModifyMainTf.ModifyTerraformFile | CodeBuild/Pipeline/buildspec/modify_main_tf.py:129-196 | the loop's content, copied set, downloads and abort flag are those of the specified walk |
| ModifyMainTf.WalkSnoc | CodeBuild/Pipeline/buildspec/modify_main_tf.py:148-182 | the walk over one more file is one more step |
| ModifyMainTf.WalkStaysAborted | CodeBuild/Pipeline/buildspec/modify_main_tf.py:170-172 | once a download fails, later files change nothing |
| ModifyMainTf.StepKeepsRules | CodeBuild/Pipeline/buildspec/modify_main_tf.py:160-179 | one file step keeps the download and copied-set rules |
| ModifyMainTf.StepNoDownload | CodeBuild/Pipeline/buildspec/modify_main_tf.py:173-174 | an already copied file (or an aborted run) downloads nothing new and keeps the rules |
| ModifyMainTf.StepDownload | CodeBuild/Pipeline/buildspec/modify_main_tf.py:160-172 | a new file is downloaded; success adds it to the copied set, failure aborts |
| ModifyMainTf.NewDownload | CodeBuild/Pipeline/buildspec/modify_main_tf.py:160-169 | a newly downloaded file is distinct from earlier downloads and was not copied before |
| ModifyMainTf.WalkDownloads | CodeBuild/Pipeline/buildspec/modify_main_tf.py:148-182 | over any file list: each file downloads at most once, only if not previously copied; without abort the copied set is the old set plus the successful downloads; on abort the last download failed |
| ModifyMainTf.LoadCopiedFiles | CodeBuild/Pipeline/buildspec/modify_main_tf.py:18-35 | a missing or unreadable record loads as the empty set |
| ModifyMainTf.LoadSavedList | CodeBuild/Pipeline/buildspec/modify_main_tf.py:23-29 | a saved list of strings loads as the set of those strings |
| ModifyMainTf.ItemsOfStrings | CodeBuild/Pipeline/buildspec/modify_main_tf.py:26 | a list of strings converts to the set of its strings |
| ModifyMainTf.MainSpec | CodeBuild/Pipeline/buildspec/modify_main_tf.py:201-230 | a saved outcome needs STATE_NAME set and main.tf present, and its copied set contains the loaded one |
| UserTerraBatch.Start | CodeBuild/UserTerraformBackend/TerraBatch.py:17-62 | startup is refused exactly when the bucket name or the command is unset, the bucket checked first; otherwise the command is parsed as Copy.py parses it |
| UserTerraBatch.NoListFileDefaults | CodeBuild/UserTerraformBackend/TerraBatch.py:47-60 | an unreadable List.txt gives empty state lists, not approved and not a test run |
| UserTerraBatch.JoinPrefix | CodeBuild/UserTerraformBackend/TerraBatch.py:34-40 | a joined list starts with its first two (three) parts and separators |
| UserTerraBatch.CommandFields | CodeBuild/UserTerraformBackend/TerraBatch.py:34-40 | command type, path, pipeline and stage are the comma and slash fields, or empty when missing |
| UserTerraBatch.StatesToProcess | CodeBuild/UserTerraformBackend/TerraBatch.py:64-70 | destroy processes the (blue or test) list reversed, every other command the list in order |
| UserTerraBatch.OrderMatchesPipeline | CodeBuild/UserTerraformBackend/TerraBatch.py:64-70 | the state order equals the pipeline TerraBatch order for the same manifest |
| UserTerraBatch.Environment.constructor | CodeBuild/UserTerraformBackend/TerraBatch.py:74-79 | the environment starts with the given variables |
| UserTerraBatch.Environment.SetConstants | CodeBuild/UserTerraformBackend/TerraBatch.py:74-79 | the constants are set exactly when table name and region are present (os.environ refuses None) |
| UserTerraBatch.Environment.RunStates | CodeBuild/UserTerraformBackend/TerraBatch.py:101-194 | states run in order until the first failing one; STATE_NAME ends as the last state run |
| UserTerraBatch.VarsAfterSnoc | CodeBuild/UserTerraformBackend/TerraBatch.py:132 | running one more state sets STATE_NAME to it |
| UserTerraBatch.RunMain | CodeBuild/UserTerraformBackend/TerraBatch.py:64-238 | a missing table or region fails before any state; states run in order and stop at the first failure; Copy.py runs only after a fully successful apply; the run finishes iff all states, the apply copy and the destroy approval pass |
| RampingLoadTester.Categorize | EC2/Scripts/LoadTester.py:142-155 | none is a network error, 2xx success, 429 rate limit, other 4xx client error, 5xx server error, anything else other — each category exactly its codes |
| RampingLoadTester.CountOf | EC2/Scripts/LoadTester.py:164 | a category count never exceeds the number of results |
| RampingLoadTester.CountsPartition | EC2/Scripts/LoadTester.py:164 | the six category counts add up to the number of results |
| RampingLoadTester.CountZero | EC2/Scripts/LoadTester.py:164 | a count is zero exactly when no result falls in that category |
| RampingLoadTester.Insert | EC2/Scripts/LoadTester.py:180 | inserting into a sorted list keeps it sorted and adds exactly the element |
| RampingLoadTester.LowerBoundKept | EC2/Scripts/LoadTester.py:180 | a lower bound of every element survives a permutation |
| RampingLoadTester.SortReals | EC2/Scripts/LoadTester.py:180 | sorting yields a sorted permutation of the durations |
| RampingLoadTester.SeqMin | EC2/Scripts/LoadTester.py:184 | min is an element and below every element |
| RampingLoadTester.SeqMax | EC2/Scripts/LoadTester.py:184 | max is above every element |
| RampingLoadTester.SortedEnds | EC2/Scripts/LoadTester.py:180-184 | the sorted list's ends are the minimum and the maximum |
| RampingLoadTester.SortedFirstIsMin | EC2/Scripts/LoadTester.py:183-186 | the first element of a sorted permutation is the minimum |
| RampingLoadTester.SortedLastIsMax | EC2/Scripts/LoadTester.py:183-186 | the last element of a sorted permutation is the maximum |
| RampingLoadTester.SuccessTimes | EC2/Scripts/LoadTester.py:166 | one duration per successful result |
| RampingLoadTester.PercentileIndexBounds | EC2/Scripts/LoadTester.py:185-187 | the p50, p95 and p99 indices are ordered and within the list |
| RampingLoadTester.CalculateSummary | EC2/Scripts/LoadTester.py:157-190 | no results give an empty summary; otherwise total and the five category counts are reported, and timings exactly when some request succeeded |
| RampingLoadTester.DistributionBound | EC2/Scripts/LoadTester.py:170-176 | the reported distribution never exceeds the total, and equals it exactly when no result is "other" |
| RampingLoadTester.TimingOrdered | EC2/Scripts/LoadTester.py:179-188 | min <= p50 <= p95 <= p99 <= max, each percentile is a measured duration, and every duration lies between min and max |
| RampingLoadTester.SortedMono | EC2/Scripts/LoadTester.py:180 | a sorted list is monotone between any two indices |
| RampingLoadTester.SortedIndexIn | EC2/Scripts/LoadTester.py:185-187 | every entry of a permutation is an element of the original |
| RampingLoadTester.ParseParam | EC2/Scripts/LoadTester.py:210-215 | a value with '.' that float() reads (sign, underscores between digits, exponent) is a float, one without '.' that int() reads is an int, anything else stays text |
| RampingLoadTester.ParseParamOfInt | EC2/Scripts/LoadTester.py:213-214 | the text of an integer parses back to that integer |
| RampingLoadTester.ParseParamExponent | EC2/Scripts/LoadTester.py:212 | '1.5e3' becomes the float 1500.0 |
| RampingLoadTester.ParseParamUnderscore | EC2/Scripts/LoadTester.py:212 | '1_0.5' becomes the float 10.5 |
| RampingLoadTester.LastNaming | EC2/Scripts/LoadTester.py:109 | finds the last header line naming a key, or none |
| RampingLoadTester.NamesInPrefix | EC2/Scripts/LoadTester.py:109 | dropping the last line does not change which earlier lines name a key |
| RampingLoadTester.HeadersOfSpec | EC2/Scripts/LoadTester.py:109 | a key is a header iff some line with ':' names it, and its value comes from the last such line |
| RampingLoadTester.LastNamingExists | EC2/Scripts/LoadTester.py:109 | the last naming line exists iff some line names the key |
| RampingLoadTester.ParseHeaders | EC2/Scripts/LoadTester.py:108-112 | headers come from the stripped text split on newlines; a missing or non-text parameter gives no headers |
| RampingLoadTester.UserCount | EC2/Scripts/LoadTester.py:116-119 | the user count defaults to 1 and is the parameter when an integer; a non-integer user count or a text ramp-up makes the run fail |
| RampingLoadTester.LiveStatsOf | EC2/Scripts/LoadTester.py:233-245 | live stats exist iff there are results and a start time; success plus errors is the total |
| RampingLoadTester.LiveErrors | EC2/Scripts/LoadTester.py:240-243 | live errors count every non-success category |
| RampingLoadTester.ParseForm | EC2/Scripts/LoadTester.py:209-215 | every form field is parsed, the key set is unchanged |
| RampingLoadTester.LoadTest.constructor | EC2/Scripts/LoadTester.py:15-22 | the initial state is idle with nothing recorded |
| RampingLoadTester.LoadTest.StartTest | EC2/Scripts/LoadTester.py:204-223 | an active test answers 409 and changes nothing; otherwise the state is reset with the parsed parameters and the answer is a redirect |
| RampingLoadTester.LoadTest.StopTest | EC2/Scripts/LoadTester.py:226-230 | an active test moves to stopping, any other status stays |
| RampingLoadTester.LoadTest.BeginRun | EC2/Scripts/LoadTester.py:102-117 | marks the start time, moves to ramping and parses headers and user count |
| RampingLoadTester.LoadTest.MayContinue | EC2/Scripts/LoadTester.py:119-122 | users keep starting only while ramping or running |
| RampingLoadTester.LoadTest.EndRamp | EC2/Scripts/LoadTester.py:128-130 | ramping becomes running, any other status stays |
| RampingLoadTester.LoadTest.FinishRun | EC2/Scripts/LoadTester.py:136-139 | the summary is computed from all results and the status is finished |
| RampingLoadTester.LoadTest.RecordResult | EC2/Scripts/LoadTester.py:73-75 | a result is kept only while the test is active |
| RampingLoadTester.LoadTest.GetStatus | EC2/Scripts/LoadTester.py:233-246 | the live stats are recomputed from the results |
| RampingLoadTester.SliceFrom | EC2/Scripts/LoadTester.py:44 | Python slicing from an index, empty past the end |
| RampingLoadTester.IntervalOf | EC2/Scripts/LoadTester.py:49-62 | an interval point counts the window's requests and its successful durations |
| RampingLoadTester.Aggregator.constructor | EC2/Scripts/LoadTester.py:32 | aggregation starts at index 0 |
| RampingLoadTester.Aggregator.Tick | EC2/Scripts/LoadTester.py:33-62 | inactive resets the index and the series; active takes the results since the last tick, advances the index, and appends a point only for a non-empty window |
| RampingLoadTester.WindowsConsecutive | EC2/Scripts/LoadTester.py:42-45 | consecutive windows cover the results without gap or overlap |
| BasicLoadTester.SampleOf | EC2/Scripts/load_tester.py:200-211 | a failed request is recorded as -1, otherwise the status code, with the elapsed time |
| BasicLoadTester.SuccessCount | EC2/Scripts/load_tester.py:273 | successes never exceed the samples |
| BasicLoadTester.FailuresAreMinusOne | EC2/Scripts/load_tester.py:276 | failed requests are exactly the samples coded -1 |
| BasicLoadTester.CodeCountsExact | EC2/Scripts/load_tester.py:274-282 | a code is in the Counter iff some sample has it, with its exact count |
| BasicLoadTester.Codes | EC2/Scripts/load_tester.py:274 | one status code per sample |
| BasicLoadTester.SumOverUpdate | EC2/Scripts/load_tester.py:282 | updating one counter entry changes the sum over distinct keys by the difference |
| BasicLoadTester.CountedCodesOccur | EC2/Scripts/load_tester.py:282 | every counted code occurs in the samples |
| BasicLoadTester.CodeCountsTotal | EC2/Scripts/load_tester.py:282 | the status-code counts add up to the number of samples |
| BasicLoadTester.SummaryOf | EC2/Scripts/load_tester.py:272-283 | total, success and failed counts with success + failed = total, and the code counts |
| BasicLoadTester.SummaryConsistent | EC2/Scripts/load_tester.py:272-283 | failed requests are the -1 samples and the code counts add up to the total |
| BasicLoadTester.NumUsers | EC2/Scripts/load_tester.py:231 | a missing field defaults to 10 users, otherwise the field parsed as an integer (None when int() raises) |
| BasicLoadTester.TestState.constructor | EC2/Scripts/load_tester.py:192-196 | starts idle with no threads, results or start time |
| BasicLoadTester.TestState.StartTest | EC2/Scripts/load_tester.py:220-244 | a running test answers 409 and changes nothing; otherwise the state is reset to running first, then a bad user count gives 500 and a missing URL 400 (both with the status left running), and success starts one worker per user |
| BasicLoadTester.TestState.RecordSample | EC2/Scripts/load_tester.py:210-211 | each sample is appended |
| BasicLoadTester.TestState.WorkerContinues | EC2/Scripts/load_tester.py:200 | workers run until the stop event is set |
| BasicLoadTester.TestState.StopTest | EC2/Scripts/load_tester.py:247-253 | a running test moves to stopping and sets the stop event; otherwise nothing changes |
| BasicLoadTester.TestState.ForceReset | EC2/Scripts/load_tester.py:255-260 | the stop event is set and the state is back to idle and empty |
| BasicLoadTester.TestState.GetStatus | EC2/Scripts/load_tester.py:262-284 | a running test with no live thread becomes finished; a summary is reported only with results while running or finished |
| JmeterServer.LastSummaryIndex | EC2/Scripts/JmeterServer.py:71-72 | the chosen line is the last one containing the Summariser marker, or none |
| JmeterServer.SpacesEnd | EC2/Scripts/JmeterServer.py:84 | `\s*` consumes exactly the maximal run of whitespace |
| JmeterServer.RunEnd | EC2/Scripts/JmeterServer.py:84 | `\d+` and `[\d\.]+` consume exactly the maximal run of digits (and dots) |
| JmeterServer.MatchFillers | EC2/Scripts/JmeterServer.py:84 | matching literal and whitespace pieces only moves forward within the line |
| JmeterServer.MatchGroup | EC2/Scripts/JmeterServer.py:84 | a captured group is the consumed text and has its group's shape (digits, number, hh:mm:ss) |
| JmeterServer.MatchSteps | EC2/Scripts/JmeterServer.py:84 | a match yields one group per capture, each of its shape |
| JmeterServer.Search | EC2/Scripts/JmeterServer.py:87-90 | re.search: the result is the match at some position from the start, and none only when no position matches |
| JmeterServer.ClockText | EC2/Scripts/JmeterServer.py:97 | the printed clock has the hh:mm:ss shape |
| JmeterServer.TwoDigitsValue | EC2/Scripts/JmeterServer.py:97 | a two-digit field reads back as its number |
| JmeterServer.ClockRoundTrip | EC2/Scripts/JmeterServer.py:97-98 | reading h:m:s gives h*3600 + m*60 + s seconds |
| JmeterServer.MatchFits | EC2/Scripts/JmeterServer.py:84-85 | groups of a match fit the typed fields of the summary pattern |
| JmeterServer.FromGroups | EC2/Scripts/JmeterServer.py:93-103 | samples, times, counts and percentages come from groups 1-8; final sets active threads to 0, incremental takes groups 9-11; a failing float() leaves the summary unchanged |
| JmeterServer.ParseSummaryLine | EC2/Scripts/JmeterServer.py:75-103 | raw line and timestamp are kept; "summary =" means final, otherwise "summary +" incremental; values are only filled for a known kind, and a final one has 0 active threads |
| JmeterServer.MatchSummary | EC2/Scripts/JmeterServer.py:86-103 | filling from a match keeps the kind, raw line and timestamp, and a final summary has 0 active threads |
| JmeterServer.FilledSummary | EC2/Scripts/JmeterServer.py:93-103 | filled values always include the time segment and the active threads |
| JmeterServer.ParseLogSummary | EC2/Scripts/JmeterServer.py:68-106 | no Summariser line gives the all-None summary; otherwise the last such line decides raw line, timestamp and kind |
| JmeterServer.PropValue | EC2/Scripts/JmeterServer.py:239-246 | a non-blank value is used stripped, otherwise the stripped default, otherwise nothing |
| JmeterServer.PropRoundTrip | EC2/Scripts/JmeterServer.py:248-249 | an added -J argument reads back as its name and value |
| JmeterServer.OptProp | EC2/Scripts/JmeterServer.py:239-255 | add_jmeter_prop adds one property exactly when a value or a default exists, with that value |
| JmeterServer.PropsOf | EC2/Scripts/JmeterServer.py:257-281 | a sequence of calls adds at most one property per call |
| JmeterServer.PropsOfSnoc | EC2/Scripts/JmeterServer.py:239-255 | one more call appends its property, if any |
| JmeterServer.DefaultedAllAdded | EC2/Scripts/JmeterServer.py:239-255 | calls that all carry defaults add every property, in order |
| JmeterServer.TimerOf | EC2/Scripts/JmeterServer.py:263-272 | the timer branch follows TIMER_TYPE, default constant |
| JmeterServer.ModeOf | EC2/Scripts/JmeterServer.py:275-281 | the control branch follows CONTROL_MODE, default duration |
| JmeterServer.PropsOfAppend | EC2/Scripts/JmeterServer.py:257-281 | the properties of consecutive calls concatenate |
| JmeterServer.HostOptional | EC2/Scripts/JmeterServer.py:257-263 | TARGET_HOST is added only when non-blank; protocol, threads, ramp-up and timer type always are |
| JmeterServer.TimerSelection | EC2/Scripts/JmeterServer.py:265-272 | only the selected timer's properties are added: C_DELAY, or UR_RANGE and UR_OFFSET, or GR_DEVIATION and GR_OFFSET, or none |
| JmeterServer.ModeSelection | EC2/Scripts/JmeterServer.py:275-281 | duration mode adds USE_SCHEDULER=true, DURATION (default 60) and TEST_LOOPS=-1; loops mode USE_SCHEDULER=false and TEST_LOOPS (default 1); any other mode nothing |
| JmeterServer.DurationProps | EC2/Scripts/JmeterServer.py:275-278 | the duration-mode properties in order |
| JmeterServer.LoopsProps | EC2/Scripts/JmeterServer.py:279-281 | the loops-mode properties in order |
| JmeterServer.DefaultedNames | EC2/Scripts/JmeterServer.py:239-255 | calls with defaults add exactly their names |
| JmeterServer.RenderAll | EC2/Scripts/JmeterServer.py:248-250 | one -J argument per property |
| JmeterServer.RenderAllAppend | EC2/Scripts/JmeterServer.py:248-250 | rendering distributes over concatenation |
| JmeterServer.AddJmeterProp | EC2/Scripts/JmeterServer.py:239-255 | a call extends the command by the rendering of its optional property |
| JmeterServer.AddPropStep | EC2/Scripts/JmeterServer.py:239-255 | extending the command by one call adds that call's property to the rendered ones |
| JmeterServer.AddTimerProps | EC2/Scripts/JmeterServer.py:265-272 | the timer block appends the selected timer's properties |
| JmeterServer.AddModeProps | EC2/Scripts/JmeterServer.py:275-281 | the control block appends the selected mode's properties |
| JmeterServer.AddFixedProps | EC2/Scripts/JmeterServer.py:257-263 | the fixed block appends host, protocol, threads, ramp-up and timer type |
| JmeterServer.RenderBlocks | EC2/Scripts/JmeterServer.py:257-281 | the three blocks' arguments follow each other |
| JmeterServer.BuildCommand | EC2/Scripts/JmeterServer.py:232-286 | the built command is the executable, the headless flag, the optional summariser interval, the properties and the -n -t -l -j tail |
| JmeterServer.SplitextRoot | EC2/Scripts/JmeterServer.py:225 | the base name is a prefix of the file name |
| JmeterServer.LaunchFor | EC2/Scripts/JmeterServer.py:222-230 | the log and results files live in their folders and end in _timestamp.log/.jtl; the test file is the uploaded basename in the upload folder |
| JmeterServer.Server.constructor | EC2/Scripts/JmeterServer.py:63-65 | no process and no current files |
| JmeterServer.Server.Admit | EC2/Scripts/JmeterServer.py:186-199 | no JMeter is 500, a live process 409, a missing or non-.jmx file 400 (a dead pid is cleared first), otherwise admitted |
| JmeterServer.Server.Launch | EC2/Scripts/JmeterServer.py:222-299 | the launch paths and command are the specified ones; a started process records its pid and files (200), a failed start clears the files (500) |
| JmeterServer.Server.Record | EC2/Scripts/JmeterServer.py:290-299 | a started process is recorded with its files (200); a failure clears the files (500) |
| JmeterServer.Server.UploadAndStart | EC2/Scripts/JmeterServer.py:183-299 | the checks in order, then the launch: the answer codes, the recorded state and the command are as specified for every case |
| JmeterServer.S3Prefix | EC2/Scripts/JmeterServer.py:143-144 | a non-empty prefix ends in '/' |
| JmeterServer.S3Key | EC2/Scripts/JmeterServer.py:149 | keys contain no backslash |
| JmeterServer.S3KeyShape | EC2/Scripts/JmeterServer.py:149 | on slash-free input the key is the prefix plus the relative path |
| JmeterServer.ContentType | EC2/Scripts/JmeterServer.py:150-157 | .html/.htm, .css and .js get fixed UTF-8 types (case-insensitive), others the guessed type or octet-stream |
| JmeterServer.DirTally | EC2/Scripts/JmeterServer.py:146-166 | a directory adds uploads and at most one error, the loop stopping at the first failure |
| JmeterServer.WalkTally | EC2/Scripts/JmeterServer.py:145-166 | at most one error per directory |
| JmeterServer.UploadResultOf | EC2/Scripts/JmeterServer.py:163-171 | missing credentials, partial failure with the errors, or success with the count |
| JmeterServer.UploadDirectory | EC2/Scripts/JmeterServer.py:136-171 | missing bucket or region first, then a missing directory, otherwise the result of the walk |
| JmeterServer.UploadDir | EC2/Scripts/JmeterServer.py:146-166 | the inner file loop gives the specified tally |
| HubCommon.Getenv | LambdaFiles/LambdaHub.py:67-69 | os.getenv: a value exactly for the variables that are set |
| HubCommon.IndexedNameInjective | LambdaFiles/LambdaHub.py:67 | different indices name different variables |
| HubCommon.NotBelow | LambdaFiles/LambdaHub.py:66-78 | the next index's variable was not among those already read |
| HubCommon.ReadAt | LambdaFiles/LambdaHub.py:67-69 | the variables of one index, read in order |
| HubCommon.Scan | LambdaFiles/LambdaHub.py:128-138 | the numbered loop reads indices 0, 1, ... while the required variables are set, returns each index's values, and stops at the first index that is not listed |
| HubCommon.TargetOf | LambdaFiles/LambdaHub.py:70-73 | a target keeps its name and gets the SQS URL or SNS ARN built from its region and account |
| HubCommon.ScanTargets | LambdaFiles/LambdaHub.py:66-78 | every listed index has its name set, the loop stops at the first missing name, and each target is built from that index's variables |
| HubCommon.SqsTargets | LambdaFiles/LambdaHub.py:61-79 | the SQS targets: URL https://sqs.<region>.amazonaws.com/<account>/<name> for each set name, stopping at the first missing one |
| HubCommon.SnsTargets | LambdaFiles/LambdaHub.py:81-99 | the SNS targets: ARN arn:aws:sns:<region>:<account>:<name>, stopping at the first missing name |
| HubCommon.ListedOne | LambdaFiles/LambdaHub.py:128-136 | with one required variable an index is listed iff that variable is set |
| HubCommon.LastPartOfJoined | LambdaFiles/LambdaHub.py:72 | the text after the last separator is the name, when the name has none |
| HubCommon.SqsUrlName | LambdaFiles/LambdaHub.py:72 | the queue name is what follows the URL's last '/' |
| HubCommon.SnsArnName | LambdaFiles/LambdaHub.py:93 | the topic name is what follows the ARN's last ':' |
| HubCommon.FirstContaining | LambdaFiles/LambdaHub.py:360-365 | the first secret whose name contains the database name, or none when no secret does |
| HubCommon.SelectCredentials | LambdaFiles/LambdaHub.py:358-370 | the first matching secret wins; without a match the first secret, else the placeholder credentials |
| HubCommon.HostOf | LambdaFiles/LambdaHub.py:357 | the host is the endpoint up to its first ':' (all of it without one) |
| HubCommon.MessageHubDatabase | LambdaFiles/LambdaHub.py:353-372 | an index without an endpoint raises; otherwise name, host and the selected credentials |
| HubCommon.NextCounterParses | LambdaFiles/LambdaHub.py:547-551 | the written counter reads back as one more than the stored number, or 0 when it is not a number |
| HubCommon.CounterWrite | LambdaFiles/LambdaHub.py:543-557 | nothing is written when the read fails; otherwise the increment or 0 |
| HubCommon.UpdateCounters | LambdaFiles/LambdaHub.py:542-557 | one write per SSM target, in order, each the counter rule applied to its value |
| HubEvents.LastColonPartAt | LambdaFiles/LambdaHub.py:411 | the part after the last ':' of a string field, present exactly when the field is a string |
| HubEvents.S3Path | LambdaFiles/LambdaHub.py:425 | the decoded key holds no '+' (every '+' became a space) |
| HubEvents.EncodedPlusIsSpace | LambdaFiles/LambdaHub.py:425 | an encoded %2B is turned into a space too |
| HubEvents.BranchOf | LambdaFiles/LambdaHub.py:410-459 | sns, sqs and s3 sources take their branches; the ALB branch needs requestContext, the CodePipeline branch the job key, the API branch the API source |
| HubEvents.ApiExtract | LambdaFiles/LambdaHub.py:447-459 | the API branch reads source and message (str(event) when either is missing); a Lambda source renames the event source, the final if/else overwrites the information |
| HubEvents.SnsExtract | LambdaFiles/LambdaHub.py:410-415 | the SNS message is the record's Sns.Message, and the topic name is appended to the source |
| HubEvents.SqsExtract | LambdaFiles/LambdaHub.py:416-419 | the SQS message is the record body and the source stays aws:sqs |
| HubEvents.S3Information | LambdaFiles/LambdaHub.py:435-436 | the S3 information text starts with the file and bucket and ends with the size |
| HubEvents.S3Extract | LambdaFiles/LambdaHub.py:420-436 | the S3 branch reads the decoded object key; only .txt objects are read as the message, and without a bound client a .txt object raises exactly when every lookup succeeds |
| HubEvents.ElbExtract | LambdaFiles/LambdaHub.py:437-442 | the ALB branch sets source aws:elb and the fixed message |
| HubEvents.PipelineExtract | LambdaFiles/LambdaHub.py:443-446 | the CodePipeline branch succeeds iff the job id is a string, and the message is "Job ID: " + id |
| HubEvents.Extract | LambdaFiles/LambdaHub.py:397-459 | the chain takes exactly the branch the tests select; no branch leaves the default message and information |
| HubEvents.NewMessage | LambdaFiles/LambdaHub.py:463 | the outgoing text starts with kind, name, source and date, and ends with the message |
| HubEvents.AlbAnswer | LambdaFiles/LambdaHub.py:580-590 | the ALB answer is status 200 '200 OK', not base64, HTML, carrying the message |
| HubEvents.LegacyReply | LambdaFiles/LambdaHub.py:580-650 | ALB gets the HTML answer, API the message itself, a CodePipeline job (when handled) success, anything else nothing |
| HubEvents.ArtifactCopy | LambdaFiles/LambdaHub.py:597-642 | the job's credentials and artifact lists must be present; no input artifact writes nothing; otherwise the copy is that of the first input |
| HubEvents.WriteOutput | LambdaFiles/LambdaHub.py:631-639 | no output artifact writes nothing; otherwise the upper-cased text goes to the first output's bucket and key, or a lookup raises |
| HubEvents.CopyInput | LambdaFiles/LambdaHub.py:614-639 | a missing key raises, as does a missing bucket where it is read first; a non-.txt key writes nothing; a write needs a .txt key and a text bucket and is the output write |
| HubEvents.ArtifactCopyWrites | LambdaFiles/LambdaHub.py:597-642 | a write happens only for a .txt first input with a text bucket, and puts the upper-cased text at the first output's bucket and key |
| HubEvents.NonTextArtifactSkipped | LambdaFiles/LambdaHub.py:614-621 | a first input whose key does not end in .txt is skipped without error |
| HubEvents.LegacyHandle | LambdaFiles/LambdaHub.py:393-650 | a failing lookup in the chain raises; otherwise the message, the reply and the artifact copy follow the extracted source, and a CodePipeline job's artifact is the one ArtifactCopy gives |
| HubEvents.SnsSourceHasNoSeparator | LambdaFiles/LambdaHub.py:411-412 | the SNS topic name is appended to aws:sns with no separator |
| HubEvents.LambdaSourceDescribedAsApi | LambdaFiles/LambdaHub.py:452-459 | an event from another Lambda is renamed Lambda but still described as from the API |
| HubEvents.LambdaEventHandled | LambdaFiles/LambdaHub.py:447-463 | a Lambda-sent API event is forwarded with source Lambda and gets no reply (see also lines 593-595) |
| LambdaHub.InitialSource | LambdaFiles/LambdaHub.py:399-405 | a CodePipeline job is aws:codepipeline, otherwise Records gives the first record's source (API when that lookup raises); with neither key the handler raises |
| LambdaHub.Handle | LambdaFiles/LambdaHub.py:393-650 | the handler raises when the source is unassigned, and raises UnboundLocalError once an S3 target is set; otherwise it runs the shared chain with kind Lambda and the function-local s3 never bound |
| LambdaHub.HandleIntended | LambdaFiles/LambdaHub.py:393-650 | the handler as evidently intended, with the module-level s3 client: the shared chain with kind Lambda and the function name |
| LambdaHub.TextObjectRaises | LambdaFiles/LambdaHub.py:428-430 | a readable aws:s3 record with a .txt key raises UnboundLocalError at get_object, since line 604 makes s3 local |
| LambdaHub.TargetsRaise | LambdaFiles/LambdaHub.py:515-521 | with any S3 target configured the handler raises |
| LambdaHub.IntendedReadsTextObject | LambdaFiles/LambdaHub.py:420-436 | with the module-level client a readable .txt record is forwarded with the object text as the message, source aws:s3 plus the bucket, and no reply or artifact |
| LambdaHub.S3SourceUnanswered | LambdaFiles/LambdaHub.py:580-595 | an aws:s3 source is neither ALB, API nor CodePipeline, so it gets no reply |
| LambdaHub.NeitherKeyRaises | LambdaFiles/LambdaHub.py:399-405 | an event with neither CodePipeline.job nor Records raises |
| LambdaHub.PipelineWinsOverRecords | LambdaFiles/LambdaHub.py:399-400 | the job key is looked up before Records |
| LambdaHub.EmptyRecordsIsApi | LambdaFiles/LambdaHub.py:401-405 | an empty Records list makes the lookup raise, so the source is API |
| LambdaHub.LambdaEventAnswered | LambdaFiles/LambdaHub.py:447-463 | an API event from another Lambda is forwarded with source Lambda and answered with nothing (see also lines 593-595) |
| LambdaHub.S3NonTextNotRead | LambdaFiles/LambdaHub.py:427-434 | a non-.txt object is not read: the message is "File is not .txt" |
| LambdaHubPackage.InitialSource | LambdaFiles/LambdaHub/LambdaHub.py:371-380 | the source starts as the empty string: a CodePipeline job is aws:codepipeline, Records gives the first record's source (API when that lookup raises), neither key leaves "" |
| LambdaHubPackage.Handle | LambdaFiles/LambdaHub/LambdaHub.py:368-630 | the shared chain from that source with kind Lambda and the function name |
| LambdaHubPackage.NeitherKeyNoMessage | LambdaFiles/LambdaHub/LambdaHub.py:371-374 | an event with no known key runs through the chain unmatched, forwarding the default message with an empty source and answering nothing (see also lines 441-443) |
| LambdaHubPackage.ElbBeforePipeline | LambdaFiles/LambdaHub/LambdaHub.py:413-424 | a CodePipeline job that also carries an ALB request context is handled as an ALB request and gets the HTML answer |
| LambdaHubPackage.LambdaEventAnswered | LambdaFiles/LambdaHub/LambdaHub.py:424-443 | an API event from another Lambda is forwarded with source Lambda and answered with nothing (see also lines 573-574) |
| LambdaHub2.LambdaName | LambdaFiles/LambdaHub2/LambdaHub2.py:40-42 | LAMBDA_NAME when set and non-empty, otherwise NAME, otherwise empty |
| LambdaHub2.IntegrationType | LambdaFiles/LambdaHub2/LambdaHub2.py:46 | the integration mode is API_INTEGRATION_TYPE upper-cased, PROXY by default |
| LambdaHub2.ProxyIgnoresCase | LambdaFiles/LambdaHub2/LambdaHub2.py:46 | a lower-case proxy setting selects proxy mode |
| LambdaHub2.Classify | LambdaFiles/LambdaHub2/LambdaHub2.py:321-348 | an event on which the Records test raises keeps the default source API |
| LambdaHub2.RecordsComeFirst | LambdaFiles/LambdaHub2/LambdaHub2.py:325-334 | a non-empty Records list decides by its first record alone |
| LambdaHub2.OtherTestsInOrder | LambdaFiles/LambdaHub2/LambdaHub2.py:335-345 | an event without records tries CodePipeline.job, EventBridge, request context and EC2 in that order |
| LambdaHub2.NoRecordsGoesOn | LambdaFiles/LambdaHub2/LambdaHub2.py:325-335 | a dictionary without Records, or with an empty Records list, is classified by the tests after the record test |
| LambdaHub2.OtherSourceOrder | LambdaFiles/LambdaHub2/LambdaHub2.py:335-345 | on a dictionary, the later tests are CodePipeline.job, the EventBridge source, the request context and EC2, in that order |
| LambdaHub2.SnsExtract2 | LambdaFiles/LambdaHub2/LambdaHub2.py:358-362 | the SNS source is aws:sns: followed by the topic name |
| LambdaHub2.EventsExtract | LambdaFiles/LambdaHub2/LambdaHub2.py:369-372 | an EventBridge event has source aws.events and needs a first resource |
| LambdaHub2.S3Information2 | LambdaFiles/LambdaHub2/LambdaHub2.py:387 | the information names file and bucket and ends with ", size " and the size |
| LambdaHub2.S3Extract2 | LambdaFiles/LambdaHub2/LambdaHub2.py:374-387 | the S3 branch reads the decoded key; a non-text object's message names the file |
| LambdaHub2.Ec2Extract | LambdaFiles/LambdaHub2/LambdaHub2.py:399-401 | the EC2 branch needs a dictionary event; its message defaults to "No message" |
| LambdaHub2.ProxyMessage | LambdaFiles/LambdaHub2/LambdaHub2.py:407-431 | the proxy body is decoded; a decoding failure or non-dictionary event gives the error message |
| LambdaHub2.ServiceMessage | LambdaFiles/LambdaHub2/LambdaHub2.py:432-438 | the non-proxy message is str(event["message"]), or str(event) |
| LambdaHub2.ApiExtract2 | LambdaFiles/LambdaHub2/LambdaHub2.py:403-439 | the API branch keeps source API, names the mode, and takes the proxy or service message as the mode says |
| LambdaHub2.Extract2 | LambdaFiles/LambdaHub2/LambdaHub2.py:352-439 | each classified source takes its own branch; Kinesis reads nothing |
| LambdaHub2.CreateResponse | LambdaFiles/LambdaHub2/LambdaHub2.py:587-624 | ALB gets the HTML answer, API in proxy mode the JSON with CORS headers and the status, otherwise the bare message |
| LambdaHub2.ProcessPipeline | LambdaFiles/LambdaHub2/LambdaHub2.py:554-584 | the artifact step succeeds with 200 SUCCESS and the copy of the first .txt input (the bucket read only for .txt keys); any raise gives 500 FAILED and no write |
| LambdaHub2.NonTextJobSucceeds | LambdaFiles/LambdaHub2/LambdaHub2.py:566-570 | a first input whose key does not end in .txt succeeds with 200 SUCCESS and no write, whatever its bucket |
| LambdaHub2.Handle | LambdaFiles/LambdaHub2/LambdaHub2.py:318-551 | a raising lookup or membership test fails the handler; the reported source is the extracted one; a message mentioning the Lambda's name stops with "Loop prevented"; otherwise the outgoing message is built from source and message, and the reply and artifact are the CodePipeline step's or CreateResponse's |
| LambdaHub2.EmptyNameAlwaysPrevented | LambdaFiles/LambdaHub2/LambdaHub2.py:442-445 | with an empty Lambda name every text message counts as a loop and nothing is forwarded |
| LambdaHub2.SnsSourceHasColon | LambdaFiles/LambdaHub2/LambdaHub2.py:359-360 | the SNS source is aws:sns: and the topic after the ARN's last colon |
| LambdaHub2.PairedTargets | LambdaFiles/LambdaHub2/LambdaHub2.py:72-103 | the target loops read name and companion variable for indices 0, 1, ... until the name is unset |
| LambdaHub2.SsmTargets | LambdaFiles/LambdaHub2/LambdaHub2.py:216-229 | the SSM loop stops at the first index whose name or region is unset |
| LambdaHub2.ProbeCounter | LambdaFiles/LambdaHub2/LambdaHub2.py:515-525 | the written value reads back as one more than the stored number, or 0 when the read or int() raises |
| CodeBuildHub.EventFromEnv | CodeBuild/CodeBuildHub/CodeBuildHub.py:605-617 | EVENT unset or empty is {}; otherwise its JSON decoding, or the raw text when it does not decode |
| CodeBuildHub.InitialSource | CodeBuild/CodeBuildHub/CodeBuildHub.py:74-77 | the first record's eventSource, or API when that lookup raises |
| CodeBuildHub.Handle | CodeBuild/CodeBuildHub/CodeBuildHub.py:70-270 | the shared chain with kind CodeBuild, without the CodePipeline branch: no artifact copy and no CodePipeline answer |
| CodeBuildHub.PlainEventAnswered | CodeBuild/CodeBuildHub/CodeBuildHub.py:74-130 | a non-dictionary event (an EVENT text that did not decode) is an API call answered with the outgoing message, unless the request-context test raises (see also lines 268-270) |
| CodeBuildHub.ApiWithoutSourceUsesEvent | CodeBuild/CodeBuildHub/CodeBuildHub.py:114-130 | an API event without source and message uses str(event) |
| CodeBuildHub.AccountOr | CodeBuild/CodeBuildHub/CodeBuildHub.py:300-306 | the per-target account when truthy, otherwise the global Account |
| CodeBuildHub.ScanTopics | CodeBuild/CodeBuildHub/CodeBuildHub.py:295-316 | the SNS loop builds each ARN with the per-target or global account and stops at the first missing name |
| CodeBuildHub.SnsTargets | CodeBuild/CodeBuildHub/CodeBuildHub.py:295-316 | the SNS targets aws_sns_topic_Target_ with Account as the global account |
| CodeBuildHub.SqsTargets | CodeBuild/CodeBuildHub/CodeBuildHub.py:277-292 | the SQS loop takes each queue URL from aws_sqs_queue_Target_URL_ as it is, stopping at the first missing name |
| Ec2HubBkp.GeneratePrimes | Docker/TaskHub/EC2HubBKP.py:60-74 | the result is exactly the first n primes (none for n <= 0), in increasing order with no prime skipped |
| Ec2HubBkp.PrimesCount | Docker/TaskHub/EC2HubBKP.py:34 | Primes defaults to 0, otherwise it is parsed as an integer (None when int() raises) |
| Ec2HubBkp.SqsSources | Docker/TaskHub/EC2HubBKP.py:205-221 | the source queues' URLs built from region, account and name, stopping at the first missing name |
| Primes.FirstPrimesStartAtTwo | Docker/TaskHub/EC2HubBKP.py:65-66 | a non-empty list of first primes starts at 2 |
| Primes.FirstPrimesUnique | Docker/TaskHub/EC2HubBKP.py:60-74 | the first n primes are unique, so any loop meeting the specification returns the same list |
| Primes.AgreeUpTo | Docker/TaskHub/EC2HubBKP.py:60-74 | two lists of first primes agree on every prefix |
| Primes.NextAgrees | Docker/TaskHub/EC2HubBKP.py:60-74 | two lists of first primes that agree before an index agree at it |
| Primes.LeastAbove | Docker/TaskHub/EC2HubBKP.py:66-73 | each prime in the list is the least prime above its predecessor |
| Primes.Factorial | Docker/TaskHub/EC2HubBKP.py:66 | factorials are positive |
| Primes.FactorialDivisible | Docker/TaskHub/EC2HubBKP.py:66 | m! is divisible by every d from 1 to m |
| Primes.LeastDivisorFrom | Docker/TaskHub/EC2HubBKP.py:68-70 | the least divisor at least d divides x and nothing smaller from 2 does |
| Primes.LeastDivisorPrime | Docker/TaskHub/EC2HubBKP.py:68-72 | the least divisor of a number at least 2 is prime |
| Primes.PrimeAbove | Docker/TaskHub/EC2HubBKP.py:66 | m! + 1 has a prime divisor above m, so the loop always finds a next prime |
| Primes.PrimeAtLeast | Docker/TaskHub/EC2HubBKP.py:66 | some prime is at least m: the search terminates |
| Ec2Hub.SqrtFrom | Docker/TaskHub/EC2Hub.py:320 | the search from r ends at the integer square root |
| Ec2Hub.ISqrt | Docker/TaskHub/EC2Hub.py:320 | int(num ** 0.5) as the integer square root: r*r <= n < (r+1)*(r+1) |
| Ec2Hub.NoDivisorIn | Docker/TaskHub/EC2Hub.py:320-322 | true iff no d in the range divides num |
| Ec2Hub.IsPrime | Docker/TaskHub/EC2Hub.py:317-323 | numbers below 2 are not prime; otherwise prime iff no d from 2 to the square root divides it |
| Ec2Hub.IsPrimeCorrect | Docker/TaskHub/EC2Hub.py:317-323 | the square-root test decides exactly primality |
| Ec2Hub.RaisedCeil | Docker/TaskHub/EC2Hub.py:324-325 | a ceiling below the floor is raised to the floor |
| Ec2Hub.GeneratePrimes | Docker/TaskHub/EC2Hub.py:316-333 | for a count drawn between floor and the raised ceiling, the loop collects exactly the first n primes and reports their number |
| Ec2Hub.ServiceId | Docker/TaskHub/EC2Hub.py:130 | the service id is the ARN after its last '/', the whole ARN without one |
| Ec2Hub.RegistrationAt | Docker/TaskHub/EC2Hub.py:130-131 | a registration uses the ARN's service id and an id starting with the instance name and '-' |
| Ec2Hub.SlotRecord | Docker/TaskHub/EC2Hub.py:124-153 | a slot contributes a registration iff its ARN variable is truthy and the call did not fail |
| Ec2Hub.RegisteredExactly | Docker/TaskHub/EC2Hub.py:124-153 | a registration is recorded iff it comes from a tried slot whose call succeeded |
| Ec2Hub.RegisteredBound | Docker/TaskHub/EC2Hub.py:124 | at most one registration per slot |
| Ec2Hub.CloudMap.constructor | Docker/TaskHub/EC2Hub.py:117-118 | no registrations and no health task |
| Ec2Hub.CloudMap.Register | Docker/TaskHub/EC2Hub.py:121-153 | the ten slots' successful registrations are appended in order |
| Ec2Hub.CloudMap.Startup | Docker/TaskHub/EC2Hub.py:228-236 | registration runs only with instance id and IPv4; the health task starts only with registrations and the check enabled |
| Ec2Hub.CloudMap.Deregister | Docker/TaskHub/EC2Hub.py:155-168 | one deregistration call per recorded registration, in order |
| Ec2Hub.HealthCheckEnabled | Docker/TaskHub/EC2Hub.py:62 | the custom health check is on iff CLOUDMAP_CUSTOM_HEALTHCHECK is "true" in any case, off by default |
| Ec2Hub.HealthCheckIgnoresCase | Docker/TaskHub/EC2Hub.py:62 | the setting is read case-insensitively |
| Ec2Hub.UpdateHealth | Docker/TaskHub/EC2Hub.py:182-208 | retries only on not-found errors, waiting 3, 6, 12, 24 seconds, at most five attempts; success iff some attempt updates before any other error |
| Ec2Hub.DelayStep | Docker/TaskHub/EC2Hub.py:183-201 | the k-th wait is 3 * 2^k |
| Ec2Hub.HealthPass | Docker/TaskHub/EC2Hub.py:180-211 | registrations are updated in order until one fails for good; a full pass then waits 20 seconds |
| Ec2Hub.DatabaseAt | Docker/TaskHub/EC2Hub.py:557-567 | a missing endpoint raises; otherwise name, host, and the first matching secret's credentials or the defaults |
| PipelineReport.Rule | LambdaFiles/PipelineReport/PipelineReport.py:32 | sixty copies of the rule character |
| PipelineReport.OverallStatusOfLast | LambdaFiles/PipelineReport/PipelineReport.py:25-30 | the overall status is the one of the last stage that has an execution, 'N/A' when that execution has no status |
| PipelineReport.OverallStatusWithoutExecutions | LambdaFiles/PipelineReport/PipelineReport.py:25-30 | with no stage execution the overall status stays 'N/A' |
| PipelineReport.Duration | LambdaFiles/PipelineReport/PipelineReport.py:41-46 | the minutes are the floor of the difference over a minute and the seconds the whole seconds left, so the sub-second part is dropped; seconds lies in 0..59 |
| PipelineReport.DurationUnique | LambdaFiles/PipelineReport/PipelineReport.py:41-46 | any minutes and seconds that bracket the difference this way are the ones reported |
| PipelineReport.DurationDropsFraction | LambdaFiles/PipelineReport/PipelineReport.py:41-46 | created at 10.9 s and updated at 70.1 s reports 0 minutes and 59 seconds |
| PipelineReport.HeaderLines | LambdaFiles/PipelineReport/PipelineReport.py:32-46 | five header lines, eight when both times are known; the fifth carries the overall status |
| PipelineReport.ActionLines | LambdaFiles/PipelineReport/PipelineReport.py:54-67 | an action shows its name, then status and summary with their defaults, or the no-information line without an execution, and ends with a blank line |
| PipelineReport.ActionLinesListed | LambdaFiles/PipelineReport/PipelineReport.py:54-67 | every line of one action appears in its stage's action lines |
| PipelineReport.StageLinesListed | LambdaFiles/PipelineReport/PipelineReport.py:48-67 | every action line of one stage appears in the lines of all stages |
| PipelineReport.UnavailableReported | LambdaFiles/PipelineReport/PipelineReport.py:58-66 | an action of any stage without a latest execution puts the no-information line into the report |
| PipelineReport.FindOverallStatus | LambdaFiles/PipelineReport/PipelineReport.py:25-30 | the backward search with break yields exactly the overall status |
| PipelineReport.AppendActions | LambdaFiles/PipelineReport/PipelineReport.py:54-67 | the inner loop appends exactly the lines of the actions, in order |
| PipelineReport.AppendStage | LambdaFiles/PipelineReport/PipelineReport.py:48-67 | one outer pass appends the stage head and then its actions' lines |
| PipelineReport.AppendStages | LambdaFiles/PipelineReport/PipelineReport.py:48-67 | the outer loop appends the lines of every stage, in order |
| PipelineReport.FormatReport | LambdaFiles/PipelineReport/PipelineReport.py:19-69 | returns the newline-joined report, the overall status and the pipeline name or 'N/A' |
| PipelineReport.ZoneDomain | LambdaFiles/PipelineReport/PipelineReport.py:77-81 | when no entry is a zone with a domain, the ValueError message is the result |
| PipelineReport.ZoneDomainSkips | LambdaFiles/PipelineReport/PipelineReport.py:77-80 | entries that are dictionaries but not zones with a domain are skipped without changing the result |
| PipelineReport.DomainFrom | LambdaFiles/PipelineReport/PipelineReport.py:71-84 | the loop finds a domain iff the decoded parameter is a list with a zone holding a domain, the first such zone's domain |
| PipelineReport.ParameterDomain | LambdaFiles/PipelineReport/PipelineReport.py:76-81 | a parameter that does not decode to a list never yields a domain |
| PipelineReport.Preview | LambdaFiles/PipelineReport/PipelineReport.py:189 | the page is kept whole up to 1000 characters; a longer one is cut to 1000 and '...' follows |
| PipelineReport.PageStatus | LambdaFiles/PipelineReport/PipelineReport.py:180 | the page is reported as reached iff its lower-cased text contains '<html>' |
| PipelineReport.UpperTagAccepted | LambdaFiles/PipelineReport/PipelineReport.py:180 | an upper-case '<HTML>' tag also counts as success |
| PipelineReport.Failed | LambdaFiles/PipelineReport/PipelineReport.py:206-218 | the failure answer is 500, and CodePipeline is told of the failure iff a truthy job id was read |
| PipelineReport.Run | LambdaFiles/PipelineReport/PipelineReport.py:150-220 | 200 only when job id, variables, state, domain, upload, account and success notice all succeed, with the final report uploaded; otherwise 500 and the failure notice iff a truthy job id was read |
| PipelineReport.Handle | LambdaFiles/PipelineReport/PipelineReport.py:138-220 | an event without 'CodePipeline.job' raises the invalid-invocation error; every other event gets the answer of the try block |
| PipelineReport.ReportTopic | LambdaFiles/PipelineReport/PipelineReport.py:198-199 | the topic ARN carries the region and the caller's account, and ends with the topic name |
| GenLambdaLayer.StepLine | LambdaFiles/GenLambdaLayer/GenLambdaLayer.py:132-135 | a 'Name:' line sets the name, otherwise a 'Version:' line sets the version, each to the trimmed text after the colon; other lines change nothing |
| GenLambdaLayer.ReadFieldsStops | LambdaFiles/GenLambdaLayer/GenLambdaLayer.py:136-137 | once name and version are both known, the remaining lines do not matter |
| GenLambdaLayer.ReadFieldsNone | LambdaFiles/GenLambdaLayer/GenLambdaLayer.py:129-135 | a file with neither kind of line leaves both fields unset |
| GenLambdaLayer.ScanMetadata | LambdaFiles/GenLambdaLayer/GenLambdaLayer.py:128-137 | the line loop with its break computes exactly the fields of the specification |
| GenLambdaLayer.FirstMatchDecides | LambdaFiles/GenLambdaLayer/GenLambdaLayer.py:122-145 | the first directory whose name matches the dependency, ignoring case, decides the version or the missing-version error |
| GenLambdaLayer.NoMatchNotFound | LambdaFiles/GenLambdaLayer/GenLambdaLayer.py:147-148 | with no matching directory the metadata-not-found error is raised |
| GenLambdaLayer.InstalledVersion | LambdaFiles/GenLambdaLayer/GenLambdaLayer.py:105-153 | no dist-info directory is an error; every error is wrapped in the message naming the dependency; a found version is returned |
| GenLambdaLayer.PackageVersion | LambdaFiles/GenLambdaLayer/GenLambdaLayer.py:112-153 | the loop over the directories, skipping those without METADATA, computes exactly the specified result |
| GenLambdaLayer.Architecture | LambdaFiles/GenLambdaLayer/GenLambdaLayer.py:201-206 | arm64 exactly for an aarch64 machine, x86_64 otherwise |
| GenLambdaLayer.ZipName | LambdaFiles/GenLambdaLayer/GenLambdaLayer.py:85 | the zip name starts with layer, version and Python tag joined by '-' and ends with the architecture and '.zip' |
| GenLambdaLayer.Build | LambdaFiles/GenLambdaLayer/GenLambdaLayer.py:10-102 | 200 only after a successful install, version lookup and upload, naming the uploaded zip; install, lookup and upload failures give 400 without an upload; other failures 500 with the fixed message (see also lines 209-239) |
| GenLambdaLayer.Handle | LambdaFiles/GenLambdaLayer/GenLambdaLayer.py:176-239 | a non-dictionary event raises; a missing or empty bucket variable gives 400; a dependency that is not text gives 500 whose error names its type; otherwise the build of the dependency and layer name from the event |
| GenLambdaLayer.NumericDependency | LambdaFiles/GenLambdaLayer/GenLambdaLayer.py:61 | a numeric dependency answers 500 with "expected str, bytes or os.PathLike object, not int" |
| GenLambdaLayer.DefaultDependency | LambdaFiles/GenLambdaLayer/GenLambdaLayer.py:181 | without a dependency in the event, whoosh is built |
| N8nUp.Latest | LambdaFiles/n8nUp.py:59 | the chosen snapshot has the greatest StartTime, and no earlier-listed snapshot ties with it, as the stable descending sort gives |
| N8nUp.LatestUnique | LambdaFiles/n8nUp.py:59 | the snapshot with the greatest StartTime listed first is the only one meeting both conditions |
| N8nUp.ImageFor | LambdaFiles/n8nUp.py:65-82 | the image is named after the group and the snapshot's date, uses the snapshot, and its size or 8 |
| N8nUp.NewTemplateData | LambdaFiles/n8nUp.py:98-99 | the new template data is the latest version's with only ImageId set to the new AMI |
| N8nUp.DeviceIdsIff | LambdaFiles/n8nUp.py:138-140 | an id is collected from an image iff one of its mappings has an Ebs block naming that snapshot |
| N8nUp.UsedIdsIff | LambdaFiles/n8nUp.py:136-140 | an id is in use iff some mapping of some image names it |
| N8nUp.CollectUsed | LambdaFiles/n8nUp.py:136-140 | the nested loops collect exactly the used snapshot ids |
| N8nUp.Unused | LambdaFiles/n8nUp.py:142 | the filter keeps exactly the listed snapshots whose id is not in use |
| N8nUp.UnusedAppend | LambdaFiles/n8nUp.py:142 | the filter distributes over concatenation, so the original order is kept |
| N8nUp.DeletedExactlyUnreferenced | LambdaFiles/n8nUp.py:130-149 | a tagged snapshot is deleted iff no image's mapping refers to it |
| N8nUp.Candidates | LambdaFiles/n8nUp.py:159 | every candidate is the id of an InService or Pending instance and every such instance is a candidate; no more candidates than instances |
| N8nUp.FirstCandidate | LambdaFiles/n8nUp.py:159-162 | the first candidate is the first listed running or starting instance |
| N8nUp.Poll | LambdaFiles/n8nUp.py:155-183 | an answer without an Auto Scaling group raises IndexError; otherwise a round upserts iff the first group has a candidate, the first candidate has a public IP and the zone id was read; with an IP but no zone id it raises NameError |
| N8nUp.Handle | LambdaFiles/n8nUp.py:35-149 | no snapshot makes the image registration raise; an unassigned template id makes the template calls raise NameError; otherwise the image of the latest snapshot, that template with the new AMI, and the unreferenced snapshots to delete |
| N8nUp.ParameterId | LambdaFiles/n8nUp.py:25-43 | the zone or template id assigned at start-up is the parameter's id; none when the parameter cannot be read |
| N8nUp.UnreadZoneRaises | LambdaFiles/n8nUp.py:25-33 | an unreadable hosted-zone parameter makes a round that found an IP raise NameError |
| N8nUp.ReadZoneUpserts | LambdaFiles/n8nUp.py:25-33 | a readable parameter makes such a round upsert its id with the IP |
| N8nUp.UnreadTemplateRaises | LambdaFiles/n8nUp.py:35-43 | an unreadable launch-template parameter makes any run with a snapshot raise NameError at the template call of line 95 |
| N8nUp.ReadTemplatePlans | LambdaFiles/n8nUp.py:94-113 | a readable parameter makes such a run update the template with that id |
| BlueGreenCtrl.ParameterNameOf | LambdaFiles/BlueGreenCtrl.py:13-19 | the parameter name is the text after the last '_env_', the whole name without one; the IndexError branch cannot be taken |
| BlueGreenCtrl.GetOrNull | LambdaFiles/BlueGreenCtrl.py:34-35 | a present key gives its value, a missing one None |
| BlueGreenCtrl.ConfigOf | LambdaFiles/BlueGreenCtrl.py:26-45 | the configuration is read iff the decoded value is an object; blue and green URLs or None; the cookie name or CloudmanCookie by default |
| BlueGreenCtrl.CookieExists | LambdaFiles/BlueGreenCtrl.py:54-57 | true iff some cookie header value contains the cookie name followed by '=' |
| BlueGreenCtrl.BlueCookie | LambdaFiles/BlueGreenCtrl.py:77 | the set cookie starts with the name and '=blue' |
| BlueGreenCtrl.ReturnedCookieDetected | LambdaFiles/BlueGreenCtrl.py:56-73 | a request carrying back name=blue is detected, so the cookie is set only once |
| BlueGreenCtrl.Redirect | LambdaFiles/BlueGreenCtrl.py:61-84 | always a 302 Found to the blue URL; the blue cookie is set iff the request had none |
| BlueGreenCtrl.Request.constructor | LambdaFiles/BlueGreenCtrl.py:48-49 | the request keeps the given headers |
| BlueGreenCtrl.LambdaHandler | LambdaFiles/BlueGreenCtrl.py:5-88 | a missing or undecodable parameter raises and leaves the request alone; otherwise the redirect, and the request's set-cookie header is replaced by the blue cookie exactly when no cookie was present |
| LambdaEdgeTest.EventType | LambdaFiles/LambdaEdgeTest.py:6-9 | 'response' iff the lower-cased function name contains 'response', otherwise 'request' |
| LambdaEdgeTest.ContextType | LambdaFiles/LambdaEdgeTest.py:6-10 | 'viewer' iff the lower-cased function name contains 'viewer', otherwise 'origin' |
| LambdaEdgeTest.CookieName | LambdaFiles/LambdaEdgeTest.py:36 | the cookie name is the context type, '-' and the event type: the final lower-casing changes nothing |
| LambdaEdgeTest.NewCookie | LambdaFiles/LambdaEdgeTest.py:39 | the new cookie starts with the cookie name and '=active' |
| LambdaEdgeTest.Record.constructor | LambdaFiles/LambdaEdgeTest.py:16 | the record keeps the given headers |
| LambdaEdgeTest.MissingRecord | LambdaFiles/LambdaEdgeTest.py:17-30 | a 500 Internal Server Error in plain text whose body names the missing record key |
| LambdaEdgeTest.WithCookie | LambdaFiles/LambdaEdgeTest.py:46-52 | without a cookie header a single Cookie entry is created; an empty cookie list raises; otherwise the first entry gets '; ' and the cookie appended |
| LambdaEdgeTest.CookieAdded | LambdaFiles/LambdaEdgeTest.py:46-52 | after the addition every other header is unchanged and the first cookie entry ends with the new cookie after the earlier text |
| LambdaEdgeTest.LambdaHandler | LambdaFiles/LambdaEdgeTest.py:4-55 | a missing record key gives the 500 answer and changes nothing; otherwise the record's headers are created if absent, the cookie is added, and the same record is returned; no other record changes |
| ApiTest.At | LambdaFiles/APITest.py:37-38 | indexing a list or a string at k gives the element or the one-character string; anything else raises |
| ApiTest.KeyAndData | LambdaFiles/APITest.py:37-38 | key and data are read iff Value holds a text key and a text second element; data is that element, ':' and the method |
| ApiTest.DataNeverEmpty | LambdaFiles/APITest.py:38-40 | the data ends with ':' and the method, so it is never empty: only an empty key is refused |
| ApiTest.Written | LambdaFiles/APITest.py:32-47 | a pair is stored iff the method is POST or PUT, the body yields key and data, and the key is not empty |
| ApiTest.PostPutAgree | LambdaFiles/APITest.py:32-47 | POST and PUT store under the same key the same data up to the method tag |
| ApiTest.Tagged | LambdaFiles/APITest.py:72-74 | only the data attribute changes, and it gets the origin appended iff the application name is set |
| ApiTest.Fetch | LambdaFiles/APITest.py:66-85 | 200 with the tagged item iff the key is in the table, otherwise 404 'Key not found'; neither carries CORS headers |
| ApiTest.Reply | LambdaFiles/APITest.py:26-93 | writes raise on a bad body and otherwise answer 200 with CORS, the refusal iff nothing is stored; GET without parameters is 400, without ID raises, otherwise the fetch; other methods 400 with CORS |
| ApiTest.Api.constructor | LambdaFiles/APITest.py:6-23 | the handler starts with the given table and CI/CD variables |
| ApiTest.Api.LambdaHandler | LambdaFiles/APITest.py:26-93 | the answer is the specified reply on the old table; the table changes only by the written item under its key |
| ApiTest.GetAfterWrite | LambdaFiles/APITest.py:47-79 | a GET for a key just written answers 200 with the stored item, its data tagged with the origin when the application name is set |

## Left out

- AWS services are not modelled. Every SDK call is either a parameter carrying its answer, or an outcome flag, as with S3, DynamoDB, SQS, SNS, Lambda, CodePipeline, SSM, Secrets Manager, EC2, Auto Scaling, Route 53, Cloud Map and CloudFront.
- The deliveries the hubs make to their targets are left out. These are SQS sends, SNS publishes, Lambda invokes, DynamoDB puts and RDS inserts. The model states the message they all carry and the answer the handler gives.
- Subprocesses are outcomes given as inputs: the `aws s3` CLI, JMeter, pip, zip creation, terraform, and the child scripts modify_main_tf.py, InitTerraform.py and Copy.py.
- Threads, locks, timers, asyncio tasks, the watchdog observer and the worker loops run one step at a time, in sequence.
- The load testers' user threads are sequences of the steps they take under the state lock. The sleeps between requests are left out.
- The CloudFront invalidation batch in efs_s3_monitor.py flushes while holding its own non-reentrant lock, which would block forever once the batch is full. The model performs the evidently intended sequential flush.
- Floating-point statistics are left out: requests per second, averages, throughput, error percentages, the ramp-up interval, `random.uniform` delays and `:.4f` formatting.
- LoadTester.py percentile indices are computed as exact `floor(n * p)`. The rounding of the float product for very large n is not modelled.
- Costs in ProcessCUR.py are exact reals. Decimal's 28-digit context is not modelled, and neither are the exponent, NaN and Infinity forms of `Decimal()`. Only plain `[+-]digits[.digits]` text is read as a number.
- `float()` in JmeterServer.py reads the same plain decimal text; exponents, `inf` and `nan` are left out.
- Common.FloatText reads `float()` literals as exact reals, not as the nearest double. The `inf` and `nan` spellings are not read; they hold no '.', so LoadTester.py never passes them to `float()`.
- PipelineReport.Duration: the float rounding of `total_seconds()` is not modelled. The difference is taken exactly in microseconds, which is the precision of a datetime.
- JsonValue.EscapeChar: beyond Latin-1, printability follows a fixed list: the separators, the common format characters, the private-use areas and U+FFFE/U+FFFF. Other characters that the Unicode database calls non-printable, such as unassigned code points, stay raw where `repr()` escapes them.
- Regular expressions, `fnmatch`, `strptime`, `php_loads`, `json.loads`, `csv` and `gzip` are not general library models.
  - The regular expressions and `strptime` formats the scripts use are written out as matchers.
  - The `fnmatch` matcher supports `*` and `?`; a `[` is taken literally.
  - The decoders' results are inputs, with None where the decoder raised.
- `urllib.parse.unquote` decodes each `%XX` escape to the single character with that code. Multi-byte UTF-8 sequences are not combined.
- `str.lower()` and `str.upper()` change ASCII letters only.
- `int()` accepts only ASCII digits, with surrounding whitespace, a sign and single underscores between digits. Other Unicode digits are not accepted.
- `os.path` normalisation of `.`, `..` and repeated slashes is not modelled.
- The rendering of time stamps (`strftime`) and the UTC conversion come in with the time value. `%Y` prints the year without zero padding, as glibc does.
- Clocks, `uuid4`, `random.randint` and `random.choice` are parameters. In EC2Hub.py the drawn count `n` is a parameter of GeneratePrimes, and the only requirement on it is what `randint` guarantees.
- `int(num ** 0.5)` in EC2Hub.py is the exact integer square root. The float square root differs only above 2^52.
- Logging, `print`, `error_log` and the X-Ray wrappers are left out, as is the WordPress hook registration.
- The Flask and FastAPI routing and the HTML and JavaScript pages of both load testers and of JmeterServer.py are left out.
- JmeterServer.py process control is left out: `stop_test`, `generate_html_report`, `health_check`, the log routes and the SIGTERM/SIGKILL polling. The server's record of the running process is modelled.
- EfsS3Monitor.ParseKeys: `list(set(...))` has no fixed order in Python. The model keeps first occurrences, and the properties about it state only membership and the absence of duplicates.
- EfsS3Monitor: the file-sync bookkeeping outside the deletion queue and the invalidation batch is left out, as is the watchdog event dispatch. Only the two path filters the watcher applies are modelled.
- ProcessCUR.py: reading the gzip CSV is an input list of rows. Previously saved table entries that are not dictionaries are not modelled.
- PipelineTerraBatch: a directory rename onto an existing directory is assumed to succeed.
- PipelineTerraBatch: manifest entries are assumed to be lists whose first element is a string.
- PipelineTerraBatch: the artifact contents after the snapshot and restore are inputs.
- UserTerraBatch and UserCopy: the `os.walk` listings and the copied objects are inputs. The ZIP file itself is not modelled.
- EC2Hub.py: the health task's endless `while True`, its cancellation and the initial five-second wait are left out. One pass (HealthPass) and one registration's retries (UpdateHealth) are modelled.
- EC2Hub.py: deregistration failures are only logged, so the model lists the calls made.
- EC2Hub.py: starting the SQS consumer task is left out.
- n8nUp.py: the polling `while True` is modelled as one round (Poll). A round without a public IP is followed by another round in the source.
- n8nUp.py: the launch-template version calls and the Auto Scaling update are inputs.
- N8nUp.Handle: when the template id was never assigned, the AMI registered and tagged before the NameError is not part of the Err result.
- LambdaEdgeTest.py: `event['Records'][0]['cf']` comes in as the record map. A missing `Records` or `cf` key, which the source also answers with the 500 reply, and an empty `Records` list are not modelled.
- APITest.py: an event without `httpMethod` (a KeyError) is not modelled.
- APITest.py: a GET event without any `queryStringParameters` key is modelled like one whose value is None.
- BlueGreenCtrl.ConfigOf: a `CloudmanCookie` value that is not text is refused. Python's f-string would render it with `str()`; only text cookie names are modelled.
- GenLambdaLayer.py: the layer directory clean-up and the zip contents are left out. The unused `python_version` input is ignored, as in the source.
- The module-level loops that read paired target variables are modelled once in HubCommon and reused by every hub, rather than once per variable family.
- LambdaHub.Handle: the S3 target list (`aws_s3_bucket_Target_Name_*`) enters only as its length. With any target the handler raises at the first `put_object`, before a bucket name is used.
- HubEvents.CopyInput: a `.txt` input whose bucket name is not text is an error, the way boto3's parameter validation rejects a non-string `Bucket`.

## Findings

| source | as written | input that shows it | evidently intended | confidence | as-written member | corrected member |
|---|---|---|---|---|---|---|
| LambdaFiles/LambdaHub.py:604 | `s3 = boto3.client(...)` in the CodePipeline branch makes `s3` local to all of `lambda_handler`, so `s3.get_object` (line 430) and `s3.put_object` (line 520) raise UnboundLocalError (TextObjectRaises and TargetsRaise) | `{"Records": [{"eventSource": "aws:s3", "s3": {"bucket": {"name": "b", "arn": "arn:aws:s3:::b"}, "object": {"key": "a.txt", "size": 1}}}]}` | the module-level client reads the object and forwards its text (IntendedReadsTextObject) | not executed | LambdaHub.Handle | LambdaHub.HandleIntended |
