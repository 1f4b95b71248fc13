# Benthos core control logic in Dafny

This project models five pieces of the benthos stream processor and proves
properties of them. In each piece the drivers and SDK calls are replaced by
oracles, which leaves ordinary sequential code.

- **`bloblang` input** (`BloblangInput`, bloblang_input.dfy). This is a
  timer-driven generator.
  - Construction (`newBloblang`): interval and cron expression are mutually
    exclusive, and the count is normalised to 32 bits with -1 meaning "no
    limit".
  - Zone handling of `parseCronExpression`.
  - The read state machine over `remaining`, `firstIsFree` and the ticker
    (`ReadWithContext`, `CloseAsync`). It is specified by the pure `ReadStep`
    and implemented by the class `Bloblang`.
- **DynamoDB PartiQL write** (`DynamoDBPartiql`, dynamodb_partiql.dfy). This is
  the bulk-then-degrade algorithm as the writer's tests describe it; the tests
  constrain it without pinning down every call (see "Left out"):
  - one batch call;
  - if that call fails outright, one individual call per statement;
  - if it succeeds with per-statement errors, the failed subset is re-submitted
    a bounded number of times.

  The method `Write` is proved equal to the specification `WriteSpec`.
- **SFTP output** (`SftpWriter`, sftp_writer.dfy).
  - The dial loop of `initSFTPConnection`, capped at ten attempts, with its
    `connection_errors` and `client_errors` counters.
  - The per-record "create or append" body of `WriteWithContext`, over a remote
    filesystem held as a map from path to contents.
  - The batch iteration around that body.
  - The three host-key callbacks.
- **Azure Blob Storage output** (`BlobStorage`, blob_storage.dfy).
  - Construction.
  - The credential check and container URL of `getContainer`.
  - The blob-type dispatch of `uploadToBlob`.
  - `containerNotFound`.
  - The write loop: it stops at the first failing part and tries to create the
    container only after a "not found" error.
- **`xor` condition** (`XorCondition`, xor_condition.dfy). The condition holds
  when exactly one child holds, and construction fails on a child with an
  unknown operator, as its tests state.

Shared helpers:

- `Wrappers` holds `Option` and `Result`.
- `Text` holds the `strings` functions the code uses.
- `Message` holds byte payloads and the batch error: a base error plus a map
  from record index to that record's error.

The writers do not change state through globals. Where the source mutates an
object, the model does too: the `Bloblang`, `Sftp`, `RemoteFs` and `SftpServer`
classes.

- `Bloblang.ReadWithContext` and `RemoteFs.WriteRecord` are tied by their
  `ensures` to a pure function of the old state (`ReadStep`, `RecordSpec`), and
  the lemmas about that function carry the properties.
- The other methods (`Bloblang.CloseAsync`, `Sftp.InitConnection`, the single
  `RemoteFs` calls and the `SftpServer` callbacks) state their new fields and
  results directly in their `ensures`.

A read that times out still uses up its count slot: `ReadWithContext`
decrements `remaining` before it waits (lib/input/bloblang.go:190-194).

## Model

| member | source | states |
|---|---|---|
| BloblangInput.ToInt32 | lib/input/bloblang.go:141-144 | The result is in the int32 range, agrees with the input modulo 2^32, and equals the input when the input already fits. |
| BloblangInput.InitialRemaining | lib/input/bloblang.go:141-144 | The result is -1, meaning no limit, exactly when the int32 truncation of the count is 0 or less; otherwise it is that truncation. A count in 1..2^31-1 is kept. |
| BloblangInput.CountWrapsAt32Bits | lib/input/bloblang.go:141-144 | Count 2^32+1 behaves as 1. Counts 2^31 and 2^32 mean no limit. |
| BloblangInput.WithZonePrefix | lib/input/bloblang.go:161-163 | The result always starts with "TZ=". An expression that already starts with it is unchanged. Any other expression gets "TZ=UTC " in front. |
| BloblangInput.ZoneName | lib/input/bloblang.go:165-167 | The zone is the text after the first '=' up to the first space, and contains no space. Without a space there is no zone (the slice panics). |
| BloblangInput.DefaultZoneIsUtc | lib/input/bloblang.go:161-167 | An expression without a zone prefix gets the zone UTC. |
| BloblangInput.GivenZone | lib/input/bloblang.go:161-167 | With a "TZ=" prefix, the zone is the text after "TZ=" up to the first space. The slice panics exactly when the expression has no space. |
| BloblangInput.ParseCronExpression | lib/input/bloblang.go:159-181 | A missing space is the slice panic. Once a zone is cut out, parsing succeeds exactly when the zone loads and the prefixed expression parses. A zone load error is returned as it is, and so is a cron parse error after a good load. On success the schedule is the prefixed expression with that zone. |
| BloblangInput.CronSchedule | lib/input/bloblang.go:119-125 | Without a cron expression there is no schedule. Otherwise a successful parse gives that schedule, a parse error is returned wrapped as "failed to parse cron_expression: " plus the error, and a panic passes through unchanged. |
| BloblangInput.TickerOf | lib/input/bloblang.go:119-133 | In cron mode the ticker runs until the first firing. Without either schedule there is no ticker. With an interval, a parse error is wrapped as "failed to parse interval: " plus the error; a parsed duration gives a ticker with that period exactly when it is positive, and the `time.NewTicker` panic otherwise. |
| BloblangInput.NewBloblang | lib/input/bloblang.go:108-153 | Construction succeeds exactly when not both schedules are set, a given cron expression parses, a given interval parses to a positive duration, and the mapping parses. Both schedules set gives BothSchedulesError. On success there is a ticker exactly when a schedule is configured, with the parsed interval or the delay to the first cron firing as its period. The ticker is running and the state is valid. `remaining` is the normalised count, the first read is free, and the mapping parsed. Every other error value is a "failed to parse ..." error. |
| BloblangInput.ExclusiveSchedules | lib/input/bloblang.go:115-117 | Construction fails with the "only one of interval or cron_expression" error exactly when both are non-empty. |
| BloblangInput.Waits | lib/input/bloblang.go:196 | A read waits only when a ticker exists, and the free first read never waits. |
| BloblangInput.ParseFailure | lib/input/bloblang.go:122-139 | Every construction error for a field that fails to parse starts with "failed to parse ". |
| BloblangInput.NoopAck | lib/input/bloblang.go:221 | The acknowledgment of a generated batch never reports an error, whatever the response. |
| BloblangInput.ReadStep | lib/input/bloblang.go:189-223 | One read keeps the state valid and never changes the schedule. |
| BloblangInput.Reads | lib/input/bloblang.go:189-223 | A run of reads yields one result per read and keeps the state valid. |
| BloblangInput.UnlimitedStep | lib/input/bloblang.go:190-194 | With no limit, a read leaves `remaining` at -1. It is closed only when it waited and found the ticker channel closed. |
| BloblangInput.UnlimitedReads | lib/input/bloblang.go:190-205 | Over any run of reads without a limit, `remaining` stays -1, and every Closed result comes from a closed ticker channel. |
| BloblangInput.CountedReads | lib/input/bloblang.go:190-205 | While slots remain, each read takes one, whatever it returns, timeouts included. No such read is closed by the count. |
| BloblangInput.CountExhausted | lib/input/bloblang.go:190-194 | After N reads of a count of N, the next read is Closed and leaves `remaining` at -1, the "no limit" value. |
| BloblangInput.FirstReadIsFree | lib/input/bloblang.go:196-207 | The first read past the count check gives the same result whatever the ticker does, and the read after it is not free. |
| BloblangInput.InterruptedWait | lib/input/bloblang.go:196-205 | A read that waits returns Closed exactly when the channel closed and TimedOut exactly when the context was cancelled. Only the slot is taken; `firstIsFree` and the ticker are unchanged. |
| BloblangInput.Emission | lib/input/bloblang.go:207-222 | Past the wait, a mapping error is returned and a nil part gives TimedOut. A part gives a one-part batch whose acknowledgment always returns nil. In cron mode the ticker is reset to the delay until the next firing; otherwise it is untouched. The next read is not free. |
| BloblangInput.Bloblang.constructor | lib/input/bloblang.go:145-152 | The input starts in the state construction produced. |
| BloblangInput.Bloblang.ReadWithContext | lib/input/bloblang.go:189-223 | The new fields and the result are those that ReadStep gives for the old fields. |
| BloblangInput.Bloblang.CloseAsync | lib/input/bloblang.go:226-230 | The ticker, if any, is stopped. Nothing else changes. |
| DynamoDBPartiql.StillFailingSubset | lib/output/writer/dynamodb_partiql_test.go:111-166 | Every index that is still failing was pending. |
| DynamoDBPartiql.StillFailingBelow | lib/output/writer/dynamodb_partiql_test.go:111-166 | Indices that are still failing stay indices of the batch. |
| DynamoDBPartiql.StillFailingIncreasing | lib/output/writer/dynamodb_partiql_test.go:111-166 | The failed subset keeps the original relative order. |
| DynamoDBPartiql.StillFailingKeeps | lib/output/writer/dynamodb_partiql_test.go:111-166 | A pending index stays pending exactly when its response carries an error. |
| DynamoDBPartiql.StillFailingNone | lib/output/writer/dynamodb_partiql_test.go:28-58 | When no response is flagged, nothing stays pending. |
| DynamoDBPartiql.StillFailingAll | lib/output/writer/dynamodb_partiql_test.go:230-287 | When every response is flagged, everything stays pending. |
| DynamoDBPartiql.StillFailing | lib/output/writer/dynamodb_partiql_test.go:111-166 | The indices still failing after a reply are never more than those sent. |
| DynamoDBPartiql.AfterReply | lib/output/writer/dynamodb_partiql_test.go:111-166 | Pending indices stay within the batch. A reply with responses clears the last error and never grows the pending set. |
| DynamoDBPartiql.FirstFailures | lib/output/writer/dynamodb_partiql_test.go:111-166 | The indices left after the first call are increasing, within the batch, and exactly those whose response failed. |
| DynamoDBPartiql.RetryPending | lib/output/writer/dynamodb_partiql_test.go:111-166 | The retries make at most `budget` calls, and make all of them when something is still pending at the end. Pending indices stay within the batch. |
| DynamoDBPartiql.IndividualFailures | lib/output/writer/dynamodb_partiql_test.go:203-211 | An index is in the map exactly when its individual call failed, and it is mapped to that call's error. |
| DynamoDBPartiql.UnprocessedError | lib/output/writer/dynamodb_partiql_test.go:272 | The base error for statements still failing starts with "failed to process ". |
| DynamoDBPartiql.StatementFailures | lib/output/writer/dynamodb_partiql_test.go:266-274 | Exactly the indices still failing are keyed, each to "failed to process statement: " followed by its own statement. |
| DynamoDBPartiql.FallbackTrace | lib/output/writer/dynamodb_partiql_test.go:61-109 | After an outright batch error the result is nil exactly when every individual call succeeds; otherwise its base is the bulk error and it names only indices of the batch. |
| DynamoDBPartiql.RetryResult | lib/output/writer/dynamodb_partiql_test.go:230-287 | The result is nil exactly when nothing is pending. Otherwise the error names exactly the pending indices, all within the batch. If the last retry call fails outright, its error is the base; a later reply clears an earlier outright error. |
| DynamoDBPartiql.RetryTrace | lib/output/writer/dynamodb_partiql_test.go:111-166 | After a batch reply no individual call is made. The first batch call carries every statement, and there are at most 1 + maxRetries batch calls. |
| DynamoDBPartiql.WriteSpec | lib/output/writer/dynamodb_partiql_test.go:28-287 | The first batch call carries every statement. After a reply no individual call is made; after an outright batch error there is that one batch call and each statement is executed individually, in order. |
| DynamoDBPartiql.ExecuteEach | lib/output/writer/dynamodb_partiql_test.go:61-109 | It makes one individual call per statement, in order, and collects exactly the individual errors by index. |
| DynamoDBPartiql.RetryLoop | lib/output/writer/dynamodb_partiql_test.go:111-166 | The loop ends in the pending set, last error and call list that RetryPending gives. |
| DynamoDBPartiql.Write | lib/output/writer/dynamodb_partiql_test.go:28-287 | The result and the batch and individual calls it makes are those of WriteSpec. |
| DynamoDBPartiql.HappyPath | lib/output/writer/dynamodb_partiql_test.go:28-58 | A reply with no failed response gives nil after that one batch call and no individual call. |
| DynamoDBPartiql.BulkFailureDegrades | lib/output/writer/dynamodb_partiql_test.go:61-109 | After an outright batch error there is exactly one more kind of call: each statement individually, once, in order. The result is nil exactly when every individual call succeeds. Otherwise it is a batch error with the bulk error as base and the failed indices mapped to their individual errors. |
| DynamoDBPartiql.RetrySendsFailedSubset | lib/output/writer/dynamodb_partiql_test.go:111-166 | After a reply with failed responses, the second batch call carries exactly the failed statements in original order, and no individual call is made. |
| DynamoDBPartiql.RetrySucceeds | lib/output/writer/dynamodb_partiql_test.go:149-153 | When the retried subset comes back clean, the write returns nil after exactly two batch calls. |
| DynamoDBPartiql.IncreasingBelowLength | lib/output/writer/dynamodb_partiql_test.go:111-166 | A strictly increasing list of batch indices is no longer than the batch. |
| DynamoDBPartiql.RejectingReply | lib/output/writer/dynamodb_partiql_test.go:246-263 | The mock gives one response per statement sent, failed exactly for the rejected statements. |
| DynamoDBPartiql.PersistentRetries | lib/output/writer/dynamodb_partiql_test.go:230-287 | Against a client that keeps rejecting, rejected statements stay pending through the whole budget, and every retry re-sends exactly them. |
| DynamoDBPartiql.RejectedAgain | lib/output/writer/dynamodb_partiql_test.go:230-287 | A rejecting client's reply to re-sent rejected statements keeps all of them pending and clears the last error. |
| DynamoDBPartiql.PersistentFailure | lib/output/writer/dynamodb_partiql_test.go:230-287 | Persistent failures give a batch error "failed to process N statements", keyed by the original indices of the rejected statements, after 1 + maxRetries batch calls. |
| DynamoDBPartiql.SadBatchExample | lib/output/writer/dynamodb_partiql_test.go:266-274 | Three statements with only the second rejected give "failed to process 1 statements", with index 1 mapped to a message naming that statement. The retry sends only that statement. |
| DynamoDBPartiql.OnlySecondRejected | lib/output/writer/dynamodb_partiql_test.go:230-264 | With only the second of three statements rejected, index 1 alone is pending after the first call. |
| DynamoDBPartiql.OneUnprocessed | lib/output/writer/dynamodb_partiql_test.go:272-274 | The error text for one unprocessed statement is "failed to process 1 statements". |
| DynamoDBPartiql.SadExample | lib/output/writer/dynamodb_partiql_test.go:203-211 | A bulk failure with only the second individual call failing gives exactly the bulk error as base and {1: that call's error}. |
| DynamoDBPartiql.ErrorIndicesValid | lib/output/writer/dynamodb_partiql_test.go:203-211 | Every failure a write reports is keyed by an index of the batch. |
| SftpWriter.DialSpec | lib/output/writer/sftp.go:142-158 | The loop makes at most ten attempts, and every attempt before the last one failed. It connects exactly when its last attempt succeeded, with that connection. Without a connection it made all ten attempts. |
| SftpWriter.Dial | lib/output/writer/sftp.go:142-158 | The loop ends between the starting attempt and the tenth, and without a connection only after the tenth. |
| SftpWriter.TenFailures | lib/output/writer/sftp.go:142-153 | The connection fails exactly when all ten dials fail. |
| SftpWriter.FirstSuccess | lib/output/writer/sftp.go:143-157 | A first success on attempt k connects there, after k attempts. |
| SftpWriter.DialWithRetry | lib/output/writer/sftp.go:142-158 | It ends as Dial says. `connection_errors` rises by k-1 after success on attempt k, and by 10 after ten failures. It pauses after every failure but the tenth. |
| SftpWriter.Sftp.InitConnection | lib/output/writer/sftp.go:118-171 | It adds the dial failures to `connection_errors`. If dialling fails, it reports the connect error and leaves the client alone. Otherwise it stores whatever client creation returned, counts a creation failure once in `client_errors`, and returns the creation error. |
| SftpWriter.NewSftpError | lib/output/writer/sftp.go:40-61 | A connection failure and a filepath parse failure are wrapped with their prefixes, and the connection is checked first. |
| SftpWriter.NewSftp | lib/output/writer/sftp.go:40-61 | It returns a writer exactly when there is no error, and that writer holds the created client and the dial failure count. |
| SftpWriter.ParentDir | lib/output/writer/sftp.go:86 | A path without a slash has "."; a file at the root has "/". Otherwise the result is the path up to its last slash. |
| SftpWriter.StatFails | lib/output/writer/sftp.go:83-84 | A directory is stat'ed successfully unless the server faults. |
| SftpWriter.WriteStep | lib/output/writer/sftp.go:106-112 | The write returns its fault. Without one, the file holds its old contents followed by the payload. With one, nothing changes. Directories are untouched. |
| SftpWriter.RecordSpec | lib/output/writer/sftp.go:82-114 | A record that succeeds leaves its file in place. |
| SftpWriter.DirectoryRefused | lib/output/writer/sftp.go:83-102 | A path naming a directory passes the stat, is opened for appending, and that open fails; nothing changes. |
| SftpWriter.RecordErrorOrigin | lib/output/writer/sftp.go:83-112 | A record's error is the answer of the mkdir, create, open or write call, or the refusal to open a directory; a failed stat is never reported. |
| SftpWriter.CreatePath | lib/output/writer/sftp.go:83-97 | A path that is neither a file nor a directory is created in its parent directory and ends up holding exactly the payload. |
| SftpWriter.AppendPath | lib/output/writer/sftp.go:98-107 | Writing to an existing file makes its contents the old contents followed by the payload. Nothing else changes. |
| SftpWriter.FirstFailureWins | lib/output/writer/sftp.go:86-112 | The first failing step among mkdir, create, open and write decides the error, and the later steps leave no trace. |
| SftpWriter.RecordFrame | lib/output/writer/sftp.go:82-114 | A record's write touches only its own file and only adds directories. |
| SftpWriter.RecordDirs | lib/output/writer/sftp.go:86-91 | A record adds at most its path's parent directory and removes none. |
| SftpWriter.RemoteFs.Stat | lib/output/writer/sftp.go:83 | Stat fails exactly for a path that is neither a file nor a directory, or a server fault. |
| SftpWriter.RemoteFs.OpenFile | lib/output/writer/sftp.go:99-102 | The open returns the server's fault if there is one. Otherwise it succeeds exactly for a file, and refuses a directory. It changes nothing. |
| SftpWriter.RemoteFs.MkdirAll | lib/output/writer/sftp.go:87 | It returns the fault, if any. Without a fault it adds the directory, and the files are untouched. |
| SftpWriter.RemoteFs.Create | lib/output/writer/sftp.go:93 | Without a fault, the path holds an empty file. |
| SftpWriter.RemoteFs.Append | lib/output/writer/sftp.go:99-107 | Without a fault, the payload is appended to the file. |
| SftpWriter.RemoteFs.WriteRecord | lib/output/writer/sftp.go:80-115 | The new filesystem and the error are those that RecordSpec gives. |
| SftpWriter.RunParts | lib/output/writer/sftp.go:80 | Without a first error no record failed. |
| SftpWriter.SendSpec | lib/output/writer/sftp.go:80 | A one-record batch fails with that record's plain error. Any other batch fails with a batch error that names only indices of the batch. |
| SftpWriter.RunPartsIndex | lib/output/writer/sftp.go:80 | Record i is attempted on the filesystem the earlier records left. It is in the failure map exactly when that attempt failed, and is mapped to that attempt's error. |
| SftpWriter.RunPartsKeeps | lib/output/writer/sftp.go:80 | Later records leave the failure entry of record i as record i left it. |
| SftpWriter.RunPartsLater | lib/output/writer/sftp.go:80 | One more record does not change the failure entry of an earlier one. |
| SftpWriter.RunPartsLast | lib/output/writer/sftp.go:80 | A record is in the failure map after its attempt exactly when that attempt failed, with its error. |
| SftpWriter.RunPartsErrors | lib/output/writer/sftp.go:80 | The failure map names only records of the batch. The base error is present exactly when some record failed, and it is the error of the lowest failed index. |
| SftpWriter.SendSingleRecord | lib/output/writer/sftp.go:80 | A one-record batch returns that record's own error. |
| SftpWriter.SendBatch | lib/output/writer/sftp.go:80 | Any other batch returns nil exactly when no record failed. Otherwise it returns a batch error naming exactly the failed records, with the first failure as base. |
| SftpWriter.RunPartsDirs | lib/output/writer/sftp.go:80-91 | A batch keeps every directory and adds at most the parents of its record paths. |
| SftpWriter.RunPartsFrame | lib/output/writer/sftp.go:80-115 | Whatever the faults, a file that no record names is left as it was. |
| SftpWriter.RunPartsNoFailures | lib/output/writer/sftp.go:80-115 | With no faults, and no record path a directory before the batch or a parent of a record path, no record fails. |
| SftpWriter.NoFaultsSucceeds | lib/output/writer/sftp.go:82-114 | A fault-free record on a path that is not a directory succeeds. |
| SftpWriter.RecordAlone | lib/output/writer/sftp.go:82-114 | A fault-free record on a path not touched so far and not a directory succeeds. Its file then holds what the path held before the batch, followed by the payload. |
| SftpWriter.RunPartsWritten | lib/output/writer/sftp.go:80-115 | A fault-free record on a path that no other record uses, and that is never a directory, leaves its payload after the path's old contents; later records do not touch it. |
| SftpWriter.ParentsGrow | lib/output/writer/sftp.go:86 | The parents of the first k paths are among the parents of the first n, for k <= n. |
| SftpWriter.DistinctPathsAllWritten | lib/output/writer/sftp.go:80-115 | Assume distinct paths and no faults, with no record path a directory before the batch or a parent of a record path. Then each payload lands in its own file after what was there, and no other file changes. |
| SftpWriter.WriteWithContext | lib/output/writer/sftp.go:79-116 | The new filesystem and the error are those that SendSpec gives. |
| SftpWriter.IsHostAuthority | lib/output/writer/sftp.go:187-191 | Every key is accepted for every address. |
| SftpWriter.SftpServer.constructor | lib/output/writer/sftp.go:120-123 | The record starts with the host and port only. |
| SftpWriter.SftpServer.IsRevoked | lib/output/writer/sftp.go:193-200 | It records the certificate, sets IsSSH and reports not revoked. Nothing else changes. |
| SftpWriter.SftpServer.HostKeyFallback | lib/output/writer/sftp.go:202-208 | It records the hostname and key and accepts. Nothing else changes. |
| BlobStorage.NewAzureBlobStorage | lib/output/writer/blob_storage.go:59-88 | Construction succeeds exactly when the timeout is empty or parses and the three field expressions parse. A bad timeout is reported with its prefix. The writer's timeout is 0 for an empty string, and the parsed duration otherwise. |
| BlobStorage.EmptyTimeoutIsZero | lib/output/writer/blob_storage.go:64-70 | An empty timeout gives zero whatever the duration parser says. |
| BlobStorage.FieldErrorOrder | lib/output/writer/blob_storage.go:78-86 | The field expressions are checked in order container, then path, and the first bad one is reported. |
| BlobStorage.ContainerURL | lib/output/writer/blob_storage.go:115 | The URL starts with "https://" + account + ".blob.core.windows.net/" and ends with the container name. |
| BlobStorage.ParseContainerURL | lib/output/writer/blob_storage.go:115 | Any account and name it reads back out of a URL rebuild that URL. |
| BlobStorage.ContainerURLRoundTrip | lib/output/writer/blob_storage.go:115 | For an account name without a dot, the URL "https://" + account + ".blob.core.windows.net/" + name determines the account and the container. |
| BlobStorage.GetContainer | lib/output/writer/blob_storage.go:105-118 | An empty account name or key is refused with the credentials error. A rejected key is refused with that error appended. Otherwise the container's URL is built from the account and the name. |
| BlobStorage.UploadModeOf | lib/output/writer/blob_storage.go:123-130 | Only "BLOCK" and "APPEND" select an upload. |
| BlobStorage.UploadDispatch | lib/output/writer/blob_storage.go:123-130 | "BLOCK" selects a block upload and "APPEND" selects an append, each exactly for that string. Every other type selects nothing. |
| BlobStorage.ContainerNotFound | lib/output/writer/blob_storage.go:160-166 | A storage error is "not found" exactly when its service code is ContainerNotFound. Any other error is "not found" exactly when its message contains that text. |
| BlobStorage.ContainerNotFoundExamples | lib/output/writer/blob_storage.go:160-166 | A wrapped error carrying the code anywhere counts. A typed error with another code does not count, whatever its message says. |
| BlobStorage.PartSpec | lib/output/writer/blob_storage.go:142-157 | A part makes at most two calls, and a part that succeeds never creates a container. |
| BlobStorage.PartBehaviour | lib/output/writer/blob_storage.go:142-157 | A credential failure makes no call. An unknown blob type makes no call and succeeds. Otherwise there is exactly one upload, followed by one creation of the same container exactly when the upload failed as "not found", and the upload's own error is returned. |
| BlobStorage.EmptyCredentialsFail | lib/output/writer/blob_storage.go:107-109 | Empty credentials fail every part before any call is made. |
| BlobStorage.WriteFrom | lib/output/writer/blob_storage.go:142-157 | The parts from index i on make at most two calls each. |
| BlobStorage.FirstFailureStops | lib/output/writer/blob_storage.go:142-157 | When part k is the first to fail, its error is returned, and only the calls of parts up to k are made. |
| BlobStorage.AllPartsSucceed | lib/output/writer/blob_storage.go:142-157 | The write returns nil exactly when every part succeeds, and then every part's calls are made in order. |
| BlobStorage.WriteWithContext | lib/output/writer/blob_storage.go:136-158 | The error and the calls made are those that WriteFrom gives from part 0. |
| XorCondition.XorFrom | lib/condition/xor_test.go:80-95 | The loop passes only if some result passed or one had passed already, and fails when one had passed and another passes. |
| XorCondition.Xor | lib/condition/xor_test.go:80-95 | The xor walk starts with no child passed, so it passes only if some child result passed. |
| XorCondition.XorFromCount | lib/condition/xor_test.go:80-95 | The child loop passes exactly when the passing children, plus one if one had already passed, number exactly one. |
| XorCondition.XorIsExactlyOne | lib/condition/xor_test.go:28-79 | Xor holds exactly when exactly one child result is true. |
| XorCondition.CountIsMultiplicity | lib/condition/xor_test.go:28-79 | The count of passing children is the multiplicity of true among the results. |
| XorCondition.XorIgnoresOrder | lib/condition/xor_test.go:64-77 | Reordering the child results does not change xor. |
| XorCondition.XorTable | lib/condition/xor_test.go:28-79 | The six table cases, plus false for no children. |
| XorCondition.Build | lib/condition/xor_test.go:98-116 | A text configuration builds exactly when its operator is known. A built condition is an xor exactly when the configuration is. An xor that fails to build names the failing child's index. |
| XorCondition.BuildChildren | lib/condition/xor_test.go:98-116 | The children from index i on build to one condition each. A failure names a child at or after i that itself fails to build. |
| XorCondition.BuildSpec | lib/condition/xor_test.go:98-116 | Construction succeeds exactly when every text operator in the tree is known, and then builds the condition node for node. |
| XorCondition.BuildChildrenSpec | lib/condition/xor_test.go:98-116 | The children from index i on build exactly when all of them have known operators, and then build in order. |
| XorCondition.ChildResults | lib/condition/xor_test.go:80-95 | There is one result per child, in order, and each is that child's check. |
| XorCondition.Check | lib/condition/xor_test.go:80-95 | An xor condition with no children does not hold. |
| XorCondition.CheckXor | lib/condition/xor_test.go:80-95 | An xor condition holds exactly when exactly one child holds. |
| XorCondition.XorTests | lib/condition/xor_test.go:28-116 | With a passing and a failing "contains" condition, the six configurations of the table build and check as the table says. An unknown operator makes construction fail. |
| XorCondition.BuildLeaves | lib/condition/xor_test.go:28-79 | An xor of known text configurations builds the xor of their text conditions. |

## Left out

- Concurrency is not modelled: time.Ticker, channels, `select` and the atomic
  updates in lib/input/bloblang.go. One read is a sequential step, and the
  outcome of its wait (tick, closed channel, cancelled context) is an input.
- Foreign libraries are oracles, because they are code this model does not see:
  - cron parsing and evaluation;
  - `time.LoadLocation` and `time.ParseDuration`;
  - Bloblang mapping and field evaluation.

  A `time.NewTicker` panic on a non-positive interval is modelled as the
  `Panicked` construction error.
- `getDurationTillNextSchedule` is a positive delay supplied per read. A cron
  schedule that never fires next is not modelled.
- `ConnectWithContext`, `Connect` and `WaitForClose` only return nil, and are
  left out.
- Logging and the metrics backends are left out. The SFTP counters are plain
  integers.
- The DynamoDB writer's own source is not part of this model; the algorithm is
  the one its tests describe. Statements are taken as already rendered from the
  messages, and the retry budget is a parameter.
  - A retry call that fails outright keeps everything pending. If the last
    retry call fails outright, its error is the base of the final error; a
    later reply clears an earlier outright error.
  - Backoff waits between retries are not modelled.
- DynamoDBPartiql.BulkFailureDegrades: "each statement is executed exactly once
  and never retried" after a bulk failure is the model's reading. The tests pin
  it only when every individual call succeeds (dynamodb_partiql_test.go:102-108);
  TestDynamoDBPartiqlSad records only the first three individual calls
  (dynamodb_partiql_test.go:185-187).
- `IterateBatchedSend` is not part of this model. It is modelled as in benthos
  v3: a one-record batch returns the record's own error; otherwise every record
  is attempted and failures are collected by index.
- SSH and SFTP protocols are not modelled. Each client call is answered from a
  `Faults` value.
- SftpWriter.ParentDir: does not model `filepath.Clean` of paths with redundant
  separators or ".." elements, because path normalisation is outside the write
  logic.
- SftpWriter.RemoteFs.MkdirAll: records only the parent directory itself, not
  its ancestors, because no later step reads them. It does not refuse a parent
  path that names an existing file.
- SftpWriter.RemoteFs.OpenFile: the server's message for opening a directory
  is the fixed text `DirOpenError`, because its wording belongs to the server.
- SftpWriter.RemoteFs.Append: a `file.Write` that fails leaves the file
  unchanged; a partial write is not modelled.
- The files the SFTP writer opens are never closed, just as in the source. The
  model has no file handles.
- The SSH `CertChecker`, the `Address` and `Banner` fields of `SFTPServer`,
  and the `net.Addr` argument of the host callback are not modelled, because
  nothing in the writer reads them.
- Azure SDK calls are not modelled. An upload is answered by an oracle, and the
  container creation's own error is only logged in the source, so it does not
  appear in the model.
- The context timeout of the blob writer's `WriteWithContext` is left out, with
  the rest of the timing. An empty timeout string gives a zero timeout, and
  `context.WithTimeout(wctx, 0)` (blob_storage.go:137-139) hands the uploads a
  context that has already expired.
- BlobStorage.GetContainer: the error from `url.Parse` is discarded, and a
  failed parse leaves a nil URL that the next line dereferences
  (blob_storage.go:115-116). An account or container name that `url.Parse`
  rejects, such as the container name "a%zz" or an account name with a space,
  therefore crashes the writer; the model does not capture this and treats the
  URL as the string it builds.
- The SFTP integration test harness runs against Docker and is left out.
- XorCondition: the xor condition's own file and the text condition are not
  part of this model.
  - Whether an operator is known, and what a text condition says of a message,
    are oracles.
  - Error message texts of construction are abstracted to `UnknownOperator`
    and `ChildFailed`.
  - Whether the child loop stops early cannot be observed in the result, so it
    is not modelled.
