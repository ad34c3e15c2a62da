# file-sharing-go, modelled in Dafny

This project models the core of a token-based file-sharing server. A client uploads a file. The server stores a metadata record (id, token, size, name, MIME type, optional bcrypt password, optional download limit, expiry, counter and timestamps) and writes the blob to disk under a size tier (`uploads/small` or `uploads/large`). Anyone holding the token can download the file or, with the password, delete it. Before a deletion the server writes a deletion log. The log lists the directory entries of the tier that match the record.

Modules, one per source file:

- `Config` (`config/config.go`): the constants.
- `FileLib` (`internal/lib/filelib/file.lib.go`) covers:
  - the size tier of a blob;
  - the extension of a file name;
  - the blob path `tier/id+ext`;
  - the 10-character token over the 62-character alphanumeric alphabet.

  `CreateToken` fills a `TokenLength` array in a loop. The loop is proved to spell `TokenOf(draws)`, and `TokenOf` is proved to be a bijection between draw sequences and alphanumeric strings.
- `DeleteLog` (`internal/lib/filelib/file.delete.lib.go`) covers:
  - directory entries turned into `FileInfo` rows (`CreateFileInfo`, a loop);
  - per-record selection of the first row of the record's tier named like the record (`SelectRows` and `FindFirstNamed`, the nested loops with `break`);
  - the whole `CreateDeleteLog` outcome (`DeleteLogOf`).
- `Schema` (`ent/schema/file.go`): the `File` record, the defaults of a create query, and the counter update.
- `Strconv`: Go's `strconv.Atoi` for the `max-downloads` form value.
- `FileService` (`internal/services/file.service.go`): class `Service` holds three parts:
  - the record store (`records: seq<File>`, in insertion order);
  - the blob paths on disk (`blobs: set<string>`);
  - the written deletion logs (`logs`).

  Each service method is proved equal to a pure transition on a `State` value (`Upload`, `SendToDownloadResult`, `RemoveBlob`, `DeleteRows`, `GetOneResult`, `PageOf`). The properties are proved about those transitions.
- `FileHandler` (`internal/handlers/file.handler.go`): class `Handler` holds the `Service`. Its `CreateOne`, `Download` and `DeleteOne` make the same service calls in the same order, with the same early returns. They are proved equal to `CreateOneResult`, `DownloadResult` and `DeleteResult`.

Replies carry the reply package's code names (`NotFound`, `ServerError`, `ClientError`, `BadGateway`). `Crash` stands for a runtime panic, which the router's recovery middleware answers with status 500. `NotServed` is the file server's 404 for an attachment whose blob is not on disk.

Failure switches select which step fails:
- directory creation;
- the metadata save;
- the blob write;
- the blob removal;
- the row removal;
- the counter update;
- the log file creation.

A save also fails when the generated id is already taken, since `id` is unique.

The main invariant is `Agree(records, blobs)`:
- every record has a `.` in its name and a UUID-shaped id;
- ids are unique;
- the blobs on disk are exactly the blob paths of the records.

Lemmas prove which requests keep it. They also pin down the following behaviours of the code as written:

- An upload whose file name has no `.` saves the record and then panics while computing the blob path. The record stays behind without a blob (`FileService.UploadKeepsAgreement`: agreement is kept exactly when the upload does not panic).
- The token is indexed, not unique. A deletion removes every row with the token but only the first record's blob, so the blob of any other record with that token is left orphaned (`FileHandler.DeleteOrphansSharedTokenBlob`).
- When the row removal fails after the blob was removed, the record stays without its blob (`FileHandler.DeleteKeepsAgreement`).
- The deletion log matches rows on the uploaded file name. Blobs are stored as `id + extension`, so a record whose upload name differs from its stored name gets no row from a listing that holds only its blob (`DeleteLog.StoredBlobNotLogged`).
- Nothing checks `expires_at`: a lookup by token finds expired records like any other.

Where the code calls something that is not in the files modelled here, the model takes it as written elsewhere:
- The service calls `GetPathname(file)` with one argument, while `file.lib.go` defines `GetPathname(size, id, filename)`. The model applies the three-argument form to `(FileSize, ID, FileName)`.
- The schema's token default names `crypto.CreateToken`. The model uses `filelib.CreateToken`, the only definition shown.
- The handler passes `config.REQUEST_DELETE_LOG_PATH`, which `config/config.go` does not define. The log directory is not part of the model; a written log is appended to `logs`.

## Model

| member | source | states |
|---|---|---|
| FileLib.GetPathBySize | internal/lib/filelib/file.lib.go:15-21 | the large tier exactly when size > 10 MB, the small tier exactly when size <= 10 MB (a size at the threshold is small) |
| FileLib.LastIndex | internal/lib/filelib/file.lib.go:37 | -1 exactly when the character does not occur; otherwise the position of an occurrence with no occurrence after it |
| FileLib.GetExtension | internal/lib/filelib/file.lib.go:36-39 | defined only for names containing '.'; the result is a suffix of the name that starts with '.' and holds no other '.' |
| FileLib.ExtensionIsUnique | internal/lib/filelib/file.lib.go:36-39 | the extension is the only suffix with that shape |
| FileLib.PathnameParts | internal/lib/filelib/file.lib.go:55-57 | GetPathname gives the tier, a '/', then a component that starts with the id and ends with the extension (PathOf), nothing else |
| FileService.BlobPathShape | internal/services/file.service.go:81 | the one-argument GetPathname(file) of the service is the record's tier, a '/', its id, then the extension of its file name |
| FileLib.PathnameInjective | internal/lib/filelib/file.lib.go:55-57 | equal blob paths of '.'-free ids have equal ids, tiers and extensions, so distinct ids never share a blob |
| FileLib.CharsetSpelledOut | internal/lib/filelib/file.lib.go:42-45 | the alphabet is the 62-character literal of the source |
| FileLib.CharsetAt | internal/lib/filelib/file.lib.go:44 | every alphabet position holds an alphanumeric character found at that position only |
| FileLib.CharsetCovers | internal/lib/filelib/file.lib.go:44 | every alphanumeric character occurs in the alphabet |
| FileLib.TokenOf | internal/lib/filelib/file.lib.go:47-52 | one character per draw, character i is the alphabet entry of draw i, all alphanumeric |
| FileLib.DrawsOf | internal/lib/filelib/file.lib.go:49-50 | every alphanumeric string has draws of its length, each an alphabet position |
| FileLib.TokenRoundTrip | internal/lib/filelib/file.lib.go:41-53 | TokenOf and DrawsOf are inverse: every alphanumeric string is spelled by exactly one draw sequence |
| FileLib.CreateToken | internal/lib/filelib/file.lib.go:41-53 | the buffer loop returns exactly TokenLength (10) alphanumeric characters, the token spelled by the draws |
| DeleteLog.GetType | internal/lib/filelib/file.delete.lib.go:28-33 | "directory" exactly for directory entries, "file" for all others |
| DeleteLog.InfoOf | internal/lib/filelib/file.delete.lib.go:38-53 | name as listed, type from GetType, extension from GetExtension; the entry's modification time when Info() succeeds; empty modification time and size when Info() fails; empty size for directories |
| DeleteLog.InfoRows | internal/lib/filelib/file.delete.lib.go:35-56 | one row per entry, in listing order |
| DeleteLog.CreateFileInfo | internal/lib/filelib/file.delete.lib.go:35-56 | panics (None) exactly when some entry name has no '.'; otherwise returns one row per entry in order |
| DeleteLog.FirstNamed | internal/lib/filelib/file.delete.lib.go:109-114 | the first row with the name, or none exactly when no row has it |
| DeleteLog.FindFirstNamed | internal/lib/filelib/file.delete.lib.go:109-114 | the scan with its break returns the first row with the name |
| DeleteLog.PickFor | internal/lib/filelib/file.delete.lib.go:108-121 | a record adds at most one row: none exactly when it is of the other tier or no row has its name, otherwise the first row with its name |
| DeleteLog.Selected | internal/lib/filelib/file.delete.lib.go:107-123 | the bucket of a tier holds at most one row per record, each taken from that tier's rows |
| DeleteLog.SelectRows | internal/lib/filelib/file.delete.lib.go:104-123 | large-tier records are looked up only in the large rows and land only in Large; all others only in the small rows and Small |
| DeleteLog.SelectedAtMostOnePerRecord | internal/lib/filelib/file.delete.lib.go:107-123 | each record contributes at most one row, so the log has at most as many rows as records |
| DeleteLog.SelectedRowsMatch | internal/lib/filelib/file.delete.lib.go:108-122 | every logged row comes from its tier's listing and carries the file name of a record of that tier |
| DeleteLog.SelectedAppend | internal/lib/filelib/file.delete.lib.go:107-123 | the logged rows follow record order: the rows of a concatenation are the concatenated rows |
| DeleteLog.StoredBlobNotLogged | internal/lib/filelib/file.delete.lib.go:108-121 | a record whose upload name differs from id+extension gets no row from a listing holding only its stored blob |
| DeleteLog.DeleteLogOf | internal/lib/filelib/file.delete.lib.go:95-130 | a read failure gives the error and no log; a dotless entry panics; a failed file creation gives the error; otherwise the log holds exactly the rows Selected picks for the records from each tier, at most one per record |
| DeleteLog.CreateDeleteLog | internal/lib/filelib/file.delete.lib.go:95-130 | the read, the two CreateFileInfo loops, the selection loops and the file creation give exactly DeleteLogOf |
| Schema.Create | ent/schema/file.go:17-36 | a new record has download count 0, password and max downloads only as set, the given id and token, expiry 7 days after creation, created = updated = now |
| Schema.AddDownloadCount | ent/schema/file.go:33-35 | the counter grows by n, updated_at becomes now, created_at and every other field stay |
| Strconv.Atoi | internal/services/file.service.go:178-181 | parses exactly the strings made of one optional '+' or '-' and at least one decimal digit whose signed value fits 64 bits; the value is the digits' value, negated after '-' |
| Strconv.AtoiExamples | internal/services/file.service.go:178-181 | "", "+", "1a" and " 5" are rejected; "-5", "+12" and "007" parse to -5, 12 and 7 |
| Strconv.AtoiItoa | internal/services/file.service.go:178-181 | every 64-bit integer printed in decimal parses back to itself |
| FileService.PathsMembership | internal/services/file.service.go:193-196 | a path is in Paths(records) exactly when some record with a '.' in its name is stored there |
| FileService.DistinctBlobPaths | ent/schema/file.go:26-28 | records with distinct generated ids have distinct blob paths |
| FileService.FirstWithToken | internal/services/file.service.go:58-59 | none exactly when no record has the token; otherwise the earliest record with it |
| FileService.WithoutToken | internal/services/file.service.go:69-70 | exactly the records without the token remain; nothing changes when no record holds it |
| FileService.WithoutTokenCount | internal/services/file.service.go:69-70 | removing a token's rows drops exactly as many records as there are positions holding the token |
| FileService.WithoutTokenMultiset | internal/services/file.service.go:69-70 | every record without the token is kept as many times as it occurs; records with it are dropped |
| FileService.WithoutTokenAppend | internal/services/file.service.go:69-70 | the kept records stay in their order: filtering a concatenation concatenates the filtered parts, and one record is kept exactly when it lacks the token |
| FileService.WithoutId | internal/services/file.service.go:198 | exactly the records with other ids remain; nothing changes when the id is absent |
| FileService.WithoutIdMultiset | internal/services/file.service.go:198 | every record with another id is kept as many times as it occurs; records with the id are dropped |
| FileService.WithoutIdAppend | internal/services/file.service.go:198 | the kept records stay in their order, and one record is kept exactly when its id differs |
| FileService.IncrementId | internal/services/file.service.go:91 | the record with the id gets AddDownloadCount(1); every other record is unchanged |
| FileService.PageStart | internal/services/file.service.go:55 | the offset itself when it lies within the store, 0 for a negative offset, the store's length past its end |
| FileService.PageOf | internal/services/file.service.go:54-56 | at most 20 consecutive records from the offset on, a full page unless the store ends first |
| FileService.GetOneResult | internal/services/file.service.go:58-67 | the not-found reply exactly when no record has the token; otherwise a stored record with that token |
| FileService.DeleteRows | internal/services/file.service.go:69-78 | a store error changes nothing; otherwise the store becomes WithoutToken of it and the returned count is the number of positions holding the token |
| FileService.RemoveBlob | internal/services/file.service.go:80-88 | a dotless name panics; a failed removal changes nothing; a successful one removes exactly the record's blob |
| FileService.SendToDownloadResult | internal/services/file.service.go:90-98 | the stored counter (unless the update fails) and the returned copy both grow by exactly 1; the blob at the record's path is attached when it is on disk, otherwise the file server's 404; a dotless name panics; blobs and logs unchanged |
| FileService.DraftOf | internal/services/file.service.go:164-181 | mime "unknown" exactly when the header is empty; a password hash exactly when the password is non-empty; max downloads exactly when the value parses |
| FileService.Upload | internal/services/file.service.go:100-207 | succeeds exactly when sizes are within 50 MB, the form parses, directories, save and write succeed and the name has '.'; each failure gives its own reply: over-long request or part "Max uploaded file is 50MB", body cut off "Max file to upload is 50MB", missing file field the form message (client errors), then the directory, save and write messages (server errors); panics exactly when everything up to the save succeeds and the name has no '.', leaving the saved record behind; every other failure changes nothing, a failed write by rolling the record back; success adds the record and its blob at GetPathname |
| FileService.AddKeepsUniqueIds | ent/schema/file.go:26-28 | adding a record with a fresh id keeps ids unique |
| FileService.AddKeepsAgreement | internal/services/file.service.go:184-206 | adding a storable record with a fresh id together with its blob keeps store and disk in agreement |
| FileService.UploadKeepsAgreement | internal/services/file.service.go:184-206 | an upload keeps store and disk in agreement exactly when it does not panic after the save |
| FileService.Service.constructor | internal/services/file.service.go:32-34 | the service starts on the given store, disk and logs |
| FileService.Service.GetMany | internal/services/file.service.go:54-56 | fails exactly when the query fails; otherwise returns PageOf: at most 20 records, consecutive from the offset |
| FileService.Service.GetOne | internal/services/file.service.go:58-67 | returns GetOneResult and changes nothing |
| FileService.Service.DeleteOne | internal/services/file.service.go:69-78 | reply and new state are DeleteRows of the old state |
| FileService.Service.DeleteOneFile | internal/services/file.service.go:80-88 | reply and new state are RemoveBlob of the old state |
| FileService.Service.SendToDownload | internal/services/file.service.go:90-98 | copy, reply and new state are SendToDownloadResult of the old state |
| FileService.Service.ProcessUpload | internal/services/file.service.go:100-207 | the step sequence with its rollback gives exactly Upload of the old state |
| FileHandler.CreateOneResult | internal/handlers/file.handler.go:22-33 | Created exactly when the upload succeeds, carrying the very record the upload created (with its token), which is stored with its blob; otherwise the upload's own reply and state |
| FileHandler.DownloadResult | internal/handlers/file.handler.go:61-82 | unknown token: not found, nothing changes; denied: "Wrong password" for cause PASSWORD, else "Max download reached", nothing changes; allowed: one SendToDownload step, attaching the blob or answering 404 when it is not on disk |
| FileHandler.RemoveAfterLog | internal/handlers/file.handler.go:105-115 | blob removal before row removal: a failed removal keeps every row; a failed row removal leaves the blob removed; success removes the token's rows and the blob |
| FileHandler.DeleteResult | internal/handlers/file.handler.go:84-116 | not found and wrong password change nothing; an unwritten log changes nothing; blobs change only after a log is written; success removes every row of the token and the record's blob and replies with the record |
| FileHandler.IncrementKeepsAgreement | internal/services/file.service.go:91 | counting a download keeps store and disk in agreement |
| FileHandler.OnlyHolderRemovalKeepsAgreement | internal/handlers/file.handler.go:105-113 | removing the rows of a token held by one record, with that record's blob, keeps agreement |
| FileHandler.RecordWithoutBlob | internal/handlers/file.handler.go:105-113 | a record whose blob is gone breaks agreement |
| FileHandler.DownloadKeepsAgreement | internal/handlers/file.handler.go:61-82 | a download on a consistent store keeps agreement, never panics and never misses the blob it attaches |
| FileHandler.DeleteKeepsAgreement | internal/handlers/file.handler.go:84-116 | with at most one record per token, a deletion keeps agreement exactly when the row removal does not fail after the blob removal |
| FileHandler.SharedTokenOrphan | internal/handlers/file.handler.go:105-113 | removing all rows of a token and one blob leaves the blob of another record with the token and breaks agreement |
| FileHandler.DeleteOrphansSharedTokenBlob | internal/handlers/file.handler.go:84-116 | a successful deletion of a token shared by two records drops the second record's row but keeps its blob |
| FileHandler.FreshBlobPath | internal/services/file.service.go:193-196 | the blob path of a record with a fresh id is not yet on disk |
| FileHandler.FreshTokenFindsUpload | internal/services/file.service.go:58-59 | a record appended with a fresh token is the one its token finds, and removing its token's rows gives back the earlier store |
| FileHandler.UploadThenDownloadServesBlob | internal/handlers/file.handler.go:61-82 | downloading right after an upload serves the blob the upload wrote, under the uploaded file name |
| FileHandler.DeleteAllStepsSucceed | internal/handlers/file.handler.go:99-115 | when every step succeeds, the reply is the first record of the token and exactly its rows and blob go, with one log written |
| FileHandler.DeleteFreshRecordRestores | internal/handlers/file.handler.go:99-115 | deleting a last-added record with a fresh token and a new blob restores the earlier records and blobs |
| FileHandler.UploadThenDeleteRestores | internal/handlers/file.handler.go:84-116 | an upload followed by a successful deletion of its token restores the store and the disk and adds one log |
| FileHandler.Handler.constructor | internal/handlers/file.handler.go:18-20 | the handler works on the given service |
| FileHandler.Handler.CreateOne | internal/handlers/file.handler.go:22-33 | reply and new state are CreateOneResult of the old state |
| FileHandler.Handler.Download | internal/handlers/file.handler.go:61-82 | reply and new state are DownloadResult of the old state |
| FileHandler.Handler.DeleteOne | internal/handlers/file.handler.go:84-116 | reply and new state are DeleteResult of the old state |

## Left out

- Password hashing: `HashPassword` (`internal/lib/filelib/file.lib.go:59-65`, and the copy in `internal/lib/crypto/hash.lib.go` that the service calls) is the function parameter `hash`. bcrypt itself and its ignored error are not modelled.
- Download and delete policy: `IsDownloadable` and `IsPasswordCorrect` are not among the files modelled here. They are function parameters, so no property depends on how they decide. In particular nothing is proved about the download limit being enforced.
- Randomness: the `crypto/rand` draws of `CreateToken` are the input `draws`, and `uuid.New` is the input `id`. The ignored error of `rand.Int` is not modelled.
- Clock: `time.Now` is the input `now` in whole seconds.
- Schema.Create: the expiry is `now + 7 * 86400` seconds. `AddDate(0, 0, 7)` across a daylight-saving change is not modelled.
- Filesystem and JSON I/O: `CreateDir`, `ReadDeleteDir`, `CreateDeleteLogFile`, the JSON encoding and the log file name are not modelled. Directory listings are the `Listing` input. Creating the directories and the log file are failure switches. A written log is a value appended to `logs`.
- DeleteLog.InfoOf: the modification time and the `%.2fMB` size text come in already formatted, since time formatting and floating point are not modelled.
- Upload streaming: multipart parsing, `http.MaxBytesReader` and `SaveUploadedFile` are outcome inputs (`Form`, `writeFails`).
- FileService.Upload: a failed write leaves no partial file on disk. The compensating `DeleteOneID(...).ExecX` is assumed to succeed; its panic is not modelled.
- FileService.DeleteRows, FileService.RemoveBlob and FileHandler.DeleteResult: error texts from the operating system or the database are empty messages. The extra detail strings of the reply package are dropped.
- FileService.GetOneResult: a store error other than "not found" is not modelled; a lookup either finds a record or replies not found.
- FileService.SendToDownloadResult: the error it returns for a failed counter update is dropped, as the handler drops it. The stored counter then stays unchanged.
- FileService.SendToDownloadResult: the file server's answer is reduced to the attachment or a 404 by whether the blob is on disk. Headers, range requests and read errors are not modelled.
- FileService.SendToDownloadResult: when computing the attachment path panics, the returned copy is already incremented, though the source panics before `DownloadCount++`; the copy never reaches a caller, so no outcome changes.
- The `allowReply == false` paths of `GetOne`, `DeleteOne`, `DeleteOneFile` and `ProcessUpload` are not modelled. The modelled handlers always pass `true`, so the replies are always written.
- FileService.FirstWithToken: the query's `First()` has no order clause, so which row it returns is up to the database. The model takes the earliest inserted one. Which record `FileHandler.DeleteOrphansSharedTokenBlob` leaves orphaned depends on this choice.
- FileService.PageOf: the listing order is assumed to be insertion order, which the ORM does not guarantee. A negative offset reads from the start, as SQLite treats it.
- FileLib.PathnameParts: `filepath.Join` is modelled as joining with one '/', without cleaning. Uploaded file names carry no directory part.
- Handlers `GetOne` and `GetMany` (`internal/handlers/file.handler.go:35-59`) are not part of this model; they only wrap the service lookups.
- The reply writer (`internal/lib/reply/reply.go`) is not part of this model. Replies are values carrying its code names.
- The `password` field's exclusion from JSON output (`Sensitive`) is not part of this model.
- The CLI (`cmd/clear/clear.go`), server wiring (`cmd/main.go`, `internal/routers/file.router.go`) and the SQLite connection (`internal/services/db/db.go`) are not part of this model.
- Concurrency: concurrent requests and the atomicity of counter increments are not modelled; each request runs alone.
- Expiry: nothing in the modelled code filters on `expires_at`, and the model does not claim that expired records are hidden.
- Integer width: sizes and counters are unbounded integers; `Atoi` checks the 64-bit range.
