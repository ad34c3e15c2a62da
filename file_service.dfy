/**
 * The file service (internal/services/file.service.go): the metadata store,
 * the blobs on disk and the deletion logs, and the service operations that
 * change them. Each operation is a pure transition on a State value; the
 * methods of class Service perform the same steps in place and are proved
 * equal to those transitions.
 */
module FileService {
  import opened Wrappers
  import opened Config
  import opened FileLib
  import opened Schema
  import opened DeleteLog
  import Strconv

  // ---------------------------------------------------------------------
  // Replies
  // ---------------------------------------------------------------------

  /** The error codes of the reply envelope. */
  datatype Code = NotFound | ServerError | ClientError | BadGateway

  /**
   * What a request answers. Crash is a runtime panic, which the router's
   * recovery middleware turns into a 500 reply. Error texts that come from
   * the operating system or the database are not modelled (empty message).
   * NotServed is the file server's 404 for an attachment whose blob is not on
   * disk.
   */
  datatype Reply =
    | Success(file: File, info: string)
    | Created(file: File, info: string)
    | Attachment(path: string, name: string)
    | NotServed(path: string)
    | Error(code: Code, message: string)
    | Crash

  const NotFoundMessage: string := "File not found. This could be happen because file sharing was expired"
  const TooLargeMessage: string := "Max uploaded file is 50MB"
  const BodyTooLargeMessage: string := "Max file to upload is 50MB"
  const BadFormMessage: string := "Please add 'file' field in form and make sure it's file formatted"
  const CreateDirMessage: string := "Error creating directories for upload file"
  const SaveMessage: string := "Error while saving file metadata"
  const WriteMessage: string := "Error while saving file to disk"
  const RemoveMessage: string := "Error cannot remove file"

  // ---------------------------------------------------------------------
  // State and its invariant
  // ---------------------------------------------------------------------

  /** The metadata rows in insertion order, the blob paths on disk, the written deletion logs. */
  datatype State = State(records: seq<File>, blobs: set<string>, logs: seq<Log>)

  /** A result together with the state it leaves. */
  datatype Step<T> = Step(result: T, state: State)

  predicate IsHexDigit(c: char) {
    '0' <= c <= '9' || 'a' <= c <= 'f'
  }

  /** The shape of uuid.New().String(): lower-case hex digits and dashes. */
  predicate ValidId(id: string) {
    |id| > 0 && forall i :: 0 <= i < |id| ==> IsHexDigit(id[i]) || id[i] == '-'
  }

  /** A record whose blob path can be computed, with an id as the store generates them. */
  predicate Storable(f: File) {
    ValidId(f.id) && '.' in f.fileName
  }

  /**
   * Where the blob of a record lives (the one-argument GetPathname(file) of
   * the service): under the tier of its size, named by its id and the
   * extension of its file name.
   */
  function BlobPath(f: File): string
    requires '.' in f.fileName
  {
    GetPathname(f.fileSize, f.id, f.fileName)
  }

  /** A record's blob sits in the tier of its size, named by its id and the extension of its file name. */
  lemma BlobPathShape(f: File)
    requires '.' in f.fileName
    ensures PathOf(BlobPath(f), GetPathBySize(f.fileSize), f.id, GetExtension(f.fileName))
  {
    PathnameParts(f.fileSize, f.id, f.fileName);
  }

  predicate UniqueIds(records: seq<File>) {
    forall f, g :: f in records && g in records && f.id == g.id ==> f == g
  }

  predicate AllStorable(records: seq<File>) {
    forall f :: f in records ==> Storable(f)
  }

  /** The blob paths of the records that have one (a name with '.'). */
  function Paths(records: seq<File>): set<string> {
    if |records| == 0 then {}
    else
      var last := records[|records| - 1];
      Paths(records[..|records| - 1]) + if '.' in last.fileName then {BlobPath(last)} else {}
  }

  /** A path belongs to Paths(records) exactly when some record is stored there. */
  lemma {:induction false} PathsMembership(records: seq<File>, p: string)
    ensures p in Paths(records) <==> exists f :: f in records && '.' in f.fileName && BlobPath(f) == p
  {
    if |records| > 0 {
      var init, last := records[..|records| - 1], records[|records| - 1];
      assert records == init + [last];
      PathsMembership(init, p);
      if p in Paths(init) {
        var f :| f in init && '.' in f.fileName && BlobPath(f) == p;
        assert f in records;
      }
    }
  }

  /**
   * The store and the disk agree: every record can be stored and has a
   * unique id, and the blobs on disk are exactly the records' blob paths.
   */
  predicate Agree(records: seq<File>, blobs: set<string>) {
    AllStorable(records) && UniqueIds(records) && blobs == Paths(records)
  }

  /** Records with distinct ids have distinct blob paths. */
  lemma DistinctBlobPaths(f: File, g: File)
    requires Storable(f) && Storable(g) && f.id != g.id
    ensures BlobPath(f) != BlobPath(g)
  {
    assert '.' !in f.id && '.' !in g.id;
    if BlobPath(f) == BlobPath(g) {
      PathnameInjective(f.fileSize, f.id, f.fileName, g.fileSize, g.id, g.fileName);
    }
  }

  // ---------------------------------------------------------------------
  // Store queries
  // ---------------------------------------------------------------------

  /** The first record with the given token. */
  function FirstWithToken(records: seq<File>, token: string): (r: Option<File>)
    ensures r.None? <==> forall f :: f in records ==> f.token != token
    ensures r.Some? ==> exists k :: 0 <= k < |records| && records[k] == r.value && r.value.token == token &&
                                    forall j :: 0 <= j < k ==> records[j].token != token
  {
    if |records| == 0 then None
    else if records[0].token == token then Some(records[0])
    else
      var r := FirstWithToken(records[1..], token);
      assert forall i :: 1 <= i < |records| ==> records[i] == records[1..][i - 1];
      r
  }

  /** The records that do not have the given token, in their order. */
  function WithoutToken(records: seq<File>, token: string): (rest: seq<File>)
    ensures forall f {:trigger f in rest} :: f in rest <==> f in records && f.token != token
    ensures |rest| <= |records|
    ensures (forall f :: f in records ==> f.token != token) ==> rest == records
  {
    if |records| == 0 then []
    else
      var last := records[|records| - 1];
      assert records == records[..|records| - 1] + [last];
      WithoutToken(records[..|records| - 1], token) + if last.token == token then [] else [last]
  }

  /** The records that do not have the given id, in their order. */
  function WithoutId(records: seq<File>, id: string): (rest: seq<File>)
    ensures forall f {:trigger f in rest} :: f in rest <==> f in records && f.id != id
    ensures (forall f :: f in records ==> f.id != id) ==> rest == records
  {
    if |records| == 0 then []
    else
      var last := records[|records| - 1];
      assert records == records[..|records| - 1] + [last];
      WithoutId(records[..|records| - 1], id) + if last.id == id then [] else [last]
  }

  /** The positions of the records that have the given token. */
  function TokenPositions(records: seq<File>, token: string): set<int> {
    set i | 0 <= i < |records| && records[i].token == token
  }

  /** The positions of a token in a store with one more record. */
  lemma TokenPositionsStep(records: seq<File>, token: string)
    requires |records| > 0
    ensures var n := |records| - 1;
            && n !in TokenPositions(records[..n], token)
            && TokenPositions(records, token) ==
               TokenPositions(records[..n], token) + if records[n].token == token then {n} else {}
  {
    var n := |records| - 1;
    var init := records[..n];
    var added := if records[n].token == token then {n} else {};
    forall i ensures i in TokenPositions(records, token) <==> i in TokenPositions(init, token) + added {
      if 0 <= i < n {
        assert init[i] == records[i];
      }
    }
  }

  /** Removing a token's records drops exactly as many records as hold the token. */
  lemma {:induction false} WithoutTokenCount(records: seq<File>, token: string)
    ensures |WithoutToken(records, token)| == |records| - |TokenPositions(records, token)|
  {
    if |records| > 0 {
      var n := |records| - 1;
      WithoutTokenCount(records[..n], token);
      TokenPositionsStep(records, token);
    }
  }

  /** Each record without the token is kept as often as it occurs; records with it are dropped. */
  lemma {:induction false} WithoutTokenMultiset(records: seq<File>, token: string)
    ensures forall f :: multiset(WithoutToken(records, token))[f] == if f.token == token then 0 else multiset(records)[f]
  {
    if |records| > 0 {
      var init, last := records[..|records| - 1], records[|records| - 1];
      assert records == init + [last];
      WithoutTokenMultiset(init, token);
    }
  }

  /**
   * The kept records stay in their order: filtering a concatenation is
   * concatenating the filtered parts, and one record is kept exactly when it
   * lacks the token.
   */
  lemma {:induction false} WithoutTokenAppend(a: seq<File>, b: seq<File>, token: string)
    ensures WithoutToken(a + b, token) == WithoutToken(a, token) + WithoutToken(b, token)
    ensures |b| == 1 ==> WithoutToken(b, token) == if b[0].token == token then [] else b
    decreases |b|
  {
    if |b| == 0 {
      assert a + b == a;
    } else {
      var b' := b[..|b| - 1];
      assert (a + b)[..|a + b| - 1] == a + b';
      WithoutTokenAppend(a, b', token);
      if |b| == 1 {
        assert b' == [];
      }
    }
  }

  /** Each record with another id is kept as often as it occurs; records with the id are dropped. */
  lemma {:induction false} WithoutIdMultiset(records: seq<File>, id: string)
    ensures forall f :: multiset(WithoutId(records, id))[f] == if f.id == id then 0 else multiset(records)[f]
  {
    if |records| > 0 {
      var init, last := records[..|records| - 1], records[|records| - 1];
      assert records == init + [last];
      WithoutIdMultiset(init, id);
    }
  }

  /** The kept records stay in their order, as for WithoutToken. */
  lemma {:induction false} WithoutIdAppend(a: seq<File>, b: seq<File>, id: string)
    ensures WithoutId(a + b, id) == WithoutId(a, id) + WithoutId(b, id)
    ensures |b| == 1 ==> WithoutId(b, id) == if b[0].id == id then [] else b
    decreases |b|
  {
    if |b| == 0 {
      assert a + b == a;
    } else {
      var b' := b[..|b| - 1];
      assert (a + b)[..|a + b| - 1] == a + b';
      WithoutIdAppend(a, b', id);
      if |b| == 1 {
        assert b' == [];
      }
    }
  }

  /** The store after adding 1 to the download count of the record with the given id. */
  function IncrementId(records: seq<File>, id: string, now: int): (r: seq<File>)
    ensures |r| == |records|
    ensures forall i :: 0 <= i < |r| ==>
              r[i] == if records[i].id == id then AddDownloadCount(records[i], 1, now) else records[i]
  {
    seq(|records|, i requires 0 <= i < |records| =>
      if records[i].id == id then AddDownloadCount(records[i], 1, now) else records[i])
  }

  /** The first index of the page starting at `offset`: a negative offset counts as 0. */
  function PageStart(records: seq<File>, offset: int): (start: nat)
    ensures start <= |records|
    ensures 0 <= offset <= |records| ==> start == offset
    ensures offset < 0 ==> start == 0
    ensures offset > |records| ==> start == |records|
  {
    if offset < 0 then 0 else if offset > |records| then |records| else offset
  }

  /** One page of the listing query: at most PaginationLimit records from `offset` on. */
  function PageOf(records: seq<File>, offset: int): (page: seq<File>)
    ensures |page| <= PaginationLimit && PageStart(records, offset) + |page| <= |records|
    ensures page == records[PageStart(records, offset)..PageStart(records, offset) + |page|]
    ensures |page| == PaginationLimit || PageStart(records, offset) + |page| == |records|
  {
    var start := PageStart(records, offset);
    if start + PaginationLimit <= |records| then records[start..start + PaginationLimit]
    else records[start..]
  }

  // ---------------------------------------------------------------------
  // Service transitions
  // ---------------------------------------------------------------------

  /** GetOne: the first record with the token, or the not-found reply. */
  function GetOneResult(s: State, token: string): (r: Result<File, Reply>)
    ensures r.Err? <==> forall f :: f in s.records ==> f.token != token
    ensures r.Err? ==> r.error == Error(NotFound, NotFoundMessage)
    ensures r.Ok? ==> r.value in s.records && r.value.token == token
  {
    match FirstWithToken(s.records, token)
    case None => Err(Error(NotFound, NotFoundMessage))
    case Some(f) => Ok(f)
  }

  /**
   * DeleteOne: remove every record with the token and return how many were
   * removed; a store error leaves the records as they were.
   */
  function DeleteRows(s: State, token: string, storeFails: bool): (out: Step<Result<int, Reply>>)
    ensures storeFails ==> out == Step(Err(Error(BadGateway, "")), s)
    ensures !storeFails ==> out.result.Ok? && out.state == s.(records := out.state.records)
    ensures !storeFails ==> forall f :: f in out.state.records <==> f in s.records && f.token != token
    ensures !storeFails ==> out.state.records == WithoutToken(s.records, token)
    ensures !storeFails ==> out.result.value == |s.records| - |out.state.records| == |TokenPositions(s.records, token)|
  {
    if storeFails then Step(Err(Error(BadGateway, "")), s)
    else
      var rest := WithoutToken(s.records, token);
      WithoutTokenCount(s.records, token);
      Step(Ok(|s.records| - |rest|), s.(records := rest))
  }

  /**
   * DeleteOneFile: remove the record's blob. Computing the path panics on a
   * dotless name; removing a path that is not on disk fails like any other
   * removal error, and a failure changes nothing.
   */
  function RemoveBlob(s: State, file: File, removeFails: bool): (out: Step<Option<Reply>>)
    ensures '.' !in file.fileName ==> out == Step(Some(Crash), s)
    ensures out.result.Some? ==> out.state == s
    ensures out.result.None? <==> '.' in file.fileName && !removeFails && BlobPath(file) in s.blobs
    ensures out.result.None? ==> out.state == s.(blobs := s.blobs - {BlobPath(file)})
  {
    if '.' !in file.fileName then Step(Some(Crash), s)
    else
      var path := BlobPath(file);
      if removeFails || path !in s.blobs then Step(Some(Error(ServerError, RemoveMessage)), s)
      else Step(None, s.(blobs := s.blobs - {path}))
  }

  /**
   * SendToDownload: add 1 to the stored counter (a store error is returned
   * but does not stop the download), attach the blob, and return the caller's
   * copy with its counter raised by 1. The file server answers 404 when the
   * blob is not on disk.
   */
  function SendToDownloadResult(s: State, file: File, updateFails: bool, now: int): (out: Step<(File, Reply)>)
    ensures out.result.0 == file.(downloadCount := file.downloadCount + 1)
    ensures '.' !in file.fileName ==> out.result.1 == Crash
    ensures '.' in file.fileName && BlobPath(file) in s.blobs ==> out.result.1 == Attachment(BlobPath(file), file.fileName)
    ensures '.' in file.fileName && BlobPath(file) !in s.blobs ==> out.result.1 == NotServed(BlobPath(file))
    ensures out.state.blobs == s.blobs && out.state.logs == s.logs
    ensures out.state.records == if updateFails then s.records else IncrementId(s.records, file.id, now)
  {
    var records := if updateFails then s.records else IncrementId(s.records, file.id, now);
    var reply := if '.' !in file.fileName then Crash
                 else if BlobPath(file) in s.blobs then Attachment(BlobPath(file), file.fileName)
                 else NotServed(BlobPath(file));
    Step((file.(downloadCount := file.downloadCount + 1), reply), s.(records := records))
  }

  /** The file part of a multipart upload. */
  datatype Part = Part(filename: string, size: int, contentType: string)

  /** The parsed form: the body exceeded the reader's limit, the file field is missing or malformed, or the fields. */
  datatype Form = BodyTooLarge | Malformed | Parsed(part: Part, password: string, maxDownloads: string)

  datatype UploadRequest = UploadRequest(contentLength: int, form: Form)

  /**
   * The failure switches and generated values of one upload: directory
   * creation, the metadata save and the blob write may fail; `id` and
   * `draws` feed the id and token defaults; `now` is the clock.
   */
  datatype UploadEnv = UploadEnv(dirFails: bool, saveFails: bool, writeFails: bool, id: string, draws: seq<int>, now: int)

  /** The create query built from the form. */
  function DraftOf(part: Part, password: string, maxDownloads: string, hash: string -> string): (d: Draft)
    ensures d.fileSize == part.size && d.fileName == part.filename
    ensures d.mime == if part.contentType == "" then "unknown" else part.contentType
    ensures d.password.Some? <==> password != ""
    ensures d.password.Some? ==> d.password.value == hash(password)
    ensures d.maxDownloads == Strconv.Atoi(maxDownloads)
  {
    var mime := if part.contentType == "" then "unknown" else part.contentType;
    Draft(part.size, part.filename, mime,
          if password != "" then Some(hash(password)) else None,
          Strconv.Atoi(maxDownloads))
  }

  /** Saving the create query fails on a store error or on an id already taken. */
  predicate SaveFails(s: State, env: UploadEnv) {
    env.saveFails || exists f :: f in s.records && f.id == env.id
  }

  /** The record a successful save creates. */
  function NewRecord(part: Part, password: string, maxDownloads: string, env: UploadEnv, hash: string -> string): File
    requires ValidDraws(env.draws)
  {
    Create(DraftOf(part, password, maxDownloads, hash), env.id, TokenOf(env.draws), env.now)
  }

  /**
   * ProcessUpload: size checks, form checks, directory creation, metadata
   * save, then the blob write, with the record deleted again when the write
   * fails.
   */
  function Upload(s: State, req: UploadRequest, env: UploadEnv, hash: string -> string): (out: Step<Result<File, Reply>>)
    requires ValidDraws(env.draws)
    ensures req.contentLength > MaxUpload * MB ==> out == Step(Err(Error(ClientError, TooLargeMessage)), s)
    ensures !req.form.Parsed? ==> out.state == s && out.result.Err?
    ensures req.form.Parsed? && req.form.part.size > MaxUpload * MB ==> out.state == s && out.result.Err?
    ensures out.result.Err? && out.result.error != Crash ==> out.state == s
    ensures req.contentLength <= MaxUpload * MB && req.form.BodyTooLarge? ==>
              out.result == Err(Error(ClientError, BodyTooLargeMessage))
    ensures req.contentLength <= MaxUpload * MB && req.form.Malformed? ==>
              out.result == Err(Error(ClientError, BadFormMessage))
    ensures req.contentLength <= MaxUpload * MB && req.form.Parsed? && req.form.part.size > MaxUpload * MB ==>
              out.result == Err(Error(ClientError, TooLargeMessage))
    ensures req.contentLength <= MaxUpload * MB && req.form.Parsed? && req.form.part.size <= MaxUpload * MB ==>
              && (env.dirFails ==> out.result == Err(Error(ServerError, CreateDirMessage)))
              && (!env.dirFails && SaveFails(s, env) ==> out.result == Err(Error(ServerError, SaveMessage)))
              && (!env.dirFails && !SaveFails(s, env) && '.' in req.form.part.filename && env.writeFails ==>
                    out.result == Err(Error(ServerError, WriteMessage)))
    ensures out.result == Err(Crash) <==>
              && req.contentLength <= MaxUpload * MB && req.form.Parsed? && req.form.part.size <= MaxUpload * MB
              && !env.dirFails && !SaveFails(s, env) && '.' !in req.form.part.filename
    ensures out.result == Err(Crash) ==>
              req.form.Parsed? && '.' !in req.form.part.filename &&
              out.state == s.(records := s.records + [NewRecord(req.form.part, req.form.password, req.form.maxDownloads, env, hash)])
    ensures out.result.Ok? <==>
              && req.contentLength <= MaxUpload * MB && req.form.Parsed? && req.form.part.size <= MaxUpload * MB
              && !env.dirFails && !SaveFails(s, env) && '.' in req.form.part.filename && !env.writeFails
    ensures out.result.Ok? ==>
              && req.contentLength <= MaxUpload * MB
              && req.form.Parsed? && req.form.part.size <= MaxUpload * MB
              && '.' in req.form.part.filename
              && out.result.value == NewRecord(req.form.part, req.form.password, req.form.maxDownloads, env, hash)
              && (forall f :: f in s.records ==> f.id != env.id)
              && out.state == State(s.records + [out.result.value], s.blobs + {BlobPath(out.result.value)}, s.logs)
  {
    if req.contentLength > MaxUpload * MB then Step(Err(Error(ClientError, TooLargeMessage)), s)
    else match req.form
      case BodyTooLarge => Step(Err(Error(ClientError, BodyTooLargeMessage)), s)
      case Malformed => Step(Err(Error(ClientError, BadFormMessage)), s)
      case Parsed(part, password, maxDownloads) =>
        if part.size > MaxUpload * MB then Step(Err(Error(ClientError, TooLargeMessage)), s)
        else if env.dirFails then Step(Err(Error(ServerError, CreateDirMessage)), s)
        else if SaveFails(s, env) then Step(Err(Error(ServerError, SaveMessage)), s)
        else
          var f := NewRecord(part, password, maxDownloads, env, hash);
          var saved := s.(records := s.records + [f]);
          if '.' !in f.fileName then Step(Err(Crash), saved)
          else if env.writeFails then
            assert forall g :: g in s.records ==> g.id != f.id;
            assert WithoutId(s.records, f.id) == s.records;
            assert WithoutId(saved.records, f.id) == s.records;
            Step(Err(Error(ServerError, WriteMessage)), saved.(records := WithoutId(saved.records, f.id)))
          else Step(Ok(f), saved.(blobs := s.blobs + {BlobPath(f)}))
  }

  lemma AddKeepsUniqueIds(records: seq<File>, f: File)
    requires UniqueIds(records)
    requires forall g :: g in records ==> g.id != f.id
    ensures UniqueIds(records + [f])
  {
    forall g, h | g in records + [f] && h in records + [f] && g.id == h.id ensures g == h {
      assert g in records || g == f;
      assert h in records || h == f;
    }
  }

  /** Adding a storable record with a fresh id together with its blob keeps the agreement. */
  lemma AddKeepsAgreement(records: seq<File>, blobs: set<string>, f: File)
    requires Agree(records, blobs) && Storable(f)
    requires forall g :: g in records ==> g.id != f.id
    ensures Agree(records + [f], blobs + {BlobPath(f)})
  {
    var records' := records + [f];
    AddKeepsUniqueIds(records, f);
    assert records'[..|records'| - 1] == records;
  }

  /** An upload keeps the store and the disk in agreement, except when it panics after the save. */
  lemma UploadKeepsAgreement(s: State, req: UploadRequest, env: UploadEnv, hash: string -> string)
    requires ValidDraws(env.draws) && ValidId(env.id)
    requires Agree(s.records, s.blobs)
    ensures var out := Upload(s, req, env, hash);
            Agree(out.state.records, out.state.blobs) <==> out.result != Err(Crash)
  {
    var out := Upload(s, req, env, hash);
    if out.result.Ok? {
      AddKeepsAgreement(s.records, s.blobs, out.result.value);
    } else if out.result == Err(Crash) {
      var f := NewRecord(req.form.part, req.form.password, req.form.maxDownloads, env, hash);
      assert f in out.state.records && !Storable(f);
    }
  }

  // ---------------------------------------------------------------------
  // The service object
  // ---------------------------------------------------------------------

  /** The service with the store, the disk and the log directory it works on. */
  class Service {
    var records: seq<File>
    var blobs: set<string>
    var logs: seq<Log>

    function Current(): State
      reads this
    {
      State(records, blobs, logs)
    }

    constructor (initial: State)
      ensures Current() == initial
    {
      records, blobs, logs := initial.records, initial.blobs, initial.logs;
    }

    /**
     * GetMany: one page of the records, starting at `offset`, or None when
     * the query fails (the error is handed back to the caller, no reply is written).
     */
    method GetMany(offset: int, storeFails: bool) returns (page: Option<seq<File>>)
      ensures page.None? <==> storeFails
      ensures page.Some? ==> |page.value| <= PaginationLimit && PageStart(records, offset) + |page.value| <= |records|
      ensures page.Some? ==> forall i :: 0 <= i < |page.value| ==> page.value[i] == records[PageStart(records, offset) + i]
      ensures page.Some? ==> page.value == PageOf(records, offset)
    {
      if storeFails {
        return None;
      }
      var start := if offset < 0 then 0 else if offset > |records| then |records| else offset;
      var end := if start + PaginationLimit <= |records| then start + PaginationLimit else |records|;
      page := Some(records[start..end]);
    }

    /** GetOne: the first record with the token; not found otherwise. */
    method GetOne(token: string) returns (r: Result<File, Reply>)
      ensures r.Ok? ==> r.value in records && r.value.token == token
      ensures r.Err? <==> forall f :: f in records ==> f.token != token
      ensures r == GetOneResult(Current(), token)
    {
      var found := FirstWithToken(records, token);
      if found.None? {
        return Err(Error(NotFound, NotFoundMessage));
      }
      r := Ok(found.value);
    }

    /** DeleteOne: remove every record with the token; returns how many were removed. */
    method DeleteOne(token: string, storeFails: bool) returns (r: Result<int, Reply>)
      modifies this`records
      ensures Step(r, Current()) == DeleteRows(old(Current()), token, storeFails)
    {
      if storeFails {
        return Err(Error(BadGateway, ""));
      }
      var before := |records|;
      records := WithoutToken(records, token);
      r := Ok(before - |records|);
    }

    /** DeleteOneFile: remove the blob of `file` from disk. */
    method DeleteOneFile(file: File, removeFails: bool) returns (err: Option<Reply>)
      modifies this`blobs
      ensures Step(err, Current()) == RemoveBlob(old(Current()), file, removeFails)
    {
      if '.' !in file.fileName {
        return Some(Crash);
      }
      var path := BlobPath(file);
      if removeFails || path !in blobs {
        return Some(Error(ServerError, RemoveMessage));
      }
      blobs := blobs - {path};
      err := None;
    }

    /** SendToDownload: count the download, then attach the blob. */
    method SendToDownload(file: File, updateFails: bool, now: int) returns (copy: File, reply: Reply)
      modifies this`records
      ensures Step((copy, reply), Current()) == SendToDownloadResult(old(Current()), file, updateFails, now)
    {
      if !updateFails {
        records := IncrementId(records, file.id, now);
      }
      copy := file.(downloadCount := file.downloadCount + 1);
      if '.' !in file.fileName {
        // computing the attachment path panics; the copy never reaches the caller
        return copy, Crash;
      }
      var path := BlobPath(file);
      if path in blobs {
        reply := Attachment(path, file.fileName);
      } else {
        reply := NotServed(path);
      }
    }

    /** ProcessUpload: validate, save the record, write the blob, roll the record back on a failed write. */
    method ProcessUpload(req: UploadRequest, env: UploadEnv, hash: string -> string) returns (r: Result<File, Reply>)
      requires |env.draws| == TokenLength && ValidDraws(env.draws)
      modifies this`records, this`blobs
      ensures Step(r, Current()) == Upload(old(Current()), req, env, hash)
    {
      if req.contentLength > MaxUpload * MB {
        return Err(Error(ClientError, TooLargeMessage));
      }
      if req.form.BodyTooLarge? {
        return Err(Error(ClientError, BodyTooLargeMessage));
      }
      if req.form.Malformed? {
        return Err(Error(ClientError, BadFormMessage));
      }
      var part, password, maxDownloads := req.form.part, req.form.password, req.form.maxDownloads;
      if part.size > MaxUpload * MB {
        return Err(Error(ClientError, TooLargeMessage));
      }
      if env.dirFails {
        return Err(Error(ServerError, CreateDirMessage));
      }
      var mime := if part.contentType == "" then "unknown" else part.contentType;
      var draft := Draft(part.size, part.filename, mime, None, None);
      if password != "" {
        draft := draft.(password := Some(hash(password)));
      }
      var md := Strconv.Atoi(maxDownloads);
      if md.Some? {
        draft := draft.(maxDownloads := md);
      }
      if SaveFails(Current(), env) {
        return Err(Error(ServerError, SaveMessage));
      }
      var token := CreateToken(env.draws);
      var file := Create(draft, env.id, token, env.now);
      records := records + [file];
      if '.' !in file.fileName {
        return Err(Crash);
      }
      var pathname := GetPathname(file.fileSize, file.id, file.fileName);
      if env.writeFails {
        records := WithoutId(records, file.id);
        return Err(Error(ServerError, WriteMessage));
      }
      blobs := blobs + {pathname};
      r := Ok(file);
    }
  }
}
