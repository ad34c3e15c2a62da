/**
 * The file handlers (internal/handlers/file.handler.go): each request is an
 * ordered sequence of service calls with an early return on the first
 * failure. The handler transitions are pure functions on a service State;
 * the methods of class Handler perform the same calls on a Service object
 * and are proved equal to them.
 */
module FileHandler {
  import opened Wrappers
  import opened Config
  import opened FileLib
  import opened Schema
  import opened DeleteLog
  import opened FileService

  const UploadedMessage: string := "File successfully uploaded"
  const WrongPasswordMessage: string := "Wrong password"
  const MaxDownloadMessage: string := "Max download reached"
  const DeletedSuffix: string := " successfully deleted"

  /** The cause IsDownloadable gives when the password is wrong. */
  const PasswordCause: string := "PASSWORD"

  // ---------------------------------------------------------------------
  // Handler transitions
  // ---------------------------------------------------------------------

  /** CreateOne: the upload's record in a Created reply, or the reply the upload already wrote. */
  function CreateOneResult(s: State, req: UploadRequest, env: UploadEnv, hash: string -> string): (out: Step<Reply>)
    requires ValidDraws(env.draws)
    ensures out.state == Upload(s, req, env, hash).state
    ensures out.result.Created? <==> Upload(s, req, env, hash).result.Ok?
    ensures out.result.Created? ==> out.result.file == Upload(s, req, env, hash).result.value
    ensures out.result.Created? ==>
              && out.result.info == UploadedMessage
              && out.result.file in out.state.records
              && '.' in out.result.file.fileName
              && BlobPath(out.result.file) in out.state.blobs
              && out.result.file.downloadCount == 0
    ensures !out.result.Created? ==> out.result == Upload(s, req, env, hash).result.error
  {
    var up := Upload(s, req, env, hash);
    match up.result
    case Ok(f) =>
      assert up.state.records[|s.records|] == f;
      Step(Created(f, UploadedMessage), up.state)
    case Err(reply) => Step(reply, up.state)
  }

  /**
   * Download: look the token up, ask the download policy, and on approval
   * count the download and attach the blob in one SendToDownload call.
   */
  function DownloadResult(s: State, token: string, pw: string, isDownloadable: (File, string) -> (bool, string),
                          updateFails: bool, now: int): (out: Step<Reply>)
    ensures FirstWithToken(s.records, token).None? ==> out == Step(Error(NotFound, NotFoundMessage), s)
    ensures FirstWithToken(s.records, token).Some? ==>
              var f := FirstWithToken(s.records, token).value;
              var verdict := isDownloadable(f, pw);
              && (!verdict.0 ==>
                    out == Step(Error(ClientError, if verdict.1 == PasswordCause then WrongPasswordMessage else MaxDownloadMessage), s))
              && (verdict.0 ==>
                    && ('.' !in f.fileName ==> out.result == Crash)
                    && ('.' in f.fileName && BlobPath(f) in s.blobs ==> out.result == Attachment(BlobPath(f), f.fileName))
                    && ('.' in f.fileName && BlobPath(f) !in s.blobs ==> out.result == NotServed(BlobPath(f)))
                    && out.state == s.(records := if updateFails then s.records else IncrementId(s.records, f.id, now)))
    ensures out.result.Error? ==> out.state == s
    ensures out.state.blobs == s.blobs && out.state.logs == s.logs
  {
    match FirstWithToken(s.records, token)
    case None => Step(Error(NotFound, NotFoundMessage), s)
    case Some(f) =>
      var verdict := isDownloadable(f, pw);
      if !verdict.0 then
        Step(Error(ClientError, if verdict.1 == PasswordCause then WrongPasswordMessage else MaxDownloadMessage), s)
      else
        var sent := SendToDownloadResult(s, f, updateFails, now);
        Step(sent.result.1, sent.state)
  }

  /**
   * The steps of DeleteOne after the log is written: remove the blob, then
   * the rows of the token. A failed blob removal keeps every row; a failed
   * row removal comes after the blob is gone.
   */
  function RemoveAfterLog(s: State, f: File, token: string, removeFails: bool, storeFails: bool): (out: Step<Reply>)
    ensures '.' !in f.fileName ==> out == Step(Crash, s)
    ensures '.' in f.fileName ==>
              && (removeFails || BlobPath(f) !in s.blobs ==> out == Step(Error(ServerError, RemoveMessage), s))
              && (!removeFails && BlobPath(f) in s.blobs && storeFails ==>
                    out == Step(Error(BadGateway, ""), s.(blobs := s.blobs - {BlobPath(f)})))
              && (!removeFails && BlobPath(f) in s.blobs && !storeFails ==>
                    out == Step(Success(f, f.fileName + DeletedSuffix),
                                s.(records := WithoutToken(s.records, token), blobs := s.blobs - {BlobPath(f)})))
  {
    var removed := RemoveBlob(s, f, removeFails);
    if removed.result.Some? then Step(removed.result.value, removed.state)
    else
      var deleted := DeleteRows(removed.state, token, storeFails);
      if deleted.result.Err? then Step(deleted.result.error, deleted.state)
      else Step(Success(f, f.fileName + DeletedSuffix), deleted.state)
  }

  /**
   * DeleteOne: look the token up, check the password, write the deletion
   * log, then remove the blob and the rows. The first failure ends the
   * request, so every step only happens after all earlier ones succeeded.
   */
  function DeleteResult(s: State, token: string, pw: string, isPasswordCorrect: (File, string) -> bool,
                        listing: Listing, logFails: bool, removeFails: bool, storeFails: bool): (out: Step<Reply>)
    ensures FirstWithToken(s.records, token).None? ==> out == Step(Error(NotFound, NotFoundMessage), s)
    ensures FirstWithToken(s.records, token).Some? ==>
              var f := FirstWithToken(s.records, token).value;
              var logged := DeleteLogOf([f], listing, logFails);
              && (!isPasswordCorrect(f, pw) ==> out == Step(Error(ClientError, WrongPasswordMessage), s))
              && (isPasswordCorrect(f, pw) && logged.Panicked? ==> out == Step(Crash, s))
              && (isPasswordCorrect(f, pw) && logged.Failed? ==> out == Step(Error(ServerError, ""), s))
              && (isPasswordCorrect(f, pw) && logged.Written? ==>
                    out == RemoveAfterLog(s.(logs := s.logs + [logged.log]), f, token, removeFails, storeFails))
    ensures out.result.Success? ==>
              && FirstWithToken(s.records, token) == Some(out.result.file)
              && '.' in out.result.file.fileName
              && out.state.records == WithoutToken(s.records, token)
              && out.state.blobs == s.blobs - {BlobPath(out.result.file)}
              && (forall g :: g in out.state.records ==> g.token != token)
              && BlobPath(out.result.file) !in out.state.blobs
    ensures out.result == Error(BadGateway, "") ==>
              && FirstWithToken(s.records, token).Some?
              && '.' in FirstWithToken(s.records, token).value.fileName
              && out.state.records == s.records
              && out.state.blobs == s.blobs - {BlobPath(FirstWithToken(s.records, token).value)}
    ensures !out.result.Success? && out.result != Error(BadGateway, "") ==>
              out.state.records == s.records && out.state.blobs == s.blobs
    ensures out.state.blobs != s.blobs ==> |out.state.logs| == |s.logs| + 1
    ensures out.state.logs == s.logs || |out.state.logs| == |s.logs| + 1
  {
    match FirstWithToken(s.records, token)
    case None => Step(Error(NotFound, NotFoundMessage), s)
    case Some(f) =>
      if !isPasswordCorrect(f, pw) then Step(Error(ClientError, WrongPasswordMessage), s)
      else match DeleteLogOf([f], listing, logFails)
        case Panicked => Step(Crash, s)
        case Failed => Step(Error(ServerError, ""), s)
        case Written(log) => RemoveAfterLog(s.(logs := s.logs + [log]), f, token, removeFails, storeFails)
  }

  // ---------------------------------------------------------------------
  // The store and the disk
  // ---------------------------------------------------------------------

  /** Sequences of records that agree, position by position, on size, id and name have the same paths. */
  lemma {:induction false} PathsPointwise(a: seq<File>, b: seq<File>)
    requires |a| == |b|
    requires forall i :: 0 <= i < |a| ==>
               a[i].fileSize == b[i].fileSize && a[i].id == b[i].id && a[i].fileName == b[i].fileName
    ensures Paths(a) == Paths(b)
  {
    if |a| > 0 {
      PathsPointwise(a[..|a| - 1], b[..|b| - 1]);
    }
  }

  /** Counting a download keeps every record storable and the ids unique. */
  lemma IncrementKeepsRecords(records: seq<File>, id: string, now: int)
    requires AllStorable(records) && UniqueIds(records)
    ensures AllStorable(IncrementId(records, id, now)) && UniqueIds(IncrementId(records, id, now))
  {
    var r := IncrementId(records, id, now);
    forall g | g in r ensures Storable(g) {
      var i :| 0 <= i < |r| && r[i] == g;
      assert records[i] in records;
    }
    forall g, h | g in r && h in r && g.id == h.id ensures g == h {
      var i :| 0 <= i < |r| && r[i] == g;
      var j :| 0 <= j < |r| && r[j] == h;
      assert records[i] in records && records[j] in records;
    }
  }

  /** Counting a download changes neither which records exist nor where their blobs are. */
  lemma IncrementKeepsAgreement(records: seq<File>, blobs: set<string>, id: string, now: int)
    requires Agree(records, blobs)
    ensures Agree(IncrementId(records, id, now), blobs)
  {
    IncrementKeepsRecords(records, id, now);
    PathsPointwise(IncrementId(records, id, now), records);
  }

  /** Removing rows keeps every remaining record storable and their ids unique. */
  lemma WithoutTokenKeepsRecords(records: seq<File>, token: string)
    requires AllStorable(records) && UniqueIds(records)
    ensures AllStorable(WithoutToken(records, token)) && UniqueIds(WithoutToken(records, token))
  {
  }

  /** A path left after removing a token's rows is the path of a record without the token. */
  lemma PathWithoutToken(records: seq<File>, token: string, f: File, p: string)
    requires AllStorable(records) && UniqueIds(records)
    requires f in records && f.token == token
    requires p in Paths(WithoutToken(records, token))
    ensures p in Paths(records) && p != BlobPath(f)
  {
    PathsMembership(WithoutToken(records, token), p);
    var g :| g in WithoutToken(records, token) && '.' in g.fileName && BlobPath(g) == p;
    assert g in records && g.id != f.id;
    DistinctBlobPaths(g, f);
    PathsMembership(records, p);
  }

  /** The path of a record without the token survives the removal of the token's rows. */
  lemma PathKeptWithoutToken(records: seq<File>, token: string, f: File, p: string)
    requires forall g :: g in records && g.token == token ==> g == f
    requires '.' in f.fileName && p in Paths(records) && p != BlobPath(f)
    ensures p in Paths(WithoutToken(records, token))
  {
    PathsMembership(records, p);
    var g :| g in records && '.' in g.fileName && BlobPath(g) == p;
    assert g in WithoutToken(records, token);
    PathsMembership(WithoutToken(records, token), p);
  }

  /**
   * The paths left after removing a token's rows and one record's blob lie
   * within the old paths less that blob. The two sets are named parameters
   * so callers can hand in the sets they already hold without unfolding Paths.
   */
  lemma PathsShrink(records: seq<File>, token: string, f: File, rest: set<string>, before: set<string>)
    requires AllStorable(records) && UniqueIds(records)
    requires f in records && f.token == token
    requires rest == Paths(WithoutToken(records, token)) && before == Paths(records) - {BlobPath(f)}
    ensures rest <= before
  {
    forall p | p in rest ensures p in before {
      PathWithoutToken(records, token, f, p);
    }
  }

  /**
   * Conversely, when `f` is the only record with the token, every old path
   * other than its blob survives the removal. The sets are parameters, as in PathsShrink.
   */
  lemma PathsKept(records: seq<File>, token: string, f: File, rest: set<string>, before: set<string>)
    requires forall g :: g in records && g.token == token ==> g == f
    requires '.' in f.fileName
    requires rest == Paths(WithoutToken(records, token)) && before == Paths(records) - {BlobPath(f)}
    ensures before <= rest
  {
    forall p | p in before ensures p in rest {
      PathKeptWithoutToken(records, token, f, p);
    }
  }

  /**
   * Removing the rows of a token that exactly one record holds, together
   * with that record's blob, keeps the store and the disk in agreement.
   */
  lemma OnlyHolderRemovalKeepsAgreement(records: seq<File>, blobs: set<string>, token: string, f: File,
                                        records': seq<File>, blobs': set<string>)
    requires Agree(records, blobs)
    requires f in records && f.token == token
    requires forall g :: g in records && g.token == token ==> g == f
    requires records' == WithoutToken(records, token) && blobs' == blobs - {BlobPath(f)}
    ensures Agree(records', blobs')
  {
    WithoutTokenKeepsRecords(records, token);
    PathsShrink(records, token, f, Paths(records'), blobs');
    PathsKept(records, token, f, Paths(records'), blobs');
  }

  /** A record whose blob is gone breaks the agreement. */
  lemma RecordWithoutBlob(records: seq<File>, blobs: set<string>, f: File)
    requires f in records && '.' in f.fileName
    ensures !Agree(records, blobs - {BlobPath(f)})
  {
    PathsMembership(records, BlobPath(f));
  }

  /**
   * A download keeps the store and the disk in agreement, and on a
   * consistent store it never panics and always finds the blob it attaches.
   */
  lemma DownloadKeepsAgreement(s: State, token: string, pw: string, isDownloadable: (File, string) -> (bool, string),
                               updateFails: bool, now: int)
    requires Agree(s.records, s.blobs)
    ensures var out := DownloadResult(s, token, pw, isDownloadable, updateFails, now);
            Agree(out.state.records, out.state.blobs) && out.result != Crash && !out.result.NotServed?
  {
    var found := FirstWithToken(s.records, token);
    if found.Some? {
      assert Storable(found.value);
      PathsMembership(s.records, BlobPath(found.value));
      IncrementKeepsAgreement(s.records, s.blobs, found.value.id, now);
    }
  }

  /**
   * When at most one record holds the token, a deletion keeps the store and
   * the disk in agreement unless the row removal fails after the blob is
   * gone, which leaves a record without its blob.
   */
  lemma DeleteKeepsAgreement(s: State, token: string, pw: string, isPasswordCorrect: (File, string) -> bool,
                             listing: Listing, logFails: bool, removeFails: bool, storeFails: bool)
    requires Agree(s.records, s.blobs)
    requires forall g, h :: g in s.records && h in s.records && g.token == token && h.token == token ==> g == h
    ensures var out := DeleteResult(s, token, pw, isPasswordCorrect, listing, logFails, removeFails, storeFails);
            Agree(out.state.records, out.state.blobs) <==> out.result != Error(BadGateway, "")
  {
    var out := DeleteResult(s, token, pw, isPasswordCorrect, listing, logFails, removeFails, storeFails);
    if out.result.Success? {
      var f := out.result.file;
      assert f in s.records && f.token == token;
      OnlyHolderRemovalKeepsAgreement(s.records, s.blobs, token, f, out.state.records, out.state.blobs);
    } else if out.result == Error(BadGateway, "") {
      var f := FirstWithToken(s.records, token).value;
      assert f in s.records;
      RecordWithoutBlob(s.records, s.blobs, f);
    }
  }

  /**
   * Removing every row of a token together with the blob of only one of its
   * records leaves the blob of any other record with that token behind.
   */
  lemma SharedTokenOrphan(records: seq<File>, blobs: set<string>, token: string, f: File, g: File,
                          records': seq<File>, blobs': set<string>)
    requires Agree(records, blobs)
    requires f in records && g in records && g.token == token && g != f
    requires records' == WithoutToken(records, token) && blobs' == blobs - {BlobPath(f)}
    ensures g !in records' && BlobPath(g) in blobs'
    ensures !Agree(records', blobs')
  {
    assert g.id != f.id;
    DistinctBlobPaths(g, f);
    PathsMembership(records, BlobPath(g));
    forall h | h in records' && '.' in h.fileName ensures BlobPath(h) != BlobPath(g) {
      assert h in records && h != g;
      DistinctBlobPaths(h, g);
    }
    PathsMembership(records', BlobPath(g));
  }

  /**
   * The token is indexed but not unique, and the row removal deletes every
   * record with the token while only the first one's blob is removed: a
   * second record with the same token loses its row and keeps its blob.
   */
  lemma DeleteOrphansSharedTokenBlob(s: State, token: string, pw: string, isPasswordCorrect: (File, string) -> bool,
                                     listing: Listing, logFails: bool, removeFails: bool, storeFails: bool, g: File)
    requires Agree(s.records, s.blobs)
    requires g in s.records && g.token == token
    requires FirstWithToken(s.records, token).Some? && FirstWithToken(s.records, token).value != g
    requires DeleteResult(s, token, pw, isPasswordCorrect, listing, logFails, removeFails, storeFails).result.Success?
    ensures var out := DeleteResult(s, token, pw, isPasswordCorrect, listing, logFails, removeFails, storeFails);
            && g !in out.state.records
            && BlobPath(g) in out.state.blobs
            && !Agree(out.state.records, out.state.blobs)
  {
    var out := DeleteResult(s, token, pw, isPasswordCorrect, listing, logFails, removeFails, storeFails);
    var f := FirstWithToken(s.records, token).value;
    assert f in s.records && '.' in f.fileName;
    assert out.state.records == WithoutToken(s.records, token);
    assert out.state.blobs == s.blobs - {BlobPath(f)};
    SharedTokenOrphan(s.records, s.blobs, token, f, g, out.state.records, out.state.blobs);
  }

  // ---------------------------------------------------------------------
  // Requests in sequence
  // ---------------------------------------------------------------------

  /** A fresh upload's blob path is not yet on disk. */
  lemma FreshBlobPath(records: seq<File>, blobs: set<string>, f: File)
    requires Agree(records, blobs) && Storable(f)
    requires forall g :: g in records ==> g.id != f.id
    ensures BlobPath(f) !in blobs
  {
    forall g | g in records ensures BlobPath(g) != BlobPath(f) {
      DistinctBlobPaths(g, f);
    }
    PathsMembership(records, BlobPath(f));
  }

  /** After a successful upload, its token finds the uploaded record when no earlier record held it. */
  lemma FreshTokenFindsUpload(records: seq<File>, f: File)
    requires forall g :: g in records ==> g.token != f.token
    ensures FirstWithToken(records + [f], f.token) == Some(f)
    ensures WithoutToken(records + [f], f.token) == records
  {
    var r := records + [f];
    assert r[..|r| - 1] == records;
    assert forall k :: 0 <= k < |records| ==> r[k] == records[k];
  }

  /**
   * Downloading right after an upload, when the policy allows it, serves
   * the very blob the upload wrote, under the uploaded file name.
   */
  lemma UploadThenDownloadServesBlob(s: State, req: UploadRequest, env: UploadEnv, hash: string -> string,
                                     pw: string, isDownloadable: (File, string) -> (bool, string), updateFails: bool, now: int)
    requires ValidDraws(env.draws)
    requires Upload(s, req, env, hash).result.Ok?
    requires forall g :: g in s.records ==> g.token != Upload(s, req, env, hash).result.value.token
    requires isDownloadable(Upload(s, req, env, hash).result.value, pw).0
    ensures var up := Upload(s, req, env, hash);
            var f := up.result.value;
            var down := DownloadResult(up.state, f.token, pw, isDownloadable, updateFails, now);
            && '.' in f.fileName
            && down.result == Attachment(BlobPath(f), f.fileName)
            && BlobPath(f) in down.state.blobs
  {
    var up := Upload(s, req, env, hash);
    FreshTokenFindsUpload(s.records, up.result.value);
  }

  /**
   * When every step succeeds, a deletion replies with the first record of
   * the token and removes the token's rows and that record's blob.
   */
  lemma DeleteAllStepsSucceed(s: State, token: string, f: File, pw: string, isPasswordCorrect: (File, string) -> bool,
                              large: seq<DirEntry>, small: seq<DirEntry>)
    requires FirstWithToken(s.records, token) == Some(f) && '.' in f.fileName && BlobPath(f) in s.blobs
    requires isPasswordCorrect(f, pw) && AllDotted(large) && AllDotted(small)
    ensures var del := DeleteResult(s, token, pw, isPasswordCorrect, Listed(large, small), false, false, false);
            && del.result == Success(f, f.fileName + DeletedSuffix)
            && del.state.records == WithoutToken(s.records, token)
            && del.state.blobs == s.blobs - {BlobPath(f)}
            && |del.state.logs| == |s.logs| + 1
  {
    var logged := DeleteLogOf([f], Listed(large, small), false);
    assert logged.Written?;
  }

  /**
   * Deleting a record that was added last, with a fresh token, together
   * with its blob that was not on disk before, removes exactly that record
   * and that blob when every step succeeds.
   */
  lemma DeleteFreshRecordRestores(s: State, f: File, pw: string, isPasswordCorrect: (File, string) -> bool,
                                  large: seq<DirEntry>, small: seq<DirEntry>)
    requires '.' in f.fileName && BlobPath(f) !in s.blobs
    requires forall g :: g in s.records ==> g.token != f.token
    requires isPasswordCorrect(f, pw) && AllDotted(large) && AllDotted(small)
    ensures var del := DeleteResult(State(s.records + [f], s.blobs + {BlobPath(f)}, s.logs), f.token, pw,
                                    isPasswordCorrect, Listed(large, small), false, false, false);
            && del.result == Success(f, f.fileName + DeletedSuffix)
            && del.state.records == s.records
            && del.state.blobs == s.blobs
            && |del.state.logs| == |s.logs| + 1
  {
    var added := State(s.records + [f], s.blobs + {BlobPath(f)}, s.logs);
    FreshTokenFindsUpload(s.records, f);
    DeleteAllStepsSucceed(added, f.token, f, pw, isPasswordCorrect, large, small);
    var del := DeleteResult(added, f.token, pw, isPasswordCorrect, Listed(large, small), false, false, false);
    assert del.state.blobs == added.blobs - {BlobPath(f)};
    assert added.blobs - {BlobPath(f)} == s.blobs;
  }

  /**
   * Deleting right after an upload, with a fresh token, the right password,
   * readable listings and no failures, removes exactly what the upload added
   * and leaves one deletion log.
   */
  lemma UploadThenDeleteRestores(s: State, req: UploadRequest, env: UploadEnv, hash: string -> string,
                                 pw: string, isPasswordCorrect: (File, string) -> bool, large: seq<DirEntry>, small: seq<DirEntry>)
    requires ValidDraws(env.draws) && ValidId(env.id)
    requires Agree(s.records, s.blobs)
    requires Upload(s, req, env, hash).result.Ok?
    requires forall g :: g in s.records ==> g.token != Upload(s, req, env, hash).result.value.token
    requires isPasswordCorrect(Upload(s, req, env, hash).result.value, pw)
    requires AllDotted(large) && AllDotted(small)
    ensures var up := Upload(s, req, env, hash);
            var f := up.result.value;
            var del := DeleteResult(up.state, f.token, pw, isPasswordCorrect, Listed(large, small), false, false, false);
            && del.result == Success(f, f.fileName + DeletedSuffix)
            && del.state.records == s.records
            && del.state.blobs == s.blobs
            && |del.state.logs| == |s.logs| + 1
  {
    var up := Upload(s, req, env, hash);
    var f := up.result.value;
    assert f.id == env.id && Storable(f);
    assert up.state == State(s.records + [f], s.blobs + {BlobPath(f)}, s.logs);
    FreshBlobPath(s.records, s.blobs, f);
    DeleteFreshRecordRestores(s, f, pw, isPasswordCorrect, large, small);
  }

  // ---------------------------------------------------------------------
  // The handler object
  // ---------------------------------------------------------------------

  /** The file handlers over one service. */
  class Handler {
    const s: Service

    constructor (service: Service)
      ensures s == service
    {
      s := service;
    }

    /** CreateOne: run the upload; reply Created with the record only when it succeeded. */
    method CreateOne(req: UploadRequest, env: UploadEnv, hash: string -> string) returns (reply: Reply)
      requires |env.draws| == TokenLength && ValidDraws(env.draws)
      modifies s
      ensures Step(reply, s.Current()) == CreateOneResult(old(s.Current()), req, env, hash)
    {
      var file := s.ProcessUpload(req, env, hash);
      if file.Err? {
        return file.error;
      }
      reply := Created(file.value, UploadedMessage);
    }

    /** Download: look up, ask the policy, then count and attach. */
    method Download(token: string, pw: string, isDownloadable: (File, string) -> (bool, string),
                    updateFails: bool, now: int) returns (reply: Reply)
      modifies s
      ensures Step(reply, s.Current()) == DownloadResult(old(s.Current()), token, pw, isDownloadable, updateFails, now)
    {
      var file := s.GetOne(token);
      if file.Err? {
        return file.error;
      }
      var verdict := isDownloadable(file.value, pw);
      if !verdict.0 {
        var message := MaxDownloadMessage;
        if verdict.1 == PasswordCause {
          message := WrongPasswordMessage;
        }
        return Error(ClientError, message);
      }
      var _, sent := s.SendToDownload(file.value, updateFails, now);
      reply := sent;
    }

    /** DeleteOne: look up, check the password, log, remove the blob, remove the rows. */
    method DeleteOne(token: string, pw: string, isPasswordCorrect: (File, string) -> bool,
                     listing: Listing, logFails: bool, removeFails: bool, storeFails: bool) returns (reply: Reply)
      modifies s
      ensures Step(reply, s.Current())
              == DeleteResult(old(s.Current()), token, pw, isPasswordCorrect, listing, logFails, removeFails, storeFails)
    {
      var found := s.GetOne(token);
      if found.Err? {
        return found.error;
      }
      var file := found.value;
      if !isPasswordCorrect(file, pw) {
        return Error(ClientError, WrongPasswordMessage);
      }
      var logged := CreateDeleteLog([file], listing, logFails);
      if logged.Panicked? {
        return Crash;
      }
      if logged.Failed? {
        return Error(ServerError, "");
      }
      s.logs := s.logs + [logged.log];
      var err := s.DeleteOneFile(file, removeFails);
      if err.Some? {
        return err.value;
      }
      var deleted := s.DeleteOne(token, storeFails);
      if deleted.Err? {
        return deleted.error;
      }
      reply := Success(file, file.fileName + DeletedSuffix);
    }
  }
}
