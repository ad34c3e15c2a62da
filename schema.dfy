/**
 * The file record of the metadata store (ent/schema/file.go): its fields,
 * the defaults a create query fills in, and the download-count update.
 */
module Schema {
  import opened Wrappers

  const Day: int := 86400

  /** How long a share lives: the expiry default is the creation time plus 7 days. */
  const ShareLifetime: int := 7 * Day

  /**
   * One shared file. `id` is the unique primary key; `token` is indexed but
   * not unique. Times are in seconds.
   */
  datatype File = File(
    id: string,
    token: string,
    fileSize: int,
    fileName: string,
    mime: string,
    password: Option<string>,
    maxDownloads: Option<int>,
    expiresAt: int,
    downloadCount: int,
    createdAt: int,
    updatedAt: int)

  /** The fields a create query sets explicitly; every other field takes its default. */
  datatype Draft = Draft(
    fileSize: int,
    fileName: string,
    mime: string,
    password: Option<string>,
    maxDownloads: Option<int>)

  /**
   * Saving a create query: the explicit fields come from the draft, `id` and
   * `token` from their default generators (passed in), the rest from the
   * schema's defaults at time `now`.
   */
  function Create(d: Draft, id: string, token: string, now: int): (f: File)
    ensures f.id == id && f.token == token
    ensures f.fileSize == d.fileSize && f.fileName == d.fileName && f.mime == d.mime
    ensures f.password == d.password && f.maxDownloads == d.maxDownloads
    ensures f.downloadCount == 0
    ensures f.expiresAt == now + ShareLifetime
    ensures f.createdAt == now && f.updatedAt == now
  {
    File(id, token, d.fileSize, d.fileName, d.mime, d.password, d.maxDownloads,
         now + ShareLifetime, 0, now, now)
  }

  /**
   * An update that adds `n` to the download counter at time `now`:
   * `updated_at` takes its update default, `created_at` is immutable and no
   * other field changes.
   */
  function AddDownloadCount(f: File, n: int, now: int): (g: File)
    ensures g.downloadCount == f.downloadCount + n && g.updatedAt == now
    ensures g.(downloadCount := f.downloadCount, updatedAt := f.updatedAt) == f
  {
    f.(downloadCount := f.downloadCount + n, updatedAt := now)
  }
}
