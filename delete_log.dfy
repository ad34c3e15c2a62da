/**
 * The deletion log (internal/lib/filelib/file.delete.lib.go): directory
 * listings become FileInfo rows, and for each record being deleted the first
 * row of its tier whose name equals the record's file name is logged.
 */
module DeleteLog {
  import opened Wrappers
  import opened Config
  import opened FileLib
  import opened Schema

  /** What a successful DirEntry.Info() gives: the modification time and the size, both already formatted. */
  datatype EntryInfo = EntryInfo(modTime: string, sizeText: string)

  /** A directory entry; `info` is None when Info() fails. */
  datatype DirEntry = DirEntry(name: string, isDir: bool, info: Option<EntryInfo>)

  /** One row of a deletion log. */
  datatype FileInfo = FileInfo(name: string, types: string, extension: string, lastModified: string, size: string)

  /** A written deletion log: rows found in the large tier and in the small tier. */
  datatype Log = Log(large: seq<FileInfo>, small: seq<FileInfo>)

  /** The two tier listings, or the failure to create or read the tier directories. */
  datatype Listing = ReadFailed | Listed(large: seq<DirEntry>, small: seq<DirEntry>)

  /** Outcome of CreateDeleteLog; Panicked is a runtime panic of the Go code. */
  datatype LogOutcome = Written(log: Log) | Failed | Panicked

  // ---------------------------------------------------------------------
  // Listing rows
  // ---------------------------------------------------------------------

  function GetType(e: DirEntry): (t: string)
    ensures t == "directory" <==> e.isDir
    ensures t == "directory" || t == "file"
  {
    if e.isDir then "directory" else "file"
  }

  /** The row of one entry. Its name must contain '.', or taking the extension panics. */
  function InfoOf(e: DirEntry): (row: FileInfo)
    requires '.' in e.name
    ensures row.name == e.name && row.types == GetType(e) && row.extension == GetExtension(e.name)
    ensures row.lastModified == "" <==> e.info.None? || e.info.value.modTime == ""
    ensures e.info.Some? ==> row.lastModified == e.info.value.modTime
    ensures e.info.None? || e.isDir ==> row.size == ""
    ensures e.info.Some? && !e.isDir ==> row.size == e.info.value.sizeText
  {
    var lastModified := if e.info.Some? then e.info.value.modTime else "";
    var size := if e.info.Some? && !e.isDir then e.info.value.sizeText else "";
    FileInfo(e.name, GetType(e), GetExtension(e.name), lastModified, size)
  }

  predicate AllDotted(entries: seq<DirEntry>) {
    forall i :: 0 <= i < |entries| ==> '.' in entries[i].name
  }

  /** The rows of a listing, one per entry, in listing order. */
  function InfoRows(entries: seq<DirEntry>): (rows: seq<FileInfo>)
    requires AllDotted(entries)
    ensures |rows| == |entries|
    ensures forall i :: 0 <= i < |entries| ==> rows[i] == InfoOf(entries[i])
  {
    seq(|entries|, i requires 0 <= i < |entries| => InfoOf(entries[i]))
  }

  /**
   * CreateFileInfo: one row per entry, in order; None stands for the panic
   * raised at the first entry whose name has no '.'.
   */
  method CreateFileInfo(entries: seq<DirEntry>) returns (result: Option<seq<FileInfo>>)
    ensures result.None? <==> exists i :: 0 <= i < |entries| && '.' !in entries[i].name
    ensures result.Some? ==> AllDotted(entries) && result.value == InfoRows(entries)
  {
    var rows: seq<FileInfo> := [];
    for k := 0 to |entries|
      invariant |rows| == k
      invariant forall i :: 0 <= i < k ==> '.' in entries[i].name && rows[i] == InfoOf(entries[i])
    {
      var e := entries[k];
      if '.' !in e.name {
        return None;
      }
      var lastModified, size := "", "";
      if e.info.Some? {
        lastModified := e.info.value.modTime;
        if !e.isDir {
          size := e.info.value.sizeText;
        }
      }
      rows := rows + [FileInfo(e.name, GetType(e), GetExtension(e.name), lastModified, size)];
    }
    result := Some(rows);
  }

  // ---------------------------------------------------------------------
  // Selecting the rows to log
  // ---------------------------------------------------------------------

  /** The first row named `name` (the inner loop with its break). */
  function FirstNamed(rows: seq<FileInfo>, name: string): (r: Option<FileInfo>)
    ensures r.None? <==> forall i :: 0 <= i < |rows| ==> rows[i].name != name
    ensures r.Some? ==> exists k :: 0 <= k < |rows| && rows[k] == r.value && r.value.name == name &&
                                    forall j :: 0 <= j < k ==> rows[j].name != name
  {
    if |rows| == 0 then None
    else if rows[0].name == name then Some(rows[0])
    else
      var r := FirstNamed(rows[1..], name);
      assert forall i :: 1 <= i < |rows| ==> rows[i] == rows[1..][i - 1];
      r
  }

  /** A record belongs to the large tier iff its size maps to the large tier directory. */
  predicate InLargeTier(f: File) {
    GetPathBySize(f.fileSize) == LargePath
  }

  /** What one record adds to the bucket of tier `large`: nothing, or its first matching row. */
  function PickFor(f: File, rows: seq<FileInfo>, large: bool): (picked: seq<FileInfo>)
    ensures |picked| <= 1
    ensures picked == [] <==> InLargeTier(f) != large || forall i :: 0 <= i < |rows| ==> rows[i].name != f.fileName
    ensures picked != [] ==> FirstNamed(rows, f.fileName) == Some(picked[0])
  {
    if InLargeTier(f) != large then []
    else match FirstNamed(rows, f.fileName)
      case None => []
      case Some(r) => [r]
  }

  /** The bucket of tier `large` built from the records in order (the outer loop). */
  function Selected(files: seq<File>, rows: seq<FileInfo>, large: bool): (bucket: seq<FileInfo>)
    ensures |bucket| <= |files|
    ensures forall x :: x in bucket ==> x in rows
  {
    if |files| == 0 then []
    else Selected(files[..|files| - 1], rows, large) + PickFor(files[|files| - 1], rows, large)
  }

  /** The inner loop of CreateDeleteLog: scan the rows and stop at the first one named `name`. */
  method FindFirstNamed(rows: seq<FileInfo>, name: string) returns (r: Option<FileInfo>)
    ensures r == FirstNamed(rows, name)
  {
    r := None;
    var j := 0;
    while j < |rows|
      invariant j <= |rows|
      invariant forall i :: 0 <= i < j ==> rows[i].name != name
    {
      if rows[j].name == name {
        r := Some(rows[j]);
        break;
      }
      j := j + 1;
    }
  }

  /**
   * The outer loop of CreateDeleteLog: large-tier records are looked up in
   * the large listing only, all other records in the small listing only.
   */
  method SelectRows(files: seq<File>, largeRows: seq<FileInfo>, smallRows: seq<FileInfo>)
    returns (li: seq<FileInfo>, si: seq<FileInfo>)
    ensures li == Selected(files, largeRows, true)
    ensures si == Selected(files, smallRows, false)
  {
    li, si := [], [];
    for k := 0 to |files|
      invariant li == Selected(files[..k], largeRows, true)
      invariant si == Selected(files[..k], smallRows, false)
    {
      var file := files[k];
      SelectedStep(files, k, largeRows, true);
      SelectedStep(files, k, smallRows, false);
      if GetPathBySize(file.fileSize) == LargePath {
        var found := FindFirstNamed(largeRows, file.fileName);
        if found.Some? {
          li := li + [found.value];
        }
      } else {
        var found := FindFirstNamed(smallRows, file.fileName);
        if found.Some? {
          si := si + [found.value];
        }
      }
    }
    assert files[..|files|] == files;
  }

  /** Extending the prefix by one record appends that record's pick to the bucket. */
  lemma SelectedStep(files: seq<File>, k: int, rows: seq<FileInfo>, large: bool)
    requires 0 <= k < |files|
    ensures Selected(files[..k + 1], rows, large) == Selected(files[..k], rows, large) + PickFor(files[k], rows, large)
  {
    assert files[..k + 1][..k] == files[..k];
  }

  /** Each record adds at most one row to one of the two buckets. */
  lemma {:induction false} SelectedAtMostOnePerRecord(files: seq<File>, largeRows: seq<FileInfo>, smallRows: seq<FileInfo>)
    ensures |Selected(files, largeRows, true)| + |Selected(files, smallRows, false)| <= |files|
  {
    if |files| > 0 {
      SelectedAtMostOnePerRecord(files[..|files| - 1], largeRows, smallRows);
    }
  }

  /**
   * Every logged row comes from the listing of its bucket and carries the
   * file name of a record of that bucket's tier.
   */
  lemma {:induction false} SelectedRowsMatch(files: seq<File>, rows: seq<FileInfo>, large: bool)
    ensures forall x :: x in Selected(files, rows, large) ==>
              x in rows && exists f :: f in files && InLargeTier(f) == large && f.fileName == x.name
  {
    if |files| > 0 {
      var init, last := files[..|files| - 1], files[|files| - 1];
      SelectedRowsMatch(init, rows, large);
      forall x | x in Selected(files, rows, large)
        ensures x in rows && exists f :: f in files && InLargeTier(f) == large && f.fileName == x.name
      {
        if x in Selected(init, rows, large) {
          var f :| f in init && InLargeTier(f) == large && f.fileName == x.name;
          assert f in files;
        } else {
          assert x in PickFor(last, rows, large);
          assert last in files;
        }
      }
    }
  }

  /** The buckets follow record order: the rows of a concatenation are the concatenated rows. */
  lemma {:induction false} SelectedAppend(a: seq<File>, b: seq<File>, rows: seq<FileInfo>, large: bool)
    ensures Selected(a + b, rows, large) == Selected(a, rows, large) + Selected(b, rows, large)
    decreases |b|
  {
    if |b| > 0 {
      var b' := b[..|b| - 1];
      assert (a + b)[..|a + b| - 1] == a + b';
      SelectedAppend(a, b', rows, large);
    } else {
      assert a + b == a;
    }
  }

  /**
   * Rows are matched on the uploaded file name, while blobs are stored as
   * id + extension: a record whose upload name differs from its stored
   * name gets no row from a listing that holds only its stored blob.
   */
  lemma StoredBlobNotLogged(f: File, listing: seq<DirEntry>, large: bool)
    requires '.' in f.fileName
    requires f.fileName != f.id + GetExtension(f.fileName)
    requires forall i :: 0 <= i < |listing| ==> listing[i].name == f.id + GetExtension(f.fileName)
    ensures AllDotted(listing)
    ensures Selected([f], InfoRows(listing), large) == []
  {
    var ext := GetExtension(f.fileName);
    forall i | 0 <= i < |listing| ensures '.' in listing[i].name {
      assert (f.id + ext)[|f.id|] == '.';
    }
    assert [f][..0] == [];
  }

  // ---------------------------------------------------------------------
  // The whole operation
  // ---------------------------------------------------------------------

  /**
   * The outcome of CreateDeleteLog: a read failure or a failure to create the
   * log file is an error, a dotless entry name in either listing panics, and
   * otherwise the log holds the rows selected for `files` from each tier.
   */
  function DeleteLogOf(files: seq<File>, listing: Listing, createFails: bool): (r: LogOutcome)
    ensures listing.ReadFailed? ==> r == Failed
    ensures r.Panicked? <==> listing.Listed? && (!AllDotted(listing.large) || !AllDotted(listing.small))
    ensures r.Written? ==> !createFails && |r.log.large| + |r.log.small| <= |files|
    ensures listing.Listed? && AllDotted(listing.large) && AllDotted(listing.small) && !createFails ==>
              r == Written(Log(Selected(files, InfoRows(listing.large), true), Selected(files, InfoRows(listing.small), false)))
  {
    match listing
    case ReadFailed => Failed
    case Listed(large, small) =>
      if !AllDotted(large) || !AllDotted(small) then Panicked
      else if createFails then Failed
      else
        var log := Log(Selected(files, InfoRows(large), true), Selected(files, InfoRows(small), false));
        SelectedAtMostOnePerRecord(files, InfoRows(large), InfoRows(small));
        Written(log)
  }

  /** CreateDeleteLog: read both tiers, turn each listing into rows, select the rows of `files`, write the log. */
  method CreateDeleteLog(files: seq<File>, listing: Listing, createFails: bool) returns (r: LogOutcome)
    ensures r == DeleteLogOf(files, listing, createFails)
  {
    if listing.ReadFailed? {
      return Failed;
    }
    var ali := CreateFileInfo(listing.large);
    if ali.None? {
      return Panicked;
    }
    var asi := CreateFileInfo(listing.small);
    if asi.None? {
      return Panicked;
    }
    var li, si := SelectRows(files, ali.value, asi.value);
    if createFails {
      return Failed;
    }
    r := Written(Log(li, si));
  }
}
