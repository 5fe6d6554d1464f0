/** The document upload page: a size gate of 25 MiB per file, one list entry
    per accepted file (in the `uploading` state, keyed by the clock reading),
    a record type and an icon read off the file's MIME type and name, the
    success and failure updates of one entry, retry, and delete. The random
    progress ticks are not modelled: an entry goes straight from uploading to
    the outcome of its upload. */
module UploadDocument {
  import opened Wrappers
  import opened Text
  import opened Keyed
  import Records = MedicalRecords

  const MaxBytes: nat := 25 * 1024 * 1024

  datatype File = File(name: string, size: nat, mime: string)

  datatype Status = Uploading | Succeeded | Failed

  datatype UploadedFile = UploadedFile(
    id: string,
    name: string,
    size: nat,
    mime: string,
    uploadDate: string,
    status: Status,
    progress: int,
    file: File)

  /** The size check of `handleFileSelect`. */
  predicate Fits(f: File) {
    f.size <= MaxBytes
  }

  lemma LimitIsInclusive()
    ensures MaxBytes == 26214400
    ensures Fits(File("a.pdf", 26214400, "application/pdf"))
    ensures !Fits(File("a.pdf", 26214401, "application/pdf"))
  {
  }

  function TooLarge(f: File): string {
    "File " + f.name + " is too large. Maximum size is 25MB."
  }

  /** The `record_type` sent with an upload. */
  function RecordType(mime: string): (r: string)
    ensures r == "Image" <==> StartsWith(mime, "image/")
    ensures r == "Image" || r == "Document"
  {
    if StartsWith(mime, "image/") then "Image" else "Document"
  }

  /** `fileName.split('.').pop().toLowerCase()`: the lower-cased text after
      the last point, or the whole name when it has none. */
  function Extension(name: string): (r: string)
    ensures '.' !in name ==> r == Lower(name)
    ensures '.' !in r && |r| <= |name|
  {
    var e := AfterLast(name, '.');
    if '.' !in name then
      AfterLastWithout(name, '.');
      Lower(e)
    else
      assert forall i :: 0 <= i < |e| ==> Lower(e)[i] != '.';
      Lower(e)
  }

  /** Without the separator the last piece is the whole text. */
  lemma AfterLastWithout(s: string, c: char)
    requires c !in s
    ensures AfterLast(s, c) == s
  {
  }

  const ImageExtensions: set<string> := {"jpg", "jpeg", "png", "gif", "heic"}

  /** `getFileIcon` picks the image icon. */
  predicate ImageIcon(name: string) {
    Extension(name) in ImageExtensions
  }

  /** The icon looks at the last extension only, in any letter case, and a
      bare name with no point counts as its own extension. */
  lemma IconExamples()
    ensures ImageIcon("scan.JPG")
    ensures !ImageIcon("scan.jpg.pdf")
    ensures ImageIcon("png")
    ensures !ImageIcon("report.pdf")
  {
    UpperCaseExtension();
    LastExtensionCounts();
    BareName();
    PdfIsNoImage();
  }

  lemma UpperCaseExtension()
    ensures ImageIcon("scan.JPG")
  {
    AfterLastOfJoin("scan", '.', "JPG");
    assert "scan.JPG" == "scan" + ['.'] + "JPG";
    assert Lower("JPG") == "jpg";
  }

  lemma LastExtensionCounts()
    ensures !ImageIcon("scan.jpg.pdf")
  {
    AfterLastOfJoin("scan.jpg", '.', "pdf");
    assert "scan.jpg.pdf" == "scan.jpg" + ['.'] + "pdf";
    assert Lower("pdf") == "pdf";
  }

  lemma BareName()
    ensures ImageIcon("png")
  {
    assert Lower("png") == "png";
  }

  lemma PdfIsNoImage()
    ensures !ImageIcon("report.pdf")
  {
    AfterLastOfJoin("report", '.', "pdf");
    assert "report.pdf" == "report" + ['.'] + "pdf";
    assert Lower("pdf") == "pdf";
  }

  /** The entry `simulateUpload` adds for a file at clock reading `now`. */
  function Entry(f: File, now: nat, date: string): (r: UploadedFile)
    ensures r.id == NatToString(now) && r.status == Uploading && r.progress == 0 && r.file == f
    ensures r.name == f.name && r.size == f.size && r.mime == f.mime
  {
    UploadedFile(NatToString(now), f.name, f.size, f.mime, date, Uploading, 0, f)
  }

  datatype Selection = Selection(files: seq<UploadedFile>, alerts: seq<string>)

  /** `handleFileSelect`: the files in order; one that is too large is
      alerted and skipped, any other gets an entry. `clocks[i]` is the clock
      reading when the i-th file is reached. */
  function Select(list: seq<UploadedFile>, files: seq<File>, clocks: seq<nat>, date: string): (r: Selection)
    requires |clocks| == |files|
    ensures |r.files| == |list| + Count(files, Fits)
    ensures |r.alerts| + Count(files, Fits) == |files|
    ensures list <= r.files
    ensures forall i :: |list| <= i < |r.files| ==> r.files[i].status == Uploading && Fits(r.files[i].file)
    decreases |files|
  {
    if |files| == 0 then Selection(list, [])
    else if !Fits(files[0]) then
      var rest := Select(list, files[1..], clocks[1..], date);
      Selection(rest.files, [TooLarge(files[0])] + rest.alerts)
    else
      Select(list + [Entry(files[0], clocks[0], date)], files[1..], clocks[1..], date)
  }

  /** Every file within the limit gets an entry, whatever else was selected
      with it. */
  lemma {:induction false} EveryFittingFileListed(list: seq<UploadedFile>, files: seq<File>, clocks: seq<nat>, date: string, k: nat)
    requires |clocks| == |files| && k < |files| && Fits(files[k])
    ensures Entry(files[k], clocks[k], date) in Select(list, files, clocks, date).files
    decreases |files|
  {
    if k == 0 {
      var next := list + [Entry(files[0], clocks[0], date)];
      assert next[|list|] == Entry(files[0], clocks[0], date);
      assert next <= Select(next, files[1..], clocks[1..], date).files;
    } else if !Fits(files[0]) {
      EveryFittingFileListed(list, files[1..], clocks[1..], date, k - 1);
    } else {
      EveryFittingFileListed(list + [Entry(files[0], clocks[0], date)], files[1..], clocks[1..], date, k - 1);
    }
  }

  /** The entries carrying `id` take the upload's outcome: success or
      failure, progress complete. */
  function Settle(list: seq<UploadedFile>, id: string, ok: bool): (r: seq<UploadedFile>)
    ensures |r| == |list|
    ensures forall i :: 0 <= i < |list| ==> r[i] == if list[i].id == id then list[i].(status := if ok then Succeeded else Failed, progress := 100) else list[i]
  {
    MapWhere(list, (f: UploadedFile) => f.id == id,
             (f: UploadedFile) => f.(status := if ok then Succeeded else Failed, progress := 100))
  }

  /** The first `handleFileUpload`: without a user it throws before any
      update, leaving the entry uploading; otherwise the outcome of storing
      the file and its record marks the entry and is passed on. */
  function FinishUpload(list: seq<UploadedFile>, user: Option<string>, id: string, upload: Completion): (r: (seq<UploadedFile>, Completion))
    ensures user.None? ==> r.0 == list && r.1 == Rejected(Records.Rows.NotAuthenticated)
    ensures user.Some? ==> r.1 == upload && r.0 == Settle(list, id, upload.Resolved?)
  {
    if user.None? then (list, Rejected(Records.Rows.NotAuthenticated))
    else (Settle(list, id, upload.Resolved?), upload)
  }

  /** Two files reached in the same millisecond share an id, so the outcome
      of either upload is shown on both. */
  lemma SameClockSharesOutcome(a: File, b: File, now: nat, date: string, ok: bool)
    requires Fits(a) && Fits(b)
    ensures var s := Select([], [a, b], [now, now], date).files;
      && |s| == 2 && s[0].id == s[1].id
      && Settle(s, s[0].id, ok)[1].status == (if ok then Succeeded else Failed)
  {
    assert [a, b][1..] == [b] && [now, now][1..] == [now];
    assert [b][1..] == [] && [now][1..] == [];
    assert Select([], [a, b], [now, now], date) == Select([Entry(a, now, date)], [b], [now], date);
    assert Select([Entry(a, now, date)], [b], [now], date) == Select([Entry(a, now, date), Entry(b, now, date)], [], [], date);
  }

  /** `handleRetryUpload`: an entry with the id is dropped, then its file
      goes through `simulateUpload` again with clock reading `now`; an
      unknown id does nothing. */
  function Retry(list: seq<UploadedFile>, id: string, now: nat, date: string): (r: seq<UploadedFile>)
    ensures Find(list, (f: UploadedFile) => f.id == id).None? ==> r == list
    ensures Find(list, (f: UploadedFile) => f.id == id).Some? ==>
      var f := Find(list, (f: UploadedFile) => f.id == id).value;
      && |r| > 0 && r[|r| - 1] == Entry(f.file, now, date)
      && r[..|r| - 1] == Filter(list, (g: UploadedFile) => g.id != id)
  {
    match Find(list, (f: UploadedFile) => f.id == id)
    case None => list
    case Some(f) => Filter(list, (g: UploadedFile) => g.id != id) + [Entry(f.file, now, date)]
  }

  /** After a retry under a new clock reading the failed entry is gone and
      a fresh uploading entry for the same file takes its place. */
  lemma RetryReplacesFailedEntry(list: seq<UploadedFile>, i: nat, now: nat, date: string)
    requires i < |list| && list[i].status == Failed
    requires forall j :: 0 <= j < |list| && j != i ==> list[j].id != list[i].id
    requires NatToString(now) != list[i].id
    ensures var r := Retry(list, list[i].id, now, date);
      && |r| == |list|
      && (forall j :: 0 <= j < |r| ==> r[j].id != list[i].id)
      && r[|r| - 1].file == list[i].file && r[|r| - 1].status == Uploading
  {
    var id := list[i].id;
    var found := Find(list, (f: UploadedFile) => f.id == id);
    assert found.Some? by { assert list[i].id == id; }
    var k :| 0 <= k < |list| && list[k] == found.value;
    assert k == i;
    FilterDropsOnly(list, i, (g: UploadedFile) => g.id != id);
  }

  datatype Page = Page(files: seq<UploadedFile>, records: Records.HookState, alert: Option<string>)

  const DeleteFailed := "Failed to delete record. Please try again."

  /** `handleDeleteFile`: a stored record goes through the records hook and
      a failure is alerted; an entry of this session is only filtered out of
      the local list. */
  function DeleteFile(p: Page, id: string, existing: bool, fault: Option<string>): (r: Page)
    ensures existing ==> r.files == p.files
    ensures existing ==> r.records == Records.DeleteMedicalRecord(p.records, id, fault).state
    ensures existing && fault.Some? ==> r.alert == Some(DeleteFailed)
    ensures existing && fault.None? ==> r.alert == p.alert
    ensures !existing ==> r.records == p.records && r.alert == p.alert
    ensures !existing ==> r.files == Filter(p.files, (f: UploadedFile) => f.id != id)
  {
    if existing then
      var e := Records.DeleteMedicalRecord(p.records, id, fault);
      p.(records := e.state, alert := if e.result.Err? then Some(DeleteFailed) else p.alert)
    else p.(files := Filter(p.files, (f: UploadedFile) => f.id != id))
  }

  /** Deleting a local entry never reaches the store: the stored records are
      the same whatever the store would have answered. */
  lemma LocalDeleteLeavesRecords(p: Page, id: string, f1: Option<string>, f2: Option<string>)
    ensures DeleteFile(p, id, false, f1) == DeleteFile(p, id, false, f2)
    ensures DeleteFile(p, id, false, f1).records == p.records
  {
  }
}
