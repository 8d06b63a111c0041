/**
 * The batch conversion pipeline of cmd/main.go as functions on values. The
 * file system and the Sheets service are records; processing one directory
 * entry is a step from one world to the next, and processFiles is the fold of
 * that step over the listing, cut short by cancellation.
 */
module BatchSpec {
  import opened Prelude
  import opened Hex
  import opened Paths
  import Base64

  /** Where converted files go (cmd/main.go:21-26). */
  datatype ExportOption = LocalFolder | GoogleSheets

  /** One entry of the source directory listing: its name and whether it is a directory. */
  datatype Entry = Entry(name: string, isDir: bool)

  /** The per-entry errors the loop reports and moves past. */
  datatype Error =
    | ReadFailed(path: Path)
    | Malformed(cause: HexError)
    | WriteFailed(path: Path)
    | ApiKeyCannotCreate
    | CreateFailed
    | AppendFailed

  /** The messages processFiles prints, as records. */
  datatype Report =
    | Converted(name: string)
    | Skipped(name: string)
    | Failed(name: string, error: Error)
    | ListingFailed
    | Interrupted

  /** One call to the Sheets API together with its reply. */
  datatype Call =
    | Create(title: string, reply: Option<string>)
    | Append(spreadsheetId: string, range: string, row: seq<string>, inputOption: string, ok: bool)

  /**
   * The file system as the program sees it: regular files and their bytes,
   * the other paths that exist (directories: Stat finds them, writing a file
   * there fails), the paths read so far, and the paths on which the operating
   * system fails: reads, writes, or Stat with an error other than not-exist
   * (fileExists reports those paths as existing).
   */
  datatype Disk = Disk(
    files: map<Path, seq<byte>>,
    dirs: set<Path>,
    readLog: seq<Path>,
    unreadable: set<Path>,
    unwritable: set<Path>,
    unstatable: set<Path>)

  /**
   * The spreadsheet side: GoogleConfig's spreadsheetId and useApiKey, the
   * service's replies still to come (an exhausted script means a failed
   * call), and the log of calls made.
   */
  datatype Remote = Remote(
    spreadsheetId: string,
    useApiKey: bool,
    createReplies: seq<Option<string>>,
    appendReplies: seq<bool>,
    calls: seq<Call>)

  datatype World = World(disk: Disk, remote: Remote)

  /** The values processFiles receives besides the listing. */
  datatype Settings = Settings(srcFolder: Path, dstFolder: Path, option: ExportOption)

  const Title: string := "Hex to ASCII Conversion"
  const SheetRange: string := "Sheet1!A1"
  const RawInput: string := "RAW"

  // ---------------------------------------------------------------------------
  // The collaborators: file system and Sheets service
  // ---------------------------------------------------------------------------

  /** fileExists (cmd/main.go:251-254): Stat finds the path or fails with another error than not-exist. */
  predicate FileExists(d: Disk, p: Path): (found: bool)
    ensures p in d.files || p in d.dirs ==> found
    ensures p in d.unstatable ==> found
    ensures p !in d.files && p !in d.dirs && p !in d.unstatable ==> !found
  {
    p in d.files || p in d.dirs || p in d.unstatable
  }

  /** A file can be written at p: the path is not a directory and the write does not fail. */
  predicate Writable(d: Disk, p: Path) {
    p !in d.dirs && p !in d.unwritable
  }

  /** ioutil.ReadFile: the bytes of a readable regular file; the read is logged either way. */
  function ReadFile(d: Disk, p: Path): (Disk, Result<seq<byte>, Error>) {
    var d' := d.(readLog := d.readLog + [p]);
    if p in d.files && p !in d.unreadable then (d', Ok(d.files[p])) else (d', Err(ReadFailed(p)))
  }

  /** ioutil.WriteFile: the file at p created or replaced, unless p is a directory or the write fails. */
  function WriteFile(d: Disk, p: Path, data: seq<byte>): (Disk, Option<Error>) {
    if !Writable(d, p) then (d, Some(WriteFailed(p))) else (d.(files := d.files[p := data]), None)
  }

  /** Spreadsheets.Create: the next scripted reply, logged. */
  function CreateSpreadsheet(rm: Remote): (Remote, Option<string>) {
    var reply := if rm.createReplies == [] then None else rm.createReplies[0];
    var rest := if rm.createReplies == [] then [] else rm.createReplies[1..];
    (rm.(createReplies := rest, calls := rm.calls + [Create(Title, reply)]), reply)
  }

  /** Spreadsheets.Values.Append of one row to the bound spreadsheet: the next scripted reply, logged. */
  function AppendRow(rm: Remote, row: seq<string>): (Remote, bool) {
    var ok := rm.appendReplies != [] && rm.appendReplies[0];
    var rest := if rm.appendReplies == [] then [] else rm.appendReplies[1..];
    (rm.(appendReplies := rest, calls := rm.calls + [Append(rm.spreadsheetId, SheetRange, row, RawInput, ok)]), ok)
  }

  /** The bytes an entry decodes to, or why it does not: the read and the decode, without the logging. */
  function Load(d: Disk, p: Path): Result<seq<byte>, Error> {
    if p !in d.files || p in d.unreadable then Err(ReadFailed(p))
    else match HexToAscii(d.files[p])
      case Ok(ascii) => Ok(ascii)
      case Err(e) => Err(Malformed(e))
  }

  // ---------------------------------------------------------------------------
  // The two sinks
  // ---------------------------------------------------------------------------

  /**
   * convertFile (cmd/main.go:270-282): read, decode, write. A read or decode
   * error returns before WriteFile, so no file is created or changed; on
   * success exactly the destination holds the decoded bytes.
   */
  function ConvertFile(d: Disk, srcPath: Path, dstPath: Path): (r: (Disk, Option<Error>))
    ensures r.0.readLog == d.readLog + [srcPath]
    ensures r.0.dirs == d.dirs && r.0.unreadable == d.unreadable && r.0.unwritable == d.unwritable
    ensures r.0.unstatable == d.unstatable
    ensures Load(d, srcPath).Err? ==> r.1 == Some(Load(d, srcPath).error) && r.0.files == d.files
    ensures Load(d, srcPath).Ok? && !Writable(d, dstPath) ==> r.1 == Some(WriteFailed(dstPath)) && r.0.files == d.files
    ensures Load(d, srcPath).Ok? && Writable(d, dstPath) ==>
      r.1 == None && r.0.files == d.files[dstPath := Load(d, srcPath).value]
  {
    var (d1, read) := ReadFile(d, srcPath);
    match read
    case Err(e) => (d1, Some(e))
    case Ok(hexData) =>
      match HexToAscii(hexData)
      case Err(e) => (d1, Some(Malformed(e)))
      case Ok(ascii) => WriteFile(d1, dstPath, ascii)
  }

  /**
   * The spreadsheet half of exportToGoogleSheets (cmd/main.go:213-248), for a
   * decoded row: no spreadsheet may be created with an API key; with no id
   * bound, one is created and its id kept; then the row is appended to the
   * bound spreadsheet.
   */
  function SendRow(rm: Remote, row: seq<string>): (r: (Remote, Option<Error>))
    ensures r.0.useApiKey == rm.useApiKey
    ensures rm.spreadsheetId == "" && rm.useApiKey ==> r == (rm, Some(ApiKeyCannotCreate))
    ensures rm.spreadsheetId != "" ==> r.0.spreadsheetId == rm.spreadsheetId
    ensures r.1 == None ==> (|r.0.calls| > 0 &&
      r.0.calls[|r.0.calls| - 1] == Append(r.0.spreadsheetId, SheetRange, row, RawInput, true))
  {
    if rm.spreadsheetId == "" && rm.useApiKey then (rm, Some(ApiKeyCannotCreate))
    else
      var (rm1, created) := if rm.spreadsheetId == "" then CreateSpreadsheet(rm) else (rm, None);
      if rm.spreadsheetId == "" && created.None? then (rm1, Some(CreateFailed))
      else
        var rm2 := if created.Some? then rm1.(spreadsheetId := created.value) else rm1;
        var (rm3, ok) := AppendRow(rm2, row);
        (rm3, if ok then None else Some(AppendFailed))
  }

  /**
   * exportToGoogleSheets (cmd/main.go:202-249): read and decode first, and only
   * then touch the spreadsheet; the row sent is [file name, Base64 of the
   * decoded bytes]. No local file is written.
   */
  function Export(w: World, srcPath: Path, fileName: string): (r: (World, Option<Error>))
    ensures r.0.disk == w.disk.(readLog := w.disk.readLog + [srcPath])
    ensures Load(w.disk, srcPath).Err? ==> r.0.remote == w.remote && r.1 == Some(Load(w.disk, srcPath).error)
    ensures Load(w.disk, srcPath).Ok? ==>
      (r.0.remote, r.1) == SendRow(w.remote, [fileName, Base64.EncodeToString(Load(w.disk, srcPath).value)])
  {
    var (d1, read) := ReadFile(w.disk, srcPath);
    var w1 := w.(disk := d1);
    match read
    case Err(e) => (w1, Some(e))
    case Ok(hexData) =>
      match HexToAscii(hexData)
      case Err(e) => (w1, Some(Malformed(e)))
      case Ok(ascii) =>
        var (rm, err) := SendRow(w.remote, [fileName, Base64.EncodeToString(ascii)]);
        (w1.(remote := rm), err)
  }

  // ---------------------------------------------------------------------------
  // The loop of processFiles
  // ---------------------------------------------------------------------------

  /** The report for a converted or failed entry. */
  function Outcome(name: string, err: Option<Error>): Report {
    if err.Some? then Failed(name, err.value) else Converted(name)
  }

  /**
   * The local-folder branch of the loop body (cmd/main.go:181-190, 198) for a
   * regular entry: an existing destination is skipped without reading the
   * source; otherwise the entry is converted, and a failure changes no file.
   */
  function LocalStep(w: World, name: string, s: Settings): (r: (World, Report))
    ensures r.0.remote == w.remote
    ensures (r.1.Converted? || r.1.Skipped? || r.1.Failed?) && r.1.name == name
    ensures var dst := DestPath(s.dstFolder, name);
      && (r.1.Skipped? <==> FileExists(w.disk, dst))
      && (r.1.Skipped? ==> r.0 == w)
    ensures var src, dst := Join(s.srcFolder, name), DestPath(s.dstFolder, name);
      && (r.1.Converted? <==> !FileExists(w.disk, dst) && Load(w.disk, src).Ok? && Writable(w.disk, dst))
      && (r.1.Converted? ==> r.0.disk.files == w.disk.files[dst := Load(w.disk, src).value])
      && (!r.1.Converted? ==> r.0.disk.files == w.disk.files)
    ensures !r.1.Skipped? ==>
      r.0.disk == w.disk.(files := r.0.disk.files, readLog := w.disk.readLog + [Join(s.srcFolder, name)])
  {
    var dstPath := DestPath(s.dstFolder, name);
    if FileExists(w.disk, dstPath) then (w, Skipped(name))
    else
      var (d, err) := ConvertFile(w.disk, Join(s.srcFolder, name), dstPath);
      (w.(disk := d), Outcome(name, err))
  }

  /** The spreadsheet branch of the loop body (cmd/main.go:191-198): no existence check. */
  function SheetsStep(w: World, name: string, s: Settings): (r: (World, Report))
    ensures (r.1.Converted? || r.1.Failed?) && r.1.name == name
    ensures (r.0, if r.1.Converted? then None else Some(r.1.error)) == Export(w, Join(s.srcFolder, name), name)
  {
    var (w', err) := Export(w, Join(s.srcFolder, name), name);
    (w', Outcome(name, err))
  }

  /** One pass of the loop body (cmd/main.go:174-198), after the cancellation check. */
  function Step(w: World, e: Entry, s: Settings): (r: (World, seq<Report>))
    ensures e.isDir ==> r == (w, [])
    ensures !e.isDir ==> (|r.1| == 1 &&
      (r.1[0].Converted? || r.1[0].Skipped? || r.1[0].Failed?) && r.1[0].name == e.name)
  {
    if e.isDir then (w, [])
    else
      var (w', report) := match s.option
        case LocalFolder => LocalStep(w, e.name, s)
        case GoogleSheets => SheetsStep(w, e.name, s);
      (w', [report])
  }

  /** The loop run over the given entries, none of them cancelled. */
  function Run(w: World, es: seq<Entry>, s: Settings): (r: (World, seq<Report>))
    ensures |r.1| <= |es|
    decreases |es|
  {
    if es == [] then (w, [])
    else
      var (w1, r1) := Run(w, es[..|es| - 1], s);
      var (w2, r2) := Step(w1, es[|es| - 1], s);
      (w2, r1 + r2)
  }

  /** The run over one more entry of the listing is one more step. */
  lemma RunOneMore(w: World, es: seq<Entry>, i: nat, s: Settings)
    requires i < |es|
    ensures var (w1, r1) := Run(w, es[..i], s);
      Run(w, es[..i + 1], s) == (Step(w1, es[i], s).0, r1 + Step(w1, es[i], s).1)
  {
    assert es[..i + 1][..i] == es[..i];
  }

  /**
   * processFiles (cmd/main.go:159-200). A listing that cannot be read ends the
   * run at once. Cancellation is observed at the head of iteration cancelAt
   * (the context's Done channel stays closed once closed), so exactly the
   * entries before it are processed.
   */
  function ProcessFiles(w: World, listing: Option<seq<Entry>>, s: Settings, cancelAt: nat): (r: (World, seq<Report>))
    ensures listing.None? ==> r == (w, [ListingFailed])
    ensures listing.Some? && cancelAt < |listing.value| ==>
      1 <= |r.1| <= cancelAt + 1 && r.1[|r.1| - 1] == Interrupted
    ensures listing.Some? ==> |r.1| <= |listing.value| + 1
  {
    match listing
    case None => (w, [ListingFailed])
    case Some(es) =>
      if cancelAt < |es| then
        var (w1, r) := Run(w, es[..cancelAt], s);
        (w1, r + [Interrupted])
      else Run(w, es, s)
  }

  // ---------------------------------------------------------------------------
  // Properties of one step
  // ---------------------------------------------------------------------------

  /** Directory entries are passed over: nothing is read, written, sent or reported. */
  lemma DirectoryIsPassedOver(w: World, e: Entry, s: Settings)
    requires e.isDir
    ensures Step(w, e, s) == (w, [])
  {
  }

  /**
   * In local mode an entry whose destination exists is skipped: the source is
   * not read and nothing changes.
   */
  lemma ExistingDestinationIsSkipped(w: World, e: Entry, s: Settings)
    requires s.option == LocalFolder && !e.isDir
    requires FileExists(w.disk, DestPath(s.dstFolder, e.name))
    ensures Step(w, e, s) == (w, [Skipped(e.name)])
  {
  }

  /**
   * A source that does not decode is reported before any spreadsheet check:
   * even with no id and an API key, it fails as malformed and no call is made.
   */
  lemma DecodeFailureComesFirst(w: World, e: Entry, s: Settings)
    requires s.option == GoogleSheets && !e.isDir
    requires Load(w.disk, Join(s.srcFolder, e.name)).Err?
    ensures Step(w, e, s).0.remote == w.remote
    ensures Step(w, e, s).1 == [Failed(e.name, Load(w.disk, Join(s.srcFolder, e.name)).error)]
  {
  }
}
