/**
 * processFiles, convertFile and exportToGoogleSheets as the program writes
 * them: statements that change a file system, a Sheets service and the
 * GoogleConfig whose spreadsheet id is filled in on first use. Each method is
 * proved to have exactly the effect of its BatchSpec counterpart: ConvertFile,
 * SendRow and ProcessFiles match the functions of the same name,
 * ExportToGoogleSheets matches Export, HandleFile and ProcessEntry match Step,
 * and the collaborators' Exists, Create and Append have the effects that
 * FileExists, CreateSpreadsheet and AppendRow describe. So the properties
 * proved in BatchRuns and SheetsProtocol hold of the methods.
 */
module Batch {
  import opened Prelude
  import opened Hex
  import opened Paths
  import opened BatchSpec

  /**
   * The operating system's file system: the regular files and their bytes,
   * the directories, the paths on which reads, writes or Stat fail, and (for
   * the proofs) the paths read so far.
   */
  class FileStore {
    var files: map<Path, seq<byte>>
    const dirs: set<Path>
    ghost var readLog: seq<Path>
    const unreadable: set<Path>
    const unwritable: set<Path>
    const unstatable: set<Path>

    constructor (files: map<Path, seq<byte>>, dirs: set<Path>, unreadable: set<Path>, unwritable: set<Path>,
                 unstatable: set<Path>)
      ensures Disk() == BatchSpec.Disk(files, dirs, [], unreadable, unwritable, unstatable)
    {
      this.files := files;
      this.dirs := dirs;
      this.readLog := [];
      this.unreadable := unreadable;
      this.unwritable := unwritable;
      this.unstatable := unstatable;
    }

    /** The file system as a value. */
    ghost function Disk(): BatchSpec.Disk
      reads this
    {
      BatchSpec.Disk(files, dirs, readLog, unreadable, unwritable, unstatable)
    }

    /** fileExists (cmd/main.go:251-254): false only when Stat says the path does not exist. */
    method Exists(p: Path) returns (found: bool)
      ensures found <==> p in files || p in dirs || p in unstatable
      ensures found == FileExists(Disk(), p)
    {
      found := p in files || p in dirs || p in unstatable;
    }

    /** ioutil.ReadFile. */
    method ReadFile(p: Path) returns (r: Result<seq<byte>, Error>)
      modifies this`readLog
      ensures (Disk(), r) == BatchSpec.ReadFile(old(Disk()), p)
      ensures r.Ok? <==> p in files && p !in unreadable
      ensures r.Ok? ==> r.value == files[p]
    {
      readLog := readLog + [p];
      if p in files && p !in unreadable {
        r := Ok(files[p]);
      } else {
        r := Err(ReadFailed(p));
      }
    }

    /** ioutil.WriteFile: creates or replaces the file at p; fails on a directory. */
    method WriteFile(p: Path, data: seq<byte>) returns (err: Option<Error>)
      modifies this`files
      ensures (Disk(), err) == BatchSpec.WriteFile(old(Disk()), p, data)
      ensures err.None? <==> p !in dirs && p !in unwritable
      ensures err.None? ==> files == old(files)[p := data]
      ensures err.Some? ==> files == old(files)
    {
      if p in dirs || p in unwritable {
        err := Some(WriteFailed(p));
      } else {
        files := files[p := data];
        err := None;
      }
    }
  }

  /**
   * The Sheets service: the replies it will give, in order (a call after the
   * last scripted reply fails), and (for the proofs) the calls it received.
   */
  class SheetsService {
    var createReplies: seq<Option<string>>
    var appendReplies: seq<bool>
    ghost var calls: seq<Call>

    constructor (createReplies: seq<Option<string>>, appendReplies: seq<bool>)
      ensures this.createReplies == createReplies && this.appendReplies == appendReplies && calls == []
    {
      this.createReplies := createReplies;
      this.appendReplies := appendReplies;
      this.calls := [];
    }

    /** Spreadsheets.Create of a spreadsheet with the given title: the new id, or None when the call fails. */
    method Create(title: string) returns (reply: Option<string>)
      modifies this
      ensures reply == (if old(createReplies) == [] then None else old(createReplies)[0])
      ensures createReplies == (if old(createReplies) == [] then [] else old(createReplies)[1..])
      ensures appendReplies == old(appendReplies)
      ensures calls == old(calls) + [BatchSpec.Create(title, reply)]
    {
      if createReplies == [] {
        reply := None;
      } else {
        reply := createReplies[0];
        createReplies := createReplies[1..];
      }
      calls := calls + [BatchSpec.Create(title, reply)];
    }

    /** Spreadsheets.Values.Append of rows to a range with a value input option: whether it succeeded. */
    method Append(spreadsheetId: string, range: string, row: seq<string>, inputOption: string) returns (ok: bool)
      modifies this
      ensures ok == (old(appendReplies) != [] && old(appendReplies)[0])
      ensures appendReplies == (if old(appendReplies) == [] then [] else old(appendReplies)[1..])
      ensures createReplies == old(createReplies)
      ensures calls == old(calls) + [BatchSpec.Append(spreadsheetId, range, row, inputOption, ok)]
    {
      if appendReplies == [] {
        ok := false;
      } else {
        ok := appendReplies[0];
        appendReplies := appendReplies[1..];
      }
      calls := calls + [BatchSpec.Append(spreadsheetId, range, row, inputOption, ok)];
    }
  }

  /** GoogleConfig (cmd/main.go:28-33): the service, the spreadsheet id (empty until bound) and the credential kind. */
  class GoogleConfig {
    const sheetsService: SheetsService
    var spreadsheetId: string
    const useApiKey: bool

    constructor (sheetsService: SheetsService, spreadsheetId: string, useApiKey: bool)
      ensures this.sheetsService == sheetsService && this.spreadsheetId == spreadsheetId && this.useApiKey == useApiKey
    {
      this.sheetsService := sheetsService;
      this.spreadsheetId := spreadsheetId;
      this.useApiKey := useApiKey;
    }

    /** The spreadsheet side as a value. */
    ghost function Remote(): BatchSpec.Remote
      reads this, sheetsService
    {
      BatchSpec.Remote(spreadsheetId, useApiKey, sheetsService.createReplies, sheetsService.appendReplies, sheetsService.calls)
    }
  }

  /** Everything the batch reads and changes, as a value. */
  ghost function WorldOf(fs: FileStore, config: GoogleConfig): World
    reads fs, config, config.sheetsService
  {
    World(fs.Disk(), config.Remote())
  }

  /** convertFile (cmd/main.go:270-282). */
  method ConvertFile(fs: FileStore, srcPath: Path, dstPath: Path) returns (err: Option<Error>)
    modifies fs
    ensures (fs.Disk(), err) == BatchSpec.ConvertFile(old(fs.Disk()), srcPath, dstPath)
  {
    var hexData := fs.ReadFile(srcPath);
    if hexData.Err? {
      return Some(hexData.error);
    }
    var ascii := HexToAscii(hexData.value);
    if ascii.Err? {
      return Some(Malformed(ascii.error));
    }
    err := fs.WriteFile(dstPath, ascii.value);
  }

  /**
   * The spreadsheet half of exportToGoogleSheets (cmd/main.go:213-248): refuse
   * an API key without a spreadsheet id, create the spreadsheet on first use
   * and remember its id, then append the row.
   */
  method SendRow(config: GoogleConfig, row: seq<string>) returns (err: Option<Error>)
    modifies config`spreadsheetId, config.sheetsService
    ensures (config.Remote(), err) == BatchSpec.SendRow(old(config.Remote()), row)
  {
    if config.spreadsheetId == "" && config.useApiKey {
      return Some(ApiKeyCannotCreate);
    }
    if config.spreadsheetId == "" {
      var created := config.sheetsService.Create(Title);
      if created.None? {
        return Some(CreateFailed);
      }
      config.spreadsheetId := created.value;
    }
    var ok := config.sheetsService.Append(config.spreadsheetId, SheetRange, row, RawInput);
    if !ok {
      return Some(AppendFailed);
    }
    err := None;
  }

  /** exportToGoogleSheets (cmd/main.go:202-249). */
  method ExportToGoogleSheets(fs: FileStore, srcPath: Path, fileName: string, config: GoogleConfig)
    returns (err: Option<Error>)
    modifies fs`readLog, config`spreadsheetId, config.sheetsService
    ensures (WorldOf(fs, config), err) == BatchSpec.Export(old(WorldOf(fs, config)), srcPath, fileName)
  {
    var hexData := fs.ReadFile(srcPath);
    if hexData.Err? {
      return Some(hexData.error);
    }
    var ascii := HexToAscii(hexData.value);
    if ascii.Err? {
      return Some(Malformed(ascii.error));
    }
    err := SendRow(config, [fileName, Base64.EncodeToString(ascii.value)]);
  }

  /**
   * The body of the loop in processFiles for an entry that is not a
   * directory (cmd/main.go:178-198): the report it prints.
   */
  method HandleFile(fs: FileStore, srcFolder: Path, dstFolder: Path, exportOption: ExportOption,
                    config: GoogleConfig, name: string)
    returns (report: Report)
    modifies fs, config`spreadsheetId, config.sheetsService
    ensures (WorldOf(fs, config), [report]) ==
      Step(old(WorldOf(fs, config)), Entry(name, false), Settings(srcFolder, dstFolder, exportOption))
  {
    ghost var w := WorldOf(fs, config);
    ghost var s := Settings(srcFolder, dstFolder, exportOption);
    var srcPath := Join(srcFolder, name);
    if exportOption == LocalFolder {
      var dstPath := DestPath(dstFolder, name);
      var alreadyConverted := fs.Exists(dstPath);
      if alreadyConverted {
        return Skipped(name);
      }
      var err := ConvertFile(fs, srcPath, dstPath);
      assert (WorldOf(fs, config), Outcome(name, err)) == LocalStep(w, name, s);
      if err.Some? {
        return Failed(name, err.value);
      }
    } else {
      var err := ExportToGoogleSheets(fs, srcPath, name, config);
      assert (WorldOf(fs, config), Outcome(name, err)) == SheetsStep(w, name, s);
      if err.Some? {
        return Failed(name, err.value);
      }
    }
    report := Converted(name);
  }

  /**
   * One iteration of processFiles's loop body (cmd/main.go:174-198): a
   * directory is passed over, a regular file is handled and reported.
   */
  method ProcessEntry(fs: FileStore, srcFolder: Path, dstFolder: Path, exportOption: ExportOption,
                      config: GoogleConfig, file: Entry)
    returns (stepReports: seq<Report>)
    modifies fs, config`spreadsheetId, config.sheetsService
    ensures (WorldOf(fs, config), stepReports) ==
      Step(old(WorldOf(fs, config)), file, Settings(srcFolder, dstFolder, exportOption))
  {
    if file.isDir {
      return [];
    }
    assert file == Entry(file.name, false);
    var report := HandleFile(fs, srcFolder, dstFolder, exportOption, config, file.name);
    stepReports := [report];
  }

  /**
   * processFiles (cmd/main.go:159-200): the listing (None when ReadDir fails)
   * is walked in order; cancellation is seen at the head of iteration cancelAt
   * and later; the reports are the lines the loop prints.
   */
  method ProcessFiles(fs: FileStore, listing: Option<seq<Entry>>, srcFolder: Path, dstFolder: Path,
                      exportOption: ExportOption, config: GoogleConfig, cancelAt: nat)
    returns (reports: seq<Report>)
    modifies fs, config, config.sheetsService
    ensures (WorldOf(fs, config), reports) ==
      BatchSpec.ProcessFiles(old(WorldOf(fs, config)), listing, Settings(srcFolder, dstFolder, exportOption), cancelAt)
  {
    if listing.None? {
      return [ListingFailed];
    }
    var files := listing.value;
    ghost var s := Settings(srcFolder, dstFolder, exportOption);
    ghost var w0 := WorldOf(fs, config);
    reports := [];
    var i := 0;
    while i < |files|
      invariant i <= |files| && i <= cancelAt
      invariant (WorldOf(fs, config), reports) == Run(w0, files[..i], s)
    {
      if cancelAt <= i {
        reports := reports + [Interrupted];
        return;
      }
      RunOneMore(w0, files, i, s);
      var stepReports := ProcessEntry(fs, srcFolder, dstFolder, exportOption, config, files[i]);
      reports := reports + stepReports;
      i := i + 1;
    }
    assert files[..i] == files;
  }
}
