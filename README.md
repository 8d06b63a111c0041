# GoHexToAscii in Dafny

GoHexToAscii is a command-line tool. It reads every file of a source folder as hexadecimal text and converts it to the bytes it denotes. The result goes to one of two places:

- **Local folder.** A `.txt` file is written in a destination folder.
- **Google Sheets.** One row is appended to a spreadsheet; the spreadsheet is created on first use.

This project models the batch pipeline of `cmd/main.go` and proves what it promises.

- **`Hex`** covers `HexToAscii` and Go's `hex.DecodeString`, which it calls. Spaces, line feeds and carriage returns are removed. The rest is then decoded as Base16 (section 8 of RFC 4648), in either letter case. This module holds the success domain, the byte-by-byte meaning of the result, blank insensitivity and round trips with an encoder.
- **`Paths`** covers the destination-naming rule. It uses `filepath.Ext`, `strings.TrimSuffix` and `filepath.Join`.
- **`Base64`** is `base64.StdEncoding.EncodeToString` (section 4 of RFC 4648), used for the second cell of each row.
- **`BatchSpec`** states the pipeline as functions on values:
  - the file system is a `Disk` and the spreadsheet side is a `Remote`;
  - `convertFile` and `exportToGoogleSheets` are functions from world to world;
  - one pass of the loop body is a `Step`;
  - `processFiles` is the fold of that step over the listing, cut short where cancellation is seen.
- **`BatchRuns`** holds properties of whole runs:
  - one report per regular entry, whatever fails;
  - cancellation only cuts the run short;
  - reads are confined to the entries' own sources;
  - the two modes leave each other's state alone;
  - re-running a finished local batch changes nothing.
- **`SheetsProtocol`** holds the spreadsheet-id discipline. The id is bound at most once, and every append goes to the bound id. Each converted entry's row, `[name, Base64(decoded bytes)]`, is stored in listing order.
- **`Batch`** is the imperative form of the same code:
  - a `FileStore`, a `SheetsService` and a `GoogleConfig` whose `spreadsheetId` field is assigned on first use;
  - the methods `ConvertFile`, `SendRow`, `ExportToGoogleSheets`, `HandleFile`, `ProcessEntry` and `ProcessFiles`, the last with its loop.

  Each method is proved to have exactly the effect of its `BatchSpec` counterpart: `ConvertFile`, `SendRow` and `ProcessFiles` match the functions of the same name, `ExportToGoogleSheets` matches `Export`, and `HandleFile` and `ProcessEntry` match `Step`. So everything proved in `BatchRuns` and `SheetsProtocol` holds of the methods too.

Go strings are byte strings, so file contents and decoded text are `seq<byte>`. File names and spreadsheet cells are `string`.

Everything the program gets from the outside is a parameter:

- the directory listing (`None` when `ReadDir` fails);
- the file system's contents and the paths on which reads, writes or `Stat` fail;
- the replies the Sheets service gives, in order;
- the loop iteration at whose head cancellation is first seen (`cancelAt`).

## Model

| member | source | states |
|---|---|---|
| Hex.RemoveAll | cmd/main.go:258-260 | one `strings.ReplaceAll(s, c, "")`: the byte no longer occurs and the result is no longer than the input |
| Hex.RemoveAllKeepsTheRest | cmd/main.go:258-260 | `strings.ReplaceAll(s, c, "")` keeps every other byte: each byte other than c occurs in the result exactly as often as in the input |
| Hex.Strip | cmd/main.go:258-260 | reference clean-up: no blank survives, and a blank-free text is unchanged |
| Hex.StripKeepsTheRest | cmd/main.go:258-260 | the reference clean-up keeps every non-blank byte: each occurs in the result exactly as often as in the input, and no blank occurs |
| Hex.Clean | cmd/main.go:258-260 | the three successive replacements leave no space, line feed or carriage return, and the result is no longer than the input |
| Hex.CleanIsStrip | cmd/main.go:258-260 | the three successive replacements equal one pass that drops every space, line feed and carriage return |
| Hex.Nibble | cmd/main.go:262 | a hex digit's value lies in 0..15 |
| Hex.DecodeString | cmd/main.go:262 | `hex.DecodeString` succeeds exactly on even-length all-hex text, with half as many bytes; it reports ErrLength exactly on odd-length all-hex text |
| Hex.DecodedBytes | cmd/main.go:262-267 | byte i of a successful decoding is 16·nibble(c[2i]) + nibble(c[2i+1]) |
| Hex.DecodeReportsFirstInvalid | cmd/main.go:262-265 | text with a non-digit fails with InvalidByteError naming the leftmost non-digit |
| Hex.HexToAscii | cmd/main.go:256-268 | succeeds exactly when the stripped text is an even number of hex digits; the output is then half as long, byte i being the digit pair at 2i, 2i+1; the failure is ErrLength exactly for odd-length all-hex text |
| Hex.SameStripSameOutcome | cmd/main.go:258-262 | two inputs with the same non-blank bytes give the same result or the same error |
| Hex.BlankInsensitive | cmd/main.go:258-262 | inserting a space, line feed or carriage return anywhere does not change the outcome |
| Hex.DecodeEncode | cmd/main.go:262 | decoding the lower- or upper-case encoding of any bytes gives them back |
| Hex.HexToAsciiRoundTrip | cmd/main.go:256-268 | any text whose non-blank bytes encode b, in either case with blanks anywhere, converts to b |
| Hex.EncodeOfDecoded | cmd/main.go:262 | re-encoding a successful decoding in lower case gives the input lower-cased |
| Hex.ReencodeGivesStrippedInput | cmd/main.go:256-268 | re-encoding a successful conversion in lower case gives the stripped input lower-cased (the converse round trip) |
| Hex.TrailingDigitIsLengthError | cmd/main.go:262-265 | a complete encoding plus one stray digit fails with ErrLength rather than an invalid-byte error |
| Hex.HelloExample | cmd/main.go:256-268 | "48656c6c6f" converts to "Hello" |
| Paths.Ext | cmd/main.go:182 | `filepath.Ext` is a suffix of the path; when non-empty it begins with the only '.' in it and contains no '/' |
| Paths.TrimSuffix | cmd/main.go:182 | when the input ends with the suffix, the result followed by the suffix is the input; otherwise the input is returned unchanged |
| Paths.Join | cmd/main.go:178 | an empty folder gives the name itself; otherwise the path starts with the folder, ends with the name, and has at most one character added between them, which is '/' |
| Paths.DestName | cmd/main.go:182 | the destination name is the entry name before its final extension (which it splits into stem and extension exactly) plus ".txt" |
| Paths.DestPath | cmd/main.go:182 | the destination path ends with the destination name, hence with ".txt"; an empty folder gives the name alone, otherwise the path starts with the folder and adds at most a '/' before the name |
| Paths.ExtEmptyIffNoDot | cmd/main.go:182 | a plain name has an empty extension exactly when it contains no '.' |
| Paths.ExtFromLastDot | cmd/main.go:182 | the extension begins at the last '.' of a plain name |
| Paths.NoDotKeepsName | cmd/main.go:182 | a name without '.' keeps all of itself: "a" becomes "a.txt" |
| Paths.DestNameOfDotted | cmd/main.go:182 | a dotted name loses everything from its last '.' on |
| Paths.DestNameExamples | cmd/main.go:182 | a.hex, a.b.hex and a become a.txt, a.b.txt and a.txt |
| Paths.DotFileExample | cmd/main.go:182 | a name that is only an extension, such as .hex, becomes .txt |
| Paths.TrailingDotExample | cmd/main.go:182 | a name ending in '.', such as "a.", loses the dot: a.txt |
| Paths.DestPathExample | cmd/main.go:182 | "a.hex" in folder "out" is written to "out/a.txt" |
| Base64.Alphabet | cmd/main.go:234 | every six-bit value maps to a character of the standard alphabet |
| Base64.Quantum | cmd/main.go:234 | one to three bytes become four characters, the last 3 − n of them '=' |
| Base64.EncodeToString | cmd/main.go:234 | the encoding has 4·⌈n/3⌉ characters: alphabet characters followed by exactly the padding n mod 3 calls for |
| Base64.HelloExample | cmd/main.go:234 | "Hello" encodes as "SGVsbG8=" |
| BatchSpec.FileExists | cmd/main.go:251-254 | `fileExists`: a file or a directory exists; a path on which Stat fails with another error than not-exist also counts as existing; any other path does not |
| BatchSpec.ConvertFile | cmd/main.go:270-282 | a read or decode error is returned with no file changed; otherwise exactly the destination receives the decoded bytes, unless the write fails |
| BatchSpec.SendRow | cmd/main.go:213-248 | API key with no id: refused with nothing sent; a bound id is kept; on success the last call is an Append of the row to the bound id |
| BatchSpec.Export | cmd/main.go:202-249 | reads the source once and writes no file; a read or decode failure leaves the spreadsheet side untouched; otherwise the outcome is that of sending [name, Base64(decoded bytes)] |
| BatchSpec.LocalStep | cmd/main.go:181-190 | skipped exactly when the destination exists, and then nothing changes (not even a read); converted exactly when the source loads and the destination is writable, setting only that file; a failure changes no file; no spreadsheet call |
| BatchSpec.SheetsStep | cmd/main.go:191-198 | no existence check: the report is Converted or Failed according to the export's error |
| BatchSpec.Step | cmd/main.go:174-198 | a directory changes nothing and gets no report; any other entry gets exactly one Converted, Skipped or Failed report carrying its name |
| BatchSpec.Run | cmd/main.go:166-199 | a run gives at most one report per entry (exactly one per regular entry is BatchRuns.OneReportPerRegularEntry) |
| BatchSpec.ProcessFiles | cmd/main.go:159-200 | an unreadable listing gives [ListingFailed] and changes nothing; cancellation before the end gives at most cancelAt + 1 reports, the last being Interrupted; there are never more reports than entries plus one |
| BatchSpec.RunOneMore | cmd/main.go:166-199 | running over one more entry is one more pass of the loop body |
| BatchSpec.DirectoryIsPassedOver | cmd/main.go:174-176 | a directory entry changes nothing and is not reported |
| BatchSpec.ExistingDestinationIsSkipped | cmd/main.go:183-186 | in local mode an entry with an existing destination is reported skipped and nothing, not even the read log, changes |
| BatchSpec.DecodeFailureComesFirst | cmd/main.go:208-215 | a source that does not load fails with its own error before any spreadsheet check, and no call is made |
| BatchRuns.OneReportPerRegularEntry | cmd/main.go:166-199 | a run gives exactly one converted/skipped/failed report per regular entry, in listing order: failures never stop the loop |
| BatchRuns.RunPrefix | cmd/main.go:166-199 | the reports of a run over a prefix of the listing are a prefix of the full run's |
| BatchRuns.StepReads | cmd/main.go:174-198 | one pass reads nothing, or only its own entry's source |
| BatchRuns.RunReadsOnlyItsSources | cmd/main.go:166-199 | a run only extends the read log, and only with sources of its regular entries |
| BatchRuns.CancellationOnlyCutsShort | cmd/main.go:166-172 | cancellation seen before entry k: the reports before it are those a full run gives, the run ends with Interrupted, and no source of entry k or later is read |
| BatchRuns.ListingFailureTouchesNothing | cmd/main.go:160-164 | an unreadable listing ends the run with nothing changed |
| BatchRuns.ModesAreSeparate | cmd/main.go:180-196 | local mode makes no spreadsheet call and sheets mode writes no file |
| BatchRuns.LocalStepLeavesDestination | cmd/main.go:181-190 | a local pass deletes nothing, and unless it failed the entry's destination exists afterwards |
| BatchRuns.CleanRunLeavesDestinations | cmd/main.go:181-190 | after a local run with no failure, every regular entry's destination exists |
| BatchRuns.ExistingDestinationsSkipAll | cmd/main.go:183-186 | when every destination exists, a local run skips every entry and changes nothing |
| BatchRuns.RerunChangesNothing | cmd/main.go:181-190 | re-running a local batch that had no failure skips everything and changes nothing |
| SheetsProtocol.ReplayConsequences | cmd/main.go:217-242 | a log that keeps the discipline: with an id or an API key there is no Create; every Append goes to the final non-empty id; only failed Creates precede a Create |
| SheetsProtocol.SendRowFollowsProtocol | cmd/main.go:213-248 | for a service whose successful Creates return non-empty ids (`ValidReplies`), one export keeps the discipline and stores its row exactly when it reports success |
| SheetsProtocol.StepFollowsProtocol | cmd/main.go:191-198 | for a service whose successful Creates return non-empty ids (`ValidReplies`), one pass keeps the discipline, and in sheets mode the rows it stores are those its report stands for |
| SheetsProtocol.RunFollowsProtocol | cmd/main.go:166-199 | for a service whose successful Creates return non-empty ids (`ValidReplies`), a whole run keeps the discipline; in sheets mode the rows stored are one [name, Base64(decoded)] per converted entry, in order, and no file changes |
| SheetsProtocol.SpreadsheetBoundAtMostOnce | cmd/main.go:217-230 | for a service whose successful Creates return non-empty ids (`ValidReplies`), the id moves from empty to bound at most once per run: a run with an id or an API key creates nothing and keeps it, and every append goes to the final id |
| SheetsProtocol.ApiKeyWithoutIdFailsEveryFile | cmd/main.go:213-215 | with an API key and no id, every regular entry fails and no call reaches the service |
| Batch.FileStore.Exists | cmd/main.go:251-254 | true exactly when the path is a file, a directory, or a path on which Stat fails with another error than not-exist |
| Batch.FileStore.ReadFile | cmd/main.go:271-274 | succeeds exactly on a readable file, giving its bytes; logs the read |
| Batch.FileStore.WriteFile | cmd/main.go:281 | fails exactly on a directory or an unwritable path, leaving the files unchanged; otherwise that path, and only it, then holds the data |
| Batch.SheetsService.Create | cmd/main.go:224-227 | the next scripted reply (failure once exhausted), logged as a Create |
| Batch.SheetsService.Append | cmd/main.go:238-246 | the next scripted reply (failure once exhausted), logged as an Append of the row |
| Batch.GoogleConfig.constructor | cmd/main.go:28-32 | the configuration holds the given service, id and credential kind |
| Batch.ConvertFile | cmd/main.go:270-282 | has exactly the effect and result of BatchSpec.ConvertFile |
| Batch.SendRow | cmd/main.go:213-248 | updates the spreadsheet id field and the service exactly as BatchSpec.SendRow says |
| Batch.ExportToGoogleSheets | cmd/main.go:202-249 | has exactly the effect and result of BatchSpec.Export on file system, config and service |
| Batch.HandleFile | cmd/main.go:178-198 | the loop body for a regular entry has exactly the effect and report of BatchSpec.Step |
| Batch.ProcessEntry | cmd/main.go:174-198 | one iteration of the loop body, directory or not, has exactly the effect and reports of BatchSpec.Step |
| Batch.ProcessFiles | cmd/main.go:159-200 | the loop has exactly the effect and reports of BatchSpec.ProcessFiles, so the BatchRuns and SheetsProtocol properties hold of it |

## Left out

- Interactive prompting, menu parsing and folder creation in `main` (cmd/main.go:47-115): stdin I/O with no logic beyond trimming.
- Credential setup, `setupGoogleSheetsWithApiKey` and `setupGoogleSheetsWithCredentials` (cmd/main.go:120-157): thin wrappers over OAuth/JWT and Sheets client libraries whose code is not part of this model. The credential kind is the `useApiKey` flag.
- The signal goroutine and the context plumbing (cmd/main.go:35-45): concurrency. Cancellation is the index `cancelAt` of the first loop head that sees `ctx.Done()`. Once closed the channel stays closed, so every later head sees it too.
- The order of the listing: `ioutil.ReadDir` sorts by name. Here the listing is a parameter taken in whatever order it is given.
- Console messages and their wording: each `Printf` of the loop is a `Report` record, and errors are `Error` values.
- Real file-system and network effects: there is an abstract store of files, fault sets and scripted service replies.
  - Directories are a set of paths: they exist for `Stat` and cannot be written, but they have no contents and are not listed from.
  - The file mode 0644 passed to `WriteFile` is not modelled.
- Batch.FileStore.WriteFile: a failing write leaves the file unchanged. A real `WriteFile` may already have truncated or partly written it.
- Paths.Join: does not apply `filepath.Clean`'s normalisation (".." and "." elements, repeated separators). It only joins the folder and the name with one '/'.
- Hex.HexToAscii: on failure the model returns only the error, not the empty string Go returns beside it. No caller uses that string.
- Base64.EncodeToString: only the length, the alphabet and the padding of the encoding are proved, not its invertibility. No Base64 decoder is modelled.
- SheetsProtocol.SendRowFollowsProtocol: requires `ValidReplies`. A successful Create that returned an empty id would leave the id unbound, and the discipline would not hold (see SpreadsheetBoundAtMostOnce below).
- SheetsProtocol.StepFollowsProtocol: requires `ValidReplies`, for the same reason as SendRowFollowsProtocol.
- SheetsProtocol.RunFollowsProtocol: requires `ValidReplies`, for the same reason as SendRowFollowsProtocol.
- SheetsProtocol.SpreadsheetBoundAtMostOnce: assumes that a successful Create never returns an empty id (`ValidReplies`). cmd/main.go:228 stores the reply's id without checking it. So with an empty id the next file would create another spreadsheet, and the "at most once" statement is proved only for a service that hands out non-empty ids.
- In local mode the program passes a nil `GoogleConfig`. The model always passes a configuration object, which the local branch never reads.
