# micro-python-repl, modelled in Dafny

A model of the core of micro-python-repl, a VS Code extension that types
Python source into a MicroPython board's REPL over a serial port. The core
turns a chunk of Python into REPL keystrokes and paces them on the device's
prompt. Around it sit the small generators and parsers the extension uses to
manage files and WiFi on the board.

- `ReplParser.dfy`: the `REPLParser` of `src/replParser.ts`.
  - It counts leading spaces and converts them into indent levels of four.
  - It strips the spaces from each line.
  - It appends to each line its REDUCE_INDENT (`'\b'`) keystrokes and one EXEC (`'\n'`).
- `MicroPythonRepl.dfy`: the `MicroPythonREPL` class of `src/microPythonREPL.ts`, modelled as a Dafny class with the same fields.
  - `onReadSerialData` sets the readiness flag when a prompt marker arrives.
  - `sendSelectedText` writes one prepared line at a time, and only when the REPL is ready.
  - Also modelled: `waitForReady`, `gotUserInput`, `close`, and the `nonAsciiToHex` log escaper.
  - Each state change is specified by a pure function on a `ReplState` value: `Receive`, `ReceiveAll` and `SendLoop`.
- `PseudoTerminal.dfy`: the `MicroPythonTerminal` of `src/pseudoTerminal.ts`.
  - `parseInput` tracks the cursor column.
  - `sendText` appends a prompt after a line that ends in EXEC.
  - `toHex` dumps character codes in hexadecimal.
- `PyCode.dfy`: the pieces of generated Python shared by the three file-writing generators.
  - The file path.
  - The "remove the old file" prelude.
  - The `f.write("...")` line for each line of text, and reading such a line back.
- `DeviceSystem.dfy`: from `src/deviceSystem.ts`.
  - `createFileWriteToFileString`.
  - The WiFi scan parser, `parseWifiScanResults` and `parseSSIDTuple`.
  - The retry loop of `getWifiSSIDInRange`.
- `MicroPythonFs.dfy`: from `src/microPythonFS.ts`.
  - The write script and the delete and exists command scripts.
  - The failure-marker verdict of `executeFSCommand`, `deleteFileOnDev` and `fileExistsOnDev`.
  - `writeFileOnDev`.
- `MicroFs.dfy`: from `src/microFS.ts`, the older generator `createFileWriteCodeFromText` and `writeBoot`.
- `RcVersion.dfy`: `scripts/modifyConfigIfRCVersion.js`.
  - The release-candidate tag test `^v?[0-9]+\.[0-9]+\.[0-9]+-[rR][cC]`, written as a scan and proved equal to the regular expression's shape.
  - The in-place rewrite of the package manifest.
- `Strings.dfy`: the JavaScript string operations the code relies on.
  - `indexOf` finds the first occurrence.
  - `split` never returns an empty list.
  - `join`, `replace` with a string pattern, and `trim` on JavaScript whitespace.
  - `toString(16)` and lines ended by a terminator.

Time is modelled in steps. Each `delay(...)` in the source is one step, and during it the serial port may deliver one chunk of text. These chunks are a parameter, `arrivals`, of the methods that wait. `getCaptureBuffer()` is read as the REPL's `captureBuffer` field.

`isMicroREPLReady` reads `serialConnection.connected` and `upyTerminal.terminalShowing` (src/microPythonREPL.ts:56). None of the files of this model declares either: src/serialConnection.ts has no `connected` field, and neither src/pseudoTerminal.ts nor src/microPythonTerminal.ts has `terminalShowing`. The model reads line 56 as two booleans and keeps them as plain fields of the REPL, `connected` and `terminalShowing`, which only the environment changes.

Where the code and the repository's own tests disagree, the model follows the code:
- The parser's EXEC is `'\n'` (src/replParser.ts:16). The tests expect the platform EXEC of src/terminalConstants.ts:10-11 (src/test/suite/extension.test.ts:94-96).
- The REDUCE_INDENT keystrokes come before the single EXEC (src/replParser.ts:49-54). The tests expect EXEC, REDUCE_INDENT, EXEC (src/test/suite/extension.test.ts:95).
- The number of REDUCE_INDENT keystrokes is the line's full indent level, not the drop to the next line (src/replParser.ts:50).
- Blank lines are kept (src/replParser.ts:22-31). The tests expect them removed (src/test/suite/extension.test.ts:185-186).
- The tests and the class call a `prepareInputChunk` (src/test/suite/extension.test.ts:166, src/microPythonREPL.ts:97) that src/replParser.ts does not define; it is taken to be `prepareChunkToSend`.
- The prompt markers are `>>>` and `...`, with no trailing space (src/microPythonREPL.ts:128).
- `parseSSIDTuple` stores the fifth field of a scan tuple as `hidden`. The comment at src/interfaces/SSID.ts:1 lists that field as the authentication mode; the model keeps it in `hidden` as the code does.

## Model

| member | source | states |
|---|---|---|
| ReplParser.LeadingSpaces | src/replParser.ts:58-65 | the count is at most the line's length, every character before it is a space, and the character at it (if any) is not, so a tab ends the count |
| ReplParser.GetNumberOfSpacesAtStart | src/replParser.ts:58-65 | the counting loop returns a count with those same three properties, which is `LeadingSpaces` |
| ReplParser.LeadingSpacesOf | src/replParser.ts:58-65 | `n` spaces in front of text that starts with something else count as exactly `n` |
| ReplParser.CountLineIndents | src/replParser.ts:67-71 | the indent level `k` is the leading-space count divided by four, rounded down: `4k <= spaces < 4(k+1)` |
| ReplParser.CountLineIndentsExamples | src/replParser.ts:67-71 | 3 leading spaces are level 0, 4 are level 1, 26 are level 6 |
| ReplParser.RemoveLeadingSpaces | src/replParser.ts:35-37 | the line is a run of spaces followed by the result, and the result does not start with a space |
| ReplParser.RemoveLeadingSpacesIdempotent | src/replParser.ts:35-37 | stripping twice gives the same as stripping once |
| ReplParser.RemoveLeadingSpacesAppend | src/replParser.ts:27-29 | stripping after appending a suffix that does not start with a space equals stripping and then appending, so the order in `prepareChunkToSend` does not matter |
| ReplParser.DedentCount | src/replParser.ts:42-53 | the number of REDUCE_INDENT keystrokes is 0 or the line's whole indent level, and it is positive exactly when a next line exists and is indented less |
| ReplParser.GetNeededBreaksAfter | src/replParser.ts:39-56 | the loop returns `DedentCount` REDUCE_INDENT characters followed by one EXEC |
| ReplParser.NeededBreaksLastLine | src/replParser.ts:42-43 | the last line gets exactly one EXEC, whatever its indent |
| ReplParser.NeededBreaksShape | src/replParser.ts:49-55 | every suffix ends in EXEC and holds exactly one EXEC; all other characters are REDUCE_INDENT, and it never starts with a space |
| ReplParser.PrepareChunkToSend | src/replParser.ts:19-33 | the loop's array is `PreparedChunk`: one entry per `'\n'`-piece of the chunk, in order |
| ReplParser.PreparedChunkEntries | src/replParser.ts:22-32 | one entry per piece, blank pieces kept. Each entry is the stripped piece followed by its suffix and ends in its only EXEC |
| ReplParser.PreparedChunkBlockThenOutdent | src/replParser.ts:19-56 | a one-level block followed by an unindented line gives `[header+"\n", body+"\b\n", after+"\n"]` |
| MicroPythonRepl.PromptMarkerOccurs | src/microPythonREPL.ts:128 | the marker scan succeeds exactly when `>>>` or `...` occurs at some index of the buffer |
| MicroPythonRepl.PromptMarkerIsIncludes | src/microPythonREPL.ts:128 | the marker scan equals `includes('>>>') \|\| includes('...')` |
| MicroPythonRepl.MarkerInConcat | src/microPythonREPL.ts:127-128 | a marker in either part of the accumulated buffer is a marker in the whole |
| MicroPythonRepl.ReceiveReadiness | src/microPythonREPL.ts:124-134 | after a chunk, `replReady` holds iff it held before or the accumulated buffer has a marker. The buffer is emptied on a marker and otherwise grows by the chunk. A ready REPL stays ready |
| MicroPythonRepl.MicroPythonRepl.constructor | src/microPythonREPL.ts:21-47 | a new REPL shows output, does not capture, is not ready, has empty buffers and has written nothing |
| MicroPythonRepl.MicroPythonRepl.IsMicroReplReady | src/microPythonREPL.ts:54-57 | false without a terminal; otherwise connected and terminal showing and prompt seen |
| MicroPythonRepl.MicroPythonRepl.OnReadSerialData | src/microPythonREPL.ts:124-134 | the new state is `Receive(old, data)`: readiness set on a marker and never cleared, the buffer emptied on a marker, the chunk captured iff `captureOutput`, and displayed iff `showUser` and a terminal is attached |
| MicroPythonRepl.MicroPythonRepl.SendToDisplay | src/microPythonREPL.ts:140-144 | the chunk is displayed iff a terminal is attached; nothing else changes |
| MicroPythonRepl.MicroPythonRepl.WriteToDevice | src/microPythonREPL.ts:136-138 | the chunk is appended to what was written to the device; nothing else changes |
| MicroPythonRepl.MicroPythonRepl.Close | src/microPythonREPL.ts:74-84 | only the readiness flag changes, to false |
| MicroPythonRepl.MicroPythonRepl.WaitForReady | src/microPythonREPL.ts:63-71 | after exactly 10 polls it answers whether some poll saw the REPL ready; the state has received every chunk that arrived meanwhile |
| MicroPythonRepl.ReadyPersists | src/microPythonREPL.ts:124-134 | while only receiving, readiness seen by one poll is seen by every later poll |
| MicroPythonRepl.WaitForReadyDecidedByLastPoll | src/microPythonREPL.ts:63-71 | waitForReady succeeds exactly when its last poll sees the REPL ready |
| MicroPythonRepl.MicroPythonRepl.SendSelectedText | src/microPythonREPL.ts:90-112 | a disconnected port is asked to open; the new state and the count of written lines are `SendLoop` over `PreparedChunk(chunk)`; the device received exactly the first `sent` prepared lines, in order |
| MicroPythonRepl.MicroPythonRepl.SendLines | src/microPythonREPL.ts:98-109 | the while loop ends in the state `SendLoop` gives and has written a prefix of the lines |
| MicroPythonRepl.MicroPythonRepl.SendStep | src/microPythonREPL.ts:100-108 | one pass writes the next line only when ready, clears readiness after writing, and takes one inbound chunk; the rest of the loop is unchanged |
| MicroPythonRepl.SendLoopWritesInOrder | src/microPythonREPL.ts:99-105 | the loop appends to the device output exactly the lines `i..n` of the prepared list, each once and in order |
| MicroPythonRepl.SendLoopSilentDevice | src/microPythonREPL.ts:101-108 | with no prompt marker in the buffer or in what arrives, at most one line is written, and none if the REPL was not ready |
| MicroPythonRepl.SendLoopPromptEveryStep | src/microPythonREPL.ts:99-108 | a ready REPL whose device answers every step with a prompt gets one line per step until all are written |
| MicroPythonRepl.SendLoopDisconnected | src/microPythonREPL.ts:56 | nothing is written while the serial connection is down |
| MicroPythonRepl.SendLoopKeepsSettings | src/microPythonREPL.ts:90-112 | sending keeps the capture and display switches, the connection, the terminal flags and the open requests; the capture buffer only grows |
| MicroPythonRepl.ReceiveAllKeepsSettings | src/microPythonREPL.ts:124-134 | receiving keeps `captureOutput` and the connection; the capture buffer only grows |
| MicroPythonRepl.MicroPythonRepl.GotUserInput | src/microPythonREPL.ts:229-235 | a single space while disconnected asks to reconnect and writes nothing; any other input is written verbatim |
| MicroPythonRepl.NonAsciiToHex | src/microPythonREPL.ts:159-173 | the loop builds the as-written escape of every character, and is the identity on a line of printable characters and `'\n'` |
| MicroPythonRepl.EscapeCharAsWrittenAt16 | src/microPythonREPL.ts:168 | as written, the character with code 16 escapes to `"0x010 "` where `"0x10 "` is intended |
| MicroPythonRepl.EscapeCharTwoDigits | src/microPythonREPL.ts:164-170 | with the intended bound, every escaped code below 256 is `"0x"`, two hexadecimal digits that denote the code, and a space; the as-written escape differs only at code 16 |
| PseudoTerminal.ParseKeyCases | src/pseudoTerminal.ts:103-136 | backspace beyond the prompt gives `"\b \b"` and moves left; backspace at the prompt echoes itself and stays put; `'\r'` gives EXEC and column 4; arrows give `""` and stay put; anything else moves right by one and is echoed unchanged unless it contains the pattern text |
| PseudoTerminal.ColumnStaysRightOfPrompt | src/pseudoTerminal.ts:105-113 | from column 4 or more, no keystroke sequence takes the column below 4 |
| PseudoTerminal.EnterShowsPrompt | src/pseudoTerminal.ts:88-93 | Enter echoes `"\r\n>>> "` and puts the column at 4 |
| PseudoTerminal.EchoKeepsLine | src/pseudoTerminal.ts:88-93 | sendText emits the line itself, with `">>> "` after it exactly when the line ends in EXEC |
| PseudoTerminal.WelcomeShownAsIs | src/pseudoTerminal.ts:38-53 | the clear, reset and welcome texts do not end in EXEC and are emitted unchanged |
| PseudoTerminal.HexDumpRoundTrip | src/pseudoTerminal.ts:95-101 | the dump splits on spaces into one token per character, and each token denotes that character's code |
| PseudoTerminal.MicroPythonTerminal.constructor | src/pseudoTerminal.ts:54 | the column starts at 0 and nothing has been emitted |
| PseudoTerminal.MicroPythonTerminal.Open | src/pseudoTerminal.ts:67-72 | emits the clear and the welcome text and sets the column to 4 |
| PseudoTerminal.MicroPythonTerminal.ClearScreen | src/pseudoTerminal.ts:78-81 | emits the clear and the cursor reset; the column is unchanged |
| PseudoTerminal.MicroPythonTerminal.UserInput | src/pseudoTerminal.ts:83-86 | the column is updated as `ParseKey` says and the echo is emitted through sendText |
| PseudoTerminal.MicroPythonTerminal.SendText | src/pseudoTerminal.ts:88-93 | emits `Echo(line)` and leaves the column alone |
| PseudoTerminal.MicroPythonTerminal.ToHex | src/pseudoTerminal.ts:95-101 | the loop builds `HexDump`, one space-terminated token per character |
| PseudoTerminal.MicroPythonTerminal.ParseInput | src/pseudoTerminal.ts:103-136 | the returned echo and the new column are `ParseKey(old column, data)`; nothing is emitted |
| Strings.JoinSplit | src/replParser.ts:22 | joining the pieces of `split(sep)` with `sep` gives the text back |
| Strings.IndexOf | scripts/modifyConfigIfRCVersion.js:15 | the result is the first index where the text occurs, or none when it occurs nowhere |
| Strings.HexRoundTrip | src/pseudoTerminal.ts:98 | reading back a code written by `toString(16)` gives the code |
| PyCode.FilePath | src/deviceSystem.ts:140-146 | the path ends with the file name, and is the name alone exactly when the directory is empty |
| PyCode.RemoveFileTerminated | src/deviceSystem.ts:148-152 | the five prelude lines, each ended by `'\n'`, are the text the generators write |
| PyCode.WrittenPieceRoundTrip | src/deviceSystem.ts:157 | reading a write line back gives the copied text |
| PyCode.WriteCallsRoundTrip | src/deviceSystem.ts:155-159 | every write line gives its own piece back, in order |
| PyCode.RecoveredTextRoundTrip | src/microPythonFS.ts:21-27 | the write lines of a text carry its `'\n'`-pieces verbatim and in order: joined by `'\n'` they give the text back |
| PyCode.WrittenFileAddsLineBreak | src/microPythonFS.ts:21-27 | the file those write lines produce is the text followed by one more `'\n'`, since the last piece is ended by a line break too |
| PyCode.WriteCallIndent | src/microPythonFS.ts:25 | a write line is at indent level 1 under the parser's rule |
| PyCode.TopLevelIndent | src/microPythonFS.ts:22 | a line that starts with a non-space is at indent level 0 |
| PyCode.TextLinesHaveNoNewline | src/deviceSystem.ts:139 | no piece of `text.split('\n')` holds a line break |
| PyCode.ScriptSplit | src/deviceSystem.ts:154-159 | a script of newline-free header lines and write lines splits back on `'\n'` into exactly those lines |
| DeviceSystem.CreateFileWriteToFileString | src/deviceSystem.ts:136-161 | the loop builds the prelude, the open-for-writing line and one write per line of the text, each line ended by `'\n'` |
| DeviceSystem.FileWriteScriptLines | src/deviceSystem.ts:148-159 | the script splits into the 5 prelude lines, the open line and one write per piece (6 + pieces lines). The writes carry the text's pieces verbatim and in order, and the file they produce is the text plus a trailing `'\n'` |
| DeviceSystem.FileWriteIndents | src/deviceSystem.ts:154-157 | the open line is at level 0 and every write at level 1 |
| DeviceSystem.StripQuotes | src/deviceSystem.ts:105-106 | the result holds no single quote and is no longer than the input |
| DeviceSystem.StripQuotesKeepsUnquoted | src/deviceSystem.ts:105-106 | a text without a quote is kept as is |
| DeviceSystem.StripQuotesIdempotent | src/deviceSystem.ts:105-106 | removing the quotes twice is removing them once |
| DeviceSystem.StripQuotesAppend | src/deviceSystem.ts:105-106 | a front part with no `(` and no `'` is kept verbatim, and the rest is stripped on its own |
| DeviceSystem.StripQuotesField | src/deviceSystem.ts:105-106 | a field written `(b'…'` or `(B'…'` gives back exactly the text between the quotes, when that text holds no `(` or `'` |
| DeviceSystem.SsidNamesUnquoted | src/deviceSystem.ts:105-106 | the `ssid` and `bssid` of a parsed record hold no quote |
| DeviceSystem.ParseSsidTuple | src/deviceSystem.ts:95-115 | the loop gives `SsidTuples(text)`: one record per `"),"`-piece in order, or the error of a piece without a second field |
| DeviceSystem.TupleRecordsStep | src/deviceSystem.ts:100-111 | one pass either fails on a piece without a second field or appends that piece's record |
| DeviceSystem.TupleRecordsShape | src/deviceSystem.ts:98-112 | the parse fails exactly when some tuple has fewer than two fields; otherwise it has one record per tuple, record `k` built from tuple `k` |
| DeviceSystem.ScanWithoutListIsEmpty | src/deviceSystem.ts:86-93 | a capture without `"[("` parses to the empty list |
| DeviceSystem.ScanAllOrNothing | src/deviceSystem.ts:86-93 | a non-empty result comes from a capture with `"[("` and holds one record for every tuple of the listed part, never a partial list |
| DeviceSystem.Delay | src/deviceSystem.ts:73 | the REPL receives, in order, the chunks that arrive during the delay |
| DeviceSystem.ScanOnce | src/deviceSystem.ts:72-74 | one attempt's new state is `ScanStep`: the send loop over the prepared scan, then the chunks that arrive during the delay. The capture is the buffer afterwards, and the result is its parse |
| DeviceSystem.ScanCapturesAt | src/deviceSystem.ts:70-74 | the k-th recorded capture is the capture buffer after k+1 attempts of the fold |
| DeviceSystem.ScanFoldGrows | src/deviceSystem.ts:68-81 | capturing stays as it was and the buffer is never cleared across attempts, so each capture extends the previous one |
| DeviceSystem.ScanRetries | src/deviceSystem.ts:70-81 | at most `searchRetries` attempts, stopping at the first non-empty parse. The final state is `ScanFold` over the attempts made, and the k-th capture is the buffer of that fold after k+1 attempts. Every earlier capture parsed to `[]`, and all attempts are used when none succeeds |
| DeviceSystem.GetWifiSsidInRange | src/deviceSystem.ts:60-84 | the final state is `ScanFold` of the scan command over the attempts made, starting with capturing switched on, with capturing off at the end; the captures are that fold's buffers; at most `searchRetries` scans are made, none when it is not positive; the result is the parse of the last capture read; every earlier capture parsed to `[]`, and an empty result means every retry was used |
| MicroPythonFs.CreateFileWriteToFileString | src/microPythonFS.ts:20-29 | the loop builds the open-for-writing line and one write per line of the text, each ended by `'\n'` |
| MicroPythonFs.FsFileWriteScriptLines | src/microPythonFS.ts:20-29 | the script has one line more than the text has pieces. It starts with the open line, and its writes carry the text's pieces verbatim and in order. The file they produce is the text plus a trailing `'\n'`. The header is at level 0 and every write at level 1 |
| MicroPythonFs.CommandsPrintMarker | src/microPythonFS.ts:32-36 | both command scripts end in an `except:` line followed by a level-1 line that prints the failure marker |
| MicroPythonFs.FileExistsNeverThrows | src/microPythonFS.ts:69-76 | executeFSCommand fails only with its one fixed message, so fileExistsOnDev never rethrows and answers false exactly when the marker was captured |
| MicroPythonFs.DeleteAgreesWithExecute | src/microPythonFS.ts:43-45 | deleteFileOnDev fails exactly when executeFSCommand's test would |
| MicroPythonFs.FailureSticks | src/microPythonFS.ts:11-13 | the capture buffer is never cleared, so a captured failure makes every later verdict on it a failure |
| MicroPythonFs.EchoedCommandFails | src/microPythonFS.ts:13 | any capture holding the script's own `print('MicroPython: failed')` line is judged a failure |
| MicroPythonFs.EchoedScriptsFail | src/microPythonFS.ts:36-43 | the echo of the delete or exists script alone is judged a failure, and fileExistsOnDev then answers false |
| MicroPythonFs.LineCommandOutcomeIff | src/microPythonFS.ts:13 | the corrected verdict fails exactly when some output line begins with the marker |
| MicroPythonFs.LineOutcomePassesDeleteEcho | src/microPythonFS.ts:32-36 | under the corrected verdict the echoed delete script alone passes |
| MicroPythonFs.LineOutcomePassesExistsEcho | src/microPythonFS.ts:63-67 | under the corrected verdict the echoed exists script alone passes |
| MicroPythonFs.LineOutcomeFailsOnPrintedMarker | src/microPythonFS.ts:36 | under the corrected verdict the marker printed on its own line fails |
| MicroPythonFs.ExecuteFsCommand | src/microPythonFS.ts:7-18 | capturing is switched on and stays on, the command is sent, and the verdict is the marker test on the capture |
| MicroPythonFs.DeleteFileOnDev | src/microPythonFS.ts:31-47 | the delete script is sent with capturing on; failure with `"Failed to remove <path>."` exactly when the marker was captured |
| MicroPythonFs.FileExistsOnDev | src/microPythonFS.ts:61-77 | the exists script is sent and the answer is true exactly when the capture has no marker; nothing is rethrown |
| MicroPythonFs.WriteFileOnDev | src/microPythonFS.ts:49-59 | the delete runs only when overwriting and its outcome is ignored; the write script is then sent from the resulting state, and the call always succeeds |
| MicroFs.CreateFileWriteCodeFromText | src/microFS.ts:24-52 | the loop builds the prelude, then the open line in place of the first piece, then a write per later piece, each line ended by `'\n'` |
| MicroFs.CodeScriptLines | src/microFS.ts:36-50 | the script splits into 5 + pieces lines: the prelude, the open line, and writes carrying pieces 1 onwards verbatim |
| MicroFs.CodeIndents | src/microFS.ts:44-47 | the open line is at level 0 and every write at level 1 |
| MicroFs.FirstLineDropped | src/microFS.ts:44-45 | two texts that differ only in their first line give the same script |
| MicroFs.BootScriptLosesImport | src/microFS.ts:9-16 | the boot script is the one for the same text with `import network` blanked out |
| MicroFs.WriteBoot | src/microFS.ts:5-22 | the boot script is sent and the result is always true |
| RcVersion.DigitRun | scripts/modifyConfigIfRCVersion.js:4 | the greedy `[0-9]+` run: all digits, ended by a non-digit or the end of the tag |
| RcVersion.RcTagComplete | scripts/modifyConfigIfRCVersion.js:4 | every tag of the regular expression's shape passes the scan |
| RcVersion.RcTagIff | scripts/modifyConfigIfRCVersion.js:4 | the scan accepts exactly the tags with an optional `v`, three digit runs separated by dots, a dash and `rc` in either case |
| RcVersion.RcTagAcceptsPrefixed | scripts/modifyConfigIfRCVersion.js:4 | `"v1.2.3-rc1"` qualifies |
| RcVersion.RcTagAcceptsUpperCase | scripts/modifyConfigIfRCVersion.js:4 | `"1.2.3-RC"` qualifies |
| RcVersion.RcTagRejects | scripts/modifyConfigIfRCVersion.js:4 | `"1.2.3"` and `"1.2-rc"` do not |
| RcVersion.TruncateVersionShape | scripts/modifyConfigIfRCVersion.js:15-18 | the cut version is a prefix of the version; it holds no dash unless the version starts with one (then it is kept whole); a version without a dash is kept |
| RcVersion.TruncateVersionIdempotent | scripts/modifyConfigIfRCVersion.js:15-18 | cutting twice is cutting once |
| RcVersion.ElementIndex | scripts/modifyConfigIfRCVersion.js:15 | `indexOf` on an array: the index found holds the element and no earlier one does; none is found only when the element is absent |
| RcVersion.CutVersionCases | scripts/modifyConfigIfRCVersion.js:15-18 | a string version is cut at its dash. An array is kept unless a `"-"` element past index 0 makes `substring` throw. Any other value throws at `indexOf` |
| RcVersion.CutVersionIdempotent | scripts/modifyConfigIfRCVersion.js:15-18 | cutting a cut version changes nothing more |
| RcVersion.RcManifestChanges | scripts/modifyConfigIfRCVersion.js:8-20 | the rewrite sets the three names, cuts the version, removes `icon` and keeps every other key and value |
| RcVersion.RcManifestIdempotent | scripts/modifyConfigIfRCVersion.js:8-20 | rewriting a rewritten manifest changes nothing |
| RcVersion.PackageJson.constructor | scripts/modifyConfigIfRCVersion.js:6 | the object holds the parsed manifest |
| RcVersion.PackageJson.ModifyConfigIfRcVersion | scripts/modifyConfigIfRCVersion.js:3-22 | nothing changes or is written without a set, non-empty release-candidate tag. With one, the manifest becomes `RcManifest` of the old one and is written. A version on which the cut throws stops the script after the three names are set, and nothing is written. That covers a missing version, a number, boolean, null or object, and an array with `"-"` past index 0 |

## Left out

- Serial transport, port listing and reconnect logic (src/serialConnection.ts, src/serialPort.ts, src/serialDeviceSelector.ts): these are calls into native libraries. `connected` is a plain field and an open request is a counter.
- VS Code UI: status-bar messages, quick picks, terminal creation, the event-emitter wiring and `console.log`.
- Real time and Promise interleaving: every `delay` is one step in which one inbound chunk may arrive.
- `log`, `clearLog` and the file system behind them. `nonAsciiToHex` is modelled; the file append is not.
- Welcome, lost-connection and failed-open messages, and `reset`. `getCaptureBuffer`, `getREPLPrompt` and `sendSystemMessage` are not part of this model. The capture is read as `captureBuffer`, and the prompt request is left out.
- MicroPythonRepl.MicroPythonRepl.SendSelectedText: the source loops until every line is written, with no bound. The model stops when `arrivals` runs out and reports how many lines were written.
- MicroPythonRepl.MicroPythonRepl.WaitForReady: the rejection and the `serialConnection === undefined` check are not modelled separately. The result is the boolean the promise would settle on.
- DeviceSystem.ScanOnce: when an attempt's `arrivals` run out before every line of the scan is written, the model goes on to the delay and the next attempt. The source would keep waiting for the prompt.
- DeviceSystem.GetWifiSsidInRange: the catch branch is not modelled, because the modelled send never throws. The capture is read as `captureBuffer`, and the 5-second delay is one `arrivals` step list.
- DeviceSystem.Ssid: `parseInt` of the channel, RSSI and fifth field is not computed. The record keeps the field text it would parse, or `None` where the tuple has no such field (there `parseInt(undefined)` gives NaN).
- MicroPythonFs.ExecuteFsCommand, MicroPythonFs.DeleteFileOnDev and MicroPythonFs.WriteFileOnDev: errors thrown by the send itself are not modelled, so the catch branches only rewrap the marker failure.
- MicroFs.WriteBoot: the send is not awaited in the source. The model performs it before resolving.
- `setupWifi`, `writeBoot`, `stopWifi`, `removeFile` and `notifyUser` of src/deviceSystem.ts: these are device and UI workflows around the modelled pieces.
- RcVersion.PackageJson.ModifyConfigIfRcVersion: reading and writing package.json and JSON formatting are left out. The manifest is a map from top-level key to value, and the result says whether the write is reached. The environment variable is an optional string, truthy when set and non-empty.
- DeviceSystem.FileWriteScriptLines, MicroPythonFs.FsFileWriteScriptLines and PyCode.WrittenFileAddsLineBreak: every write line ends its piece with `\n`, so the file is the text plus a trailing line break, not the text itself (src/deviceSystem.ts:157, src/microPythonFS.ts:25). A `"` or `\` in a line is not escaped, so it ends or changes the Python string literal. `WrittenFile` reads each carried piece as its literal text and holds only for lines without them.
- JavaScript `replace` replacement patterns (`$&` and the like) in parseInput's replacement text are not interpreted.
- Strings are sequences of characters. UTF-8 decoding of serial data and UTF-16 code units are not modelled.
- src/repl.ts, src/pyTerminal.ts, src/microPythonTerminal.ts, src/extension.ts, src/userInput.ts and src/util.ts: editor glue and helpers around the modelled classes.

## Findings

| source | as written | input that shows it | evidently intended | confidence | as-written member | corrected member |
|---|---|---|---|---|---|---|
| src/microPythonREPL.ts:168 | `nonAsciiToHex` pads with `"0x0"` for codes below 17 | the character with code 16 becomes `"0x010 "` | pad only one-digit codes (below 16), giving `"0x10 "` | high; not executed | MicroPythonRepl.EscapeCharAsWrittenAt16 | MicroPythonRepl.EscapeCharTwoDigits |
| src/microPythonFS.ts:13 | the FS commands fail when the capture contains `MicroPython: failed` anywhere | the REPL echoes each line it is sent (as the logs quoted in src/test/suite/extension.test.ts:452-466 show), so the capture holds `print('MicroPython: failed')` even when the `except` branch never runs | fail only when the marker is printed at the start of a line of device output | medium; not executed; depends on the device echoing its input | MicroPythonFs.EchoedScriptsFail | MicroPythonFs.LineOutcomePassesDeleteEcho |
| src/microFS.ts:44-47 | `createFileWriteCodeFromText` puts the open line in place of the text's first line, opens without `"w"`, and writes each line without a line break | the boot text, whose first line `import network` never reaches boot.py | keep every line, open for writing and end each line with `\n`, as `createFileWriteToFileString` in src/deviceSystem.ts does | high; not executed | MicroFs.BootScriptLosesImport | DeviceSystem.FileWriteScriptLines |
