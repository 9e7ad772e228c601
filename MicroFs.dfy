/** src/microFS.ts: an older generator of the file-writing script and the
    `writeBoot` helper that uses it to put a WiFi set-up in boot.py. */
module MicroFs {
  import opened Strings
  import opened PyCode
  import ReplParser
  import MicroPythonRepl

  /** The open line of this generator: no mode, so the file is opened for reading. */
  function OpenForRead(filePath: string): string
  {
    "with open(\"" + filePath + "\") as f:"
  }

  /** The script's lines: the prelude, then the open line in place of the
      text's first line, then a write for each later line with nothing
      after the copied text. */
  function CodeLines(text: string, filename: string, path: string): seq<string>
  {
    var filePath := FilePath(filename, path);
    RemoveFileLines(filePath) + [OpenForRead(filePath)] + WriteCalls(TextLines(text)[1..], "")
  }

  function CodeScript(text: string, filename: string, path: string): string
  {
    Terminated(CodeLines(text, filename, path), [Newline])
  }

  /** createFileWriteCodeFromText. */
  method CreateFileWriteCodeFromText(text: string, filename: string, path: string) returns (fileWriteCmd: string)
    ensures fileWriteCmd == CodeScript(text, filename, path)
  {
    var rawLines := TextLines(text);
    var filePath: string;
    if path != "" {
      filePath := path + "/" + filename;
    } else {
      filePath := filename;
    }
    fileWriteCmd := "try:" + "\n" + "    import uos" + "\n" + "    uos.remove(\"" + filePath + "\")" + "\n"
      + "except:" + "\n" + "    pass" + "\n";
    RemoveFileTerminated(filePath);
    ghost var head := RemoveFileLines(filePath) + [OpenForRead(filePath)];
    for i := 0 to |rawLines|
      invariant i == 0 ==> fileWriteCmd == Terminated(RemoveFileLines(filePath), [Newline])
      invariant i > 0 ==> fileWriteCmd == Terminated(head + WriteCalls(rawLines[1..i], ""), [Newline])
    {
      var line := rawLines[i];
      if i == 0 {
        TerminatedSnoc(RemoveFileLines(filePath), OpenForRead(filePath), [Newline]);
        assert head + WriteCalls(rawLines[1..1], "") == head;
        fileWriteCmd := fileWriteCmd + OpenForRead(filePath);
      } else {
        WriteCallsExtend(rawLines[1..], "", i - 1);
        assert rawLines[1..][..i - 1] == rawLines[1..i] && rawLines[1..][..i] == rawLines[1..i + 1];
        ConcatAssoc(head, WriteCalls(rawLines[1..i], ""), [WriteCall(line, "")]);
        TerminatedSnoc(head + WriteCalls(rawLines[1..i], ""), WriteCall(line, ""), [Newline]);
        fileWriteCmd := fileWriteCmd + "    f.write(\"" + line + "\")";
      }
      fileWriteCmd := fileWriteCmd + "\n";
    }
    assert rawLines[1..|rawLines|] == rawLines[1..];
  }

  // ---------------------------------------------------------------------
  // Properties

  /** Reading the script back: it splits on '\n' into the prelude, the open
      line and a write for each line of the text after the first, every
      line ended by '\n'; so it has five lines more than the text. */
  lemma CodeScriptLines(text: string, filename: string, path: string)
    requires Newline !in FilePath(filename, path)
    ensures var lines := CodeLines(text, filename, path);
      && Split(CodeScript(text, filename, path), [Newline]) == lines + [""]
      && |lines| == 5 + |TextLines(text)|
      && lines[..5] == RemoveFileLines(FilePath(filename, path))
      && lines[5] == OpenForRead(FilePath(filename, path))
      && forall k :: 6 <= k < |lines| ==> WrittenPiece(lines[k], "") == TextLines(text)[k - 5]
  {
    var filePath := FilePath(filename, path);
    var head := RemoveFileLines(filePath) + [OpenForRead(filePath)];
    var pieces := TextLines(text)[1..];
    var writes := WriteCalls(pieces, "");
    HeadHasNoNewline(filePath, OpenForRead(filePath));
    TextLinesHaveNoNewline(text);
    ScriptSplit(head, pieces, "");
    WriteCallsRoundTrip(pieces, "");
  }

  /** The first line of the text is replaced by the open line: texts that
      differ only in their first line give the same script. */
  lemma FirstLineDropped(first: string, other: string, rest: string, filename: string, path: string)
    requires Newline !in first && Newline !in other
    ensures CodeScript(first + [Newline] + rest, filename, path) == CodeScript(other + [Newline] + rest, filename, path)
  {
    SplitAtFirst(first, Newline, rest);
    SplitAtFirst(other, Newline, rest);
    assert TextLines(first + [Newline] + rest)[1..] == TextLines(rest);
    assert TextLines(other + [Newline] + rest)[1..] == TextLines(rest);
  }

  /** The open line is at the top level and every write one level in. */
  lemma CodeIndents(text: string, filename: string, path: string)
    ensures var lines := CodeLines(text, filename, path);
      && ReplParser.CountLineIndents(lines[5]) == 0
      && forall k :: 6 <= k < |lines| ==> ReplParser.CountLineIndents(lines[k]) == 1
  {
    var lines := CodeLines(text, filename, path);
    TopLevelIndent(lines[5]);
    forall k | 6 <= k < |lines| ensures ReplParser.CountLineIndents(lines[k]) == 1 {
      WriteCallIndent(TextLines(text)[1..][k - 6], "");
    }
  }

  // ---------------------------------------------------------------------
  // writeBoot

  /** The boot script's text for a network name and password. */
  function BootText(ssid: string, password: string): string
  {
    "import network" + "\n" + "sta_if = network.WLAN(network.STA_IF)" + "\n" + "sta_if.active(True)" + "\n"
    + "sta_if.scan()" + "\n" + "sta_if.connect('" + ssid + "', '" + password + "')" + "\n" + "sta_if.isconnected()"
  }

  /** The boot script loses its `import network` line: the script for the
      boot text is the one for the same text with that line left empty. */
  lemma BootScriptLosesImport(ssid: string, password: string)
    ensures CodeScript(BootText(ssid, password), "boot.py", "") ==
      CodeScript("" + [Newline] + BootText(ssid, password)[15..], "boot.py", "")
  {
    var text := BootText(ssid, password);
    assert text == "import network" + [Newline] + text[15..];
    FirstLineDropped("import network", "", text[15..], "boot.py", "");
  }

  /** writeBoot: write boot.py through the REPL and resolve true, whatever
      the send does. */
  method WriteBoot(repl: MicroPythonRepl.MicroPythonRepl, ssid: string, password: string, arrivals: seq<string>)
    returns (result: bool)
    modifies repl
    ensures result
    ensures repl.State() == MicroPythonRepl.SendLoop(MicroPythonRepl.RequestOpen(old(repl.State())),
      ReplParser.PreparedChunk(CodeScript(BootText(ssid, password), "boot.py", "")), 0, arrivals).0
  {
    var wifiOnBoot := BootText(ssid, password);
    var fileWriteCmd := CreateFileWriteCodeFromText(wifiOnBoot, "boot.py", "");
    var sent := repl.SendSelectedText(fileWriteCmd, arrivals);
    result := true;
  }
}
