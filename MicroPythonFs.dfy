/** The file-system commands of src/microPythonFS.ts: each builds a short
    Python script, sends it through the REPL with capturing switched on,
    and decides success by looking for the failure marker that the
    script's `except` branch prints. `getCaptureBuffer` is read as the
    REPL's `captureBuffer`. */
module MicroPythonFs {
  import opened Strings
  import opened PyCode
  import ReplParser
  import MicroPythonRepl

  /** PY_CMD_FAILED_MSG of src/terminalConstants.ts. */
  const PyCmdFailedMsg: string := "MicroPython: failed"
  const FsCmdFailMessage: string := "Failed to execute file-system command."
  /** The `except` branch of the command scripts. */
  const PrintFailure: string := "    print('" + PyCmdFailedMsg + "')"

  // ---------------------------------------------------------------------
  // createFileWriteToFileString

  /** The open line, then one write per line of the text. */
  function FsFileWriteLines(text: string, filePath: string): seq<string>
  {
    [OpenForWrite(filePath)] + WriteCalls(TextLines(text), EscapedNewline)
  }

  function FsFileWriteScript(text: string, filePath: string): string
  {
    Terminated(FsFileWriteLines(text, filePath), [Newline])
  }

  method CreateFileWriteToFileString(text: string, filePath: string) returns (fileWriteCmd: string)
    ensures fileWriteCmd == FsFileWriteScript(text, filePath)
  {
    var rawLines := TextLines(text);
    fileWriteCmd := OpenForWrite(filePath) + "\n";
    ghost var head := [OpenForWrite(filePath)];
    assert head + WriteCalls(rawLines[..0], EscapedNewline) == head;
    TerminatedCons(OpenForWrite(filePath), [], [Newline]);
    assert [OpenForWrite(filePath)] + [] == head;
    for i := 0 to |rawLines|
      invariant fileWriteCmd == Terminated(head + WriteCalls(rawLines[..i], EscapedNewline), [Newline])
    {
      var line := rawLines[i];
      WriteCallsExtend(rawLines, EscapedNewline, i);
      ConcatAssoc(head, WriteCalls(rawLines[..i], EscapedNewline), [WriteCall(line, EscapedNewline)]);
      TerminatedSnoc(head + WriteCalls(rawLines[..i], EscapedNewline), WriteCall(line, EscapedNewline), [Newline]);
      fileWriteCmd := fileWriteCmd + "    f.write(\"" + line + "\\n\")";
      fileWriteCmd := fileWriteCmd + "\n";
    }
    assert rawLines[..|rawLines|] == rawLines;
  }

  /** The script is the open line followed by one write per line of the
      text, every line ended by '\n'; the writes carry the text's pieces
      verbatim and in order, so the file Python writes is the text with one
      more '\n' at its end; the open line is at the top level and the
      writes one level in. */
  lemma FsFileWriteScriptLines(text: string, filePath: string)
    requires Newline !in filePath
    ensures var lines := FsFileWriteLines(text, filePath);
      && Split(FsFileWriteScript(text, filePath), [Newline]) == lines + [""]
      && |lines| == 1 + |TextLines(text)|
      && lines[0] == OpenForWrite(filePath)
      && RecoveredText(lines[1..], EscapedNewline) == text
      && WrittenFile(lines[1..]) == text + [Newline]
      && ReplParser.CountLineIndents(lines[0]) == 0
      && forall k :: 1 <= k < |lines| ==> ReplParser.CountLineIndents(lines[k]) == 1
  {
    var lines := FsFileWriteLines(text, filePath);
    TextLinesHaveNoNewline(text);
    ScriptSplit([OpenForWrite(filePath)], TextLines(text), EscapedNewline);
    RecoveredTextRoundTrip(text, EscapedNewline);
    WrittenFileAddsLineBreak(text);
    TopLevelIndent(lines[0]);
    forall k | 1 <= k < |lines| ensures ReplParser.CountLineIndents(lines[k]) == 1 {
      WriteCallIndent(TextLines(text)[k - 1], EscapedNewline);
    }
  }

  // ---------------------------------------------------------------------
  // Command templates

  /** deleteFileOnDev's script: remove the file, print the marker on error. */
  function DeleteCommandLines(filePath: string): seq<string>
  {
    ["try:", "    import uos", "    uos.remove(\"" + filePath + "\")", "except:", PrintFailure]
  }

  function DeleteCommand(filePath: string): string
  {
    Terminated(DeleteCommandLines(filePath), [Newline])
  }

  /** fileExistsOnDev's script: open the file, print the marker on error. */
  function ExistsCommandLines(filePath: string): seq<string>
  {
    ["try:", "    with open (\"" + filePath + "\") as f:", "        pass", "except:", PrintFailure]
  }

  function ExistsCommand(filePath: string): string
  {
    Terminated(ExistsCommandLines(filePath), [Newline])
  }

  // ---------------------------------------------------------------------
  // Decisions

  /** executeFSCommand's verdict on the captured output. */
  function CommandOutcome(capture: string): Outcome
  {
    if Contains(capture, PyCmdFailedMsg) then Fail(FsCmdFailMessage) else Pass
  }

  /** deleteFileOnDev's verdict: the same test, its own message. */
  function DeleteOutcome(filePath: string, capture: string): Outcome
  {
    if Contains(capture, PyCmdFailedMsg) then Fail("Failed to remove " + filePath + ".") else Pass
  }

  /** A boolean result or a thrown error. */
  datatype Answer = Answered(value: bool) | Thrown(message: string)

  /** fileExistsOnDev's handling of executeFSCommand's outcome: its own
      failure message means "no such file", any other error is rethrown. */
  function ExistsAnswer(outcome: Outcome): Answer
  {
    match outcome
    case Pass => Answered(true)
    case Fail(message) => if message == FsCmdFailMessage then Answered(false) else Thrown(message)
  }

  // ---------------------------------------------------------------------
  // Properties of the decisions

  /** Every failure of executeFSCommand carries the one fixed message, so
      fileExistsOnDev never rethrows: it answers false exactly when the
      marker was captured. */
  lemma FileExistsNeverThrows(capture: string)
    ensures CommandOutcome(capture).Fail? ==> CommandOutcome(capture).message == FsCmdFailMessage
    ensures ExistsAnswer(CommandOutcome(capture)) == Answered(!Contains(capture, PyCmdFailedMsg))
  {
  }

  /** deleteFileOnDev fails exactly when executeFSCommand would. */
  lemma DeleteAgreesWithExecute(filePath: string, capture: string)
    ensures DeleteOutcome(filePath, capture).Fail? <==> CommandOutcome(capture).Fail?
  {
  }

  /** The capture buffer is never cleared, so once a failure is captured
      every later verdict on the grown buffer is a failure too. */
  lemma FailureSticks(capture: string, later: string)
    requires capture <= later
    ensures CommandOutcome(capture).Fail? ==> CommandOutcome(later).Fail?
  {
    assert later == capture + later[|capture|..];
    ContainsConcat(capture, later[|capture|..], PyCmdFailedMsg);
  }

  /** Both command scripts end in an `except` branch, one level in, that
      prints the marker. */
  lemma CommandsPrintMarker(filePath: string)
    ensures DeleteCommandLines(filePath)[3] == "except:" && DeleteCommandLines(filePath)[4] == PrintFailure
    ensures ExistsCommandLines(filePath)[3] == "except:" && ExistsCommandLines(filePath)[4] == PrintFailure
    ensures OccursAt(PrintFailure, PyCmdFailedMsg, 11)
    ensures ReplParser.CountLineIndents(PrintFailure) == 1
  {
    MarkerInPrintFailure();
    WriteCallIndentOf(PrintFailure);
  }

  lemma MarkerInPrintFailure()
    ensures OccursAt(PrintFailure, PyCmdFailedMsg, 11)
  {
    var open := "    print('";
    assert OccursAt(PyCmdFailedMsg, PyCmdFailedMsg, 0);
    OccursInConcat(open, PyCmdFailedMsg, PyCmdFailedMsg, 0);
    OccursInConcat(open + PyCmdFailedMsg, "')", PyCmdFailedMsg, 11);
  }

  lemma WriteCallIndentOf(line: string)
    requires line == PrintFailure
    ensures ReplParser.CountLineIndents(line) == 1
  {
    var text := "print('" + PyCmdFailedMsg + "')";
    assert line == Repeat(' ', 4) + text;
    ReplParser.LeadingSpacesOf(4, text);
  }

  // ---------------------------------------------------------------------
  // The failure marker and the echo of the command

  /** Text in which the `except` line of a command script appears, as it
      does when the REPL echoes the script back, is judged a failure. */
  lemma EchoedCommandFails(before: string, after: string)
    ensures CommandOutcome(before + PrintFailure + after).Fail?
  {
    MarkerInPrintFailure();
    OccursInConcat(before, PrintFailure, PyCmdFailedMsg, 11);
    OccursInConcat(before + PrintFailure, after, PyCmdFailedMsg, |before| + 11);
    ContainsIff(before + PrintFailure + after, PyCmdFailedMsg);
  }

  /** The echo of the whole delete (or exists) script, on its own, already
      makes executeFSCommand, deleteFileOnDev and fileExistsOnDev report a
      failure, whether or not the device printed anything. */
  lemma EchoedScriptsFail(filePath: string)
    ensures CommandOutcome(DeleteCommand(filePath)).Fail?
    ensures CommandOutcome(ExistsCommand(filePath)).Fail?
    ensures ExistsAnswer(CommandOutcome(ExistsCommand(filePath))) == Answered(false)
  {
    var d := DeleteCommandLines(filePath);
    assert d == d[..4] + [PrintFailure];
    TerminatedSnoc(d[..4], PrintFailure, [Newline]);
    EchoedCommandFails(Terminated(d[..4], [Newline]), [Newline]);
    var e := ExistsCommandLines(filePath);
    assert e == e[..4] + [PrintFailure];
    TerminatedSnoc(e[..4], PrintFailure, [Newline]);
    EchoedCommandFails(Terminated(e[..4], [Newline]), [Newline]);
  }

  /** Some line of `lines` begins with `marker`. */
  predicate SomeLineStartsWith(lines: seq<string>, marker: string)
  {
    lines != [] && (marker <= lines[0] || SomeLineStartsWith(lines[1..], marker))
  }

  /** The verdict as intended: a failure when the device printed the marker
      at the start of a line of its own, which no echoed script line does. */
  function LineCommandOutcome(capture: string): Outcome
  {
    if SomeLineStartsWith(Split(capture, [Newline]), PyCmdFailedMsg) then Fail(FsCmdFailMessage) else Pass
  }

  lemma {:induction false} SomeLineStartsWithIff(lines: seq<string>, marker: string)
    ensures SomeLineStartsWith(lines, marker) <==> exists k :: 0 <= k < |lines| && marker <= lines[k]
  {
    if lines != [] {
      SomeLineStartsWithIff(lines[1..], marker);
      if SomeLineStartsWith(lines[1..], marker) {
        var k :| 0 <= k < |lines[1..]| && marker <= lines[1..][k];
        assert marker <= lines[k + 1];
      }
      if exists k :: 0 <= k < |lines| && marker <= lines[k] {
        var k :| 0 <= k < |lines| && marker <= lines[k];
        if k > 0 {
          assert lines[1..][k - 1] == lines[k];
        }
      }
    }
  }

  /** On output made of whole lines, the intended verdict is a failure
      exactly when one of the lines begins with the marker. */
  lemma LineCommandOutcomeIff(lines: seq<string>)
    requires forall k :: 0 <= k < |lines| ==> Newline !in lines[k]
    ensures LineCommandOutcome(Terminated(lines, [Newline])).Fail? <==>
      exists k :: 0 <= k < |lines| && PyCmdFailedMsg <= lines[k]
  {
    SplitTerminated(lines, Newline);
    var all := lines + [""];
    SomeLineStartsWithIff(all, PyCmdFailedMsg);
    if exists k :: 0 <= k < |all| && PyCmdFailedMsg <= all[k] {
      var k :| 0 <= k < |all| && PyCmdFailedMsg <= all[k];
      assert k < |lines|;
      assert all[k] == lines[k];
    }
    if exists k :: 0 <= k < |lines| && PyCmdFailedMsg <= lines[k] {
      var k :| 0 <= k < |lines| && PyCmdFailedMsg <= lines[k];
      assert all[k] == lines[k];
    }
  }

  /** No line of either command script begins with the marker. */
  lemma ScriptLinesAreNotMarker(filePath: string)
    ensures forall k :: 0 <= k < 5 ==> !(PyCmdFailedMsg <= DeleteCommandLines(filePath)[k])
    ensures forall k :: 0 <= k < 5 ==> !(PyCmdFailedMsg <= ExistsCommandLines(filePath)[k])
  {
    assert PyCmdFailedMsg[0] == 'M';
  }

  /** With the intended verdict the echo of the delete script alone passes. */
  lemma LineOutcomePassesDeleteEcho(filePath: string)
    requires Newline !in filePath
    ensures LineCommandOutcome(DeleteCommand(filePath)) == Pass
  {
    ScriptLinesAreNotMarker(filePath);
    LineCommandOutcomeIff(DeleteCommandLines(filePath));
  }

  /** With the intended verdict the echo of the exists script alone passes. */
  lemma LineOutcomePassesExistsEcho(filePath: string)
    requires Newline !in filePath
    ensures LineCommandOutcome(ExistsCommand(filePath)) == Pass
  {
    ScriptLinesAreNotMarker(filePath);
    LineCommandOutcomeIff(ExistsCommandLines(filePath));
  }

  /** With the intended verdict the marker printed on a line of its own
      after the echo fails. */
  lemma LineOutcomeFailsOnPrintedMarker(filePath: string)
    requires Newline !in filePath
    ensures LineCommandOutcome(Terminated(DeleteCommandLines(filePath) + [PyCmdFailedMsg], [Newline])).Fail?
  {
    var printed := DeleteCommandLines(filePath) + [PyCmdFailedMsg];
    assert PyCmdFailedMsg <= printed[5];
    LineCommandOutcomeIff(printed);
  }

  // ---------------------------------------------------------------------
  // The commands, run through the REPL

  /** executeFSCommand: capture on, send the command, judge the capture.
      Capturing stays on afterwards. */
  method ExecuteFsCommand(repl: MicroPythonRepl.MicroPythonRepl, command: string, arrivals: seq<string>)
    returns (outcome: Outcome)
    modifies repl
    ensures repl.State() == MicroPythonRepl.SendLoop(
      MicroPythonRepl.RequestOpen(old(repl.State()).(captureOutput := true)),
      ReplParser.PreparedChunk(command), 0, arrivals).0
    ensures repl.captureOutput
    ensures outcome == CommandOutcome(repl.captureBuffer)
  {
    repl.captureOutput := true;
    var sent := repl.SendSelectedText(command, arrivals);
    MicroPythonRepl.SendLoopKeepsSettings(
      MicroPythonRepl.RequestOpen(old(repl.State()).(captureOutput := true)),
      ReplParser.PreparedChunk(command), 0, arrivals);
    var capture := repl.captureBuffer;
    if Contains(capture, PyCmdFailedMsg) {
      outcome := Fail(FsCmdFailMessage);
    } else {
      outcome := Pass;
    }
  }

  /** deleteFileOnDev: the delete script, with its own failure message. */
  method DeleteFileOnDev(repl: MicroPythonRepl.MicroPythonRepl, filePath: string, arrivals: seq<string>)
    returns (outcome: Outcome)
    modifies repl
    ensures repl.State() == MicroPythonRepl.SendLoop(
      MicroPythonRepl.RequestOpen(old(repl.State()).(captureOutput := true)),
      ReplParser.PreparedChunk(DeleteCommand(filePath)), 0, arrivals).0
    ensures outcome == DeleteOutcome(filePath, repl.captureBuffer)
  {
    repl.captureOutput := true;
    var sent := repl.SendSelectedText(DeleteCommand(filePath), arrivals);
    var capture := repl.captureBuffer;
    if Contains(capture, PyCmdFailedMsg) {
      outcome := Fail("Failed to remove " + filePath + ".");
    } else {
      outcome := Pass;
    }
  }

  /** fileExistsOnDev: true when the exists script ran without the marker. */
  method FileExistsOnDev(repl: MicroPythonRepl.MicroPythonRepl, filePath: string, arrivals: seq<string>)
    returns (answer: Answer)
    modifies repl
    ensures repl.State() == MicroPythonRepl.SendLoop(
      MicroPythonRepl.RequestOpen(old(repl.State()).(captureOutput := true)),
      ReplParser.PreparedChunk(ExistsCommand(filePath)), 0, arrivals).0
    ensures answer == Answered(!Contains(repl.captureBuffer, PyCmdFailedMsg))
  {
    var outcome := ExecuteFsCommand(repl, ExistsCommand(filePath), arrivals);
    FileExistsNeverThrows(repl.captureBuffer);
    match outcome {
      case Pass =>
        answer := Answered(true);
      case Fail(message) =>
        if message == FsCmdFailMessage {
          answer := Answered(false);
        } else {
          answer := Thrown(message);
        }
    }
  }

  /** writeFileOnDev: delete first only when overwriting, ignoring how the
      delete went, then send the write script. `afterDelete` is the REPL
      state the write starts from. */
  method WriteFileOnDev(repl: MicroPythonRepl.MicroPythonRepl, filePath: string, file: string, overwrite: bool,
                        deleteArrivals: seq<string>, writeArrivals: seq<string>)
    returns (outcome: Outcome, ghost afterDelete: MicroPythonRepl.ReplState)
    modifies repl
    ensures outcome == Pass
    ensures !overwrite ==> afterDelete == old(repl.State())
    ensures overwrite ==> afterDelete == MicroPythonRepl.SendLoop(
      MicroPythonRepl.RequestOpen(old(repl.State()).(captureOutput := true)),
      ReplParser.PreparedChunk(DeleteCommand(filePath)), 0, deleteArrivals).0
    ensures repl.State() == MicroPythonRepl.SendLoop(
      MicroPythonRepl.RequestOpen(afterDelete),
      ReplParser.PreparedChunk(FsFileWriteScript(file, filePath)), 0, writeArrivals).0
  {
    if overwrite {
      var ignored := DeleteFileOnDev(repl, filePath, deleteArrivals);
    }
    afterDelete := repl.State();
    var fileWriteCmd := CreateFileWriteToFileString(file, filePath);
    var sent := repl.SendSelectedText(fileWriteCmd, writeArrivals);
    outcome := Pass;
  }
}
