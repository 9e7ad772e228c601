/** The device helpers of src/deviceSystem.ts: the script that writes a
    text file on the board, the parser for the list printed by
    `network.WLAN.scan()`, and the retry loop that runs a scan through the
    REPL and parses what it captured. */
module DeviceSystem {
  import opened Strings
  import opened PyCode
  import MicroPythonRepl
  import ReplParser

  // ---------------------------------------------------------------------
  // createFileWriteToFileString

  /** The lines of the generated script: remove the old file, open it for
      writing, then one write per line of the text, each with an escaped
      line break. */
  function FileWriteLines(text: string, filename: string, path: string): seq<string>
  {
    var filePath := FilePath(filename, path);
    RemoveFileLines(filePath) + [OpenForWrite(filePath)] + WriteCalls(TextLines(text), EscapedNewline)
  }

  function FileWriteScript(text: string, filename: string, path: string): string
  {
    Terminated(FileWriteLines(text, filename, path), [Newline])
  }

  /** createFileWriteToFileString: builds the script line by line. */
  method CreateFileWriteToFileString(text: string, filename: string, path: string) returns (fileWriteCmd: string)
    ensures fileWriteCmd == FileWriteScript(text, filename, path)
  {
    var rawLines := TextLines(text);
    var filePath: string;
    if path != "" {
      filePath := path + "/" + filename;
    } else {
      filePath := filename;
    }
    fileWriteCmd := "try:" + "\n" + "    import uos" + "\n" + "    uos.remove(\"" + filePath + "\")" + "\n"
      + "except:" + "\n" + "    pass" + "\n";
    RemoveFileTerminated(filePath);
    TerminatedSnoc(RemoveFileLines(filePath), OpenForWrite(filePath), [Newline]);
    fileWriteCmd := fileWriteCmd + OpenForWrite(filePath) + "\n";
    ghost var head := RemoveFileLines(filePath) + [OpenForWrite(filePath)];
    assert head + WriteCalls(rawLines[..0], EscapedNewline) == head;
    for i := 0 to |rawLines|
      invariant fileWriteCmd == Terminated(head + WriteCalls(rawLines[..i], EscapedNewline), [Newline])
    {
      var line := rawLines[i];
      WriteCallsExtend(rawLines, EscapedNewline, i);
      ConcatAssoc(head, WriteCalls(rawLines[..i], EscapedNewline), [WriteCall(line, EscapedNewline)]);
      TerminatedSnoc(head + WriteCalls(rawLines[..i], EscapedNewline), WriteCall(line, EscapedNewline), [Newline]);
      fileWriteCmd := fileWriteCmd + "    f.write(\"" + line + "\\n\")";
      fileWriteCmd := fileWriteCmd + "\n";
    }
    assert rawLines[..|rawLines|] == rawLines;
  }

  /** Reading the script back: it splits on '\n' into the prelude, the open
      line and one write per line of the text, every line ended by '\n';
      the writes carry the text's pieces verbatim and in order, so the file
      Python writes is the text with one more '\n' at its end. */
  lemma FileWriteScriptLines(text: string, filename: string, path: string)
    requires Newline !in FilePath(filename, path)
    ensures var lines := FileWriteLines(text, filename, path);
      && Split(FileWriteScript(text, filename, path), [Newline]) == lines + [""]
      && |lines| == 6 + |TextLines(text)|
      && lines[..5] == RemoveFileLines(FilePath(filename, path))
      && lines[5] == OpenForWrite(FilePath(filename, path))
      && RecoveredText(lines[6..], EscapedNewline) == text
      && WrittenFile(lines[6..]) == text + [Newline]
  {
    var filePath := FilePath(filename, path);
    var head := RemoveFileLines(filePath) + [OpenForWrite(filePath)];
    HeadHasNoNewline(filePath, OpenForWrite(filePath));
    TextLinesHaveNoNewline(text);
    ScriptSplit(head, TextLines(text), EscapedNewline);
    RecoveredTextRoundTrip(text, EscapedNewline);
    WrittenFileAddsLineBreak(text);
  }

  /** The open line is at the top level and every write line one level in,
      as the REPL parser counts indentation. */
  lemma FileWriteIndents(text: string, filename: string, path: string)
    ensures var lines := FileWriteLines(text, filename, path);
      && ReplParser.CountLineIndents(lines[5]) == 0
      && forall k :: 6 <= k < |lines| ==> ReplParser.CountLineIndents(lines[k]) == 1
  {
    var lines := FileWriteLines(text, filename, path);
    TopLevelIndent(lines[5]);
    forall k | 6 <= k < |lines| ensures ReplParser.CountLineIndents(lines[k]) == 1 {
      WriteCallIndent(TextLines(text)[k - 6], EscapedNewline);
    }
  }

  // ---------------------------------------------------------------------
  // parseWifiScanResults / parseSSIDTuple

  /** One network of the scan (src/interfaces/SSID.ts). The numeric fields
      hold the text handed to `parseInt`, `None` where the tuple has no
      such field; the number itself is not modelled. `hidden` takes the
      fifth field of the tuple. */
  datatype Ssid = Ssid(
    ssid: string,
    bssid: string,
    channel: Option<string>,
    rssi: Option<string>,
    hidden: Option<string>)

  const ScanOpen: string := "[("
  const ScanClose: string := ")]"
  const TupleSep: string := "),"
  const FieldSep: string := ","

  /** `s.replace(/\(b'|'/gi, '')`: every `(b'` (either case of `b`) and
      every single quote removed, scanning from the left. */
  function StripQuotes(s: string): (r: string)
    ensures '\'' !in r
    ensures |r| <= |s|
    decreases |s|
  {
    if |s| >= 3 && s[0] == '(' && (s[1] == 'b' || s[1] == 'B') && s[2] == '\'' then StripQuotes(s[3..])
    else if |s| > 0 && s[0] == '\'' then StripQuotes(s[1..])
    else if |s| > 0 then [s[0]] + StripQuotes(s[1..])
    else ""
  }

  /** The text of the `k`-th comma field, if the tuple has one. */
  function FieldText(parts: seq<string>, k: nat): Option<string>
  {
    if k < |parts| then Some(parts[k]) else None
  }

  /** The record for one tuple, given its comma fields. */
  function SsidOf(parts: seq<string>): Ssid
    requires |parts| >= 2
  {
    Ssid(Trim(StripQuotes(parts[0])), Trim(StripQuotes(parts[1])),
         FieldText(parts, 2), FieldText(parts, 3), FieldText(parts, 4))
  }

  /** The comma fields of each tuple text, as `tuple.split(',')` gives them. */
  function FieldLists(pieces: seq<string>): (r: seq<seq<string>>)
    ensures |r| == |pieces|
  {
    seq(|pieces|, k requires 0 <= k < |pieces| => Split(pieces[k], FieldSep))
  }

  /** The records of a list of tuples, given their comma fields; `None`
      when one of them has no second field, where reading `tupleParts[1]`
      throws. */
  function TupleRecords(tuples: seq<seq<string>>): Option<seq<Ssid>>
  {
    if tuples == [] then Some([])
    else if |tuples[0]| < 2 then None
    else match TupleRecords(tuples[1..])
      case None => None
      case Some(rest) => Some([SsidOf(tuples[0])] + rest)
  }

  /** parseSSIDTuple as a value: `None` stands for the thrown error. */
  function SsidTuples(text: string): Option<seq<Ssid>>
  {
    TupleRecords(FieldLists(Split(text, TupleSep)))
  }

  /** parseSSIDTuple: one record per "),"-separated piece, pushed in order. */
  method ParseSsidTuple(text: string) returns (result: Option<seq<Ssid>>)
    ensures result == SsidTuples(text)
  {
    var rawTupleStrings := Split(text, TupleSep);
    ghost var tuples := FieldLists(rawTupleStrings);
    var records: seq<Ssid> := [];
    assert tuples[0..] == tuples;
    assert forall r: seq<Ssid> :: [] + r == r;
    for i := 0 to |rawTupleStrings|
      invariant TupleRecords(tuples) == Prepended(records, TupleRecords(tuples[i..]))
    {
      var tupleParts := Split(rawTupleStrings[i], FieldSep);
      assert tupleParts == tuples[i];
      TupleRecordsStep(records, tuples, i);
      if |tupleParts| < 2 {
        assert TupleRecords(tuples) == None;
        return None;
      }
      records := records + [SsidOf(tupleParts)];
    }
    assert tuples[|rawTupleStrings|..] == [];
    assert records + [] == records;
    result := Some(records);
  }

  /** One step of parseSSIDTuple: a tuple without a second field ends the
      parse with an error; otherwise its record joins the list. */
  lemma TupleRecordsStep(records: seq<Ssid>, tuples: seq<seq<string>>, i: nat)
    requires i < |tuples|
    ensures |tuples[i]| < 2 ==> TupleRecords(tuples[i..]) == None
    ensures |tuples[i]| >= 2 ==>
      Prepended(records, TupleRecords(tuples[i..])) ==
      Prepended(records + [SsidOf(tuples[i])], TupleRecords(tuples[i + 1..]))
  {
    SuffixAdvance(tuples, i);
    if |tuples[i]| >= 2 {
      match TupleRecords(tuples[i + 1..])
      case None =>
      case Some(rest) =>
        ConcatAssoc(records, [SsidOf(tuples[i])], rest);
    }
  }

  /** `records` in front of an optional list. */
  function Prepended(records: seq<Ssid>, rest: Option<seq<Ssid>>): Option<seq<Ssid>>
  {
    match rest
    case None => None
    case Some(r) => Some(records + r)
  }

  /** parseWifiScanResults: the part after the first "[(" up to the first
      ")]" in it, wrapped in parentheses and parsed as tuples; any error
      gives the empty list. */
  function ParseWifiScanResults(text: string): seq<Ssid>
  {
    var outer := Split(text, ScanOpen);
    if |outer| < 2 then []
    else
      match SsidTuples("(" + Split(outer[1], ScanClose)[0] + ")")
      case None => []
      case Some(records) => records
  }

  // ---------------------------------------------------------------------
  // Properties of the parser

  /** One record per tuple, in order, each built from that tuple's fields;
      and the list is missing exactly when some tuple lacks a second field. */
  lemma {:induction false} TupleRecordsShape(tuples: seq<seq<string>>)
    ensures TupleRecords(tuples).None? <==> exists k :: 0 <= k < |tuples| && |tuples[k]| < 2
    ensures TupleRecords(tuples).Some? ==>
      var records := TupleRecords(tuples).value;
      && |records| == |tuples|
      && forall k :: 0 <= k < |tuples| ==> records[k] == SsidOf(tuples[k])
  {
    if tuples != [] {
      var rest := tuples[1..];
      TupleRecordsShape(rest);
      if |tuples[0]| >= 2 && TupleRecords(rest).None? {
        var k :| 0 <= k < |rest| && |rest[k]| < 2;
        assert |tuples[k + 1]| < 2;
      }
      if TupleRecords(tuples).Some? {
        forall k | 1 <= k < |tuples| ensures |tuples[k]| >= 2 {
          assert tuples[k] == rest[k - 1];
        }
      }
    }
  }

  /** A text with no quote keeps every character under StripQuotes. */
  lemma {:induction false} StripQuotesKeepsUnquoted(s: string)
    requires '\'' !in s
    ensures StripQuotes(s) == s
    decreases |s|
  {
    if |s| > 0 {
      StripQuotesKeepsUnquoted(s[1..]);
      assert s == [s[0]] + s[1..];
    }
  }

  /** Removing the quotes twice removes no more than once. */
  lemma StripQuotesIdempotent(s: string)
    ensures StripQuotes(StripQuotes(s)) == StripQuotes(s)
  {
    StripQuotesKeepsUnquoted(StripQuotes(s));
  }

  /** A prefix with no `(` and no quote is kept as it is, whatever follows
      it: no match can start inside it. */
  lemma {:induction false} StripQuotesAppend(a: string, b: string)
    requires '(' !in a && '\'' !in a
    ensures StripQuotes(a + b) == a + StripQuotes(b)
    decreases |a|
  {
    if |a| > 0 {
      StripQuotesAppend(a[1..], b);
      assert (a + b)[1..] == a[1..] + b;
      assert a == [a[0]] + a[1..];
    } else {
      assert a + b == b;
    }
  }

  /** A name as the scan prints it, `(b'home'` or `(B'home'`: the opening
      `(b'` and the closing quote go, and the name stays as it was. */
  lemma StripQuotesField(b: char, t: string)
    requires b == 'b' || b == 'B'
    requires '(' !in t && '\'' !in t
    ensures StripQuotes(['(', b, '\''] + t + "'") == t
  {
    var s := ['(', b, '\''] + t + "'";
    assert s[3..] == t + "'";
    StripQuotesAppend(t, "'");
    assert StripQuotes("'") == "";
    assert t + "" == t;
  }

  lemma NotInOccurrence(s: string, sub: string, i: nat, c: char)
    requires OccursAt(s, sub, i) && c !in s
    ensures c !in sub
  {
    forall k | 0 <= k < |sub| ensures sub[k] != c {
      assert sub[k] == s[i + k];
    }
  }

  /** The names in a parsed record carry no quote characters. */
  lemma SsidNamesUnquoted(parts: seq<string>)
    requires |parts| >= 2
    ensures '\'' !in SsidOf(parts).ssid && '\'' !in SsidOf(parts).bssid
  {
    var a := StripQuotes(parts[0]);
    var b := StripQuotes(parts[1]);
    var i :| OccursAt(a, Trim(a), i);
    NotInOccurrence(a, Trim(a), i, '\'');
    var j :| OccursAt(b, Trim(b), j);
    NotInOccurrence(b, Trim(b), j, '\'');
  }

  /** Without "[(" in the capture, the scan parses to the empty list. */
  lemma ScanWithoutListIsEmpty(text: string)
    requires !Contains(text, ScanOpen)
    ensures ParseWifiScanResults(text) == []
  {
    SplitHasSecond(text, ScanOpen);
  }

  /** The scan is all or nothing: a non-empty result comes from a capture
      holding "[(", and holds one record per tuple of the listed part, each
      tuple having at least two fields. */
  lemma ScanAllOrNothing(text: string)
    ensures ParseWifiScanResults(text) != [] ==>
      Contains(text, ScanOpen) &&
      var tuples := FieldLists(Split("(" + Split(Split(text, ScanOpen)[1], ScanClose)[0] + ")", TupleSep));
      && |ParseWifiScanResults(text)| == |tuples|
      && forall k :: 0 <= k < |tuples| ==>
           |tuples[k]| >= 2 && ParseWifiScanResults(text)[k] == SsidOf(tuples[k])
  {
    var outer := Split(text, ScanOpen);
    SplitHasSecond(text, ScanOpen);
    if |outer| >= 2 {
      var listed := "(" + Split(outer[1], ScanClose)[0] + ")";
      var tuples := FieldLists(Split(listed, TupleSep));
      assert SsidTuples(listed) == TupleRecords(tuples);
      TupleRecordsShape(tuples);
      if TupleRecords(tuples).Some? {
        assert ParseWifiScanResults(text) == TupleRecords(tuples).value;
      } else {
        assert ParseWifiScanResults(text) == [];
      }
    }
  }

  // ---------------------------------------------------------------------
  // getWifiSSIDInRange

  /** The Python sent to scan for networks. */
  const ScanCommand: string :=
    "import network\nsta_if = network.WLAN(network.STA_IF)\nsta_if.active(True)\nsta_if.scan()\n"
  const DefaultSearchRetries: int := 3

  /** What the serial port delivers during one scan attempt: the chunks that
      arrive while the command is sent, and those of the delay after it. */
  datatype ScanAttempt = ScanAttempt(duringSend: seq<string>, duringDelay: seq<string>)

  /** A `delay(...)`: the REPL receives the chunks that arrive meanwhile. */
  method Delay(repl: MicroPythonRepl.MicroPythonRepl, chunks: seq<string>)
    modifies repl
    ensures repl.State() == MicroPythonRepl.ReceiveAll(old(repl.State()), chunks)
  {
    for i := 0 to |chunks|
      invariant repl.State() == MicroPythonRepl.ReceiveAll(old(repl.State()), chunks[..i])
    {
      repl.OnReadSerialData(chunks[i]);
      MicroPythonRepl.ReceiveAllExtend(old(repl.State()), chunks, i);
    }
    assert chunks[..|chunks|] == chunks;
  }

  /** The REPL after one scan attempt: the command is sent through
      sendSelectedText, then the chunks of the delay arrive. */
  function ScanStep(s: MicroPythonRepl.ReplState, command: string, attempt: ScanAttempt): MicroPythonRepl.ReplState
  {
    MicroPythonRepl.ReceiveAll(MicroPythonRepl.SendLoop(
      MicroPythonRepl.RequestOpen(s), ReplParser.PreparedChunk(command), 0, attempt.duringSend).0,
      attempt.duringDelay)
  }

  /** What the port delivers during attempt `k`; nothing past the given ones. */
  function AttemptAt(attempts: seq<ScanAttempt>, k: nat): ScanAttempt
  {
    if k < |attempts| then attempts[k] else ScanAttempt([], [])
  }

  /** The REPL after the first `n` scan attempts. */
  function ScanFold(s: MicroPythonRepl.ReplState, command: string, attempts: seq<ScanAttempt>, n: nat): MicroPythonRepl.ReplState
  {
    if n == 0 then s else ScanStep(ScanFold(s, command, attempts, n - 1), command, AttemptAt(attempts, n - 1))
  }

  /** The capture buffer read after each of the first `n` attempts. */
  function ScanCaptures(s: MicroPythonRepl.ReplState, command: string, attempts: seq<ScanAttempt>, n: nat): (r: seq<string>)
    ensures |r| == n
  {
    if n == 0 then [] else ScanCaptures(s, command, attempts, n - 1) + [ScanFold(s, command, attempts, n).captureBuffer]
  }

  /** Capture `k` is the buffer as attempt `k` leaves it. */
  lemma {:induction false} ScanCapturesAt(s: MicroPythonRepl.ReplState, command: string, attempts: seq<ScanAttempt>, n: nat, k: nat)
    requires k < n
    ensures ScanCaptures(s, command, attempts, n)[k] == ScanFold(s, command, attempts, k + 1).captureBuffer
  {
    if k < n - 1 {
      ScanCapturesAt(s, command, attempts, n - 1, k);
    }
  }

  /** Scanning keeps capturing switched on, and the capture buffer is never
      cleared between attempts: each capture read extends the one before. */
  lemma {:induction false} ScanFoldGrows(s: MicroPythonRepl.ReplState, command: string, attempts: seq<ScanAttempt>, n: nat, m: nat)
    requires n <= m
    ensures ScanFold(s, command, attempts, m).captureOutput == ScanFold(s, command, attempts, n).captureOutput
    ensures ScanFold(s, command, attempts, n).captureBuffer <= ScanFold(s, command, attempts, m).captureBuffer
    decreases m - n
  {
    if n < m {
      ScanFoldGrows(s, command, attempts, n, m - 1);
      var before := ScanFold(s, command, attempts, m - 1);
      var attempt := AttemptAt(attempts, m - 1);
      var lines := ReplParser.PreparedChunk(command);
      var sent := MicroPythonRepl.SendLoop(MicroPythonRepl.RequestOpen(before), lines, 0, attempt.duringSend).0;
      MicroPythonRepl.SendLoopKeepsSettings(MicroPythonRepl.RequestOpen(before), lines, 0, attempt.duringSend);
      MicroPythonRepl.ReceiveAllKeepsSettings(sent, attempt.duringDelay);
      MicroPythonRepl.PrefixTrans(before.captureBuffer, sent.captureBuffer, ScanFold(s, command, attempts, m).captureBuffer);
      MicroPythonRepl.PrefixTrans(ScanFold(s, command, attempts, n).captureBuffer, before.captureBuffer,
        ScanFold(s, command, attempts, m).captureBuffer);
    }
  }

  /** One pass of getWifiSSIDInRange's loop: send the scan, wait, and parse
      what has been captured so far. */
  method ScanOnce(repl: MicroPythonRepl.MicroPythonRepl, command: string, attempt: ScanAttempt)
    returns (ssids: seq<Ssid>, capture: string)
    modifies repl
    ensures repl.State() == ScanStep(old(repl.State()), command, attempt)
    ensures capture == repl.captureBuffer
    ensures ssids == ParseWifiScanResults(capture)
  {
    var _ := repl.SendSelectedText(command, attempt.duringSend);
    Delay(repl, attempt.duringDelay);
    capture := repl.captureBuffer;
    ssids := ParseWifiScanResults(capture);
  }

  /** The retry loop of getWifiSSIDInRange, for a given scan command: send
      it up to `searchRetries` times and stop at the first capture that
      parses to a non-empty list. The REPL ends as `|captures|` attempts
      leave it, and `captures` are the capture buffers read after each of
      them (`ScanCapturesAt`); attempts beyond `attempts` see a silent port. */
  method ScanRetries(repl: MicroPythonRepl.MicroPythonRepl, command: string, searchRetries: int, attempts: seq<ScanAttempt>)
    returns (ssids: seq<Ssid>, ghost captures: seq<string>)
    modifies repl
    ensures repl.State() == ScanFold(old(repl.State()), command, attempts, |captures|)
    ensures captures == ScanCaptures(old(repl.State()), command, attempts, |captures|)
    ensures searchRetries <= 0 ==> captures == [] && ssids == []
    ensures searchRetries > 0 ==> 1 <= |captures| <= searchRetries
    ensures captures != [] ==> ssids == ParseWifiScanResults(captures[|captures| - 1])
    ensures forall k :: 0 <= k < |captures| - 1 ==> ParseWifiScanResults(captures[k]) == []
    ensures ssids == [] && searchRetries > 0 ==> |captures| == searchRetries
  {
    ssids := [];
    captures := [];
    var i := 0;
    while i < searchRetries
      invariant 0 <= i <= (if searchRetries > 0 then searchRetries else 0)
      invariant |captures| == i && ssids == []
      invariant forall k :: 0 <= k < |captures| ==> ParseWifiScanResults(captures[k]) == []
      invariant repl.State() == ScanFold(old(repl.State()), command, attempts, i)
      invariant captures == ScanCaptures(old(repl.State()), command, attempts, i)
    {
      var attempt := AttemptAt(attempts, i);
      var capture;
      ssids, capture := ScanOnce(repl, command, attempt);
      captures := captures + [capture];
      assert repl.State() == ScanFold(old(repl.State()), command, attempts, i + 1);
      assert captures == ScanCaptures(old(repl.State()), command, attempts, i + 1);
      if |ssids| > 0 {
        break;
      }
      i := i + 1;
    }
  }

  /** getWifiSSIDInRange: capture the REPL output while the scan is retried,
      and switch capturing off again at the end. */
  method GetWifiSsidInRange(repl: MicroPythonRepl.MicroPythonRepl, searchRetries: int, attempts: seq<ScanAttempt>)
    returns (ssids: seq<Ssid>, ghost captures: seq<string>)
    modifies repl
    ensures repl.State() ==
      ScanFold(old(repl.State()).(captureOutput := true), ScanCommand, attempts, |captures|).(captureOutput := false)
    ensures captures == ScanCaptures(old(repl.State()).(captureOutput := true), ScanCommand, attempts, |captures|)
    ensures searchRetries <= 0 ==> captures == [] && ssids == []
    ensures searchRetries > 0 ==> 1 <= |captures| <= searchRetries
    ensures captures != [] ==> ssids == ParseWifiScanResults(captures[|captures| - 1])
    ensures forall k :: 0 <= k < |captures| - 1 ==> ParseWifiScanResults(captures[k]) == []
    ensures ssids == [] && searchRetries > 0 ==> |captures| == searchRetries
  {
    repl.captureOutput := true;
    ssids, captures := ScanRetries(repl, ScanCommand, searchRetries, attempts);
    repl.captureOutput := false;
  }
}
