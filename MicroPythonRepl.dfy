/** The MicroPythonREPL class of src/microPythonREPL.ts: the readiness flag
    that paces writes to the device, the receive and capture buffers, and the
    escaping used for its log.

    Time is modelled by steps: every `delay(...)` in the source is one step
    during which the serial port may deliver one chunk of inbound text, given
    to the methods as a sequence `arrivals`. */
module MicroPythonRepl {
  import opened Strings
  import ReplParser

  const TriesWaitingForReady: nat := 10

  /** The prompt markers looked for in the receive buffer (no trailing space). */
  const TopLevelPrompt: string := ">>>"
  const ContinuationPrompt: string := "..."

  /** Some prompt marker occurs in `s`, looked for from the front. */
  predicate HasPromptMarker(s: string)
    decreases |s|
  {
    if |s| < 3 then false
    else s[..3] == TopLevelPrompt || s[..3] == ContinuationPrompt || HasPromptMarker(s[1..])
  }

  /** The scan finds a marker exactly when one occurs somewhere. */
  lemma {:induction false} PromptMarkerOccurs(s: string)
    ensures HasPromptMarker(s) <==>
      exists j: nat :: OccursAt(s, TopLevelPrompt, j) || OccursAt(s, ContinuationPrompt, j)
    decreases |s|
  {
    assert |TopLevelPrompt| == 3 && |ContinuationPrompt| == 3;
    if |s| >= 3 {
      PromptMarkerOccurs(s[1..]);
      OccursShift(s, TopLevelPrompt);
      OccursShift(s, ContinuationPrompt);
      if HasPromptMarker(s) {
        if s[..3] == TopLevelPrompt {
          assert OccursAt(s, TopLevelPrompt, 0);
        } else if s[..3] == ContinuationPrompt {
          assert OccursAt(s, ContinuationPrompt, 0);
        } else {
          var j: nat :| OccursAt(s[1..], TopLevelPrompt, j) || OccursAt(s[1..], ContinuationPrompt, j);
          assert OccursAt(s, TopLevelPrompt, j + 1) || OccursAt(s, ContinuationPrompt, j + 1);
        }
      } else {
        forall j: nat ensures !OccursAt(s, TopLevelPrompt, j) && !OccursAt(s, ContinuationPrompt, j) {
          if j > 0 {
            assert !OccursAt(s[1..], TopLevelPrompt, j - 1) && !OccursAt(s[1..], ContinuationPrompt, j - 1);
          }
        }
      }
    }
  }

  /** The marker test is the source's pair of `includes` calls. */
  lemma PromptMarkerIsIncludes(s: string)
    ensures HasPromptMarker(s) <==> Contains(s, TopLevelPrompt) || Contains(s, ContinuationPrompt)
  {
    PromptMarkerOccurs(s);
    ContainsIff(s, TopLevelPrompt);
    ContainsIff(s, ContinuationPrompt);
  }

  /** A marker in either part is a marker in the concatenation. */
  lemma MarkerInConcat(a: string, b: string)
    ensures HasPromptMarker(a) ==> HasPromptMarker(a + b)
    ensures HasPromptMarker(b) ==> HasPromptMarker(a + b)
  {
    PromptMarkerOccurs(a);
    PromptMarkerOccurs(b);
    PromptMarkerOccurs(a + b);
    if HasPromptMarker(a) {
      var j: nat :| OccursAt(a, TopLevelPrompt, j) || OccursAt(a, ContinuationPrompt, j);
      OccursInConcat(a, b, TopLevelPrompt, j);
      OccursInConcat(a, b, ContinuationPrompt, j);
    }
    if HasPromptMarker(b) {
      var j: nat :| OccursAt(b, TopLevelPrompt, j) || OccursAt(b, ContinuationPrompt, j);
      OccursInConcat(a, b, TopLevelPrompt, j);
      OccursInConcat(a, b, ContinuationPrompt, j);
    }
  }

  /** The part of a MicroPythonREPL its methods read and change.
      `connected` stands for serialConnection.connected and `terminalShowing`
      for upyTerminal.terminalShowing; `written` lists every write to the
      serial device, `displayed` every chunk sent to the terminal, and
      `openRequests` counts calls of serialConnection.open(). */
  datatype ReplState = ReplState(
    showUser: bool,
    captureOutput: bool,
    replReady: bool,
    rxBuffer: string,
    captureBuffer: string,
    terminalAttached: bool,
    terminalShowing: bool,
    connected: bool,
    written: seq<string>,
    displayed: seq<string>,
    openRequests: nat)

  /** isMicroREPLReady, on a state. */
  predicate IsReady(s: ReplState)
  {
    s.terminalAttached && s.connected && s.terminalShowing && s.replReady
  }

  /** onReadSerialData, on a state. */
  function Receive(s: ReplState, data: string): ReplState
  {
    var rx := s.rxBuffer + data;
    var found := HasPromptMarker(rx);
    s.(replReady := found || s.replReady,
       rxBuffer := if found then "" else rx,
       captureBuffer := if s.captureOutput then s.captureBuffer + data else s.captureBuffer,
       displayed := if s.showUser && s.terminalAttached then s.displayed + [data] else s.displayed)
  }

  /** The start of sendSelectedText: a disconnected port is asked to open. */
  function RequestOpen(s: ReplState): ReplState
  {
    if s.connected then s else s.(openRequests := s.openRequests + 1)
  }

  /** The inbound chunks delivered one after the other. */
  function ReceiveAll(s: ReplState, arrivals: seq<string>): ReplState
  {
    if arrivals == [] then s
    else Receive(ReceiveAll(s, arrivals[..|arrivals| - 1]), arrivals[|arrivals| - 1])
  }

  /** One write of sendSelectedText: the line goes to the device and the
      readiness it used up is cleared. */
  function WriteLine(s: ReplState, line: string): ReplState
  {
    s.(written := s.written + [line], replReady := false)
  }

  /** The loop of sendSelectedText from line `i` on, as a value: at each step
      the next line is written if the REPL is ready, then one inbound chunk
      arrives during the delay. It stops when every line is written or the
      environment has no more steps. Returns the final state and how many
      lines have then been written. */
  function SendLoop(s: ReplState, lines: seq<string>, i: nat, arrivals: seq<string>): (ReplState, nat)
    requires i <= |lines|
    decreases |arrivals|
  {
    if i == |lines| || arrivals == [] then (s, i)
    else
      var ready := IsReady(s);
      var afterWrite := if ready then WriteLine(s, lines[i]) else s;
      SendLoop(Receive(afterWrite, arrivals[0]), lines, if ready then i + 1 else i, arrivals[1..])
  }

  /** One of the first `n` polls, each made after the chunks of the delays
      before it, sees the REPL ready. */
  predicate PolledReady(s: ReplState, arrivals: seq<string>, n: nat)
    requires n <= |arrivals|
  {
    exists k :: 0 <= k < n && IsReady(ReceiveAll(s, arrivals[..k]))
  }

  /** waitForReady's answer: some poll sees the REPL ready. */
  predicate SomePollReady(s: ReplState, arrivals: seq<string>)
  {
    PolledReady(s, arrivals, |arrivals|)
  }

  // ---------------------------------------------------------------------
  // Properties of onReadSerialData

  /** Inbound data never clears readiness, and a prompt marker anywhere in the
      accumulated buffer sets it and empties the buffer. */
  lemma ReceiveReadiness(s: ReplState, data: string)
    ensures Receive(s, data).replReady <==> s.replReady || HasPromptMarker(s.rxBuffer + data)
    ensures HasPromptMarker(s.rxBuffer + data) ==> Receive(s, data).rxBuffer == ""
    ensures !HasPromptMarker(s.rxBuffer + data) ==> Receive(s, data).rxBuffer == s.rxBuffer + data
    ensures IsReady(s) ==> IsReady(Receive(s, data))
  {
  }

  lemma ReceiveAllExtend(s: ReplState, arrivals: seq<string>, n: nat)
    requires n < |arrivals|
    ensures ReceiveAll(s, arrivals[..n + 1]) == Receive(ReceiveAll(s, arrivals[..n]), arrivals[n])
  {
    PrefixExtend(arrivals, n);
  }

  lemma PolledReadyExtend(s: ReplState, arrivals: seq<string>, n: nat)
    requires n < |arrivals|
    ensures PolledReady(s, arrivals, n + 1) <==> PolledReady(s, arrivals, n) || IsReady(ReceiveAll(s, arrivals[..n]))
  {
  }

  /** Readiness seen by one poll is seen by every later poll. */
  lemma {:induction false} ReadyPersists(s: ReplState, arrivals: seq<string>, k: nat, j: nat)
    requires k <= j <= |arrivals|
    requires IsReady(ReceiveAll(s, arrivals[..k]))
    ensures IsReady(ReceiveAll(s, arrivals[..j]))
    decreases j - k
  {
    if k < j {
      ReadyPersists(s, arrivals, k, j - 1);
      ReceiveAllExtend(s, arrivals, j - 1);
      ReceiveReadiness(ReceiveAll(s, arrivals[..j - 1]), arrivals[j - 1]);
    }
  }

  /** Since nothing clears readiness while waiting, waitForReady succeeds
      exactly when its last poll sees the REPL ready. */
  lemma WaitForReadyDecidedByLastPoll(s: ReplState, arrivals: seq<string>)
    requires |arrivals| > 0
    ensures SomePollReady(s, arrivals) <==> IsReady(ReceiveAll(s, arrivals[..|arrivals| - 1]))
  {
    if SomePollReady(s, arrivals) {
      var k :| 0 <= k < |arrivals| && IsReady(ReceiveAll(s, arrivals[..k]));
      ReadyPersists(s, arrivals, k, |arrivals| - 1);
    }
  }

  // ---------------------------------------------------------------------
  // Properties of the sendSelectedText loop

  /** The loop writes the prepared lines strictly in order, each once. */
  lemma {:induction false} SendLoopWritesInOrder(s: ReplState, lines: seq<string>, i: nat, arrivals: seq<string>)
    requires i <= |lines|
    ensures i <= SendLoop(s, lines, i, arrivals).1 <= |lines|
    ensures SendLoop(s, lines, i, arrivals).0.written == s.written + lines[i..SendLoop(s, lines, i, arrivals).1]
    decreases |arrivals|
  {
    if i < |lines| && arrivals != [] {
      var ready := IsReady(s);
      var afterWrite := if ready then WriteLine(s, lines[i]) else s;
      var next := if ready then i + 1 else i;
      var s' := Receive(afterWrite, arrivals[0]);
      assert s'.written == s.written + lines[i..next];
      SendLoopWritesInOrder(s', lines, next, arrivals[1..]);
      var r := SendLoop(s', lines, next, arrivals[1..]);
      assert SendLoop(s, lines, i, arrivals) == r;
      SliceSplit(lines, i, next, r.1);
      assert r.0.written == s.written + (lines[i..next] + lines[next..r.1]);
    }
  }

  /** Readiness comes only from a prompt marker: if neither the receive buffer
      nor the inbound text holds one, at most one line is written, and none
      when the REPL is not ready to begin with. */
  lemma {:induction false} SendLoopSilentDevice(s: ReplState, lines: seq<string>, i: nat, arrivals: seq<string>)
    requires i <= |lines|
    requires !HasPromptMarker(s.rxBuffer + Concat(arrivals))
    ensures SendLoop(s, lines, i, arrivals).1 <= i + (if IsReady(s) then 1 else 0)
    decreases |arrivals|
  {
    if i == |lines| || arrivals == [] {
    } else {
      var a := arrivals[0];
      assert s.rxBuffer + Concat(arrivals) == (s.rxBuffer + a) + Concat(arrivals[1..]);
      NoMarkerInPrefix(s.rxBuffer + a, Concat(arrivals[1..]));
      var s1 := if IsReady(s) then WriteLine(s, lines[i]) else s;
      var s' := Receive(s1, a);
      assert !IsReady(s') by {
        ReceiveReadiness(s1, a);
      }
      SendLoopSilentDevice(s', lines, if IsReady(s) then i + 1 else i, arrivals[1..]);
    }
  }

  lemma NoMarkerInPrefix(a: string, b: string)
    requires !HasPromptMarker(a + b)
    ensures !HasPromptMarker(a)
  {
    MarkerInConcat(a, b);
  }

  /** A device that answers every step with a prompt gets every line, one per
      step, once the REPL is ready. */
  lemma {:induction false} SendLoopPromptEveryStep(s: ReplState, lines: seq<string>, i: nat, arrivals: seq<string>)
    requires i <= |lines|
    requires IsReady(s)
    requires forall k :: 0 <= k < |arrivals| ==> HasPromptMarker(arrivals[k])
    ensures SendLoop(s, lines, i, arrivals).1 == if |arrivals| < |lines| - i then i + |arrivals| else |lines|
    decreases |arrivals|
  {
    if i == |lines| || arrivals == [] {
    } else {
      var w := WriteLine(s, lines[i]);
      MarkerInConcat(w.rxBuffer, arrivals[0]);
      SendLoopPromptEveryStep(Receive(w, arrivals[0]), lines, i + 1, arrivals[1..]);
    }
  }

  /** Nothing is written while the serial connection is down. */
  lemma {:induction false} SendLoopDisconnected(s: ReplState, lines: seq<string>, i: nat, arrivals: seq<string>)
    requires i <= |lines|
    requires !s.connected
    ensures SendLoop(s, lines, i, arrivals).1 == i
    ensures SendLoop(s, lines, i, arrivals).0.written == s.written
    decreases |arrivals|
  {
    if i == |lines| || arrivals == [] {
    } else {
      SendLoopDisconnected(Receive(s, arrivals[0]), lines, i, arrivals[1..]);
    }
  }

  /** Sending never changes the settings or the connection, and the capture
      buffer only grows: what was captured before is still at its front. */
  lemma {:induction false} SendLoopKeepsSettings(s: ReplState, lines: seq<string>, i: nat, arrivals: seq<string>)
    requires i <= |lines|
    ensures var t := SendLoop(s, lines, i, arrivals).0;
      && t.captureOutput == s.captureOutput && t.showUser == s.showUser
      && t.connected == s.connected && t.terminalAttached == s.terminalAttached
      && t.terminalShowing == s.terminalShowing && t.openRequests == s.openRequests
      && s.captureBuffer <= t.captureBuffer
    decreases |arrivals|
  {
    if i < |lines| && arrivals != [] {
      var afterWrite := if IsReady(s) then WriteLine(s, lines[i]) else s;
      var next := Receive(afterWrite, arrivals[0]);
      SendLoopKeepsSettings(next, lines, if IsReady(s) then i + 1 else i, arrivals[1..]);
      PrefixTrans(s.captureBuffer, next.captureBuffer, SendLoop(s, lines, i, arrivals).0.captureBuffer);
    }
  }

  /** Receiving keeps the settings and only adds to the capture buffer. */
  lemma {:induction false} ReceiveAllKeepsSettings(s: ReplState, arrivals: seq<string>)
    ensures var t := ReceiveAll(s, arrivals);
      && t.captureOutput == s.captureOutput && t.connected == s.connected
      && s.captureBuffer <= t.captureBuffer
  {
    if arrivals != [] {
      var before := ReceiveAll(s, arrivals[..|arrivals| - 1]);
      ReceiveAllKeepsSettings(s, arrivals[..|arrivals| - 1]);
      PrefixTrans(s.captureBuffer, before.captureBuffer, ReceiveAll(s, arrivals).captureBuffer);
    }
  }

  lemma PrefixTrans(a: string, b: string, c: string)
    requires a <= b && b <= c
    ensures a <= c
  {
    assert c[..|b|][..|a|] == c[..|a|];
  }

  // ---------------------------------------------------------------------
  // nonAsciiToHex

  predicate IsPrintable(c: char)
  {
    32 <= c as int < 127 || c as int == 10
  }

  /** One character of nonAsciiToHex as the source writes it: the "0x0"
      prefix is used for codes below 17. */
  function EscapeCharAsWritten(c: char): string
  {
    if IsPrintable(c) then [c]
    else HexPrefixAsWritten(c as int) + Hex(c as int) + " "
  }

  function HexPrefixAsWritten(code: nat): string
  {
    if code < 17 then "0x0" else "0x"
  }

  /** The same with the evidently intended bound: a leading zero only for
      codes of one hexadecimal digit. */
  function EscapeChar(c: char): string
  {
    if IsPrintable(c) then [c]
    else (if (c as int) < 16 then "0x0" else "0x") + Hex(c as int) + " "
  }

  /** The log escaping of a whole line, as written. */
  function EscapedAsWritten(line: string): string
  {
    if line == [] then "" else EscapedAsWritten(line[..|line| - 1]) + EscapeCharAsWritten(line[|line| - 1])
  }

  lemma EscapedAsWrittenExtend(line: string, i: nat)
    requires i < |line|
    ensures EscapedAsWritten(line[..i + 1]) == EscapedAsWritten(line[..i]) + EscapeCharAsWritten(line[i])
  {
    PrefixExtend(line, i);
  }

  /** nonAsciiToHex: printable characters and '\n' are kept, every other
      character becomes a hexadecimal token followed by a space. */
  method NonAsciiToHex(line: string) returns (parsedString: string)
    ensures parsedString == EscapedAsWritten(line)
    ensures (forall i :: 0 <= i < |line| ==> IsPrintable(line[i])) ==> parsedString == line
  {
    parsedString := "";
    for i := 0 to |line|
      invariant parsedString == EscapedAsWritten(line[..i])
      invariant (forall k :: 0 <= k < i ==> IsPrintable(line[k])) ==> parsedString == line[..i]
    {
      var rawChar := line[i] as int;
      var token: string;
      if 32 <= rawChar < 127 || rawChar == 10 {
        token := [line[i]];
      } else {
        var prefix := "0x";
        if rawChar < 17 {
          prefix := "0x0";
        }
        assert prefix == HexPrefixAsWritten(rawChar);
        token := prefix + Hex(rawChar) + " ";
      }
      assert token == EscapeCharAsWritten(line[i]);
      PrefixExtend(line, i);
      EscapedAsWrittenExtend(line, i);
      parsedString := parsedString + token;
    }
    assert line[..|line|] == line;
  }

  /** The escape of a character with code 16 has three digits: "0x010 ". */
  lemma EscapeCharAsWrittenAt16()
    ensures EscapeCharAsWritten('\U{10}') == "0x010 "
    ensures EscapeChar('\U{10}') == "0x10 "
  {
    assert Hex(16) == "10";
  }

  /** As intended, every escaped character below 256 reads "0x", exactly two
      hexadecimal digits denoting its code, and a space; the written version
      differs from it only at code 16. */
  lemma EscapeCharTwoDigits(c: char)
    requires !IsPrintable(c) && c as int < 256
    ensures var r := EscapeChar(c);
      && |r| == 5 && r[..2] == "0x" && r[4] == ' '
      && IsHexDigit(r[2]) && IsHexDigit(r[3])
      && HexValue(r[2..4]) == c as int
    ensures c as int != 16 ==> EscapeCharAsWritten(c) == EscapeChar(c)
  {
    var code := c as int;
    HexLength(code);
    HexRoundTrip(code);
    var r := EscapeChar(c);
    if code < 16 {
      var h := Hex(code);
      assert r == "0x0" + h + " ";
      assert r[2..4] == "0" + h;
      assert HexValue("0" + h) == HexValue(h) by {
        assert ("0" + h)[..1] == "0";
        assert HexValue("0") == 0;
      }
    } else {
      assert r == "0x" + Hex(code) + " ";
      assert r[2..4] == Hex(code);
    }
  }

  // ---------------------------------------------------------------------
  // The class

  class MicroPythonRepl {
    var showUser: bool
    var captureOutput: bool
    var replReady: bool
    var rxBuffer: string
    var captureBuffer: string
    /** upyTerminal !== undefined */
    var terminalAttached: bool
    var terminalShowing: bool
    var connected: bool
    var written: seq<string>
    var displayed: seq<string>
    var openRequests: nat

    function State(): ReplState
      reads this
    {
      ReplState(showUser, captureOutput, replReady, rxBuffer, captureBuffer,
                terminalAttached, terminalShowing, connected, written, displayed, openRequests)
    }

    /** The constructor attaches the terminal; the serial connection and the
        terminal report their own state. */
    constructor (terminalShowing: bool, connected: bool)
      ensures State() == ReplState(true, false, false, "", "", true, terminalShowing, connected, [], [], 0)
    {
      showUser := true;
      captureOutput := false;
      replReady := false;
      rxBuffer := "";
      captureBuffer := "";
      terminalAttached := true;
      this.terminalShowing := terminalShowing;
      this.connected := connected;
      written := [];
      displayed := [];
      openRequests := 0;
    }

    /** isMicroREPLReady: false without a terminal, otherwise the conjunction
        of connection, terminal and prompt readiness. */
    function IsMicroReplReady(): (r: bool)
      reads this
      ensures !terminalAttached ==> !r
      ensures terminalAttached ==> (r <==> connected && terminalShowing && replReady)
      ensures r == IsReady(State())
    {
      if !terminalAttached then false else connected && terminalShowing && replReady
    }

    /** onReadSerialData: accumulate, detect the prompt, capture, display. */
    method OnReadSerialData(data: string)
      modifies this
      ensures State() == Receive(old(State()), data)
      ensures replReady == (old(replReady) || HasPromptMarker(old(rxBuffer) + data))
      ensures rxBuffer == if HasPromptMarker(old(rxBuffer) + data) then "" else old(rxBuffer) + data
      ensures captureBuffer == if captureOutput then old(captureBuffer) + data else old(captureBuffer)
    {
      rxBuffer := rxBuffer + data;
      PromptMarkerIsIncludes(rxBuffer);
      if Contains(rxBuffer, TopLevelPrompt) || Contains(rxBuffer, ContinuationPrompt) {
        replReady := true;
        rxBuffer := "";
      }
      if captureOutput {
        captureBuffer := captureBuffer + data;
      }
      if showUser {
        SendToDisplay(data);
      }
    }

    method SendToDisplay(line: string)
      modifies this
      ensures State() == old(State()).(displayed := if terminalAttached then old(displayed) + [line] else old(displayed))
    {
      if terminalAttached {
        displayed := displayed + [line];
      }
    }

    method WriteToDevice(chunk: string)
      modifies this
      ensures State() == old(State()).(written := old(written) + [chunk])
    {
      written := written + [chunk];
    }

    /** close: the prompt readiness is dropped (closing the port is not modelled). */
    method Close()
      modifies this
      ensures State() == old(State()).(replReady := false)
    {
      replReady := false;
    }

    /** waitForReady: poll TRIES_WAITING_FOR_READY times, one inbound chunk
        per delay between polls; resolving does not stop the loop. */
    method WaitForReady(arrivals: seq<string>) returns (ready: bool)
      requires |arrivals| == TriesWaitingForReady
      modifies this
      ensures ready == SomePollReady(old(State()), arrivals)
      ensures State() == ReceiveAll(old(State()), arrivals)
    {
      ready := false;
      for index := 0 to TriesWaitingForReady
        invariant State() == ReceiveAll(old(State()), arrivals[..index])
        invariant ready == PolledReady(old(State()), arrivals, index)
      {
        PolledReadyExtend(old(State()), arrivals, index);
        if IsMicroReplReady() {
          ready := true;
        }
        OnReadSerialData(arrivals[index]);
        ReceiveAllExtend(old(State()), arrivals, index);
      }
      assert arrivals[..TriesWaitingForReady] == arrivals;
    }

    /** sendSelectedText: open the port when disconnected, prepare the chunk,
        then write one line at a time, only when ready, clearing readiness
        after each write. The source loops until every line is written; the
        model stops when `arrivals` (one per delay) runs out and returns how
        many lines were written. */
    method SendSelectedText(chunk: string, arrivals: seq<string>) returns (sent: nat)
      modifies this
      ensures (State(), sent) == SendLoop(RequestOpen(old(State())), ReplParser.PreparedChunk(chunk), 0, arrivals)
      ensures sent <= |ReplParser.PreparedChunk(chunk)|
      ensures written == old(written) + ReplParser.PreparedChunk(chunk)[..sent]
    {
      if !connected {
        openRequests := openRequests + 1;
      }
      var lines := ReplParser.PrepareChunkToSend(chunk);
      sent := SendLines(lines, arrivals);
    }

    /** The loop of sendSelectedText over the prepared lines. */
    method SendLines(lines: seq<string>, arrivals: seq<string>) returns (sent: nat)
      modifies this
      ensures (State(), sent) == SendLoop(old(State()), lines, 0, arrivals)
      ensures sent <= |lines|
      ensures written == old(written) + lines[..sent]
    {
      var i: nat := 0;
      var step := 0;
      while i != |lines| && step < |arrivals|
        invariant i <= |lines| && step <= |arrivals|
        invariant SendLoop(State(), lines, i, arrivals[step..]) == SendLoop(old(State()), lines, 0, arrivals)
        decreases |arrivals| - step
      {
        i := SendStep(lines, i, arrivals, step);
        step := step + 1;
      }
      sent := i;
      assert SendLoop(State(), lines, i, arrivals[step..]) == (State(), i);
      SendLoopWritesInOrder(old(State()), lines, 0, arrivals);
    }

    /** One pass of the sendSelectedText loop: write the next line if ready,
        then take the chunk that arrives during the delay. */
    method SendStep(lines: seq<string>, i: nat, arrivals: seq<string>, step: nat) returns (next: nat)
      requires i < |lines| && step < |arrivals|
      modifies this
      ensures next <= |lines|
      ensures SendLoop(old(State()), lines, i, arrivals[step..]) == SendLoop(State(), lines, next, arrivals[step + 1..])
    {
      SuffixAdvance(arrivals, step);
      if IsMicroReplReady() {
        WriteToDevice(lines[i]);
        replReady := false;
        assert State() == WriteLine(old(State()), lines[i]);
        OnReadSerialData(arrivals[step]);
        next := i + 1;
      } else {
        OnReadSerialData(arrivals[step]);
        next := i;
      }
    }

    /** gotUserInput: a space while disconnected asks to reconnect and is not
        sent; anything else goes to the device verbatim. */
    method GotUserInput(text: string)
      modifies this
      ensures !old(connected) && text == " " ==>
        State() == old(State()).(openRequests := old(openRequests) + 1)
      ensures old(connected) || text != " " ==>
        State() == old(State()).(written := old(written) + [text])
    {
      if !connected && text == " " {
        openRequests := openRequests + 1;
        return;
      }
      WriteToDevice(text);
    }
  }
}
