/** The MicroPythonTerminal of src/pseudoTerminal.ts: the pseudo-terminal
    that echoes the user's keystrokes and keeps track of the cursor column
    behind the ">>> " prompt. What it writes to the terminal is recorded in
    `emitted`, one entry per writeEmitter.fire. */
module PseudoTerminal {
  import opened Strings

  const Esc: char := '\U{1B}'
  const ClearAll: string := [Esc, '[', '2', 'J']
  const ResetCursor: string := [Esc, '[', '0', ';', '0', 'H']
  const Up: string := [Esc, '[', 'A']
  const Down: string := [Esc, '[', 'B']
  const Right: string := [Esc, '[', 'C']
  const Left: string := [Esc, '[', 'D']
  const Backspace: char := '\U{8}'
  /** Back up, overwrite with a space, back up again. */
  const BackspaceClear: string := [Backspace, ' ', Backspace]
  /** The key the terminal delivers for backspace. */
  const DeleteKey: string := ['\U{7F}']
  const Exec: string := "\r\n"
  const Prompt: string := ">>> "
  const WelcomeMsg: string := "Welcome to MicroPython Terminal\r\n>>> "
  /** The column right after the prompt. */
  const PromptColumn: int := 4
  /** The first argument of `replace` in parseInput. It is a string, not a
      regular expression, and `\w`, `\s` inside a JavaScript string literal
      lose their backslash. */
  const InputPattern: string := "^([w,:s/-]*)$"

  predicate IsArrow(data: string)
  {
    data == Up || data == Down || data == Right || data == Left
  }

  /** parseInput as a value: the text to echo and the new column. */
  function ParseKey(column: int, data: string): (string, int)
  {
    if data == DeleteKey then
      if column > PromptColumn then (BackspaceClear, column - 1) else (data, column)
    else if data == "\r" then (Exec, PromptColumn)
    else if IsArrow(data) then ("", column)
    else (ReplaceFirst(data, InputPattern, data), column + 1)
  }

  /** sendText's rule: a line ending in EXEC is followed by a fresh prompt. */
  function Echo(line: string): string
  {
    if EndsWith(line, Exec) then line + Prompt else line
  }

  /** The column after a sequence of keystrokes. */
  function ColumnAfter(column: int, keys: seq<string>): int
    decreases |keys|
  {
    if keys == [] then column else ColumnAfter(ParseKey(column, keys[0]).1, keys[1..])
  }

  /** One space-terminated hexadecimal token per character. */
  function HexTokens(str: string): (r: seq<string>)
    ensures |r| == |str|
  {
    seq(|str|, i requires 0 <= i < |str| => Hex(str[i] as nat))
  }

  /** toHex as a value. */
  function HexDump(str: string): string
  {
    Terminated(HexTokens(str), " ")
  }

  // ---------------------------------------------------------------------
  // Properties

  /** The keystroke cases of parseInput. */
  lemma ParseKeyCases(column: int, data: string)
    ensures data == DeleteKey && column > PromptColumn ==>
      ParseKey(column, data) == (BackspaceClear, column - 1)
    ensures data == DeleteKey && column <= PromptColumn ==>
      ParseKey(column, data) == (DeleteKey, column)
    ensures data == "\r" ==> ParseKey(column, data) == (Exec, PromptColumn)
    ensures IsArrow(data) ==> ParseKey(column, data) == ("", column)
    ensures data != DeleteKey && data != "\r" && !IsArrow(data) ==>
      ParseKey(column, data).1 == column + 1
    ensures data != DeleteKey && data != "\r" && !IsArrow(data) && !Contains(data, InputPattern) ==>
      ParseKey(column, data).0 == data
  {
    assert DeleteKey != "\r";
    assert !IsArrow(DeleteKey) && !IsArrow("\r");
  }

  /** Backspace never moves the cursor into the prompt: once at or right of
      the prompt, the column stays there whatever keys follow. */
  lemma {:induction false} ColumnStaysRightOfPrompt(column: int, keys: seq<string>)
    requires column >= PromptColumn
    ensures ColumnAfter(column, keys) >= PromptColumn
    decreases |keys|
  {
    if keys != [] {
      ParseKeyCases(column, keys[0]);
      ColumnStaysRightOfPrompt(ParseKey(column, keys[0]).1, keys[1..]);
    }
  }

  /** Pressing Enter echoes a line break followed by a new prompt and puts
      the cursor right after it. */
  lemma EnterShowsPrompt(column: int)
    ensures Echo(ParseKey(column, "\r").0) == "\r\n>>> "
    ensures ParseKey(column, "\r").1 == PromptColumn
  {
    assert DeleteKey != "\r";
    assert !IsArrow("\r");
    assert EndsWith(Exec, Exec);
  }

  /** sendText emits the line itself, followed by the prompt exactly when the
      line ends in EXEC. */
  lemma EchoKeepsLine(line: string)
    ensures |Echo(line)| >= |line| && Echo(line)[..|line|] == line
    ensures |Echo(line)| > |line| <==> EndsWith(line, Exec)
    ensures EndsWith(line, Exec) ==> Echo(line)[|line|..] == Prompt
  {
  }

  /** The welcome text ends in the prompt, not EXEC, so it is sent as is. */
  lemma WelcomeShownAsIs()
    ensures Echo(ClearAll) == ClearAll
    ensures Echo(WelcomeMsg) == WelcomeMsg
    ensures Echo(ResetCursor) == ResetCursor
  {
    assert ClearAll[|ClearAll| - 2..] != Exec;
    assert WelcomeMsg[|WelcomeMsg| - 2..] != Exec by {
      assert WelcomeMsg[|WelcomeMsg| - 1] == ' ';
    }
    assert ResetCursor[|ResetCursor| - 2..] != Exec;
  }

  /** Reading the dump back: splitting on the spaces gives one token per
      character, and each token denotes that character's code. */
  lemma HexDumpRoundTrip(str: string)
    ensures Split(HexDump(str), " ") == HexTokens(str) + [""]
    ensures forall i :: 0 <= i < |str| ==> HexValue(HexTokens(str)[i]) == str[i] as nat
  {
    var tokens := HexTokens(str);
    forall k | 0 <= k < |tokens| ensures ' ' !in tokens[k] {
      assert forall j :: 0 <= j < |tokens[k]| ==> IsHexDigit(tokens[k][j]);
    }
    SplitTerminated(tokens, ' ');
    forall i | 0 <= i < |str| ensures HexValue(tokens[i]) == str[i] as nat {
      HexRoundTrip(str[i] as nat);
    }
  }

  // ---------------------------------------------------------------------
  // The class

  class MicroPythonTerminal {
    var columnIndex: int
    var emitted: seq<string>

    constructor ()
      ensures columnIndex == 0 && emitted == []
    {
      columnIndex := 0;
      emitted := [];
    }

    /** open: clear the screen, greet, and put the cursor after the prompt. */
    method Open()
      modifies this
      ensures columnIndex == PromptColumn
      ensures emitted == old(emitted) + [ClearAll, WelcomeMsg]
    {
      WelcomeShownAsIs();
      SendText(ClearAll);
      SendText(WelcomeMsg);
      columnIndex := 4;
    }

    method ClearScreen()
      modifies this
      ensures columnIndex == old(columnIndex)
      ensures emitted == old(emitted) + [ClearAll, ResetCursor]
    {
      WelcomeShownAsIs();
      SendText(ClearAll);
      SendText(ResetCursor);
    }

    /** userInput: interpret the keystroke, then echo it. */
    method UserInput(data: string)
      modifies this
      ensures columnIndex == ParseKey(old(columnIndex), data).1
      ensures emitted == old(emitted) + [Echo(ParseKey(old(columnIndex), data).0)]
    {
      var shown := ParseInput(data);
      SendText(shown);
    }

    method SendText(line: string)
      modifies this
      ensures columnIndex == old(columnIndex)
      ensures emitted == old(emitted) + [Echo(line)]
    {
      var out := line;
      if EndsWith(line, Exec) {
        out := out + Prompt;
      }
      emitted := emitted + [out];
    }

    /** toHex: each character's code in lower-case hexadecimal, then a space. */
    method ToHex(str: string) returns (result: string)
      ensures result == HexDump(str)
    {
      result := "";
      for i := 0 to |str|
        invariant result == HexDump(str[..i])
      {
        PrefixExtend(str, i);
        HexTokensExtend(str, i);
        TerminatedSnoc(HexTokens(str[..i]), Hex(str[i] as nat), " ");
        result := result + Hex(str[i] as nat) + " ";
      }
      assert str[..|str|] == str;
    }

    /** parseInput: the keystroke's echo, updating the column. */
    method ParseInput(data: string) returns (shown: string)
      modifies this
      ensures (shown, columnIndex) == ParseKey(old(columnIndex), data)
      ensures emitted == old(emitted)
    {
      shown := data;
      if data == DeleteKey {
        if columnIndex > 4 {
          shown := BackspaceClear;
          columnIndex := columnIndex - 1;
        }
      } else if data == "\r" {
        shown := Exec;
        columnIndex := 4;
      } else if data == Up {
        shown := "";
      } else if data == Down {
        shown := "";
      } else if data == Right {
        shown := "";
      } else if data == Left {
        shown := "";
      } else {
        shown := ReplaceFirst(data, InputPattern, data);
        columnIndex := columnIndex + 1;
      }
    }
  }

  lemma HexTokensExtend(str: string, i: nat)
    requires i < |str|
    ensures HexTokens(str[..i + 1]) == HexTokens(str[..i]) + [Hex(str[i] as nat)]
  {
    PrefixExtend(str, i);
  }
}
