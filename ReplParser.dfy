/** The REPLParser of src/replParser.ts: it turns a chunk of Python source
    into the lines typed into the MicroPython REPL. Each line loses its
    leading spaces (the REPL indents by itself) and gains a suffix of
    REDUCE_INDENT keystrokes followed by one EXEC. */
module ReplParser {
  import opened Strings

  const Backspace: char := '\U{8}'
  const SpacesPerIndent: nat := 4
  /** One backspace takes the REPL's automatic indent back by one level. */
  const ReduceIndent: char := Backspace
  /** The parser's own EXEC, a line feed (not the platform EXEC of the terminal). */
  const Exec: char := '\n'

  /** The number of ' ' characters at the start of `line`; tabs do not count. */
  function LeadingSpaces(line: string): (n: nat)
    ensures n <= |line|
    ensures forall i :: 0 <= i < n ==> line[i] == ' '
    ensures n == |line| || line[n] != ' '
  {
    if |line| > 0 && line[0] == ' ' then 1 + LeadingSpaces(line[1..]) else 0
  }

  /** getNumberOfSpacesAtStart: count spaces until the first other character. */
  method GetNumberOfSpacesAtStart(line: string) returns (numberOfSpaces: nat)
    ensures numberOfSpaces <= |line|
    ensures forall i :: 0 <= i < numberOfSpaces ==> line[i] == ' '
    ensures numberOfSpaces == |line| || line[numberOfSpaces] != ' '
    ensures numberOfSpaces == LeadingSpaces(line)
  {
    numberOfSpaces := 0;
    var i := 0;
    while i < |line|
      invariant numberOfSpaces == i <= |line|
      invariant forall k :: 0 <= k < i ==> line[k] == ' '
    {
      if line[i] == ' ' {
        numberOfSpaces := numberOfSpaces + 1;
      } else {
        break;
      }
      i := i + 1;
    }
  }

  /** countLineIndents: whole indent levels of four spaces (rounded down). */
  function CountLineIndents(line: string): (k: nat)
    ensures k * SpacesPerIndent <= LeadingSpaces(line) < (k + 1) * SpacesPerIndent
  {
    LeadingSpaces(line) / SpacesPerIndent
  }

  /** removeLeadingSpaces: the line after its leading spaces. */
  function RemoveLeadingSpaces(line: string): (r: string)
    ensures |r| <= |line| && Repeat(' ', |line| - |r|) + r == line
    ensures |r| > 0 ==> r[0] != ' '
  {
    var n := LeadingSpaces(line);
    assert line == line[..n] + line[n..];
    assert line[..n] == Repeat(' ', n);
    line[n..]
  }

  /** Stripping is idempotent. */
  lemma RemoveLeadingSpacesIdempotent(line: string)
    ensures RemoveLeadingSpaces(RemoveLeadingSpaces(line)) == RemoveLeadingSpaces(line)
  {
  }

  /** Stripping a line after appending a suffix that does not start with a
      space is the same as stripping the line and then appending the suffix. */
  lemma {:induction false} RemoveLeadingSpacesAppend(line: string, suffix: string)
    requires |suffix| > 0 && suffix[0] != ' '
    ensures RemoveLeadingSpaces(line + suffix) == RemoveLeadingSpaces(line) + suffix
  {
    if |line| > 0 && line[0] == ' ' {
      RemoveLeadingSpacesAppend(line[1..], suffix);
      assert (line + suffix)[1..] == line[1..] + suffix;
    } else if |line| == 0 {
      assert line + suffix == suffix;
    }
  }

  /** How many REDUCE_INDENT keystrokes follow line `pos`: the line's whole
      indent when the next line is indented less, otherwise none. The last
      line never gets any. */
  function DedentCount(lines: seq<string>, pos: nat): (k: nat)
    requires pos < |lines|
    ensures k == 0 || k == CountLineIndents(lines[pos])
    ensures k > 0 <==>
      (pos + 1 < |lines| && CountLineIndents(lines[pos]) > CountLineIndents(lines[pos + 1]))
  {
    var currentIndentLevel := CountLineIndents(lines[pos]);
    if pos + 1 == |lines| then 0
    else
      var nextLineIndents := CountLineIndents(lines[pos + 1]);
      if currentIndentLevel > 0 && currentIndentLevel - nextLineIndents > 0
      then currentIndentLevel else 0
  }

  /** The suffix getNeededBreaksAfter computes for line `pos`. */
  function NeededBreaks(lines: seq<string>, pos: nat): string
    requires pos < |lines|
  {
    Repeat(ReduceIndent, DedentCount(lines, pos)) + [Exec]
  }

  /** getNeededBreaksAfter: a loop appending REDUCE_INDENT, then one EXEC. */
  method GetNeededBreaksAfter(lines: seq<string>, currentPos: nat) returns (neededBreaks: string)
    requires currentPos < |lines|
    ensures neededBreaks == NeededBreaks(lines, currentPos)
  {
    neededBreaks := "";
    var currentIndentLevel := CountLineIndents(lines[currentPos]);
    if currentPos + 1 == |lines| {
      return [Exec];
    }
    var nextLineIndents := CountLineIndents(lines[currentPos + 1]);
    var numberIndentsToReduce := currentIndentLevel as int - nextLineIndents as int;
    if currentIndentLevel > 0 && numberIndentsToReduce > 0 {
      var i := 0;
      while i < currentIndentLevel
        invariant 0 <= i <= currentIndentLevel
        invariant neededBreaks == Repeat(ReduceIndent, i)
      {
        neededBreaks := neededBreaks + [ReduceIndent];
        i := i + 1;
      }
    }
    neededBreaks := neededBreaks + [Exec];
  }

  /** The last line is followed by exactly one EXEC, whatever its indent. */
  lemma NeededBreaksLastLine(lines: seq<string>)
    requires |lines| > 0
    ensures NeededBreaks(lines, |lines| - 1) == [Exec]
  {
  }

  /** Every suffix is some REDUCE_INDENT keystrokes and then the only EXEC. */
  lemma NeededBreaksShape(lines: seq<string>, pos: nat)
    requires pos < |lines|
    ensures var b := NeededBreaks(lines, pos);
      && |b| >= 1 && b[|b| - 1] == Exec
      && multiset(b)[Exec] == 1
      && (forall i :: 0 <= i < |b| - 1 ==> b[i] == ReduceIndent)
      && b[0] != ' '
  {
    var k := DedentCount(lines, pos);
    RepeatHasNo(ReduceIndent, k, Exec);
  }

  lemma {:induction false} RepeatHasNo(c: char, n: nat, d: char)
    requires c != d
    ensures multiset(Repeat(c, n))[d] == 0
  {
    if n > 0 {
      RepeatHasNo(c, n - 1, d);
      assert Repeat(c, n) == Repeat(c, n - 1) + [c];
    }
  }

  /** One entry of the prepared chunk: the piece with its breaks, stripped. */
  function PreparedLine(lines: seq<string>, i: nat): string
    requires i < |lines|
  {
    RemoveLeadingSpaces(lines[i] + NeededBreaks(lines, i))
  }

  /** The entries for a list of pieces. */
  function PreparedLines(lines: seq<string>): seq<string>
  {
    seq(|lines|, i requires 0 <= i < |lines| => PreparedLine(lines, i))
  }

  /** prepareChunkToSend, as a value: one entry per '\n'-piece of the chunk. */
  function PreparedChunk(chunk: string): seq<string>
  {
    PreparedLines(Split(chunk, [Exec]))
  }

  /** prepareChunkToSend: split on '\n'; for each piece append its breaks,
      strip leading spaces and push. Blank pieces are kept. */
  method PrepareChunkToSend(textChunk: string) returns (preparedLines: seq<string>)
    ensures preparedLines == PreparedChunk(textChunk)
  {
    preparedLines := [];
    var lines := Split(textChunk, [Exec]);
    var neededBreaks := "";
    ghost var prepared := PreparedChunk(textChunk);
    assert |prepared| == |lines|;
    for i := 0 to |lines|
      invariant preparedLines == prepared[..i]
    {
      var line := lines[i];
      neededBreaks := GetNeededBreaksAfter(lines, i);
      line := line + neededBreaks;
      line := RemoveLeadingSpaces(line);
      assert line == prepared[i];
      PrefixExtend(prepared, i);
      preparedLines := preparedLines + [line];
    }
    assert prepared[..|lines|] == prepared;
  }

  /** The prepared chunk has exactly one entry per '\n'-piece, in order; each
      entry is the stripped piece followed by its breaks, and holds exactly
      one EXEC, as its last character. */
  lemma PreparedChunkEntries(chunk: string)
    ensures var lines := Split(chunk, [Exec]);
      var r := PreparedChunk(chunk);
      && |r| == |lines|
      && forall i :: 0 <= i < |r| ==>
        && r[i] == RemoveLeadingSpaces(lines[i]) + NeededBreaks(lines, i)
        && r[i][|r[i]| - 1] == Exec
        && multiset(r[i])[Exec] == 1
  {
    var lines := Split(chunk, [Exec]);
    SplitPiecesFree(chunk, [Exec]);
    forall k | 0 <= k < |lines| ensures Exec !in lines[k] {
      NotContainsChar(lines[k], Exec);
    }
    PreparedLinesEntries(lines);
  }

  lemma PreparedLinesEntries(lines: seq<string>)
    requires forall k :: 0 <= k < |lines| ==> Exec !in lines[k]
    ensures var r := PreparedLines(lines);
      && |r| == |lines|
      && forall i :: 0 <= i < |r| ==>
        && r[i] == RemoveLeadingSpaces(lines[i]) + NeededBreaks(lines, i)
        && r[i][|r[i]| - 1] == Exec
        && multiset(r[i])[Exec] == 1
  {
    forall i | 0 <= i < |lines|
      ensures PreparedLine(lines, i) == RemoveLeadingSpaces(lines[i]) + NeededBreaks(lines, i)
      ensures PreparedLine(lines, i)[|PreparedLine(lines, i)| - 1] == Exec
      ensures multiset(PreparedLine(lines, i))[Exec] == 1
    {
      PreparedLineShape(lines, i);
    }
  }

  lemma PreparedLineShape(lines: seq<string>, i: nat)
    requires i < |lines|
    requires Exec !in lines[i]
    ensures PreparedLine(lines, i) == RemoveLeadingSpaces(lines[i]) + NeededBreaks(lines, i)
    ensures PreparedLine(lines, i)[|PreparedLine(lines, i)| - 1] == Exec
    ensures multiset(PreparedLine(lines, i))[Exec] == 1
  {
    NeededBreaksShape(lines, i);
    RemoveLeadingSpacesAppend(lines[i], NeededBreaks(lines, i));
    var stripped := RemoveLeadingSpaces(lines[i]);
    NotInRightPart(Repeat(' ', |lines[i]| - |stripped|), stripped, Exec);
    assert multiset(stripped)[Exec] == 0;
  }

  /** The pieces of the worked example below. */
  lemma ExampleSplit(l0: string, l1: string, l2: string)
    requires Exec !in l0 && Exec !in l1 && Exec !in l2
    ensures Split(l0 + [Exec] + l1 + [Exec] + l2, [Exec]) == [l0, l1, l2]
  {
    ConcatAssoc(l0 + [Exec], l1, [Exec]);
    ConcatAssoc(l0 + [Exec], l1 + [Exec], l2);
    SplitAtFirst(l0, Exec, l1 + [Exec] + l2);
    SplitAtFirst(l1, Exec, l2);
    forall j: nat ensures !OccursAt(l2, [Exec], j) {
      if j + 1 <= |l2| {
        assert l2[j..j + 1][0] == l2[j];
      }
    }
  }

  /** `n` spaces in front of text that does not start with one. */
  lemma {:induction false} LeadingSpacesOf(n: nat, text: string)
    requires |text| > 0 && text[0] != ' '
    ensures LeadingSpaces(Repeat(' ', n) + text) == n
  {
    if n > 0 {
      LeadingSpacesOf(n - 1, text);
      assert Repeat(' ', n) == [' '] + Repeat(' ', n - 1);
      assert (Repeat(' ', n) + text)[1..] == Repeat(' ', n - 1) + text;
    } else {
      assert Repeat(' ', n) + text == text;
    }
  }

  /** A one-level block followed by an unindented line, such as
      "def hello():\n    print('hi')\nprint('bye')": the header and the last
      line get a bare EXEC, the indented line one REDUCE_INDENT before it. */
  lemma PreparedChunkBlockThenOutdent(header: string, body: string, after: string)
    requires Exec !in header && Exec !in body && Exec !in after
    requires |header| > 0 && header[0] != ' '
    requires |body| > 0 && body[0] != ' '
    requires |after| > 0 && after[0] != ' '
    ensures PreparedChunk(header + [Exec] + (Repeat(' ', 4) + body) + [Exec] + after)
         == [header + [Exec], body + [ReduceIndent, Exec], after + [Exec]]
  {
    var l1 := Repeat(' ', 4) + body;
    var chunk := header + [Exec] + l1 + [Exec] + after;
    assert Exec !in l1 by {
      NotInRightPart(Repeat(' ', 4), body, Exec);
      assert forall k :: 0 <= k < 4 ==> l1[k] == ' ';
    }
    ExampleSplit(header, l1, after);
    BlockThenOutdentLines(header, body, after);
  }

  lemma BlockThenOutdentLines(header: string, body: string, after: string)
    requires Exec !in header && Exec !in body && Exec !in after
    requires |header| > 0 && header[0] != ' '
    requires |body| > 0 && body[0] != ' '
    requires |after| > 0 && after[0] != ' '
    ensures PreparedLines([header, Repeat(' ', 4) + body, after])
         == [header + [Exec], body + [ReduceIndent, Exec], after + [Exec]]
  {
    var l1 := Repeat(' ', 4) + body;
    var lines := [header, l1, after];
    LeadingSpacesOf(4, body);
    assert CountLineIndents(header) == 0 && CountLineIndents(after) == 0;
    assert NeededBreaks(lines, 0) == [Exec];
    assert NeededBreaks(lines, 1) == [ReduceIndent, Exec];
    assert NeededBreaks(lines, 2) == [Exec];
    StripIndent(0, header);
    StripIndent(4, body);
    StripIndent(0, after);
    assert Repeat(' ', 0) + header == header && Repeat(' ', 0) + after == after;
    var r := PreparedLines(lines);
    assert r[0] == PreparedLine(lines, 0) && r[1] == PreparedLine(lines, 1) && r[2] == PreparedLine(lines, 2);
    RemoveLeadingSpacesAppend(header, [Exec]);
    RemoveLeadingSpacesAppend(l1, [ReduceIndent, Exec]);
    RemoveLeadingSpacesAppend(after, [Exec]);
    SeqOfThree(r, header + [Exec], body + [ReduceIndent, Exec], after + [Exec]);
  }

  /** Stripping `n` spaces in front of text that does not start with one. */
  lemma StripIndent(n: nat, text: string)
    requires |text| > 0 && text[0] != ' '
    ensures RemoveLeadingSpaces(Repeat(' ', n) + text) == text
  {
    LeadingSpacesOf(n, text);
    assert (Repeat(' ', n) + text)[n..] == text;
  }

  /** countLineIndents rounds down: 3 spaces are no indent, 4 are one, 26 are six. */
  lemma CountLineIndentsExamples(text: string)
    requires |text| > 0 && text[0] != ' '
    ensures CountLineIndents(Repeat(' ', 3) + text) == 0
    ensures CountLineIndents(Repeat(' ', 4) + text) == 1
    ensures CountLineIndents(Repeat(' ', 26) + text) == 6
  {
    LeadingSpacesOf(26, text);
    LeadingSpacesOf(3, text);
    LeadingSpacesOf(4, text);
  }
}
