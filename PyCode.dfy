/** The pieces of Python source text that the file-writing helpers of
    src/deviceSystem.ts, src/microPythonFS.ts and src/microFS.ts have in
    common: the target path, the "remove the old file" prelude and the
    `f.write(...)` line made for each line of the file's text. A generated
    script is a sequence of lines, each ended by '\n' (`Terminated`). */
module PyCode {
  import opened Strings
  import ReplParser

  const Newline: char := '\n'
  /** What precedes the copied text in a write line: four spaces of indent. */
  const WriteOpen: string := "    f.write(\""
  const WriteClose: string := "\")"
  /** A backslash followed by `n`, so that Python writes a line break. */
  const EscapedNewline: string := "\\n"

  /** The file path: `path/filename` for a non-empty path, else the name alone. */
  function FilePath(filename: string, path: string): (r: string)
    ensures EndsWith(r, filename)
    ensures r == filename <==> path == ""
  {
    if path != "" then path + "/" + filename else filename
  }

  /** The prelude that removes an existing file and ignores any error. */
  function RemoveFileLines(filePath: string): (r: seq<string>)
    ensures |r| == 5
  {
    ["try:", "    import uos", "    uos.remove(\"" + filePath + "\")", "except:", "    pass"]
  }

  /** The line that opens the file for writing. */
  function OpenForWrite(filePath: string): string
  {
    "with open(\"" + filePath + "\", \"w\") as f:"
  }

  /** The write line for one line of text; `ending` is what follows the copied text. */
  function WriteCall(piece: string, ending: string): string
  {
    WriteOpen + piece + ending + WriteClose
  }

  function WriteCalls(pieces: seq<string>, ending: string): (r: seq<string>)
    ensures |r| == |pieces|
  {
    seq(|pieces|, i requires 0 <= i < |pieces| => WriteCall(pieces[i], ending))
  }

  /** Reading a write line back: the text between the opening and the ending. */
  function WrittenPiece(line: string, ending: string): string
  {
    if |line| >= |WriteOpen| + |ending| + |WriteClose| then
      line[|WriteOpen|..|line| - |ending| - |WriteClose|]
    else ""
  }

  /** The lines of a text, as `text.split('\n')` gives them. */
  function TextLines(text: string): (r: seq<string>)
    ensures |r| >= 1
  {
    Split(text, [Newline])
  }

  /** The pieces a run of write lines carries, verbatim and in order, joined
      by '\n'. */
  function RecoveredText(writeLines: seq<string>, ending: string): string
  {
    Join(seq(|writeLines|, i requires 0 <= i < |writeLines| => WrittenPiece(writeLines[i], ending)), [Newline])
  }

  /** The file Python writes from a run of write lines that end in the
      escaped line break: every carried piece followed by '\n'. */
  function WrittenFile(writeLines: seq<string>): string
  {
    Terminated(seq(|writeLines|, i requires 0 <= i < |writeLines| => WrittenPiece(writeLines[i], EscapedNewline)), [Newline])
  }

  // ---------------------------------------------------------------------
  // Properties

  /** The prelude as the generators write it out. */
  lemma RemoveFileTerminated(filePath: string)
    ensures Terminated(RemoveFileLines(filePath), [Newline]) ==
      "try:" + "\n" + "    import uos" + "\n" + "    uos.remove(\"" + filePath + "\")" + "\n"
      + "except:" + "\n" + "    pass" + "\n"
  {
    TerminatedFive("try:", "    import uos", "    uos.remove(\"" + filePath + "\")", "except:", "    pass", [Newline]);
  }

  /** The write lines made from a text carry its pieces verbatim and in
      order: joined by '\n' they give the text back. */
  lemma RecoveredTextRoundTrip(text: string, ending: string)
    ensures RecoveredText(WriteCalls(TextLines(text), ending), ending) == text
  {
    var pieces := TextLines(text);
    var calls := WriteCalls(pieces, ending);
    WriteCallsRoundTrip(pieces, ending);
    assert seq(|calls|, i requires 0 <= i < |calls| => WrittenPiece(calls[i], ending)) == pieces;
    JoinSplit(text, [Newline]);
  }

  /** The write lines made from a text write the text followed by one more
      line break: the last piece is ended by '\n' too. */
  lemma WrittenFileAddsLineBreak(text: string)
    ensures WrittenFile(WriteCalls(TextLines(text), EscapedNewline)) == text + [Newline]
  {
    var pieces := TextLines(text);
    var calls := WriteCalls(pieces, EscapedNewline);
    WriteCallsRoundTrip(pieces, EscapedNewline);
    assert seq(|calls|, i requires 0 <= i < |calls| => WrittenPiece(calls[i], EscapedNewline)) == pieces;
    TerminatedIsJoined(pieces, [Newline]);
    JoinSplit(text, [Newline]);
  }

  /** A write line carries its text verbatim. */
  lemma WrittenPieceRoundTrip(piece: string, ending: string)
    ensures WrittenPiece(WriteCall(piece, ending), ending) == piece
  {
    var line := WriteCall(piece, ending);
    assert line == WriteOpen + piece + (ending + WriteClose);
    assert line[|WriteOpen|..|WriteOpen| + |piece|] == piece;
  }

  /** Every write line of a script gives its piece back, in order. */
  lemma WriteCallsRoundTrip(pieces: seq<string>, ending: string)
    ensures forall i :: 0 <= i < |pieces| ==> WrittenPiece(WriteCalls(pieces, ending)[i], ending) == pieces[i]
  {
    forall i | 0 <= i < |pieces|
      ensures WrittenPiece(WriteCalls(pieces, ending)[i], ending) == pieces[i]
    {
      WrittenPieceRoundTrip(pieces[i], ending);
    }
  }

  /** Under the REPL parser's indentation rule a write line is one level deep. */
  lemma WriteCallIndent(piece: string, ending: string)
    ensures ReplParser.CountLineIndents(WriteCall(piece, ending)) == 1
  {
    var text := "f.write(\"" + piece + ending + WriteClose;
    assert WriteCall(piece, ending) == Repeat(' ', 4) + text;
    ReplParser.LeadingSpacesOf(4, text);
  }

  /** A line that starts with a non-space is at indentation level 0. */
  lemma TopLevelIndent(line: string)
    requires |line| > 0 && line[0] != ' '
    ensures ReplParser.CountLineIndents(line) == 0
  {
  }

  lemma WriteCallsExtend(pieces: seq<string>, ending: string, i: nat)
    requires i < |pieces|
    ensures WriteCalls(pieces[..i + 1], ending) == WriteCalls(pieces[..i], ending) + [WriteCall(pieces[i], ending)]
  {
    PrefixExtend(pieces, i);
  }

  /** No line of `text.split('\n')` holds a line break. */
  lemma TextLinesHaveNoNewline(text: string)
    ensures forall k :: 0 <= k < |TextLines(text)| ==> Newline !in TextLines(text)[k]
  {
    SplitPiecesFree(text, [Newline]);
    forall k | 0 <= k < |TextLines(text)| ensures Newline !in TextLines(text)[k] {
      NotContainsChar(TextLines(text)[k], Newline);
    }
  }

  /** A script made of newline-free header lines and the write lines of
      newline-free pieces splits back on '\n' into exactly those lines. */
  lemma ScriptSplit(head: seq<string>, pieces: seq<string>, ending: string)
    requires forall k :: 0 <= k < |head| ==> Newline !in head[k]
    requires forall k :: 0 <= k < |pieces| ==> Newline !in pieces[k]
    requires Newline !in ending
    ensures var lines := head + WriteCalls(pieces, ending);
      && Split(Terminated(lines, [Newline]), [Newline]) == lines + [""]
      && lines[|head|..] == WriteCalls(pieces, ending)
  {
    var writes := WriteCalls(pieces, ending);
    var lines := head + writes;
    WriteCallsHaveNoNewline(pieces, ending);
    assert lines[|head|..] == writes;
    forall k | 0 <= k < |lines| ensures Newline !in lines[k] {
      if k >= |head| {
        assert lines[k] == writes[k - |head|];
      }
    }
    SplitTerminated(lines, Newline);
  }

  /** The prelude and an open line hold no line break when the path holds none. */
  lemma HeadHasNoNewline(filePath: string, open: string)
    requires Newline !in filePath && Newline !in open
    ensures var head := RemoveFileLines(filePath) + [open];
      forall k :: 0 <= k < |head| ==> Newline !in head[k]
  {
  }

  /** Write lines of newline-free pieces hold no line break themselves. */
  lemma WriteCallsHaveNoNewline(pieces: seq<string>, ending: string)
    requires forall k :: 0 <= k < |pieces| ==> Newline !in pieces[k]
    requires Newline !in ending
    ensures forall k :: 0 <= k < |pieces| ==> Newline !in WriteCalls(pieces, ending)[k]
  {
  }
}
