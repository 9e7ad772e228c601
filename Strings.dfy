/** JavaScript string operations used by the extension (indexOf, includes,
    split, join, replace, trim, endsWith, Number.toString(16)), stated over
    `string == seq<char>`. */
module Strings {

  datatype Option<+T> = None | Some(value: T)

  /** A pass/fail result carrying the error message of a thrown Error. */
  datatype Outcome = Pass | Fail(message: string)

  // ---------------------------------------------------------------------
  // Searching

  /** `sub` occurs in `s` starting at index `i`. */
  predicate OccursAt(s: string, sub: string, i: nat)
  {
    i + |sub| <= |s| && s[i..i + |sub|] == sub
  }

  /** `s.indexOf(sub)`: the first index at which `sub` occurs, if any. */
  function IndexOf(s: string, sub: string): (r: Option<nat>)
    ensures r.Some? ==> OccursAt(s, sub, r.value)
    ensures r.Some? ==> forall j: nat :: j < r.value ==> !OccursAt(s, sub, j)
    ensures r.None? ==> forall j: nat :: !OccursAt(s, sub, j)
    decreases |s|
  {
    if |s| < |sub| then None
    else if s[..|sub|] == sub then Some(0)
    else
      var rest := IndexOf(s[1..], sub);
      OccursShift(s, sub);
      match rest
      case None => None
      case Some(k) => Some(k + 1)
  }

  /** An occurrence at `j >= 1` is an occurrence at `j - 1` in the tail. */
  lemma OccursShift(s: string, sub: string)
    requires |s| > 0
    ensures forall j: nat {:trigger OccursAt(s, sub, j)} :: 1 <= j ==>
      (OccursAt(s, sub, j) <==> OccursAt(s[1..], sub, j - 1))
  {
    forall j: nat | 1 <= j
      ensures OccursAt(s, sub, j) <==> OccursAt(s[1..], sub, j - 1)
    {
      if j + |sub| <= |s| {
        assert s[1..][j - 1..j - 1 + |sub|] == s[j..j + |sub|];
      }
    }
  }

  /** `s.includes(sub)`. */
  predicate Contains(s: string, sub: string)
  {
    IndexOf(s, sub).Some?
  }

  lemma ContainsIff(s: string, sub: string)
    ensures Contains(s, sub) <==> exists j: nat :: OccursAt(s, sub, j)
  {
  }

  /** An occurrence inside either part of a concatenation is an occurrence in the whole. */
  lemma ContainsConcat(a: string, b: string, sub: string)
    ensures Contains(a, sub) ==> Contains(a + b, sub)
    ensures Contains(b, sub) ==> Contains(a + b, sub)
  {
    if Contains(a, sub) {
      var j := IndexOf(a, sub).value;
      assert (a + b)[j..j + |sub|] == a[j..j + |sub|];
      assert OccursAt(a + b, sub, j);
    }
    if Contains(b, sub) {
      var j := IndexOf(b, sub).value;
      assert (a + b)[|a| + j..|a| + j + |sub|] == b[j..j + |sub|];
      assert OccursAt(a + b, sub, |a| + j);
    }
  }

  /** Occurrences survive concatenation, shifted by the left part's length. */
  lemma OccursInConcat(a: string, b: string, sub: string, j: nat)
    ensures OccursAt(a, sub, j) ==> OccursAt(a + b, sub, j)
    ensures OccursAt(b, sub, j) ==> OccursAt(a + b, sub, |a| + j)
  {
    if OccursAt(a, sub, j) {
      assert (a + b)[j..j + |sub|] == a[j..j + |sub|];
    }
    if OccursAt(b, sub, j) {
      assert (a + b)[|a| + j..|a| + j + |sub|] == b[j..j + |sub|];
    }
  }

  /** A string that does not include a one-character string lacks that character. */
  lemma NotContainsChar(s: string, c: char)
    requires !Contains(s, [c])
    ensures c !in s
  {
    ContainsIff(s, [c]);
    if c in s {
      var j :| 0 <= j < |s| && s[j] == c;
      assert s[j..j + 1] == [c];
      assert OccursAt(s, [c], j);
    }
  }

  /** What a concatenation lacks, its right part lacks. */
  lemma NotInRightPart<T>(a: seq<T>, b: seq<T>, x: T)
    requires x !in a + b
    ensures x !in b
  {
    forall k | 0 <= k < |b| ensures b[k] != x {
      assert (a + b)[|a| + k] == b[k];
    }
  }

  /** `s.endsWith(suffix)`. */
  predicate EndsWith(s: string, suffix: string)
  {
    |suffix| <= |s| && s[|s| - |suffix|..] == suffix
  }

  // ---------------------------------------------------------------------
  // split / join

  /** `s.split(sep)` for a non-empty separator string: never empty, and
      `"".split(sep) == [""]`. */
  function Split(s: string, sep: string): (r: seq<string>)
    requires sep != ""
    ensures |r| >= 1
    decreases |s|
  {
    match IndexOf(s, sep)
    case None => [s]
    case Some(i) => [s[..i]] + Split(s[i + |sep|..], sep)
  }

  /** `parts.join(sep)`. */
  function Join(parts: seq<string>, sep: string): string
  {
    if |parts| == 0 then ""
    else if |parts| == 1 then parts[0]
    else parts[0] + sep + Join(parts[1..], sep)
  }

  /** Joining the pieces of a split with the same separator gives the text back. */
  lemma {:induction false} JoinSplit(s: string, sep: string)
    requires sep != ""
    ensures Join(Split(s, sep), sep) == s
    decreases |s|
  {
    match IndexOf(s, sep)
    case None =>
    case Some(i) =>
      var head, tail := s[..i], s[i + |sep|..];
      var rest := Split(tail, sep);
      assert Split(s, sep) == [head] + rest;
      assert ([head] + rest)[1..] == rest;
      JoinSplit(tail, sep);
      assert s[i..i + |sep|] == sep;
      assert s == head + s[i..i + |sep|] + tail;
  }

  /** No piece of a split contains the separator. */
  lemma {:induction false} SplitPiecesFree(s: string, sep: string)
    requires sep != ""
    ensures forall k :: 0 <= k < |Split(s, sep)| ==> !Contains(Split(s, sep)[k], sep)
    decreases |s|
  {
    match IndexOf(s, sep)
    case None =>
    case Some(i) =>
      SplitPiecesFree(s[i + |sep|..], sep);
      var head := s[..i];
      forall j: nat ensures !OccursAt(head, sep, j) {
        if j + |sep| <= |head| {
          SubSlice(s, 0, i, j, j + |sep|);
          assert j < i;
          assert !OccursAt(s, sep, j);
        }
      }
      ContainsIff(head, sep);
  }

  /** A split has a second piece exactly when the separator occurs. */
  lemma SplitHasSecond(s: string, sep: string)
    requires sep != ""
    ensures |Split(s, sep)| >= 2 <==> Contains(s, sep)
  {
  }

  /** Splitting on a character that the first part does not contain cuts there. */
  lemma SplitAtFirst(a: string, c: char, rest: string)
    requires c !in a
    ensures Split(a + [c] + rest, [c]) == [a] + Split(rest, [c])
  {
    var s := a + [c] + rest;
    assert OccursAt(s, [c], |a|) by { assert s[|a|..|a| + 1] == [c]; }
    forall j: nat | j < |a| ensures !OccursAt(s, [c], j) {
      assert s[j] == a[j];
    }
    assert IndexOf(s, [c]) == Some(|a|);
    assert s[..|a|] == a;
    assert s[|a| + 1..] == rest;
  }

  /** `ls` with `sep` after every element: how generated lines are ended. */
  function Terminated(ls: seq<string>, sep: string): string
  {
    if ls == [] then "" else ls[0] + sep + Terminated(ls[1..], sep)
  }

  /** Terminated lines, one element in front. */
  lemma TerminatedCons(x: string, ls: seq<string>, sep: string)
    ensures Terminated([x] + ls, sep) == x + sep + Terminated(ls, sep)
  {
    assert ([x] + ls)[1..] == ls;
  }

  /** Five terminated lines, written out. */
  lemma TerminatedFive(a: string, b: string, c: string, d: string, e: string, sep: string)
    ensures Terminated([a, b, c, d, e], sep) == a + sep + b + sep + c + sep + d + sep + e + sep
  {
    TerminatedCons(e, [], sep);
    TerminatedCons(d, [e], sep);
    TerminatedCons(c, [d, e], sep);
    TerminatedCons(b, [c, d, e], sep);
    TerminatedCons(a, [b, c, d, e], sep);
    assert [a] + [b, c, d, e] == [a, b, c, d, e];
    assert [b] + [c, d, e] == [b, c, d, e];
    assert [c] + [d, e] == [c, d, e];
    assert [d] + [e] == [d, e];
  }

  /** Appending one more element appends it and its terminator. */
  lemma {:induction false} TerminatedSnoc(ls: seq<string>, x: string, sep: string)
    ensures Terminated(ls + [x], sep) == Terminated(ls, sep) + x + sep
  {
    if ls == [] {
      assert [] + [x] == [x];
      assert [x][1..] == [];
    } else {
      assert (ls + [x])[0] == ls[0];
      assert (ls + [x])[1..] == ls[1..] + [x];
      TerminatedSnoc(ls[1..], x, sep);
      ConcatAssoc(ls[0] + sep, Terminated(ls[1..], sep), x);
      ConcatAssoc(ls[0] + sep, Terminated(ls[1..], sep) + x, sep);
    }
  }

  /** Terminating a non-empty list of lines is joining it and ending the
      last line too. */
  lemma {:induction false} TerminatedIsJoined(ls: seq<string>, sep: string)
    requires ls != []
    ensures Terminated(ls, sep) == Join(ls, sep) + sep
    decreases |ls|
  {
    if |ls| == 1 {
      assert ls[1..] == [];
    } else {
      TerminatedIsJoined(ls[1..], sep);
    }
  }

  /** Splitting terminated lines on the terminator recovers them, plus the
      empty piece after the last terminator. */
  lemma {:induction false} SplitTerminated(ls: seq<string>, c: char)
    requires forall k :: 0 <= k < |ls| ==> c !in ls[k]
    ensures Split(Terminated(ls, [c]), [c]) == ls + [""]
  {
    if ls == [] {
      assert IndexOf("", [c]) == None;
    } else {
      SplitTerminated(ls[1..], c);
      SplitAtFirst(ls[0], c, Terminated(ls[1..], [c]));
      assert ls == [ls[0]] + ls[1..];
    }
  }

  /** The plain concatenation of a sequence of strings. */
  function Concat(ls: seq<string>): string
  {
    if ls == [] then "" else ls[0] + Concat(ls[1..])
  }

  // ---------------------------------------------------------------------
  // replace / trim

  /** `s.replace(pattern, replacement)` with a STRING pattern: only the first
      literal occurrence is replaced (the pattern is not a regular expression). */
  function ReplaceFirst(s: string, pattern: string, replacement: string): (r: string)
    ensures !Contains(s, pattern) ==> r == s
    ensures Contains(s, pattern) ==>
      exists i: nat :: OccursAt(s, pattern, i) && r == s[..i] + replacement + s[i + |pattern|..]
  {
    match IndexOf(s, pattern)
    case None => s
    case Some(i) => s[..i] + replacement + s[i + |pattern|..]
  }

  /** The characters `String.prototype.trim` removes: white space and line terminators. */
  predicate IsJsWhitespace(c: char)
  {
    c == ' ' || c == '\t' || c == '\n' || c == '\r' || c == '\U{B}' || c == '\U{C}'
    || c == '\U{A0}' || c == '\U{1680}' || ('\U{2000}' <= c <= '\U{200A}')
    || c == '\U{2028}' || c == '\U{2029}' || c == '\U{202F}' || c == '\U{205F}'
    || c == '\U{3000}' || c == '\U{FEFF}'
  }

  function TrimStart(s: string): (r: string)
    ensures |r| <= |s| && r == s[|s| - |r|..]
    ensures |r| > 0 ==> !IsJsWhitespace(r[0])
    ensures forall i :: 0 <= i < |s| - |r| ==> IsJsWhitespace(s[i])
  {
    if |s| > 0 && IsJsWhitespace(s[0]) then TrimStart(s[1..]) else s
  }

  function TrimEnd(s: string): (r: string)
    ensures |r| <= |s| && r == s[..|r|]
    ensures |r| > 0 ==> !IsJsWhitespace(r[|r| - 1])
    ensures forall i :: |r| <= i < |s| ==> IsJsWhitespace(s[i])
  {
    if |s| > 0 && IsJsWhitespace(s[|s| - 1]) then TrimEnd(s[..|s| - 1]) else s
  }

  /** `s.trim()`: `s` with its leading and trailing white space removed. */
  function Trim(s: string): (r: string)
    ensures exists i: nat :: OccursAt(s, r, i)
    ensures |r| > 0 ==> !IsJsWhitespace(r[0]) && !IsJsWhitespace(r[|r| - 1])
  {
    var t := TrimStart(s);
    var r := TrimEnd(t);
    SubSlice(s, |s| - |t|, |s|, 0, |r|);
    assert OccursAt(s, r, |s| - |t|);
    r
  }

  /** A slice of a slice is a slice of the whole. */
  lemma SubSlice<T>(xs: seq<T>, a: nat, b: nat, c: nat, d: nat)
    requires a <= b <= |xs| && c <= d <= b - a
    ensures xs[a..b][c..d] == xs[a + c..a + d]
  {
    forall k | 0 <= k < d - c
      ensures xs[a..b][c..d][k] == xs[a + c..a + d][k]
    {
    }
  }

  lemma ConcatAssoc<T>(a: seq<T>, b: seq<T>, c: seq<T>)
    ensures a + b + c == a + (b + c)
  {
  }

  lemma SeqOfThree<T>(r: seq<T>, x: T, y: T, z: T)
    requires |r| == 3 && r[0] == x && r[1] == y && r[2] == z
    ensures r == [x, y, z]
  {
  }

  /** A slice is the concatenation of its two halves. */
  lemma SliceSplit<T>(xs: seq<T>, i: nat, j: nat, k: nat)
    requires i <= j <= k <= |xs|
    ensures xs[i..k] == xs[i..j] + xs[j..k]
  {
  }

  /** A prefix grows by the next element. */
  lemma PrefixExtend<T>(xs: seq<T>, i: nat)
    requires i < |xs|
    ensures xs[..i + 1] == xs[..i] + [xs[i]]
    ensures xs[..i + 1][..i] == xs[..i]
  {
  }

  /** A suffix loses its first element. */
  lemma SuffixAdvance<T>(xs: seq<T>, i: nat)
    requires i < |xs|
    ensures xs[i..][0] == xs[i]
    ensures xs[i..][1..] == xs[i + 1..]
  {
  }

  // ---------------------------------------------------------------------
  // Repetition

  /** `n` copies of `c`. */
  function Repeat(c: char, n: nat): (r: string)
    ensures |r| == n && forall i :: 0 <= i < n ==> r[i] == c
  {
    if n == 0 then [] else Repeat(c, n - 1) + [c]
  }

  // ---------------------------------------------------------------------
  // Number.prototype.toString(16)

  predicate IsHexDigit(c: char)
  {
    '0' <= c <= '9' || 'a' <= c <= 'f'
  }

  function HexDigit(d: nat): (c: char)
    requires d < 16
    ensures IsHexDigit(c)
  {
    if d < 10 then ('0' as int + d) as char else ('a' as int + d - 10) as char
  }

  function DigitValue(c: char): nat
  {
    if '0' <= c <= '9' then c as nat - '0' as nat
    else if 'a' <= c <= 'f' then c as nat - 'a' as nat + 10
    else 0
  }

  /** `n.toString(16)`: lower-case hexadecimal without leading zeros. */
  function Hex(n: nat): (r: string)
    ensures 1 <= |r|
    ensures forall i :: 0 <= i < |r| ==> IsHexDigit(r[i])
    decreases n
  {
    if n < 16 then [HexDigit(n)] else Hex(n / 16) + [HexDigit(n % 16)]
  }

  /** The number a string of hexadecimal digits denotes. */
  function HexValue(s: string): nat
  {
    if s == [] then 0 else HexValue(s[..|s| - 1]) * 16 + DigitValue(s[|s| - 1])
  }

  /** Reading back a hexadecimal rendering gives the number. */
  lemma {:induction false} HexRoundTrip(n: nat)
    ensures HexValue(Hex(n)) == n
    decreases n
  {
    if n < 16 {
      assert DigitValue(HexDigit(n)) == n;
    } else {
      HexRoundTrip(n / 16);
      var h := Hex(n);
      assert h[..|h| - 1] == Hex(n / 16);
      assert DigitValue(HexDigit(n % 16)) == n % 16;
    }
  }

  /** Numbers below 16 take one hexadecimal digit, numbers below 256 two. */
  lemma HexLength(n: nat)
    ensures n < 16 <==> |Hex(n)| == 1
    ensures 16 <= n < 256 ==> |Hex(n)| == 2
  {
    if 16 <= n {
      assert |Hex(n)| == |Hex(n / 16)| + 1;
    }
  }
}
