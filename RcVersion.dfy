/** scripts/modifyConfigIfRCVersion.js: when the CI tag names a release
    candidate, the package manifest is rewritten so the build publishes as
    a separate test extension. The manifest is a map from top-level key to
    JSON value; reading and writing package.json are left out, and whether
    the write happens is returned. */
module RcVersion {
  import opened Strings

  /** A value of the manifest: a JSON string, a JSON array, or any other
      JSON value (number, boolean, null, object) kept as its text. */
  datatype Json = Str(s: string) | Arr(items: seq<Json>) | Other(text: string)

  const TestName: string := "test-micro-python-repl"
  const TestDisplayName: string := "Test MicroPythonREPL"
  const TestPublisher: string := "ladvien"

  // ---------------------------------------------------------------------
  // The tag test: /^v?[0-9]+\.[0-9]+\.[0-9]+-[rR][cC]/

  predicate IsDigit(c: char)
  {
    '0' <= c <= '9'
  }

  /** The number of digits in `t` from index `from` on. */
  function DigitRun(t: string, from: nat): (n: nat)
    requires from <= |t|
    ensures from + n <= |t|
    ensures forall i :: from <= i < from + n ==> IsDigit(t[i])
    ensures from + n == |t| || !IsDigit(t[from + n])
    decreases |t| - from
  {
    if from < |t| && IsDigit(t[from]) then 1 + DigitRun(t, from + 1) else 0
  }

  /** Where the digit run starting at `from` ends. */
  function RunEnd(t: string, from: nat): (e: nat)
    requires from <= |t|
    ensures from <= e <= |t|
  {
    from + DigitRun(t, from)
  }

  /** A non-empty digit run starts at `from` and is followed by `c`. */
  predicate RunThen(t: string, from: nat, c: char)
    requires from <= |t|
  {
    RunEnd(t, from) > from && RunEnd(t, from) < |t| && t[RunEnd(t, from)] == c
  }

  /** The length of the optional leading `v`. */
  function VLength(tag: string): nat
  {
    if |tag| > 0 && tag[0] == 'v' then 1 else 0
  }

  predicate IsRc(t: string, at: nat)
  {
    at + 2 < |t| && (t[at + 1] == 'r' || t[at + 1] == 'R') && (t[at + 2] == 'c' || t[at + 2] == 'C')
  }

  /** The tag test as a left-to-right scan: an optional `v`, three digit
      runs separated by dots, a dash, then `rc` in either case. Nothing is
      required after that. */
  predicate IsRcTag(tag: string)
  {
    var s := VLength(tag);
    RunThen(tag, s, '.') &&
    var i := RunEnd(tag, s);
    RunThen(tag, i + 1, '.') &&
    var j := RunEnd(tag, i + 1);
    RunThen(tag, j + 1, '-') &&
    IsRc(tag, RunEnd(tag, j + 1))
  }

  predicate AllDigits(t: string, from: nat, to: nat)
    requires from <= to <= |t|
  {
    forall i :: from <= i < to ==> IsDigit(t[i])
  }

  /** The shape the regular expression describes, with the cut points
      given: `tag[..s]` is the optional `v`, then the digit runs
      `tag[s..i]`, `tag[i+1..j]`, `tag[j+1..k]`. */
  predicate RcShapeAt(tag: string, s: nat, i: nat, j: nat, k: nat)
  {
    && s <= 1 && (s == 1 ==> |tag| > 0 && tag[0] == 'v')
    && s < i < j - 1 && j + 1 < k && k < |tag|
    && AllDigits(tag, s, i) && tag[i] == '.'
    && AllDigits(tag, i + 1, j) && tag[j] == '.'
    && AllDigits(tag, j + 1, k) && tag[k] == '-'
    && IsRc(tag, k)
  }

  /** A digit run that is followed by a non-digit is the whole run. */
  lemma RunEndIsMaximal(t: string, from: nat, to: nat)
    requires from <= to < |t|
    requires AllDigits(t, from, to) && !IsDigit(t[to])
    ensures RunEnd(t, from) == to
  {
  }

  /** Every tag of the regular expression's shape passes the scan: the
      optional `v` and the greedy digit runs can only be cut where the
      shape cuts them. */
  lemma RcTagComplete(tag: string, s: nat, i: nat, j: nat, k: nat)
    requires RcShapeAt(tag, s, i, j, k)
    ensures IsRcTag(tag)
  {
    assert VLength(tag) == s by {
      if s == 0 && |tag| > 0 && tag[0] == 'v' {
        assert false;
      }
    }
    RunEndIsMaximal(tag, s, i);
    RunEndIsMaximal(tag, i + 1, j);
    RunEndIsMaximal(tag, j + 1, k);
  }

  /** The scan accepts exactly the tags of the regular expression's shape. */
  lemma RcTagIff(tag: string)
    ensures IsRcTag(tag) <==> exists s: nat, i: nat, j: nat, k: nat :: RcShapeAt(tag, s, i, j, k)
  {
    if IsRcTag(tag) {
      var s := VLength(tag);
      var i := RunEnd(tag, s);
      var j := RunEnd(tag, i + 1);
      var k := RunEnd(tag, j + 1);
      assert RcShapeAt(tag, s, i, j, k);
    }
    if exists s: nat, i: nat, j: nat, k: nat :: RcShapeAt(tag, s, i, j, k) {
      var s: nat, i: nat, j: nat, k: nat :| RcShapeAt(tag, s, i, j, k);
      RcTagComplete(tag, s, i, j, k);
    }
  }

  /** A tag that passes: a leading `v`, lower-case `rc` and a number after it. */
  lemma RcTagAcceptsPrefixed()
    ensures IsRcTag("v1.2.3-rc1")
  {
    RcTagComplete("v1.2.3-rc1", 1, 2, 4, 6);
  }

  /** A tag that passes: no `v`, upper-case `RC` and nothing after it. */
  lemma RcTagAcceptsUpperCase()
    ensures IsRcTag("1.2.3-RC")
  {
    RcTagComplete("1.2.3-RC", 0, 1, 3, 5);
  }

  /** Tags that fail: a plain release, and a version with two numbers. */
  lemma RcTagRejects()
    ensures !IsRcTag("1.2.3")
    ensures !IsRcTag("1.2-rc")
  {
    assert DigitRun("1.2.3", 0) == 1;
    assert DigitRun("1.2.3", 2) == 1;
    assert DigitRun("1.2.3", 4) == 1;
    assert DigitRun("1.2-rc", 0) == 1;
    assert DigitRun("1.2-rc", 2) == 1;
  }

  /** The script runs its rewrite only for a set, non-empty tag that passes the test. */
  predicate ShouldModify(travisTag: Option<string>)
  {
    travisTag.Some? && travisTag.value != "" && IsRcTag(travisTag.value)
  }

  // ---------------------------------------------------------------------
  // The version cut

  /** The version cut before its first '-', unless that dash is at index 0. */
  function TruncateVersion(version: string): string
  {
    match IndexOf(version, "-")
    case Some(indexOfDash) => if indexOfDash > 0 then version[..indexOfDash] else version
    case None => version
  }

  lemma DashOccursAt(s: string, j: nat)
    ensures OccursAt(s, "-", j) <==> j < |s| && s[j] == '-'
  {
    if j < |s| {
      assert s[j..j + 1] == [s[j]];
    }
  }

  /** The cut version is a prefix of the version and holds no dash, unless
      the version starts with one, in which case it is kept whole. */
  lemma TruncateVersionShape(version: string)
    ensures TruncateVersion(version) <= version
    ensures |version| > 0 && version[0] == '-' ==> TruncateVersion(version) == version
    ensures !(|version| > 0 && version[0] == '-') ==> '-' !in TruncateVersion(version)
    ensures '-' !in version ==> TruncateVersion(version) == version
  {
    DashOccursAt(version, 0);
    var r := TruncateVersion(version);
    match IndexOf(version, "-")
    case None =>
      forall j | 0 <= j < |version| ensures version[j] != '-' {
        DashOccursAt(version, j);
      }
    case Some(d) =>
      DashOccursAt(version, d);
      if d > 0 {
        forall j | 0 <= j < d ensures version[j] != '-' {
          DashOccursAt(version, j);
        }
        assert forall j :: 0 <= j < |r| ==> r[j] == version[j];
      }
  }

  /** Cutting twice cuts no more than once. */
  lemma TruncateVersionIdempotent(version: string)
    ensures TruncateVersion(TruncateVersion(version)) == TruncateVersion(version)
  {
    TruncateVersionShape(version);
    var r := TruncateVersion(version);
    if |version| > 0 && version[0] == '-' {
    } else {
      TruncateVersionShape(r);
    }
  }

  // ---------------------------------------------------------------------
  // `packageJson.version.indexOf('-')` on any JSON value

  /** `Array.prototype.indexOf`: the first index of an element equal to `x`. */
  function ElementIndex(items: seq<Json>, x: Json): (r: Option<nat>)
    ensures r.Some? ==> r.value < |items| && items[r.value] == x && forall k :: 0 <= k < r.value ==> items[k] != x
    ensures r.None? ==> x !in items
  {
    if items == [] then None
    else if items[0] == x then Some(0)
    else match ElementIndex(items[1..], x)
      case None => None
      case Some(i) => Some(i + 1)
  }

  /** The version after lines 15-18 of the script, or `None` where they
      throw: a value without `indexOf` (number, boolean, null, object), or
      an array with a "-" element past index 0, which has no `substring`. */
  function CutVersion(version: Json): Option<Json>
  {
    match version
    case Str(s) => Some(Str(TruncateVersion(s)))
    case Arr(items) =>
      var indexOfDash := ElementIndex(items, Str("-"));
      if indexOfDash.Some? && indexOfDash.value > 0 then None else Some(version)
    case Other(_) => None
  }

  /** The script gets past the version cut. */
  predicate VersionCuttable(entries: map<string, Json>)
  {
    "version" in entries && CutVersion(entries["version"]).Some?
  }

  /** A string version is cut at its dash; an array is kept unless a "-"
      element past index 0 makes the script throw; anything else throws. */
  lemma CutVersionCases(version: Json)
    ensures version.Str? ==> CutVersion(version) == Some(Str(TruncateVersion(version.s)))
    ensures version.Arr? && (Str("-") !in version.items || version.items[0] == Str("-")) ==>
      CutVersion(version) == Some(version)
    ensures version.Arr? && |version.items| > 0 && version.items[0] != Str("-") && Str("-") in version.items ==>
      CutVersion(version) == None
    ensures version.Other? ==> CutVersion(version) == None
  {
  }

  /** Cutting a cut version changes nothing more. */
  lemma CutVersionIdempotent(version: Json)
    requires CutVersion(version).Some?
    ensures CutVersion(CutVersion(version).value) == CutVersion(version)
  {
    if version.Str? {
      TruncateVersionIdempotent(version.s);
    }
  }

  // ---------------------------------------------------------------------
  // The manifest rewrite

  /** The rewritten manifest, for one whose version the script can cut. */
  function RcManifest(entries: map<string, Json>): map<string, Json>
    requires VersionCuttable(entries)
  {
    (entries["name" := Str(TestName)]["displayName" := Str(TestDisplayName)]["publisher" := Str(TestPublisher)]
            ["version" := CutVersion(entries["version"]).value]) - {"icon"}
  }

  /** The rewrite sets the three names, cuts the version, drops the icon
      and leaves every other key as it was. */
  lemma RcManifestChanges(entries: map<string, Json>)
    requires VersionCuttable(entries)
    ensures var r := RcManifest(entries);
      && r.Keys == (entries.Keys + {"name", "displayName", "publisher"}) - {"icon"}
      && r["name"] == Str(TestName) && r["displayName"] == Str(TestDisplayName)
      && r["publisher"] == Str(TestPublisher)
      && r["version"] == CutVersion(entries["version"]).value
      && forall key :: key in entries && key !in {"name", "displayName", "publisher", "version", "icon"} ==>
           key in r && r[key] == entries[key]
  {
  }

  /** Rewriting an already rewritten manifest changes nothing. */
  lemma RcManifestIdempotent(entries: map<string, Json>)
    requires VersionCuttable(entries)
    ensures VersionCuttable(RcManifest(entries))
    ensures RcManifest(RcManifest(entries)) == RcManifest(entries)
  {
    CutVersionIdempotent(entries["version"]);
    var r := RcManifest(entries);
    var rr := RcManifest(r);
    assert rr.Keys == r.Keys;
    forall key | key in r ensures rr[key] == r[key] {
    }
  }

  /** The parsed package.json that the script edits in place. */
  class PackageJson {
    var entries: map<string, Json>

    constructor (entries: map<string, Json>)
      ensures this.entries == entries
    {
      this.entries := entries;
    }

    /** The script: with an RC tag, set the test names, cut the version and
        drop the icon, then write the file. Where the version cut throws
        (see `CutVersion`), the names are set and nothing is written.
        `written` says whether the write is reached. */
    method ModifyConfigIfRcVersion(travisTag: Option<string>) returns (written: bool)
      modifies this
      ensures !ShouldModify(travisTag) ==> !written && entries == old(entries)
      ensures ShouldModify(travisTag) && VersionCuttable(old(entries)) ==>
        written && entries == RcManifest(old(entries))
      ensures ShouldModify(travisTag) && !VersionCuttable(old(entries)) ==>
        !written && entries ==
          old(entries)["name" := Str(TestName)]["displayName" := Str(TestDisplayName)]["publisher" := Str(TestPublisher)]
    {
      written := false;
      if travisTag.Some? && travisTag.value != "" {
        var isTestVersion := IsRcTag(travisTag.value);
        if isTestVersion {
          entries := entries["name" := Str(TestName)];
          entries := entries["displayName" := Str(TestDisplayName)];
          entries := entries["publisher" := Str(TestPublisher)];
          if "version" !in entries {
            return;
          }
          ghost var named := entries;
          assert named["version"] == old(entries)["version"];
          match entries["version"] {
            case Str(version) =>
              var indexOfDash := IndexOf(version, "-");
              if indexOfDash.Some? && indexOfDash.value > 0 {
                entries := entries["version" := Str(version[..indexOfDash.value])];
              }
              assert entries == named["version" := CutVersion(named["version"]).value];
            case Arr(items) =>
              var indexOfDash := ElementIndex(items, Str("-"));
              if indexOfDash.Some? && indexOfDash.value > 0 {
                return;
              }
              assert entries == named["version" := CutVersion(named["version"]).value];
            case Other(_) =>
              return;
          }
          entries := entries - {"icon"};
          written := true;
        }
      }
    }
  }
}
