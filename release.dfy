/**
  The release script (make-release.py): it reads the version from the regular
  font's naming table, names the archive after it, and lists the archive's
  entries: the sorted font files, the read-me, the licence text and the usage terms.
 */
module Release {
  import opened Wrappers
  import opened PyStr
  import opened NameTable

  /** The nameID of the version string. */
  const VERSION_ID: nat := 5

  /** Any record with nameID 5, whatever its platform, encoding and language. */
  const VERSION_SELECTOR: Selector := Selector(VERSION_ID, None, None, None)

  /** The prefix, compared after lowercasing, that announces a "Version <number>" string. */
  const VERSION_PREFIX: string := "version "

  /** `split()[1]` on a text with fewer than two tokens raises `IndexError`. */
  datatype VersionError = IndexError

  // ---------------------------------------------------------------------------
  // The version string

  /** The value of the `version` variable after the prefix test. */
  function StripVersion(text: string): Result<string, VersionError> {
    if StartsWith(Lower(text), VERSION_PREFIX) then
      var tokens := Split(text);
      if |tokens| < 2 then Err(IndexError) else Ok(tokens[1])
    else
      Ok(text)
  }

  /** `get_version`: the first nameID-5 record decides; with none the result is `None`. */
  function VersionOf(names: seq<NameRecord>): Result<Option<string>, VersionError> {
    match GetName(names, VERSION_SELECTOR)
    case None => Ok(None)
    case Some(rec) =>
      match StripVersion(rec.text)
      case Ok(v) => Ok(Some(v))
      case Err(e) => Err(e)
  }

  /** The search loop of `get_version`, returning at the first record with nameID 5. */
  method GetVersion(names: seq<NameRecord>) returns (r: Result<Option<string>, VersionError>)
    ensures r == VersionOf(names)
  {
    var i := 0;
    while i < |names|
      invariant 0 <= i <= |names|
      invariant forall j :: 0 <= j < i ==> names[j].nameID != VERSION_ID
    {
      if names[i].nameID == VERSION_ID {
        var version := names[i].text;
        FindFirstIs(names, VERSION_SELECTOR, i);
        if StartsWith(Lower(version), VERSION_PREFIX) {
          var tokens := Split(version);
          if |tokens| < 2 {
            return Err(IndexError);
          }
          version := tokens[1];
        }
        return Ok(Some(version));
      }
      i := i + 1;
    }
    return Ok(None);
  }

  /** With no record of nameID 5 the result is `None`, and only then. */
  lemma VersionMissing(names: seq<NameRecord>)
    ensures VersionOf(names) == Ok(None) <==> forall i :: 0 <= i < |names| ==> names[i].nameID != VERSION_ID
  {
    match FindFirst(names, VERSION_SELECTOR)
    case None =>
    case Some(i) =>
      assert names[i].nameID == VERSION_ID;
  }

  /** The first record of nameID 5 in table order decides the version; later ones are ignored. */
  lemma VersionFromFirst(names: seq<NameRecord>, i: nat)
    requires i < |names| && names[i].nameID == VERSION_ID
    requires forall j :: 0 <= j < i ==> names[j].nameID != VERSION_ID
    ensures StripVersion(names[i].text).Ok? ==> VersionOf(names) == Ok(Some(StripVersion(names[i].text).value))
    ensures StripVersion(names[i].text).Err? ==> VersionOf(names) == Err(IndexError)
  {
    FindFirstIs(names, VERSION_SELECTOR, i);
  }

  /**
    The prefix test of `get_version`: the text starts with "version " when each of
    its first eight characters is the lower- or the upper-case letter of "version ",
    or the space, and only then.
   */
  lemma LowerPrefix(t: string)
    ensures StartsWith(Lower(t), VERSION_PREFIX) <==>
      |t| >= 8 && forall k :: 0 <= k < 8 ==> t[k] == VERSION_PREFIX[k] || t[k] == "VERSION "[k]
  {
    var upper := "VERSION ";
    assert forall k :: 0 <= k < 8 ==> !IsUpper(VERSION_PREFIX[k]) && upper[k] == UpperChar(VERSION_PREFIX[k]);
    LowerStartsWith(t, VERSION_PREFIX);
  }

  /** Text that does not start with "version ", in any letter case, is the version as it stands. */
  lemma StripVersionVerbatim(text: string)
    requires !StartsWith(Lower(text), VERSION_PREFIX)
    ensures StripVersion(text) == Ok(text)
  {
  }

  /**
    After the prefix, the version is the first token of the rest of the text; the
    lookup of the second token fails exactly when the rest is only whitespace.
   */
  lemma StripVersionPrefixed(text: string)
    requires StartsWith(Lower(text), VERSION_PREFIX)
    ensures StripVersion(text).Err? <==> AllSpace(text[8..])
    ensures StripVersion(text).Ok? ==> Split(text[8..]) != [] && StripVersion(text) == Ok(Split(text[8..])[0])
  {
    var head, rest := text[..7], text[8..];
    assert text == head + text[7..];
    assert text[7..] == [text[7]] + rest;
    assert IsSpace(text[7]) by { assert Lower(text)[7] == ' '; }
    assert NoSpace(head) by {
      forall k | 0 <= k < 7 ensures !IsSpace(head[k]) {
        assert Lower(text)[k] == VERSION_PREFIX[k];
      }
    }
    SplitWord(head, text[7..]);
    SplitSkipsSpaces([text[7]], rest);
    assert Split(text) == [head] + Split(rest);
    SplitEmptyIff(rest);
  }

  /** "Version " followed by one word, such as "Version 5.002", gives that word. */
  lemma StripVersionWord(v: string)
    requires v != [] && NoSpace(v)
    ensures StripVersion("Version " + v) == Ok(v)
  {
    var text := "Version " + v;
    assert StartsWith(Lower(text), VERSION_PREFIX) by {
      assert Lower(text)[..8] == VERSION_PREFIX by {
        forall k | 0 <= k < 8 ensures Lower(text)[k] == VERSION_PREFIX[k] { assert text[k] == "Version "[k]; }
      }
    }
    StripVersionPrefixed(text);
    assert text[8..] == v;
    SplitWord(v, "");
    assert v + "" == v;
  }

  /** "Version " followed by whitespace only has no second token. */
  lemma StripVersionNoNumber(ws: string)
    requires AllSpace(ws)
    ensures StripVersion("Version " + ws) == Err(IndexError)
  {
    var text := "Version " + ws;
    assert StartsWith(Lower(text), VERSION_PREFIX) by {
      assert Lower(text)[..8] == VERSION_PREFIX by {
        forall k | 0 <= k < 8 ensures Lower(text)[k] == VERSION_PREFIX[k] { assert text[k] == "Version "[k]; }
      }
    }
    StripVersionPrefixed(text);
    assert text[8..] == ws;
  }

  // ---------------------------------------------------------------------------
  // The archive name

  /** How the f-string renders the version: `None` prints as "None". */
  function VersionText(version: Option<string>): string {
    match version
    case None => "None"
    case Some(v) => v
  }

  /** The archive file name built from the version. */
  function ArchiveName(version: Option<string>): (name: string)
    ensures StartsWith(name, "tabula-quattro-")
    ensures |name| >= 19 && name[|name| - 4..] == ".zip"
    ensures name[15..|name| - 4] == VersionText(version)
  {
    "tabula-quattro-" + VersionText(version) + ".zip"
  }

  /** Different version strings give different archive names. */
  lemma ArchiveNameInjective(a: string, b: string)
    ensures ArchiveName(Some(a)) == ArchiveName(Some(b)) <==> a == b
  {
    if ArchiveName(Some(a)) == ArchiveName(Some(b)) {
      var n := ArchiveName(Some(a));
      assert a == n[15..|n| - 4];
      assert b == n[15..|n| - 4];
    }
  }

  /** A font without a version record gives the same archive name as a version text "None". */
  lemma ArchiveNameMissingVersion()
    ensures ArchiveName(None) == "tabula-quattro-None.zip"
    ensures ArchiveName(None) == ArchiveName(Some("None"))
  {
  }

  // ---------------------------------------------------------------------------
  // The archive's entries

  /** Python's `<=` on strings: code-point order, a proper prefix sorting first. */
  predicate LexLe(a: string, b: string)
    decreases |a|
  {
    if a == [] then true
    else if b == [] then false
    else if a[0] != b[0] then a[0] < b[0]
    else LexLe(a[1..], b[1..])
  }

  /** Any two names are ordered one way or the other. */
  lemma {:induction false} LexLeTotal(a: string, b: string)
    ensures LexLe(a, b) || LexLe(b, a)
    decreases |a|
  {
    if a != [] && b != [] && a[0] == b[0] {
      LexLeTotal(a[1..], b[1..]);
    }
  }

  /** Two names that sort no later than each other are the same name. */
  lemma {:induction false} LexLeAntisymmetric(a: string, b: string)
    requires LexLe(a, b) && LexLe(b, a)
    ensures a == b
    decreases |a|
  {
    if a != [] && b != [] {
      LexLeAntisymmetric(a[1..], b[1..]);
      assert a == [a[0]] + a[1..] && b == [b[0]] + b[1..];
    }
  }

  /** A name sorts before every longer name it is a prefix of. */
  lemma {:induction false} LexLePrefix(a: string, b: string)
    ensures LexLe(a, a + b)
    decreases |a|
  {
    if a != [] {
      assert (a + b)[1..] == a[1..] + b;
      LexLePrefix(a[1..], b);
    }
  }

  /** Each name sorts no later than the next. */
  predicate Sorted(s: seq<string>) {
    forall i :: 0 < i < |s| ==> LexLe(s[i - 1], s[i])
  }

  /** `x` placed before the first name it sorts no later than. */
  function Insert(x: string, s: seq<string>): (r: seq<string>)
    requires Sorted(s)
    ensures Sorted(r)
    ensures multiset(r) == multiset(s) + multiset{x}
    ensures |r| == |s| + 1
    ensures r[0] == x || (s != [] && r[0] == s[0])
  {
    if s == [] then [x]
    else if LexLe(x, s[0]) then [x] + s
    else
      LexLeTotal(x, s[0]);
      assert s == [s[0]] + s[1..];
      [s[0]] + Insert(x, s[1..])
  }

  /** `sorted()` on the globbed font files. */
  function SortNames(s: seq<string>): (r: seq<string>)
    ensures Sorted(r)
    ensures multiset(r) == multiset(s)
    ensures |r| == |s|
  {
    if s == [] then []
    else
      assert s == [s[0]] + s[1..];
      Insert(s[0], SortNames(s[1..]))
  }

  const README_NAME: string := "README.md"
  const LICENSE_FILE_NAME: string := "OFL-1.1-RFN.txt"
  const USAGE_TERMS_NAME: string := "USAGE_TERMS.md"

  /** The entry names, in the order they are written. */
  function EntryNames(fontFiles: seq<string>): (r: seq<string>)
    ensures |r| == |fontFiles| + 3
    ensures Sorted(r[..|fontFiles|]) && multiset(r[..|fontFiles|]) == multiset(fontFiles)
    ensures r[|fontFiles|..] == [README_NAME, LICENSE_FILE_NAME, USAGE_TERMS_NAME]
  {
    var fonts := SortNames(fontFiles);
    var r := fonts + [README_NAME, LICENSE_FILE_NAME, USAGE_TERMS_NAME];
    assert r[..|fontFiles|] == fonts;
    r
  }

  predicate EndsWith(s: string, suffix: string) {
    |suffix| <= |s| && s[|s| - |suffix|..] == suffix
  }

  /** Pairwise different names. */
  predicate Distinct(s: seq<string>) {
    forall i, j :: 0 <= i < j < |s| ==> s[i] != s[j]
  }

  /** A name that occurs twice is counted twice. */
  lemma RepeatCounted(s: seq<string>, i: nat, j: nat)
    requires i < j < |s| && s[i] == s[j]
    ensures multiset(s)[s[i]] >= 2
  {
    assert s == s[..j] + [s[j]] + s[j + 1..];
    assert s[..j][i] == s[i];
  }

  /** In a list of different names each is counted once. */
  lemma {:induction false} DistinctCountedOnce(s: seq<string>, x: string)
    requires Distinct(s) && x in s
    ensures multiset(s)[x] == 1
  {
    assert s == [s[0]] + s[1..];
    if x == s[0] {
      assert x !in s[1..] by {
        forall k | 0 <= k < |s[1..]| ensures s[1..][k] != x { assert s[1..][k] == s[k + 1]; }
      }
    } else {
      assert Distinct(s[1..]) by {
        forall i, j | 0 <= i < j < |s[1..]| ensures s[1..][i] != s[1..][j] {
          assert s[1..][i] == s[i + 1] && s[1..][j] == s[j + 1];
        }
      }
      DistinctCountedOnce(s[1..], x);
    }
  }

  /** A permutation of different names holds different names. */
  lemma PermutationDistinct(a: seq<string>, b: seq<string>)
    requires multiset(a) == multiset(b) && Distinct(a)
    ensures Distinct(b)
  {
    forall i, j | 0 <= i < j < |b| ensures b[i] != b[j] {
      if b[i] == b[j] {
        RepeatCounted(b, i, j);
        assert b[i] in multiset(a);
        DistinctCountedOnce(a, b[i]);
        assert false;
      }
    }
  }

  /** None of the three fixed entries is named like a font file. */
  lemma FixedEntriesNotFonts()
    ensures !EndsWith(README_NAME, ".ttf") && !EndsWith(LICENSE_FILE_NAME, ".ttf") && !EndsWith(USAGE_TERMS_NAME, ".ttf")
  {
    assert README_NAME[|README_NAME| - 4..][0] == 'E';
    assert LICENSE_FILE_NAME[|LICENSE_FILE_NAME| - 4..][2] == 'x';
    assert USAGE_TERMS_NAME[|USAGE_TERMS_NAME| - 4..][0] == 'S';
  }

  /** The font entries are the font files themselves, so they end in ".ttf" when the files do. */
  lemma FontEntriesNamedLikeFonts(fontFiles: seq<string>, i: nat)
    requires forall k :: 0 <= k < |fontFiles| ==> EndsWith(fontFiles[k], ".ttf")
    requires i < |fontFiles|
    ensures EndsWith(EntryNames(fontFiles)[i], ".ttf")
  {
    var fonts := EntryNames(fontFiles)[..|fontFiles|];
    assert EntryNames(fontFiles)[i] == fonts[i];
    assert fonts[i] in multiset(fontFiles);
  }

  /** No two entries share a name when the font files are distinct and all end in ".ttf". */
  lemma EntryNamesDistinct(fontFiles: seq<string>)
    requires Distinct(fontFiles)
    requires forall i :: 0 <= i < |fontFiles| ==> EndsWith(fontFiles[i], ".ttf")
    ensures Distinct(EntryNames(fontFiles))
  {
    var r := EntryNames(fontFiles);
    var n := |fontFiles|;
    var fonts := r[..n];
    PermutationDistinct(fontFiles, fonts);
    FixedEntriesNotFonts();
    forall i, j | 0 <= i < j < |r| ensures r[i] != r[j] {
      if j < n {
        assert r[i] == fonts[i] && r[j] == fonts[j];
      } else if i < n {
        FontEntriesNamedLikeFonts(fontFiles, i);
        assert r[j] in r[n..];
      } else {
        assert r[i] == r[n..][i - n] && r[j] == r[n..][j - n];
      }
    }
  }
}
