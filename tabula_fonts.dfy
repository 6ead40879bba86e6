/**
  The rename script (make-tabula-fonts.py): it reads a font's style from its
  subfamily name, rewrites the naming records from "iA Writer Quattro S" to
  "Tabula Quattro", adds the licence and sample-text records, and sets the weight
  class, `OS/2.fsSelection` and `head.macStyle` from the style.
 */
module TabulaFonts {
  import opened Wrappers
  import opened PyStr
  import opened NameTable
  import opened Styles
  import opened FontFlags

  const INPUT_FAMILY_NAME: string := "iA Writer Quattro S"
  const INPUT_POSTSCRIPT_FAMILY_NAME: string := "iAWriterQuattroS"
  const OUTPUT_FAMILY_NAME: string := "Tabula Quattro"
  const OUTPUT_POSTSCRIPT_FAMILY_NAME: string := "TabulaQuattro"

  const COPYRIGHT_PREFIX: string := "Copyright 2021 Rose Davidson, "
  const MANUFACTURER_PREFIX: string := "Straylight Labs and "
  const URL: string := "https://metaclassical.com"
  const LICENSE_NAME: string := "OFL-1.1-RFN"
  const LICENSE_URL: string := "http://scripts.sil.org/OFL"

  /** The sample text, written in three letter cases. */
  const PANGRAM: string :=
    "Sphinx of black quartz, judge my vow.\nSPHINX OF BLACK QUARTZ, JUDGE MY VOW.\nsphinx of black quartz, judge my vow."

  /** A (platformID, platEncID, langID) triple. */
  datatype PlatformIds = PlatformIds(platformID: nat, platEncID: nat, langID: nat)

  const WINDOWS_ENGLISH_IDS: PlatformIds := PlatformIds(3, 1, 0x409)
  const MAC_ROMAN_IDS: PlatformIds := PlatformIds(1, 0, 0)

  // ---------------------------------------------------------------------------
  // Name rewriting

  /** The rule `replace_names` applies to the text of a record with this nameID. */
  function RewriteText(nameID: nat, text: string): string {
    match NameIdOf(nameID)
    case None => text
    case Some(id) =>
      match id
      case Copyright => COPYRIGHT_PREFIX + text
      case Family => OUTPUT_FAMILY_NAME
      case UniqueId => Replace(text, INPUT_POSTSCRIPT_FAMILY_NAME, OUTPUT_POSTSCRIPT_FAMILY_NAME)
      case FullName => Replace(text, INPUT_FAMILY_NAME, OUTPUT_FAMILY_NAME)
      case PostscriptName => Replace(text, INPUT_POSTSCRIPT_FAMILY_NAME, OUTPUT_POSTSCRIPT_FAMILY_NAME)
      case Manufacturer => MANUFACTURER_PREFIX + text
      case VendorUrl => URL
      case DesignerUrl => URL
      case _ => text
  }

  function Rewrite(rec: NameRecord): NameRecord {
    rec.(text := RewriteText(rec.nameID, rec.text))
  }

  /** The first loop of `replace_names`: every record rewritten by its own rule. */
  function RewriteAll(names: seq<NameRecord>): (r: seq<NameRecord>)
    ensures |r| == |names|
    ensures forall i :: 0 <= i < |names| ==> r[i] == Rewrite(names[i])
  {
    seq(|names|, i requires 0 <= i < |names| => Rewrite(names[i]))
  }

  /** The platform triples the second loop of `replace_names` visits, in order. */
  const LICENSE_PLATFORMS: seq<PlatformIds> := [WINDOWS_ENGLISH_IDS, MAC_ROMAN_IDS]

  function KeyAt(p: PlatformIds, nameID: nat): Key {
    Key(nameID, p.platformID, p.platEncID, p.langID)
  }

  /** A key one iteration of the second loop of `replace_names` sets: nameID 13, 14 or 19 on that platform triple. */
  predicate IsLicenseKeyFor(k: Key, p: PlatformIds) {
    k == KeyAt(p, 13) || k == KeyAt(p, 14) || k == KeyAt(p, 19)
  }

  /** A key the second loop of `replace_names` sets, on either platform triple. */
  predicate IsLicenseKey(k: Key) {
    IsLicenseKeyFor(k, WINDOWS_ENGLISH_IDS) || IsLicenseKeyFor(k, MAC_ROMAN_IDS)
  }

  /** The text the second loop sets for each of its nameIDs. */
  function LicenseText(nameID: nat): string {
    if nameID == 13 then LICENSE_NAME else if nameID == 14 then LICENSE_URL else PANGRAM
  }

  /** The three `setName` calls of one iteration of the second loop. */
  function AddLicenseFor(names: seq<NameRecord>, p: PlatformIds): seq<NameRecord> {
    var a := Upserted(names, KeyAt(p, 13), LICENSE_NAME);
    var b := Upserted(a, KeyAt(p, 14), LICENSE_URL);
    Upserted(b, KeyAt(p, 19), PANGRAM)
  }

  /** The second loop of `replace_names` after its first `n` iterations. */
  function AddLicense(names: seq<NameRecord>, n: nat): seq<NameRecord>
    requires n <= |LICENSE_PLATFORMS|
  {
    if n == 0 then names else AddLicenseFor(AddLicense(names, n - 1), LICENSE_PLATFORMS[n - 1])
  }

  /** The table after `replace_names`. */
  function ReplacedNames(names: seq<NameRecord>): seq<NameRecord> {
    AddLicense(RewriteAll(names), |LICENSE_PLATFORMS|)
  }

  // ---------------------------------------------------------------------------
  // A font: its name table and the three numeric fields the script writes

  class Font {
    var names: seq<NameRecord>
    var usWeightClass: int
    var fsSelection: Bits16
    var macStyle: Bits16

    constructor (names: seq<NameRecord>, usWeightClass: int, fsSelection: Bits16, macStyle: Bits16)
      ensures this.names == names && this.usWeightClass == usWeightClass
      ensures this.fsSelection == fsSelection && this.macStyle == macStyle
    {
      this.names := names;
      this.usWeightClass := usWeightClass;
      this.fsSelection := fsSelection;
      this.macStyle := macStyle;
    }

    function FlagState(): Flags
      reads this
    {
      Flags(usWeightClass, fsSelection, macStyle)
    }

    /**
      `set_flags` as written. The loop over bits 0-6 calls `clear_bit` and drops
      its result, so `fsSelection` keeps every bit it had.
     */
    method SetFlags(style: Style)
      modifies this`usWeightClass, this`fsSelection, this`macStyle
      ensures usWeightClass == WeightClass(style)
      ensures fsSelection == Or(old(fsSelection), SelectionBits(style))
      ensures macStyle == MacStyleBits(style)
      ensures FlagState() == FlagsAfterSetFlags(old(FlagState()), style)
    {
      usWeightClass := 400;
      var selection := fsSelection;
      for bit := 0 to 7 {
        var discarded := ClearBit(selection, bit);
      }
      fsSelection := selection;
      macStyle := ZERO;

      if style == Regular {
        fsSelection := SetBit(fsSelection, FS_REGULAR);
      }
      if style in {Bold, BoldItalic} {
        usWeightClass := 700;
        fsSelection := SetBit(fsSelection, FS_BOLD);
        macStyle := SetBit(macStyle, MAC_BOLD);
      }
      if style in {Italic, BoldItalic} {
        fsSelection := SetBit(fsSelection, FS_ITALIC);
        macStyle := SetBit(macStyle, MAC_ITALIC);
      }
      SelectionSteps(selection, style);
      MacStyleSteps(style);
    }

    /** `set_flags` with the result of each `clear_bit` kept, so bits 0-6 are cleared before the style's bits are set. */
    method SetFlagsIntended(style: Style)
      modifies this`usWeightClass, this`fsSelection, this`macStyle
      ensures usWeightClass == WeightClass(style)
      ensures fsSelection == Or(ClearLowSeven(old(fsSelection)), SelectionBits(style))
      ensures macStyle == MacStyleBits(style)
      ensures FlagState() == IntendedFlags(old(FlagState()), style)
    {
      usWeightClass := 400;
      var selection := fsSelection;
      for bit := 0 to 7
        invariant forall i :: 0 <= i < WIDTH ==> selection[i] == (i >= bit && old(fsSelection)[i])
      {
        selection := ClearBit(selection, bit);
      }
      SameBits(selection, ClearLowSeven(old(fsSelection)));
      fsSelection := selection;
      macStyle := ZERO;

      if style == Regular {
        fsSelection := SetBit(fsSelection, FS_REGULAR);
      }
      if style in {Bold, BoldItalic} {
        usWeightClass := 700;
        fsSelection := SetBit(fsSelection, FS_BOLD);
        macStyle := SetBit(macStyle, MAC_BOLD);
      }
      if style in {Italic, BoldItalic} {
        fsSelection := SetBit(fsSelection, FS_ITALIC);
        macStyle := SetBit(macStyle, MAC_ITALIC);
      }
      SelectionSteps(selection, style);
      MacStyleSteps(style);
    }

    /** fontTools `setName`: overwrite the first record with this key, or append one. */
    method SetName(text: string, nameID: nat, platformID: nat, platEncID: nat, langID: nat)
      modifies this`names
      ensures names == Upserted(old(names), Key(nameID, platformID, platEncID, langID), text)
    {
      var k := Key(nameID, platformID, platEncID, langID);
      var found := FindFirst(names, Exact(k));
      match found
      case Some(i) =>
        names := names[i := names[i].(text := text)];
      case None =>
        names := names + [MakeRecord(k, text)];
    }

    /** `replace_names`: rewrite every record in place, then set the licence and sample-text records. */
    method ReplaceNames()
      modifies this`names
      ensures names == ReplacedNames(old(names))
    {
      var i := 0;
      while i < |names|
        invariant 0 <= i <= |names| == |old(names)|
        invariant forall k :: 0 <= k < i ==> names[k] == Rewrite(old(names)[k])
        invariant forall k :: i <= k < |names| ==> names[k] == old(names)[k]
      {
        names := names[i := Rewrite(names[i])];
        i := i + 1;
      }
      assert names == RewriteAll(old(names));

      ghost var rewritten := names;
      for p := 0 to |LICENSE_PLATFORMS|
        invariant names == AddLicense(rewritten, p)
      {
        var ids := LICENSE_PLATFORMS[p];
        SetName(LICENSE_NAME, 13, ids.platformID, ids.platEncID, ids.langID);
        SetName(LICENSE_URL, 14, ids.platformID, ids.platEncID, ids.langID);
        SetName(PANGRAM, 19, ids.platformID, ids.platEncID, ids.langID);
      }
    }

    /**
      The per-font steps of the rename script as written: read the style, rewrite
      the names, set the flags with `SetFlags`, and name the output file after the style.
     */
    method Rename() returns (r: Result<string, StyleError>)
      modifies this`names, this`usWeightClass, this`fsSelection, this`macStyle
      ensures DetectStyle(old(names)).Err? ==> r == Err(DetectStyle(old(names)).error) && unchanged(this)
      ensures DetectStyle(old(names)).Ok? ==>
        && r == Ok(OutputFileName(DetectStyle(old(names)).value))
        && names == ReplacedNames(old(names))
        && FlagState() == FlagsAfterSetFlags(old(FlagState()), DetectStyle(old(names)).value)
      ensures r.Ok? ==> DetectStyle(names).Ok? && r.value == OutputFileName(DetectStyle(names).value)
    {
      var detected := DetectStyle(names);
      if detected.Err? {
        return Err(detected.error);
      }
      var style := detected.value;
      ReplaceNames();
      SetFlags(style);
      ReplacedNamesKeepsStyle(old(names));
      r := Ok(OutputFileName(style));
    }

    /** The same per-font steps with the corrected `SetFlagsIntended` in place of `SetFlags`. */
    method RenameIntended() returns (r: Result<string, StyleError>)
      modifies this`names, this`usWeightClass, this`fsSelection, this`macStyle
      ensures DetectStyle(old(names)).Err? ==> r == Err(DetectStyle(old(names)).error) && unchanged(this)
      ensures DetectStyle(old(names)).Ok? ==>
        && r == Ok(OutputFileName(DetectStyle(old(names)).value))
        && names == ReplacedNames(old(names))
        && FlagState() == IntendedFlags(old(FlagState()), DetectStyle(old(names)).value)
      ensures r.Ok? ==> DetectStyle(names).Ok? && r.value == OutputFileName(DetectStyle(names).value)
    {
      var detected := DetectStyle(names);
      if detected.Err? {
        return Err(detected.error);
      }
      var style := detected.value;
      ReplaceNames();
      SetFlagsIntended(style);
      ReplacedNamesKeepsStyle(old(names));
      r := Ok(OutputFileName(style));
    }
  }

  // ---------------------------------------------------------------------------
  // Properties of the rewriting rules

  /** Records whose nameID has no rule keep their text, including nameIDs outside the enumeration. */
  lemma RewriteKeepsUnlisted(nameID: nat, text: string)
    requires nameID !in {0, 1, 3, 4, 6, 8, 11, 12}
    ensures RewriteText(nameID, text) == text
  {
  }

  /** The family name and the two URLs are overwritten outright, so applying their rules twice changes nothing more. */
  lemma RewriteFixedTexts(nameID: nat, text: string)
    requires nameID in {1, 11, 12}
    ensures RewriteText(nameID, text) == (if nameID == 1 then OUTPUT_FAMILY_NAME else URL)
    ensures RewriteText(nameID, RewriteText(nameID, text)) == RewriteText(nameID, text)
  {
  }

  /** The copyright and manufacturer rules prepend their text: a second pass prepends it again. */
  lemma RewritePrefixesTwice(text: string)
    ensures RewriteText(0, RewriteText(0, text)) == COPYRIGHT_PREFIX + COPYRIGHT_PREFIX + text
    ensures RewriteText(8, RewriteText(8, text)) == MANUFACTURER_PREFIX + MANUFACTURER_PREFIX + text
    ensures RewriteText(0, RewriteText(0, text)) != RewriteText(0, text)
    ensures RewriteText(8, RewriteText(8, text)) != RewriteText(8, text)
  {
    assert |RewriteText(0, RewriteText(0, text))| > |RewriteText(0, text)|;
    assert |RewriteText(8, RewriteText(8, text))| > |RewriteText(8, text)|;
  }

  /** A unique ID, full name or PostScript name that does not mention the old family keeps its text. */
  lemma RewriteWithoutOldFamily(nameID: nat, text: string)
    requires nameID in {3, 4, 6}
    requires nameID == 4 ==> !Contains(text, INPUT_FAMILY_NAME)
    requires nameID != 4 ==> !Contains(text, INPUT_POSTSCRIPT_FAMILY_NAME)
    ensures RewriteText(nameID, text) == text
  {
    if nameID == 4 {
      ReplaceAbsent(text, INPUT_FAMILY_NAME, OUTPUT_FAMILY_NAME);
    } else {
      ReplaceAbsent(text, INPUT_POSTSCRIPT_FAMILY_NAME, OUTPUT_POSTSCRIPT_FAMILY_NAME);
    }
  }

  /** A name that starts with the old family, and does not mention it again, gets the new family in its place. */
  lemma RewriteLeadingFamily(nameID: nat, rest: string)
    requires nameID in {3, 4, 6}
    requires nameID == 4 ==> !Contains(rest, INPUT_FAMILY_NAME)
    requires nameID != 4 ==> !Contains(rest, INPUT_POSTSCRIPT_FAMILY_NAME)
    ensures nameID == 4 ==> RewriteText(nameID, INPUT_FAMILY_NAME + rest) == OUTPUT_FAMILY_NAME + rest
    ensures nameID != 4 ==>
      RewriteText(nameID, INPUT_POSTSCRIPT_FAMILY_NAME + rest) == OUTPUT_POSTSCRIPT_FAMILY_NAME + rest
  {
    if nameID == 4 {
      ReplaceLeadingOccurrence(INPUT_FAMILY_NAME, rest, OUTPUT_FAMILY_NAME);
    } else {
      ReplaceLeadingOccurrence(INPUT_POSTSCRIPT_FAMILY_NAME, rest, OUTPUT_POSTSCRIPT_FAMILY_NAME);
    }
  }

  /** The PostScript name of the bold cut, "iAWriterQuattroS-Bold", becomes "TabulaQuattro-Bold". */
  lemma RewriteBoldPostscriptName()
    ensures RewriteText(6, "iAWriterQuattroS-Bold") == "TabulaQuattro-Bold"
  {
    TooLongAbsent("-Bold", INPUT_POSTSCRIPT_FAMILY_NAME);
    assert "iAWriterQuattroS-Bold" == INPUT_POSTSCRIPT_FAMILY_NAME + "-Bold";
    RewriteLeadingFamily(6, "-Bold");
  }

  /** The full name of the bold cut, "iA Writer Quattro S Bold", becomes "Tabula Quattro Bold". */
  lemma RewriteBoldFullName()
    ensures RewriteText(4, "iA Writer Quattro S Bold") == "Tabula Quattro Bold"
  {
    TooLongAbsent(" Bold", INPUT_FAMILY_NAME);
    assert "iA Writer Quattro S Bold" == INPUT_FAMILY_NAME + " Bold";
    RewriteLeadingFamily(4, " Bold");
  }

  // ---------------------------------------------------------------------------
  // Properties of `replace_names`

  /** A record's key decides every lookup, and the rules never change a key. */
  lemma RewriteAllLookup(names: seq<NameRecord>, sel: Selector)
    ensures GetName(names, sel).None? ==> GetName(RewriteAll(names), sel).None?
    ensures GetName(names, sel).Some? ==>
      GetName(RewriteAll(names), sel) == Some(Rewrite(GetName(names, sel).value))
  {
    FindFirstSameKeys(names, RewriteAll(names), sel);
  }

  /** The second loop in full: one iteration for the Windows triple, then one for the Macintosh triple. */
  lemma AddLicenseBoth(names: seq<NameRecord>)
    ensures AddLicense(names, |LICENSE_PLATFORMS|)
      == AddLicenseFor(AddLicenseFor(names, WINDOWS_ENGLISH_IDS), MAC_ROMAN_IDS)
  {
    assert AddLicense(names, 1) == AddLicenseFor(names, WINDOWS_ENGLISH_IDS);
  }

  /** One iteration of the second loop: afterwards each of its three keys finds its new text. */
  lemma AddLicenseForSets(names: seq<NameRecord>, p: PlatformIds, id: nat)
    requires id in {13, 14, 19}
    ensures GetName(AddLicenseFor(names, p), Exact(KeyAt(p, id))) == Some(MakeRecord(KeyAt(p, id), LicenseText(id)))
  {
    var a := Upserted(names, KeyAt(p, 13), LICENSE_NAME);
    var b := Upserted(a, KeyAt(p, 14), LICENSE_URL);
    if id == 13 {
      UpsertedSets(names, KeyAt(p, 13), LICENSE_NAME);
      UpsertedKeepsOtherLookups(a, KeyAt(p, 14), LICENSE_URL, Exact(KeyAt(p, 13)));
      UpsertedKeepsOtherLookups(b, KeyAt(p, 19), PANGRAM, Exact(KeyAt(p, 13)));
    } else if id == 14 {
      UpsertedSets(a, KeyAt(p, 14), LICENSE_URL);
      UpsertedKeepsOtherLookups(b, KeyAt(p, 19), PANGRAM, Exact(KeyAt(p, 14)));
    } else {
      UpsertedSets(b, KeyAt(p, 19), PANGRAM);
    }
  }

  /** One iteration of the second loop leaves every lookup alone that cannot select its keys. */
  lemma AddLicenseForKeeps(names: seq<NameRecord>, p: PlatformIds, sel: Selector)
    requires !SelectsKey(sel, KeyAt(p, 13)) && !SelectsKey(sel, KeyAt(p, 14)) && !SelectsKey(sel, KeyAt(p, 19))
    ensures GetName(AddLicenseFor(names, p), sel) == GetName(names, sel)
  {
    var a := Upserted(names, KeyAt(p, 13), LICENSE_NAME);
    var b := Upserted(a, KeyAt(p, 14), LICENSE_URL);
    UpsertedKeepsOtherLookups(names, KeyAt(p, 13), LICENSE_NAME, sel);
    UpsertedKeepsOtherLookups(a, KeyAt(p, 14), LICENSE_URL, sel);
    UpsertedKeepsOtherLookups(b, KeyAt(p, 19), PANGRAM, sel);
  }

  /** One iteration of the second loop keeps every record in place under its key and appends at most three. */
  lemma AddLicenseForShape(names: seq<NameRecord>, p: PlatformIds)
    ensures |names| <= |AddLicenseFor(names, p)| <= |names| + 3
    ensures forall i :: 0 <= i < |names| ==> KeyOf(AddLicenseFor(names, p)[i]) == KeyOf(names[i])
    ensures forall i :: 0 <= i < |names| && !IsLicenseKeyFor(KeyOf(names[i]), p) ==>
      AddLicenseFor(names, p)[i] == names[i]
  {
  }

  /** The selector cannot pick any record the second loop sets. */
  predicate AvoidsLicenseKeys(sel: Selector) {
    forall p, id :: p in LICENSE_PLATFORMS && id in {13, 14, 19} ==> !SelectsKey(sel, KeyAt(p, id))
  }

  /** In particular, a lookup by any nameID other than 13, 14 and 19 avoids them. */
  lemma OtherNameIdsAvoidLicenseKeys(sel: Selector)
    requires sel.nameID !in {13, 14, 19}
    ensures AvoidsLicenseKeys(sel)
  {
  }

  /** After `replace_names`, the licence name, licence URL and sample text are found under all six keys. */
  lemma ReplacedNamesHasLicense(names: seq<NameRecord>, p: PlatformIds, id: nat)
    requires p in LICENSE_PLATFORMS && id in {13, 14, 19}
    ensures GetName(ReplacedNames(names), Exact(KeyAt(p, id))) == Some(MakeRecord(KeyAt(p, id), LicenseText(id)))
  {
    var r := RewriteAll(names);
    var w := AddLicenseFor(r, WINDOWS_ENGLISH_IDS);
    var z := AddLicenseFor(w, MAC_ROMAN_IDS);
    AddLicenseBoth(r);
    assert ReplacedNames(names) == z;
    if p == WINDOWS_ENGLISH_IDS {
      AddLicenseForSets(r, WINDOWS_ENGLISH_IDS, id);
      AddLicenseForKeeps(w, MAC_ROMAN_IDS, Exact(KeyAt(WINDOWS_ENGLISH_IDS, id)));
    } else {
      AddLicenseForSets(w, MAC_ROMAN_IDS, id);
    }
  }

  /**
    Every other lookup sees the first loop's result: the record it found before,
    rewritten by its rule.
   */
  lemma ReplacedNamesLookup(names: seq<NameRecord>, sel: Selector)
    requires AvoidsLicenseKeys(sel)
    ensures GetName(names, sel).None? ==> GetName(ReplacedNames(names), sel).None?
    ensures GetName(names, sel).Some? ==>
      GetName(ReplacedNames(names), sel) == Some(Rewrite(GetName(names, sel).value))
  {
    var r := RewriteAll(names);
    var w := AddLicenseFor(r, WINDOWS_ENGLISH_IDS);
    AddLicenseBoth(r);
    assert WINDOWS_ENGLISH_IDS in LICENSE_PLATFORMS && MAC_ROMAN_IDS in LICENSE_PLATFORMS;
    AddLicenseForKeeps(r, WINDOWS_ENGLISH_IDS, sel);
    AddLicenseForKeeps(w, MAC_ROMAN_IDS, sel);
    RewriteAllLookup(names, sel);
  }

  /** The subfamily record is neither rewritten nor reset, so the style read before renaming is read after it too. */
  lemma ReplacedNamesKeepsStyle(names: seq<NameRecord>)
    ensures DetectStyle(ReplacedNames(names)) == DetectStyle(names)
  {
    OtherNameIdsAvoidLicenseKeys(SUBFAMILY_SELECTOR);
    ReplacedNamesLookup(names, SUBFAMILY_SELECTOR);
  }

  /** Records keep their places and keys through the first loop and both iterations of the second. */
  lemma PlatformStepsShape(names: seq<NameRecord>, r: seq<NameRecord>, w: seq<NameRecord>, z: seq<NameRecord>)
    requires |r| == |names| && forall i :: 0 <= i < |names| ==> r[i] == Rewrite(names[i])
    requires |r| <= |w| <= |r| + 3 && |w| <= |z| <= |w| + 3
    requires forall i :: 0 <= i < |r| ==> KeyOf(w[i]) == KeyOf(r[i])
    requires forall i :: 0 <= i < |w| ==> KeyOf(z[i]) == KeyOf(w[i])
    requires forall i :: 0 <= i < |r| && !IsLicenseKeyFor(KeyOf(r[i]), WINDOWS_ENGLISH_IDS) ==> w[i] == r[i]
    requires forall i :: 0 <= i < |w| && !IsLicenseKeyFor(KeyOf(w[i]), MAC_ROMAN_IDS) ==> z[i] == w[i]
    ensures |names| <= |z| <= |names| + 6
    ensures forall i :: 0 <= i < |names| ==> KeyOf(z[i]) == KeyOf(names[i])
    ensures forall i :: 0 <= i < |names| && !IsLicenseKey(KeyOf(names[i])) ==> z[i] == Rewrite(names[i])
  {
    forall i | 0 <= i < |names| ensures KeyOf(r[i]) == KeyOf(names[i]) {
      assert r[i] == Rewrite(names[i]);
    }
  }

  /** `replace_names` keeps every record in place under its key, rewriting only its text, and appends at most six. */
  lemma ReplacedNamesShape(names: seq<NameRecord>)
    ensures |names| <= |ReplacedNames(names)| <= |names| + 6
    ensures forall i :: 0 <= i < |names| ==> KeyOf(ReplacedNames(names)[i]) == KeyOf(names[i])
    ensures forall i :: 0 <= i < |names| && !IsLicenseKey(KeyOf(names[i])) ==>
      ReplacedNames(names)[i] == Rewrite(names[i])
  {
    var r := RewriteAll(names);
    var w := AddLicenseFor(r, WINDOWS_ENGLISH_IDS);
    var z := AddLicenseFor(w, MAC_ROMAN_IDS);
    AddLicenseBoth(r);
    AddLicenseForShape(r, WINDOWS_ENGLISH_IDS);
    AddLicenseForShape(w, MAC_ROMAN_IDS);
    PlatformStepsShape(names, r, w, z);
  }

  /** The copyright rule in the table: the record stays in place with the prefix in front of its text. */
  lemma ReplacedNamesCopyright(names: seq<NameRecord>, i: nat)
    requires i < |names| && names[i].nameID == 0
    ensures i < |ReplacedNames(names)|
      && ReplacedNames(names)[i] == names[i].(text := COPYRIGHT_PREFIX + names[i].text)
  {
    ReplacedNamesShape(names);
  }

  /** A second pass prepends the copyright text again: `replace_names` is not idempotent. */
  lemma ReplaceNamesTwice(names: seq<NameRecord>, i: nat)
    requires i < |names| && names[i].nameID == 0
    ensures i < |ReplacedNames(ReplacedNames(names))|
      && ReplacedNames(ReplacedNames(names))[i].text == COPYRIGHT_PREFIX + COPYRIGHT_PREFIX + names[i].text
  {
    ReplacedNamesCopyright(names, i);
    ReplacedNamesCopyright(ReplacedNames(names), i);
  }

  // ---------------------------------------------------------------------------
  // Output file name

  /** The output file name: the new PostScript family, a hyphen, the style label with its spaces removed, and ".ttf". */
  function OutputFileName(s: Style): string {
    OUTPUT_POSTSCRIPT_FAMILY_NAME + "-" + Replace(Label(s), " ", "") + ".ttf"
  }

  /** The label with its spaces removed: "Regular", "Bold", "Italic" and "BoldItalic". */
  lemma CompactLabel(s: Style)
    ensures Replace(Label(s), " ", "") == if s == BoldItalic then "BoldItalic" else Label(s)
  {
    match s
    case BoldItalic =>
      assert Label(s) == "Bold" + [' '] + "Italic";
      ReplaceCharOnce("Bold", ' ', "Italic", "");
    case _ =>
      ReplaceCharAbsent(Label(s), ' ', "");
  }

  /**
    The four output files are "TabulaQuattro-Regular.ttf", "TabulaQuattro-Bold.ttf",
    "TabulaQuattro-Italic.ttf" and "TabulaQuattro-BoldItalic.ttf".
   */
  lemma OutputFileNameOf(s: Style)
    ensures OutputFileName(s) == "TabulaQuattro-" + (if s == BoldItalic then "BoldItalic" else Label(s)) + ".ttf"
  {
    CompactLabel(s);
  }

  /** Different styles are written to different files, so no output overwrites another. */
  lemma OutputFileNameInjective(s: Style, t: Style)
    ensures OutputFileName(s) == OutputFileName(t) <==> s == t
  {
    OutputFileNameOf(s);
    OutputFileNameOf(t);
    if s != t {
      assert |OutputFileName(s)| != |OutputFileName(t)|;
    }
  }
}
