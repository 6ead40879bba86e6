# Tabula Quattro font scripts, modelled in Dafny

Tabula Quattro is a renamed build of the iA Writer Quattro S fonts. Two scripts produce it.

- `make-tabula-fonts.py` handles each input font in four steps.
  - It reads the font's style from the Windows subfamily name (nameID 2, platform 3, encoding 1). The text must be exactly "Regular", "Bold", "Italic" or "Bold Italic".
  - It rewrites the naming records. The family becomes "Tabula Quattro", the copyright and manufacturer get prefixes, and the URLs are replaced. It then adds the licence name, the licence URL and a sample text for the Windows English and Macintosh Roman platforms.
  - It sets the weight class and `head.macStyle` from the style, and ORs the style's bits into the old value of `OS/2.fsSelection`.
  - It names the output file `TabulaQuattro-<style without spaces>.ttf`.
- `make-release.py` builds the release archive.
  - It reads the version from the first nameID-5 record. If that text starts with "version " in any letter case, it keeps only the second whitespace-separated token, and fails when there is none.
  - It names the archive `tabula-quattro-<version>.zip`.
  - It writes the sorted font files, the read-me, the licence text and the usage terms into it.

The project has seven modules, one per file:

| file | module | contents |
|---|---|---|
| `wrappers.dfy` | `Wrappers` | `Option` and `Result` |
| `pystr.dfy` | `PyStr` | the Python `str` operations the scripts use: `replace`, `startswith`, `lower` and argument-less `split` |
| `name_table.dfy` | `NameTable` | the `name` table as a sequence of records, with fontTools' first-match `getName` and upserting `setName` |
| `styles.dfy` | `Styles` | the four styles and `detect_style` |
| `font_flags.dfy` | `FontFlags` | `set_bit`, `clear_bit` and the flag values `set_flags` produces; each 16-bit field is a sequence of 16 booleans, least significant bit first, with `Value` giving the integer |
| `tabula_fonts.dfy` | `TabulaFonts` | the rewriting rules and the class `Font`, whose methods `SetFlags`, `SetName`, `ReplaceNames`, `Rename` and their corrected variants update the fields in place as the script does; then the properties of renaming and the output file name |
| `release.dfy` | `Release` | the `get_version` loop, the version-prefix rule, the archive name and the ordered entry names |

Two behaviours of the code are worth knowing; the model follows the code in both.

- The comments at make-tabula-fonts.py:19-21 and 90 say the internal flags cannot be trusted and are reset to base values first. The loop that should clear `fsSelection` bits 0-6 throws each `clear_bit` result away, so no bit is cleared (see Findings). `Font.SetFlags` and `Font.Rename` model the code as written. `Font.SetFlagsIntended` and `Font.RenameIntended` are the corrected methods.
- When no record has nameID 5, `get_version` returns `None`, and `main` formats it into the archive name `tabula-quattro-None.zip`.

## Model

| member | source | states |
|---|---|---|
| NameTable.NameIdOf | make-tabula-fonts.py:33-51 | `NameId(n)` gives the member whose value is `n`; it fails exactly for negative numbers, 15, 18 and anything above 19 |
| NameTable.NameIdRoundTrip | make-tabula-fonts.py:33-51 | every enumeration member maps back to itself from its value |
| NameTable.Code | make-tabula-fonts.py:33-51 | the value of each `NameId` member; `NameIdOf` and `NameIdRoundTrip` state its inverse |
| NameTable.FindFirst | make-tabula-fonts.py:71 | `getName` lookup: the index found matches the selector and no earlier record matches; no index means no record matches |
| NameTable.FindFirstIs | make-tabula-fonts.py:71 | a matching index with no earlier match is the one the lookup returns |
| NameTable.GetName | make-tabula-fonts.py:71 | fontTools `getName`: the record at the index `FindFirst` returns, or none |
| NameTable.GetNameFrame | make-tabula-fonts.py:71 | two tables that agree on every record the selector could match give the same lookup |
| NameTable.FindFirstSameKeys | make-tabula-fonts.py:112-135 | tables with the same keys in the same order give every lookup the same answer |
| NameTable.Upserted | make-tabula-fonts.py:139-143 | `setName` adds at most one record; keys stay in place; records with other keys are untouched; an appended record carries the new key and text |
| NameTable.UpsertedAppendsIff | make-tabula-fonts.py:139-143 | a record is appended if and only if no record has the key |
| NameTable.UpsertedSets | make-tabula-fonts.py:139-143 | after `setName`, the lookup by that exact key finds the new text |
| NameTable.UpsertedTouchesFirstOnly | make-tabula-fonts.py:139-143 | only the first record with the key can change |
| NameTable.UpsertedKeepsOtherLookups | make-tabula-fonts.py:139-143 | a lookup that cannot select the key gets the same answer as before |
| PyStr.Replace | make-tabula-fonts.py:123-131 | the definition of `str.replace`: non-overlapping occurrences found left to right, an empty pattern matching between all characters; its meaning is stated by the `Replace…` lemmas below |
| PyStr.StartsWith | make-release.py:24 | `s.startswith(p)`: `p` occurs in `s` at index 0; `LowerStartsWith` states it for the lowered text |
| PyStr.ReplaceAbsent | make-tabula-fonts.py:123-131 | `str.replace` leaves text without the pattern unchanged |
| PyStr.TooLongAbsent | make-tabula-fonts.py:123-131 | a pattern longer than the text does not occur in it |
| PyStr.CharAbsent | make-tabula-fonts.py:172 | a one-character pattern occurs only where that character does |
| PyStr.ReplaceCharAbsent | make-tabula-fonts.py:172 | `replace(" ", "")` on text without a space changes nothing |
| PyStr.ReplaceCharOnce | make-tabula-fonts.py:172 | a single space between two words is replaced and the words are kept |
| PyStr.ReplaceKeepsChar | make-tabula-fonts.py:123-131 | the scan copies a character where the pattern does not start |
| PyStr.ReplaceTakesPattern | make-tabula-fonts.py:123-131 | the scan replaces an occurrence at the front and resumes after it |
| PyStr.ReplaceSkipsPrefix | make-tabula-fonts.py:123-131 | a prefix in which no occurrence starts is copied unchanged |
| PyStr.ReplaceAtFirst | make-tabula-fonts.py:123-131 | the first occurrence is replaced, the text before it is kept and the scan resumes after it (non-overlapping, left to right) |
| PyStr.ReplaceLeadingOccurrence | make-tabula-fonts.py:123-131 | the pattern followed by pattern-free text becomes the replacement followed by that text |
| PyStr.Lower | make-release.py:24 | the definition of `lower()` on ASCII letters; its meaning is stated by the three lemmas below |
| PyStr.LowerIdempotent | make-release.py:24 | `lower()` leaves no upper-case letter, and lowering twice is lowering once |
| PyStr.LowerFixedIff | make-release.py:24 | `lower()` changes a text if and only if it holds an upper-case letter |
| PyStr.LowerStartsWith | make-release.py:24 | `t.lower().startswith(p)`, for a lower-case prefix `p`, holds if and only if each of the first `len(p)` characters of `t` is that of `p` or its upper-case letter |
| PyStr.IsSpace | make-release.py:25 | the characters `str.isspace` accepts, the separators of argument-less `split()`; `Word`, `Split` and `SplitEmptyIff` are stated in its terms |
| PyStr.Word | make-release.py:25 | the first word is the longest space-free prefix |
| PyStr.Split | make-release.py:25 | every token of `split()` is non-empty and holds no whitespace |
| PyStr.SplitSkipsSpaces | make-release.py:25 | leading whitespace adds no token |
| PyStr.SplitWord | make-release.py:25 | a word followed by whitespace or the end of text is the first token |
| PyStr.SplitEmptyIff | make-release.py:25 | `split()` is empty if and only if the text is all whitespace |
| Styles.Label | make-tabula-fonts.py:54-58 | the value of each `Style` member; `StyleOf` and `StyleOfLabel` state its inverse |
| Styles.StyleOf | make-tabula-fonts.py:54-58 | `Style(text)` gives the style whose label is exactly `text`, and fails only when no label equals `text` |
| Styles.StyleOfLabel | make-tabula-fonts.py:54-58 | each style is recovered from its own label |
| Styles.DetectStyle | make-tabula-fonts.py:68-73 | succeeds if and only if the first record for nameID 2, platform 3, encoding 1 holds one of the four labels, and then returns that label's style; reports a missing record if and only if there is none; an unknown text matches no label |
| Styles.DetectStyleExamples | make-tabula-fonts.py:68-73 | "Oblique" is rejected; a Macintosh-only subfamily counts as missing; a later Windows record is the one read |
| FontFlags.Pow2 | make-tabula-fonts.py:77 | `1 << bit` is positive |
| FontFlags.Value | make-tabula-fonts.py:76-81 | the integer a field of bits holds, least significant bit first; `ValueFromValue` and `FromValueValue` make it a bijection with `FromValue` below 2^width |
| FontFlags.FromValue | make-tabula-fonts.py:76-81 | an integer written as bits has the requested width |
| FontFlags.ValueFromValue | make-tabula-fonts.py:76-81 | an integer below 2^width survives conversion to bits and back |
| FontFlags.FromValueValue | make-tabula-fonts.py:76-81 | bits survive conversion to an integer and back |
| FontFlags.SetBit | make-tabula-fonts.py:76-77 | `set_bit` turns the bit on and keeps every other bit |
| FontFlags.ClearBit | make-tabula-fonts.py:80-81 | `clear_bit` turns the bit off and keeps every other bit |
| FontFlags.SetBitValue | make-tabula-fonts.py:76-77 | as an integer, `set_bit` adds 2^bit when the bit was off and changes nothing when it was on |
| FontFlags.ClearBitValue | make-tabula-fonts.py:80-81 | as an integer, `clear_bit` subtracts 2^bit when the bit was on and changes nothing when it was off |
| FontFlags.ZeroValue | make-tabula-fonts.py:96 | the all-clear field is the integer 0 |
| FontFlags.ValueIsZero | make-tabula-fonts.py:96 | a field with no bit on is 0 |
| FontFlags.Or | make-tabula-fonts.py:77 | each bit of the result is on if and only if it is on in either operand |
| FontFlags.SelectionBits | make-tabula-fonts.py:98-106 | REGULAR (bit 6) is on if and only if the style is Regular; BOLD (bit 5) if and only if it is bold; ITALIC (bit 0) if and only if it is italic; no other bit is on |
| FontFlags.MacStyleBits | make-tabula-fonts.py:96-106 | Bold (bit 0) is on if and only if the style is bold, Italic (bit 1) if and only if it is italic; nothing else is on |
| FontFlags.ClearLowSeven | make-tabula-fonts.py:93-94 | bits 0-6 are off and bits 7-15 are kept |
| FontFlags.SelectionValue | make-tabula-fonts.py:98-105 | as an integer, the style's `fsSelection` bits are 0x40, 0x20, 0x01 or 0x21 |
| FontFlags.MacStyleValue | make-tabula-fonts.py:96-106 | `macStyle` is 0, 1, 2 or 3 for Regular, Bold, Italic and Bold Italic |
| FontFlags.SameBits | make-tabula-fonts.py:76-81 | two fields that agree on every bit are equal |
| FontFlags.SelectionSteps | make-tabula-fonts.py:98-105 | the three conditional `set_bit` calls on `fsSelection` OR in exactly the style's bits |
| FontFlags.MacStyleSteps | make-tabula-fonts.py:96-106 | starting from 0, the two conditional `set_bit` calls give the style's `macStyle` |
| FontFlags.WeightClass | make-tabula-fonts.py:91-101 | 700 for Bold and Bold Italic, 400 otherwise |
| FontFlags.FlagsAfterSetFlags | make-tabula-fonts.py:84-106 | the three fields after `set_flags` as written; stated by `SetFlagsSelectionBits`, `SetFlagsNeverClears` and the lemmas below |
| FontFlags.IntendedFlags | make-tabula-fonts.py:84-106 | the three fields after the corrected `set_flags`; stated by `IntendedSelectionBits` and `IntendedLastStyleWins` |
| FontFlags.SetFlagsIdempotent | make-tabula-fonts.py:84-106 | running `set_flags` twice with one style gives the same fields as running it once |
| FontFlags.SetFlagsSelectionBits | make-tabula-fonts.py:92-105 | REGULAR, BOLD and ITALIC are on afterwards if and only if the style asks for them or they were on before; all other bits keep their values |
| FontFlags.SetFlagsNeverClears | make-tabula-fonts.py:92-95 | no `fsSelection` bit that was on goes off |
| FontFlags.SetFlagsAccumulates | make-tabula-fonts.py:92-105 | restyling keeps the first style's `fsSelection` bits next to the second's |
| FontFlags.SetFlagsKeepsStaleBold | make-tabula-fonts.py:92-99 | a font with `fsSelection` 0x20 restyled as Regular ends with 0x60, REGULAR and BOLD both on, while weight 400 and `macStyle` 0 say regular |
| FontFlags.IntendedSelectionBits | make-tabula-fonts.py:93-105 | with the clearing kept, bits 0-6 come from the style alone and bits 7-15 are kept |
| FontFlags.IntendedLastStyleWins | make-tabula-fonts.py:93-105 | with the clearing kept, restyling forgets the earlier style |
| FontFlags.IntendedDropsStaleBold | make-tabula-fonts.py:93-99 | with the clearing kept, the same restyling gives 0x40, REGULAR alone |
| TabulaFonts.RewriteText | make-tabula-fonts.py:112-135 | the rule for each nameID: a fixed text, a prefix, or the old family replaced; stated by the `Rewrite…` lemmas below |
| TabulaFonts.Rewrite | make-tabula-fonts.py:112-135 | one record with its text rewritten by its nameID's rule and its key kept |
| TabulaFonts.AddLicenseFor | make-tabula-fonts.py:139-143 | one iteration of the second loop: three `setName` calls for nameIDs 13, 14 and 19 on one platform; stated by `AddLicenseForSets`, `AddLicenseForKeeps` and `AddLicenseForShape` |
| TabulaFonts.AddLicense | make-tabula-fonts.py:138-143 | the first `n` iterations of the second loop; stated by `AddLicenseBoth` |
| TabulaFonts.ReplacedNames | make-tabula-fonts.py:109-143 | the table after `replace_names`; stated by the `ReplacedNames…` lemmas below |
| TabulaFonts.RewriteAll | make-tabula-fonts.py:112-135 | the first loop keeps the table's length and rewrites each record by its own rule |
| TabulaFonts.Font.SetFlags | make-tabula-fonts.py:84-106 | as written: weight 700 for bold styles and 400 otherwise; `fsSelection` is the old value ORed with the style's bits; `macStyle` holds the style's bits only |
| TabulaFonts.Font.SetFlagsIntended | make-tabula-fonts.py:84-106 | the same with each `clear_bit` result kept: `fsSelection` is the old value with bits 0-6 cleared, ORed with the style's bits |
| TabulaFonts.Font.SetName | make-tabula-fonts.py:139-143 | the table afterwards is the upsert of the key and text |
| TabulaFonts.Font.ReplaceNames | make-tabula-fonts.py:109-143 | the in-place pass gives every record its rewritten text; then the three licence records are set for Windows English and for Macintosh Roman, in that order |
| TabulaFonts.Font.Rename | make-tabula-fonts.py:167-177 | when the style cannot be read, fails with that error and changes nothing; otherwise the names are replaced, the flags are those `set_flags` as written gives, and the output file name is returned; the renamed table still reads as that style |
| TabulaFonts.Font.RenameIntended | make-tabula-fonts.py:167-177 | the same steps with the corrected `set_flags`: the flags are those `IntendedFlags` gives |
| TabulaFonts.RewriteKeepsUnlisted | make-tabula-fonts.py:112-135 | records whose nameID has no rule keep their text, including nameIDs not in the enumeration |
| TabulaFonts.RewriteFixedTexts | make-tabula-fonts.py:120-135 | the family becomes "Tabula Quattro" and both URLs become the metaclassical address; applying these rules twice changes nothing more |
| TabulaFonts.RewritePrefixesTwice | make-tabula-fonts.py:118-119 | the copyright and manufacturer rules add their prefix on every application, so they are not idempotent |
| TabulaFonts.RewriteWithoutOldFamily | make-tabula-fonts.py:122-131 | unique ID, full name and PostScript name without the old family name keep their text |
| TabulaFonts.RewriteLeadingFamily | make-tabula-fonts.py:122-131 | a name that starts with the old family, and does not contain it again, gets the new family in its place |
| TabulaFonts.RewriteBoldPostscriptName | make-tabula-fonts.py:128-131 | "iAWriterQuattroS-Bold" becomes "TabulaQuattro-Bold" |
| TabulaFonts.RewriteBoldFullName | make-tabula-fonts.py:126-127 | "iA Writer Quattro S Bold" becomes "Tabula Quattro Bold" |
| TabulaFonts.RewriteAllLookup | make-tabula-fonts.py:112-135 | after the first loop, every lookup finds the record found before, with its text rewritten |
| TabulaFonts.AddLicenseBoth | make-tabula-fonts.py:138 | the second loop visits the Windows triple and then the Macintosh triple |
| TabulaFonts.AddLicenseForSets | make-tabula-fonts.py:139-143 | after one iteration, each of nameIDs 13, 14 and 19 on that platform finds its new text, even when a later `setName` in the same iteration follows |
| TabulaFonts.AddLicenseForKeeps | make-tabula-fonts.py:139-143 | one iteration leaves alone every lookup that cannot select its keys |
| TabulaFonts.AddLicenseForShape | make-tabula-fonts.py:139-143 | one iteration keeps every record in place under its key, changes only records with its keys and appends at most three |
| TabulaFonts.OtherNameIdsAvoidLicenseKeys | make-tabula-fonts.py:138-143 | a lookup by a nameID other than 13, 14 or 19 cannot select a licence record |
| TabulaFonts.ReplacedNamesHasLicense | make-tabula-fonts.py:137-143 | after `replace_names`, the licence name, licence URL and sample text are found under all six keys |
| TabulaFonts.ReplacedNamesLookup | make-tabula-fonts.py:109-143 | after `replace_names`, every other lookup finds the record it found before, rewritten by its rule, and a lookup that found nothing still finds nothing |
| TabulaFonts.ReplacedNamesKeepsStyle | make-tabula-fonts.py:168-169 | renaming does not change the style read from the table |
| TabulaFonts.PlatformStepsShape | make-tabula-fonts.py:109-143 | the first loop and the two iterations of the second together keep every record in place under its key and rewrite every non-licence record |
| TabulaFonts.ReplacedNamesShape | make-tabula-fonts.py:109-143 | `replace_names` appends at most six records, changes no key, and gives every record outside the six licence keys its rule's text |
| TabulaFonts.ReplacedNamesCopyright | make-tabula-fonts.py:118-119 | a copyright record stays in place with the prefix in front of its text |
| TabulaFonts.ReplaceNamesTwice | make-tabula-fonts.py:118-119 | a second `replace_names` prefixes the copyright again, so the operation is not idempotent |
| TabulaFonts.OutputFileName | make-tabula-fonts.py:172-175 | the output file name for a style; stated by `OutputFileNameOf` and `OutputFileNameInjective` |
| TabulaFonts.CompactLabel | make-tabula-fonts.py:172 | removing the spaces gives "Regular", "Bold", "Italic" and "BoldItalic" |
| TabulaFonts.OutputFileNameOf | make-tabula-fonts.py:172-175 | the output file is "TabulaQuattro-" plus the space-free label plus ".ttf" |
| TabulaFonts.OutputFileNameInjective | make-tabula-fonts.py:172-175 | two styles share an output file name if and only if they are the same style |
| Release.StripVersion | make-release.py:23-25 | the prefix rule on one version text; stated by `StripVersionVerbatim`, `StripVersionPrefixed` and `LowerPrefix` |
| Release.VersionOf | make-release.py:18-26 | the result of `get_version`; stated by `VersionMissing` and `VersionFromFirst` |
| Release.GetVersion | make-release.py:18-26 | the search loop returns what `VersionOf` describes: the first nameID-5 record decides, after the prefix rule; with no such record the result is `None` |
| Release.VersionMissing | make-release.py:21-26 | the version is `None` if and only if no record has nameID 5 |
| Release.VersionFromFirst | make-release.py:21-26 | the first nameID-5 record in table order decides; later ones are ignored, whatever their platform |
| Release.LowerPrefix | make-release.py:24 | the test succeeds if and only if the first eight characters each are the letter of "version " in lower or upper case, or the space |
| Release.StripVersionVerbatim | make-release.py:23-26 | text not starting with "version " in any letter case is returned verbatim |
| Release.StripVersionPrefixed | make-release.py:24-25 | after the prefix, `split()[1]` fails if and only if the rest is all whitespace, and otherwise is the first token after the prefix |
| Release.StripVersionWord | make-release.py:24-25 | "Version " and one word, as in "Version 5.002", gives that word |
| Release.StripVersionNoNumber | make-release.py:24-25 | "Version " followed only by whitespace fails with `IndexError` |
| Release.VersionText | make-release.py:53 | how the f-string renders the version: `None` as "None", a text as itself |
| Release.ArchiveName | make-release.py:53 | the name starts with "tabula-quattro-", ends with ".zip", and between them holds the rendered version |
| Release.ArchiveNameInjective | make-release.py:53 | two version texts give the same archive name if and only if they are equal |
| Release.ArchiveNameMissingVersion | make-release.py:45-53 | a missing version gives "tabula-quattro-None.zip", the same name as the version text "None" |
| Release.LexLe | make-release.py:50 | Python's `<=` on names: code-point order with a proper prefix first; stated by the three lemmas below |
| Release.LexLeTotal | make-release.py:50 | any two names are ordered one way or the other |
| Release.LexLeAntisymmetric | make-release.py:50 | two names that each sort no later than the other are equal |
| Release.LexLePrefix | make-release.py:50 | a name sorts no later than any extension of it |
| Release.Insert | make-release.py:50 | insertion into a sorted list keeps it sorted and adds exactly the one name |
| Release.SortNames | make-release.py:50 | `sorted()` returns a sorted permutation of the font files |
| Release.EntryNames | make-release.py:50-57 | the entries are the font files, sorted, followed by "README.md", "OFL-1.1-RFN.txt" and "USAGE_TERMS.md" |
| Release.RepeatCounted | make-release.py:50 | a name that occurs twice is counted twice |
| Release.DistinctCountedOnce | make-release.py:50 | in a list of different names, each is counted once |
| Release.PermutationDistinct | make-release.py:50 | a permutation of different names holds different names |
| Release.FixedEntriesNotFonts | make-release.py:51-57 | none of the three fixed entries ends in ".ttf" |
| Release.FontEntriesNamedLikeFonts | make-release.py:50-55 | each font entry ends in ".ttf" when every font file does |
| Release.EntryNamesDistinct | make-release.py:50-57 | when the font files are different and end in ".ttf", no two entries in the archive share a name |

## Left out

- Command-line parsing and logging (make-tabula-fonts.py:146-165, make-release.py:43-47, 59) are not modelled. They are plumbing around the modelled steps.
- The loop of `main` over the input files, the output-directory join and `font.save`/`font.close` (make-tabula-fonts.py:164-183) are not modelled. `Font.Rename` models one iteration and returns the file name relative to the output directory.
- Loading fonts with `TTFont`, the binary encoding of the `name`, `OS/2` and `head` tables, and `toUnicode` are not modelled. They are library code; record texts are already-decoded strings.
- Globbing `*.ttf`, reading files and writing the zip archive (make-release.py:50-57) are not modelled. The font file names are an input, and only the resulting names are modelled.
- The contents of `USAGE_TERMS` and of the read-me and licence files are not modelled. `PANGRAM` is kept as a constant but no property depends on its wording.
- PyStr.Lower: lowercases ASCII letters only. Python's `str.lower` also maps non-ASCII letters, and may map one character to two. The only non-ASCII characters whose lowercase holds an ASCII letter are U+212A (KELVIN SIGN), which gives "k", and U+0130, which gives "i" followed by U+0307. "k" is not in "version ", and U+0307 is never the "o" that must follow the "i", so the prefix test `get_version` makes gives the same answer.
- FontFlags.Value: `fsSelection` and `macStyle` are unsigned 16-bit fields, modelled as 16 booleans; `Value` gives the integer. `clear_bit`'s Python `~` produces a negative intermediate, which is not modelled because only the cleared bit matters.
- Release.SortNames: Python sorts `Path` objects. For the plain file names a single-directory glob returns, on POSIX this comparison is code-point order on the names; `SortNames` is an insertion sort with that order, and stability is not stated because the names are distinct.

## Findings

| source | as written | input that shows it | evidently intended | confidence | as-written member | corrected member |
|---|---|---|---|---|---|---|
| make-tabula-fonts.py:93-95 | `clear_bit(fsSelection, bit)` is called for bits 0-6 and its result is thrown away, so `fsSelection` keeps all its old bits | a font with `fsSelection` 0x20 (BOLD) restyled as Regular gets 0x60: REGULAR and BOLD both set, with weight 400 and `macStyle` 0 | assign each result back, so bits 0-6 come from the style alone and the font gets 0x40 | not executed | TabulaFonts.Font.SetFlags, FontFlags.SetFlagsKeepsStaleBold | TabulaFonts.Font.SetFlagsIntended, TabulaFonts.Font.RenameIntended, FontFlags.IntendedDropsStaleBold, FontFlags.IntendedLastStyleWins |
