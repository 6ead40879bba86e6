/** The four styles of the family and the subfamily labels that name them. */
module Styles {
  import opened Wrappers
  import opened NameTable

  datatype Style = Regular | Bold | Italic | BoldItalic

  /** The enumeration value of each style: the subfamily text that names it. */
  function Label(s: Style): string {
    match s
    case Regular => "Regular"
    case Bold => "Bold"
    case Italic => "Italic"
    case BoldItalic => "Bold Italic"
  }

  predicate IsBold(s: Style) {
    s == Bold || s == BoldItalic
  }

  predicate IsItalic(s: Style) {
    s == Italic || s == BoldItalic
  }

  /** `Style(text)`: the style whose value is exactly `text`; `None` where Python raises `ValueError`. */
  function StyleOf(text: string): (r: Option<Style>)
    ensures r.Some? ==> Label(r.value) == text
    ensures r.None? ==> forall s: Style :: Label(s) != text
  {
    if text == "Regular" then Some(Regular)
    else if text == "Bold" then Some(Bold)
    else if text == "Italic" then Some(Italic)
    else if text == "Bold Italic" then Some(BoldItalic)
    else None
  }

  /** Why `detect_style` raises: no subfamily record (the `None` has no `toUnicode`), or an unknown label. */
  datatype StyleError = MissingSubfamily | UnknownStyle(text: string)

  /** `getName(nameID=SUBFAMILY, platformID=3, platEncID=1)`: any language. */
  const SUBFAMILY_SELECTOR: Selector := Selector(2, Some(3), Some(1), None)

  /**
    `detect_style`: the style named by the first nameID-2 record for platform 3,
    encoding 1. Fails when there is no such record or its text is not one of the
    four labels.
   */
  function DetectStyle(names: seq<NameRecord>): (r: Result<Style, StyleError>)
    ensures r.Ok? <==>
      exists i :: 0 <= i < |names| && Matches(names[i], SUBFAMILY_SELECTOR)
        && (forall j :: 0 <= j < i ==> !Matches(names[j], SUBFAMILY_SELECTOR))
        && StyleOf(names[i].text).Some?
    ensures r.Ok? ==>
      GetName(names, SUBFAMILY_SELECTOR).Some? && Label(r.value) == GetName(names, SUBFAMILY_SELECTOR).value.text
    ensures r == Err(MissingSubfamily) <==>
      forall i :: 0 <= i < |names| ==> !Matches(names[i], SUBFAMILY_SELECTOR)
    ensures r.Err? && r.error.UnknownStyle? ==> forall s: Style :: Label(s) != r.error.text
  {
    match GetName(names, SUBFAMILY_SELECTOR)
    case None => Err(MissingSubfamily)
    case Some(rec) =>
      match StyleOf(rec.text)
      case Some(s) => Ok(s)
      case None => Err(UnknownStyle(rec.text))
  }

  /** Exactly the four labels are recognised: each style comes back from its own label. */
  lemma StyleOfLabel(s: Style)
    ensures StyleOf(Label(s)) == Some(s)
  {
  }

  /**
    A subfamily "Oblique" is rejected; a subfamily only for the Macintosh platform
    counts as missing; the Windows record is read even when it comes later.
   */
  lemma DetectStyleExamples()
    ensures DetectStyle([NameRecord(2, 3, 1, 0x409, "Oblique")]) == Err(UnknownStyle("Oblique"))
    ensures DetectStyle([NameRecord(2, 1, 0, 0, "Bold")]) == Err(MissingSubfamily)
    ensures DetectStyle([NameRecord(2, 1, 0, 0, "Bold"), NameRecord(2, 3, 1, 0x409, "Bold Italic")]) == Ok(BoldItalic)
  {
    var t := [NameRecord(2, 1, 0, 0, "Bold"), NameRecord(2, 3, 1, 0x409, "Bold Italic")];
    FindFirstIs(t, SUBFAMILY_SELECTOR, 1);
  }
}
