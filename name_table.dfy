/**
  The OpenType `name` table as the scripts see it through fontTools: an ordered
  sequence of records, each a (nameID, platformID, platEncID, langID) key and an
  already decoded text. Lookup is fontTools' `getName` (the first matching record in
  table order) and insertion is `setName` (overwrite the first record with the same
  key, or else append one).
 */
module NameTable {
  import opened Wrappers

  /** The name IDs an `IntEnum` of the rename script knows (OpenType `name` table Name IDs). */
  datatype NameId =
    | Copyright | Family | Subfamily | UniqueId | FullName | Version | PostscriptName
    | Trademark | Manufacturer | Designer | Description | VendorUrl | DesignerUrl
    | License | LicenseUrl | PreferredFamily | PreferredSubfamily | SampleText

  /** The numeric value of each enumeration member. */
  function Code(id: NameId): nat {
    match id
    case Copyright => 0
    case Family => 1
    case Subfamily => 2
    case UniqueId => 3
    case FullName => 4
    case Version => 5
    case PostscriptName => 6
    case Trademark => 7
    case Manufacturer => 8
    case Designer => 9
    case Description => 10
    case VendorUrl => 11
    case DesignerUrl => 12
    case License => 13
    case LicenseUrl => 14
    case PreferredFamily => 16
    case PreferredSubfamily => 17
    case SampleText => 19
  }

  /**
    `NameId(n)`: the member whose value is `n`; `None` where Python raises
    `ValueError` (15, 18 and everything above 19).
   */
  function NameIdOf(n: int): (r: Option<NameId>)
    ensures r.Some? ==> Code(r.value) == n
    ensures r.None? <==> (n < 0 || n == 15 || n == 18 || n > 19)
  {
    if n == 0 then Some(Copyright)
    else if n == 1 then Some(Family)
    else if n == 2 then Some(Subfamily)
    else if n == 3 then Some(UniqueId)
    else if n == 4 then Some(FullName)
    else if n == 5 then Some(Version)
    else if n == 6 then Some(PostscriptName)
    else if n == 7 then Some(Trademark)
    else if n == 8 then Some(Manufacturer)
    else if n == 9 then Some(Designer)
    else if n == 10 then Some(Description)
    else if n == 11 then Some(VendorUrl)
    else if n == 12 then Some(DesignerUrl)
    else if n == 13 then Some(License)
    else if n == 14 then Some(LicenseUrl)
    else if n == 16 then Some(PreferredFamily)
    else if n == 17 then Some(PreferredSubfamily)
    else if n == 19 then Some(SampleText)
    else None
  }

  /** Every member is recovered from its value, so `Code` is injective. */
  lemma NameIdRoundTrip(id: NameId)
    ensures NameIdOf(Code(id)) == Some(id)
  {
  }

  datatype Key = Key(nameID: nat, platformID: nat, platEncID: nat, langID: nat)

  datatype NameRecord = NameRecord(nameID: nat, platformID: nat, platEncID: nat, langID: nat, text: string)

  function KeyOf(r: NameRecord): Key {
    Key(r.nameID, r.platformID, r.platEncID, r.langID)
  }

  function MakeRecord(k: Key, text: string): NameRecord {
    NameRecord(k.nameID, k.platformID, k.platEncID, k.langID, text)
  }

  /**
    The arguments of a `getName` call; a `None` field is not compared, as when
    `langID` is omitted.
   */
  datatype Selector = Selector(nameID: nat, platformID: Option<nat>, platEncID: Option<nat>, langID: Option<nat>)

  /** The selector `setName` uses for a key: every field given. */
  function Exact(k: Key): Selector {
    Selector(k.nameID, Some(k.platformID), Some(k.platEncID), Some(k.langID))
  }

  predicate FieldMatches(want: Option<nat>, have: nat) {
    want.None? || want.value == have
  }

  predicate SelectsKey(sel: Selector, k: Key) {
    && sel.nameID == k.nameID
    && FieldMatches(sel.platformID, k.platformID)
    && FieldMatches(sel.platEncID, k.platEncID)
    && FieldMatches(sel.langID, k.langID)
  }

  predicate Matches(r: NameRecord, sel: Selector) {
    SelectsKey(sel, KeyOf(r))
  }

  /** The index of the first record in table order that the selector matches. */
  function FindFirst(names: seq<NameRecord>, sel: Selector): (r: Option<nat>)
    ensures r.Some? ==> r.value < |names| && Matches(names[r.value], sel)
    ensures r.Some? ==> forall j :: 0 <= j < r.value ==> !Matches(names[j], sel)
    ensures r.None? ==> forall j :: 0 <= j < |names| ==> !Matches(names[j], sel)
  {
    if names == [] then None
    else if Matches(names[0], sel) then Some(0)
    else match FindFirst(names[1..], sel)
      case None => None
      case Some(i) => Some(i + 1)
  }

  /** The first-match characterisation determines the index. */
  lemma FindFirstIs(names: seq<NameRecord>, sel: Selector, i: nat)
    requires i < |names| && Matches(names[i], sel)
    requires forall j :: 0 <= j < i ==> !Matches(names[j], sel)
    ensures FindFirst(names, sel) == Some(i)
  {
    var f := FindFirst(names, sel);
    assert f.Some?;
  }

  /** fontTools `getName`: the first matching record, or `None`. */
  function GetName(names: seq<NameRecord>, sel: Selector): Option<NameRecord> {
    match FindFirst(names, sel)
    case None => None
    case Some(i) => Some(names[i])
  }

  /** Two tables that agree on which positions match and on those records give the same lookup. */
  lemma GetNameFrame(a: seq<NameRecord>, b: seq<NameRecord>, sel: Selector)
    requires |a| <= |b|
    requires forall i :: 0 <= i < |a| && (Matches(a[i], sel) || Matches(b[i], sel)) ==> a[i] == b[i]
    requires forall i :: |a| <= i < |b| ==> !Matches(b[i], sel)
    ensures GetName(a, sel) == GetName(b, sel)
  {
    var fa, fb := FindFirst(a, sel), FindFirst(b, sel);
    if fa.Some? {
      assert b[fa.value] == a[fa.value];
      assert fb.Some? && fb.value <= fa.value;
      assert Matches(a[fb.value], sel);
    }
  }

  /**
    fontTools `setName(text, nameID, platformID, platEncID, langID)`: the first
    record with this key gets the new text; when there is none a record is appended.
   */
  function Upserted(names: seq<NameRecord>, k: Key, text: string): (r: seq<NameRecord>)
    ensures |r| == |names| || |r| == |names| + 1
    ensures forall i :: 0 <= i < |names| ==> KeyOf(r[i]) == KeyOf(names[i])
    ensures forall i :: 0 <= i < |names| && KeyOf(names[i]) != k ==> r[i] == names[i]
    ensures |r| == |names| + 1 ==> r[|names|] == MakeRecord(k, text)
  {
    match FindFirst(names, Exact(k))
    case Some(i) => names[i := names[i].(text := text)]
    case None => names + [MakeRecord(k, text)]
  }

  /** A record is appended exactly when no record has the key. */
  lemma UpsertedAppendsIff(names: seq<NameRecord>, k: Key, text: string)
    ensures |Upserted(names, k, text)| == |names| + 1 <==> forall i :: 0 <= i < |names| ==> KeyOf(names[i]) != k
  {
  }

  /** After the upsert, looking the key up finds the new text. */
  lemma UpsertedSets(names: seq<NameRecord>, k: Key, text: string)
    ensures GetName(Upserted(names, k, text), Exact(k)) == Some(MakeRecord(k, text))
  {
    var r := Upserted(names, k, text);
    match FindFirst(names, Exact(k))
    case Some(i) => FindFirstIs(r, Exact(k), i);
    case None => FindFirstIs(r, Exact(k), |names|);
  }

  /** Only the first record with the key can change: later duplicates keep their text. */
  lemma UpsertedTouchesFirstOnly(names: seq<NameRecord>, k: Key, text: string, i: nat)
    requires i < |names| && Upserted(names, k, text)[i] != names[i]
    ensures FindFirst(names, Exact(k)) == Some(i)
  {
  }

  /** A lookup that cannot select the upserted key sees the table as it was. */
  lemma UpsertedKeepsOtherLookups(names: seq<NameRecord>, k: Key, text: string, sel: Selector)
    requires !SelectsKey(sel, k)
    ensures GetName(Upserted(names, k, text), sel) == GetName(names, sel)
  {
    GetNameFrame(names, Upserted(names, k, text), sel);
  }

  /** Tables with the same keys in the same order answer every selector at the same index. */
  lemma FindFirstSameKeys(a: seq<NameRecord>, b: seq<NameRecord>, sel: Selector)
    requires |a| == |b|
    requires forall i :: 0 <= i < |a| ==> KeyOf(a[i]) == KeyOf(b[i])
    ensures FindFirst(a, sel) == FindFirst(b, sel)
  {
    var fa, fb := FindFirst(a, sel), FindFirst(b, sel);
    if fa.Some? {
      FindFirstIs(b, sel, fa.value);
    }
  }
}
