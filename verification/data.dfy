/**
 * The country metadata records and the lookups over the built-in table
 * (data.go). The table (Go's package-level `generated`) is a parameter `t`:
 * it is immutable, and every lookup reads it rather than its receiver.
 */
module Data {
  import opened Wrappers
  import opened Constants

  /** A post-code regular expression with nested ones keyed by subdivision ID. */
  datatype PostCodeRegex = PostCodeRegex(regex: string, subdivisionRegex: map<string, PostCodeRegex>)

  datatype DependentLocalityRecord = DependentLocalityRecord(id: string, name: string)

  datatype LocalityRecord = LocalityRecord(id: string, name: string, dependentLocalities: seq<DependentLocalityRecord>)

  datatype AreaRecord = AreaRecord(id: string, name: string, postalKey: string, localities: seq<LocalityRecord>)

  /**
   * One country of the table. The four name types are FieldName numbers, with
   * 0 meaning "not set" (see Constants.NameValue).
   */
  datatype CountryRecord = CountryRecord(
    id: string,
    name: string,
    defaultLanguage: string,
    postCodePrefix: string,
    postCodeRegex: PostCodeRegex,
    format: string,
    latinizedFormat: string,
    administrativeAreaNameType: int,
    localityNameType: int,
    dependentLocalityNameType: int,
    postCodeNameType: int,
    allowedFields: set<Field>,
    requiredFields: set<Field>,
    upper: set<Field>,
    administrativeAreas: map<string, seq<AreaRecord>>)

  type Table = map<string, CountryRecord>

  const EmptyRegex: PostCodeRegex := PostCodeRegex("", map[])

  /** Go's zero value of the record, which indexing a map with a missing key yields. */
  const ZeroCountry: CountryRecord :=
    CountryRecord("", "", "", "", EmptyRegex, "", "", 0, 0, 0, 0, {}, {}, {}, map[])

  /** The code of the fallback record that fills the gaps of every other record. */
  const Fallback: string := "ZZ"

  /** generated[code]: the record, or the zero record when the code is absent. */
  function Lookup(t: Table, code: string): CountryRecord
  {
    if code in t then t[code] else ZeroCountry
  }

  /** The record of `code` with its unset fields taken from the fallback record. */
  function Backfilled(t: Table, code: string): CountryRecord
  {
    var d := Lookup(t, code);
    var z := Lookup(t, Fallback);
    d.(
      format := if d.format == "" then z.format else d.format,
      administrativeAreaNameType := if d.administrativeAreaNameType == 0 then z.administrativeAreaNameType else d.administrativeAreaNameType,
      localityNameType := if d.localityNameType == 0 then z.localityNameType else d.localityNameType,
      dependentLocalityNameType := if d.dependentLocalityNameType == 0 then z.dependentLocalityNameType else d.dependentLocalityNameType,
      postCodeNameType := if d.postCodeNameType == 0 then z.postCodeNameType else d.postCodeNameType,
      allowedFields := if |d.allowedFields| == 0 then z.allowedFields else d.allowedFields,
      requiredFields := if |d.requiredFields| == 0 then z.requiredFields else d.requiredFields,
      upper := if |d.upper| == 0 then z.upper else d.upper)
  }

  /**
   * data.getCountry: copies the record of `code` (the zero record if absent)
   * and overwrites each unset field with the fallback record's value.
   */
  method GetCountry(t: Table, code: string) returns (c: CountryRecord)
    ensures c == Backfilled(t, code)
  {
    c := Lookup(t, code);
    var defaults := Lookup(t, Fallback);
    if c.format == "" {
      c := c.(format := defaults.format);
    }
    if c.administrativeAreaNameType == 0 {
      c := c.(administrativeAreaNameType := defaults.administrativeAreaNameType);
    }
    if c.localityNameType == 0 {
      c := c.(localityNameType := defaults.localityNameType);
    }
    if c.dependentLocalityNameType == 0 {
      c := c.(dependentLocalityNameType := defaults.dependentLocalityNameType);
    }
    if c.postCodeNameType == 0 {
      c := c.(postCodeNameType := defaults.postCodeNameType);
    }
    if |c.allowedFields| <= 0 {
      c := c.(allowedFields := defaults.allowedFields);
    }
    if |c.requiredFields| <= 0 {
      c := c.(requiredFields := defaults.requiredFields);
    }
    if |c.upper| <= 0 {
      c := c.(upper := defaults.upper);
    }
  }

  /**
   * Backfilling takes each of the eight backfilled fields from the fallback
   * record exactly when the country leaves it unset, and keeps every other
   * field as stored.
   */
  lemma BackfilledFields(t: Table, code: string)
    ensures var c, d, z := Backfilled(t, code), Lookup(t, code), Lookup(t, Fallback);
      && c.format == (if d.format == "" then z.format else d.format)
      && c.administrativeAreaNameType == (if d.administrativeAreaNameType == 0 then z.administrativeAreaNameType else d.administrativeAreaNameType)
      && c.localityNameType == (if d.localityNameType == 0 then z.localityNameType else d.localityNameType)
      && c.dependentLocalityNameType == (if d.dependentLocalityNameType == 0 then z.dependentLocalityNameType else d.dependentLocalityNameType)
      && c.postCodeNameType == (if d.postCodeNameType == 0 then z.postCodeNameType else d.postCodeNameType)
      && c.allowedFields == (if d.allowedFields == {} then z.allowedFields else d.allowedFields)
      && c.requiredFields == (if d.requiredFields == {} then z.requiredFields else d.requiredFields)
      && c.upper == (if d.upper == {} then z.upper else d.upper)
      && c.id == d.id && c.name == d.name && c.defaultLanguage == d.defaultLanguage
      && c.postCodePrefix == d.postCodePrefix && c.postCodeRegex == d.postCodeRegex
      && c.latinizedFormat == d.latinizedFormat && c.administrativeAreas == d.administrativeAreas
  {
  }

  /**
   * An unknown code still yields a record: its own fields are all empty and
   * the backfilled ones are the fallback record's.
   */
  lemma UnknownCountry(t: Table, code: string)
    requires code !in t
    ensures var c, z := Backfilled(t, code), Lookup(t, Fallback);
      && c.id == "" && c.defaultLanguage == "" && c.latinizedFormat == ""
      && c.postCodeRegex == EmptyRegex && c.administrativeAreas == map[]
      && c.format == z.format && c.allowedFields == z.allowedFields
      && c.requiredFields == z.requiredFields && c.upper == z.upper
  {
  }

  /** Backfilling the fallback record itself changes nothing. */
  lemma FallbackIsFixedPoint(t: Table)
    ensures Backfilled(t, Fallback) == Lookup(t, Fallback)
  {
  }

  /** data.hasCountry: the code has its own entry; "ZZ" counts when present. */
  predicate HasCountry(t: Table, code: string) {
    code in t
  }

  /**
   * data.normalizeLanguage: `language` when the country has subdivision data
   * in it, the country's default language otherwise.
   */
  function NormalizeLanguage(t: Table, code: string, language: string): (r: string)
    ensures r == language || r == Backfilled(t, code).defaultLanguage
    ensures r == language <== language in Backfilled(t, code).administrativeAreas
    ensures r == Backfilled(t, code).defaultLanguage <== language !in Backfilled(t, code).administrativeAreas
  {
    var c := Backfilled(t, code);
    if language in c.administrativeAreas then language else c.defaultLanguage
  }

  /** Normalizing an already normalized language changes nothing. */
  lemma NormalizeLanguageIdempotent(t: Table, code: string, language: string)
    ensures NormalizeLanguage(t, code, NormalizeLanguage(t, code, language)) == NormalizeLanguage(t, code, language)
  {
  }

  /** data.AdministrativeAreas[language]: the list in that language, empty (nil) if absent. */
  function Areas(t: Table, code: string, language: string): seq<AreaRecord>
  {
    var c := Backfilled(t, code);
    if language in c.administrativeAreas then c.administrativeAreas[language] else []
  }

  // ---------------------------------------------------------------------------
  // Searches by ID

  /** The first index at which `id` occurs in `ids`, or -1. */
  function IndexOf(ids: seq<string>, id: string): (k: int)
    ensures -1 <= k < |ids|
    ensures k >= 0 ==> ids[k] == id && forall j :: 0 <= j < k ==> ids[j] != id
    ensures k < 0 ==> forall j :: 0 <= j < |ids| ==> ids[j] != id
  {
    if ids == [] then -1
    else if ids[0] == id then 0
    else
      var k := IndexOf(ids[1..], id);
      if k < 0 then -1 else k + 1
  }

  /** The last index at which `id` occurs in `ids`, or -1. */
  function LastIndexOf(ids: seq<string>, id: string): (k: int)
    ensures -1 <= k < |ids|
    ensures k >= 0 ==> ids[k] == id && forall j :: k < j < |ids| ==> ids[j] != id
    ensures k < 0 ==> forall j :: 0 <= j < |ids| ==> ids[j] != id
  {
    if ids == [] then -1
    else if ids[|ids| - 1] == id then |ids| - 1
    else LastIndexOf(ids[..|ids| - 1], id)
  }

  function AreaIds(areas: seq<AreaRecord>): seq<string>
  {
    seq(|areas|, i requires 0 <= i < |areas| => areas[i].id)
  }

  function LocalityIds(localities: seq<LocalityRecord>): seq<string>
  {
    seq(|localities|, i requires 0 <= i < |localities| => localities[i].id)
  }

  function DependentLocalityIds(dls: seq<DependentLocalityRecord>): seq<string>
  {
    seq(|dls|, i requires 0 <= i < |dls| => dls[i].id)
  }

  /**
   * data.getAdministrativeAreaName: the name of the first area with the given
   * ID in the list of the normalized language, "" when none has that ID.
   */
  function AdministrativeAreaName(t: Table, code: string, areaID: string, language: string): (r: string)
    ensures var areas := Areas(t, code, NormalizeLanguage(t, code, language));
      || (exists i :: 0 <= i < |areas| && areas[i].id == areaID && r == areas[i].name
            && forall j :: 0 <= j < i ==> areas[j].id != areaID)
      || (r == "" && forall i :: 0 <= i < |areas| ==> areas[i].id != areaID)
  {
    var areas := Areas(t, code, NormalizeLanguage(t, code, language));
    var k := IndexOf(AreaIds(areas), areaID);
    assert forall i :: 0 <= i < |areas| ==> AreaIds(areas)[i] == areas[i].id;
    if k < 0 then "" else areas[k].name
  }

  /**
   * data.getAdministrativeAreaPostalKey: like the name lookup, but always in
   * the list of NormalizeLanguage(code, ""), and yielding the postal key.
   */
  function AdministrativeAreaPostalKey(t: Table, code: string, areaID: string): (r: string)
    ensures var areas := Areas(t, code, NormalizeLanguage(t, code, ""));
      || (exists i :: 0 <= i < |areas| && areas[i].id == areaID && r == areas[i].postalKey
            && forall j :: 0 <= j < i ==> areas[j].id != areaID)
      || (r == "" && forall i :: 0 <= i < |areas| ==> areas[i].id != areaID)
  {
    var areas := Areas(t, code, NormalizeLanguage(t, code, ""));
    var k := IndexOf(AreaIds(areas), areaID);
    assert forall i :: 0 <= i < |areas| ==> AreaIds(areas)[i] == areas[i].id;
    if k < 0 then "" else areas[k].postalKey
  }

  /** Some area with ID areaID holds a locality with ID localityID. */
  ghost predicate HasLocalityChain(areas: seq<AreaRecord>, areaID: string, localityID: string) {
    exists i, j :: 0 <= i < |areas| && 0 <= j < |areas[i].localities|
      && areas[i].id == areaID && areas[i].localities[j].id == localityID
  }

  /** The area has ID areaID and holds a locality with ID localityID. */
  ghost predicate AreaHolds(area: AreaRecord, areaID: string, localityID: string) {
    area.id == areaID && exists j :: 0 <= j < |area.localities| && area.localities[j].id == localityID
  }

  /**
   * Where the nested search stops: areas[i] is the first area that holds the
   * locality, and j is the first locality in it with that ID.
   */
  ghost predicate LocalityFoundAt(areas: seq<AreaRecord>, areaID: string, localityID: string, i: int, j: int) {
    && 0 <= i < |areas| && areas[i].id == areaID
    && 0 <= j < |areas[i].localities| && areas[i].localities[j].id == localityID
    && (forall q :: 0 <= q < j ==> areas[i].localities[q].id != localityID)
    && (forall p :: 0 <= p < i ==> !AreaHolds(areas[p], areaID, localityID))
  }

  /** The first matching locality, in area-then-locality order, has this name. */
  ghost predicate LocalityNamed(areas: seq<AreaRecord>, areaID: string, localityID: string, name: string) {
    exists i, j :: LocalityFoundAt(areas, areaID, localityID, i, j) && areas[i].localities[j].name == name
  }

  /** The search stops at one place only. */
  lemma LocalityFoundAtUnique(areas: seq<AreaRecord>, areaID: string, localityID: string, i: int, j: int, i': int, j': int)
    requires LocalityFoundAt(areas, areaID, localityID, i, j)
    requires LocalityFoundAt(areas, areaID, localityID, i', j')
    ensures i == i' && j == j'
  {
    assert AreaHolds(areas[i], areaID, localityID) && AreaHolds(areas[i'], areaID, localityID);
  }

  /** When the first area holds no match, the search result is that of the other areas. */
  lemma LocalityTail(areas: seq<AreaRecord>, areaID: string, localityID: string)
    requires areas != []
    requires areas[0].id != areaID || forall j :: 0 <= j < |areas[0].localities| ==> areas[0].localities[j].id != localityID
    ensures HasLocalityChain(areas[1..], areaID, localityID) <==> HasLocalityChain(areas, areaID, localityID)
  {
    if HasLocalityChain(areas, areaID, localityID) {
      var i, j :| 0 <= i < |areas| && 0 <= j < |areas[i].localities|
        && areas[i].id == areaID && areas[i].localities[j].id == localityID;
      assert i > 0;
      assert areas[1..][i - 1] == areas[i];
    }
    if HasLocalityChain(areas[1..], areaID, localityID) {
      var i, j :| 0 <= i < |areas[1..]| && 0 <= j < |areas[1..][i].localities|
        && areas[1..][i].id == areaID && areas[1..][i].localities[j].id == localityID;
      assert areas[i + 1] == areas[1..][i];
    }
  }

  /** When the first area holds no match, a name found in the other areas is the one found in all of them. */
  lemma LocalityNamedTail(areas: seq<AreaRecord>, areaID: string, localityID: string, name: string)
    requires areas != []
    requires areas[0].id != areaID || forall j :: 0 <= j < |areas[0].localities| ==> areas[0].localities[j].id != localityID
    ensures LocalityNamed(areas[1..], areaID, localityID, name) ==> LocalityNamed(areas, areaID, localityID, name)
  {
    assert !AreaHolds(areas[0], areaID, localityID);
    if LocalityNamed(areas[1..], areaID, localityID, name) {
      var i, j :| LocalityFoundAt(areas[1..], areaID, localityID, i, j) && areas[1..][i].localities[j].name == name;
      assert areas[i + 1] == areas[1..][i];
      forall p | 0 <= p < i + 1 ensures !AreaHolds(areas[p], areaID, localityID) {
        if p > 0 { assert areas[p] == areas[1..][p - 1]; }
      }
      assert LocalityFoundAt(areas, areaID, localityID, i + 1, j);
    }
  }

  /**
   * The nested search of getLocalityName: areas in order; inside an area with
   * the right ID, its localities in order; the first full match ends the search.
   */
  function LocalityIn(areas: seq<AreaRecord>, areaID: string, localityID: string): (r: Option<string>)
    ensures r.None? <==> !HasLocalityChain(areas, areaID, localityID)
    ensures r.Some? ==> LocalityNamed(areas, areaID, localityID, r.value)
  {
    if areas == [] then None
    else
      var k := if areas[0].id == areaID then IndexOf(LocalityIds(areas[0].localities), localityID) else -1;
      assert forall j :: 0 <= j < |areas[0].localities| ==> LocalityIds(areas[0].localities)[j] == areas[0].localities[j].id;
      if k >= 0 then
        assert LocalityFoundAt(areas, areaID, localityID, 0, k);
        Some(areas[0].localities[k].name)
      else
        var r := LocalityIn(areas[1..], areaID, localityID);
        LocalityTail(areas, areaID, localityID);
        LocalityNamedTail(areas, areaID, localityID, if r.Some? then r.value else "");
        r
  }

  /**
   * data.getLocalityName: in the list of the normalized language, the name of
   * the first locality with the ID under the first area with the ID that
   * holds one; "" unless both IDs match somewhere.
   */
  function LocalityName(t: Table, code: string, areaID: string, localityID: string, language: string): (r: string)
    ensures var areas := Areas(t, code, NormalizeLanguage(t, code, language));
      && (!HasLocalityChain(areas, areaID, localityID) ==> r == "")
      && (HasLocalityChain(areas, areaID, localityID) ==> LocalityNamed(areas, areaID, localityID, r))
  {
    match LocalityIn(Areas(t, code, NormalizeLanguage(t, code, language)), areaID, localityID)
    case Some(name) => name
    case None => ""
  }

  /** Some locality with ID localityID holds a dependent locality with ID dependentID. */
  ghost predicate HasDependentChain(localities: seq<LocalityRecord>, localityID: string, dependentID: string) {
    exists j, k :: 0 <= j < |localities| && 0 <= k < |localities[j].dependentLocalities|
      && localities[j].id == localityID && localities[j].dependentLocalities[k].id == dependentID
  }

  /** The locality has ID localityID and holds a dependent locality with ID dependentID. */
  ghost predicate LocalityHolds(locality: LocalityRecord, localityID: string, dependentID: string) {
    locality.id == localityID
      && exists k :: 0 <= k < |locality.dependentLocalities| && locality.dependentLocalities[k].id == dependentID
  }

  /**
   * Where the inner search stops: localities[j] is the first locality that
   * holds the dependent locality, and k is the first one in it with that ID.
   */
  ghost predicate DependentFoundAt(localities: seq<LocalityRecord>, localityID: string, dependentID: string, j: int, k: int) {
    && 0 <= j < |localities| && localities[j].id == localityID
    && 0 <= k < |localities[j].dependentLocalities| && localities[j].dependentLocalities[k].id == dependentID
    && (forall q :: 0 <= q < k ==> localities[j].dependentLocalities[q].id != dependentID)
    && (forall p :: 0 <= p < j ==> !LocalityHolds(localities[p], localityID, dependentID))
  }

  /** The first matching dependent locality, in locality order, has this name. */
  ghost predicate DependentNamed(localities: seq<LocalityRecord>, localityID: string, dependentID: string, name: string) {
    exists j, k :: DependentFoundAt(localities, localityID, dependentID, j, k)
      && localities[j].dependentLocalities[k].name == name
  }

  /** The inner search stops at one place only. */
  lemma DependentFoundAtUnique(localities: seq<LocalityRecord>, localityID: string, dependentID: string, j: int, k: int, j': int, k': int)
    requires DependentFoundAt(localities, localityID, dependentID, j, k)
    requires DependentFoundAt(localities, localityID, dependentID, j', k')
    ensures j == j' && k == k'
  {
    assert LocalityHolds(localities[j], localityID, dependentID) && LocalityHolds(localities[j'], localityID, dependentID);
  }

  /** When the first locality holds no match, the search result is that of the other localities. */
  lemma DependentTail(localities: seq<LocalityRecord>, localityID: string, dependentID: string)
    requires localities != []
    requires localities[0].id != localityID
      || forall k :: 0 <= k < |localities[0].dependentLocalities| ==> localities[0].dependentLocalities[k].id != dependentID
    ensures HasDependentChain(localities[1..], localityID, dependentID) <==> HasDependentChain(localities, localityID, dependentID)
  {
    if HasDependentChain(localities, localityID, dependentID) {
      var j, k :| 0 <= j < |localities| && 0 <= k < |localities[j].dependentLocalities|
        && localities[j].id == localityID && localities[j].dependentLocalities[k].id == dependentID;
      assert j > 0;
      assert localities[1..][j - 1] == localities[j];
    }
    if HasDependentChain(localities[1..], localityID, dependentID) {
      var j, k :| 0 <= j < |localities[1..]| && 0 <= k < |localities[1..][j].dependentLocalities|
        && localities[1..][j].id == localityID && localities[1..][j].dependentLocalities[k].id == dependentID;
      assert localities[j + 1] == localities[1..][j];
    }
  }

  /** When the first locality holds no match, a name found in the other localities is the one found in all of them. */
  lemma DependentNamedTail(localities: seq<LocalityRecord>, localityID: string, dependentID: string, name: string)
    requires localities != []
    requires localities[0].id != localityID
      || forall k :: 0 <= k < |localities[0].dependentLocalities| ==> localities[0].dependentLocalities[k].id != dependentID
    ensures DependentNamed(localities[1..], localityID, dependentID, name) ==> DependentNamed(localities, localityID, dependentID, name)
  {
    assert !LocalityHolds(localities[0], localityID, dependentID);
    if DependentNamed(localities[1..], localityID, dependentID, name) {
      var j, k :| DependentFoundAt(localities[1..], localityID, dependentID, j, k)
        && localities[1..][j].dependentLocalities[k].name == name;
      assert localities[j + 1] == localities[1..][j];
      forall p | 0 <= p < j + 1 ensures !LocalityHolds(localities[p], localityID, dependentID) {
        if p > 0 { assert localities[p] == localities[1..][p - 1]; }
      }
      assert DependentFoundAt(localities, localityID, dependentID, j + 1, k);
    }
  }

  /** The inner two levels of getDependentLocalityName's search. */
  function DependentIn(localities: seq<LocalityRecord>, localityID: string, dependentID: string): (r: Option<string>)
    ensures r.None? <==> !HasDependentChain(localities, localityID, dependentID)
    ensures r.Some? ==> DependentNamed(localities, localityID, dependentID, r.value)
  {
    if localities == [] then None
    else
      var l := localities[0];
      var k := if l.id == localityID then IndexOf(DependentLocalityIds(l.dependentLocalities), dependentID) else -1;
      assert forall k :: 0 <= k < |l.dependentLocalities| ==> DependentLocalityIds(l.dependentLocalities)[k] == l.dependentLocalities[k].id;
      if k >= 0 then
        assert DependentFoundAt(localities, localityID, dependentID, 0, k);
        Some(l.dependentLocalities[k].name)
      else
        var r := DependentIn(localities[1..], localityID, dependentID);
        DependentTail(localities, localityID, dependentID);
        DependentNamedTail(localities, localityID, dependentID, if r.Some? then r.value else "");
        r
  }

  /** Some area with ID areaID leads, through a locality, to the dependent locality. */
  ghost predicate HasFullChain(areas: seq<AreaRecord>, areaID: string, localityID: string, dependentID: string) {
    exists i :: 0 <= i < |areas| && areas[i].id == areaID
      && HasDependentChain(areas[i].localities, localityID, dependentID)
  }

  /** areas[i] is the first area with ID areaID through which the dependent locality is reached. */
  ghost predicate FullChainFoundAt(areas: seq<AreaRecord>, areaID: string, localityID: string, dependentID: string, i: int) {
    && 0 <= i < |areas| && areas[i].id == areaID
    && HasDependentChain(areas[i].localities, localityID, dependentID)
    && forall p :: 0 <= p < i ==> areas[p].id != areaID || !HasDependentChain(areas[p].localities, localityID, dependentID)
  }

  /** The outer search stops at one area only. */
  lemma FullChainFoundAtUnique(areas: seq<AreaRecord>, areaID: string, localityID: string, dependentID: string, i: int, i': int)
    requires FullChainFoundAt(areas, areaID, localityID, dependentID, i)
    requires FullChainFoundAt(areas, areaID, localityID, dependentID, i')
    ensures i == i'
  {
  }

  /** The first full match, in area, locality and dependent-locality order, has this name. */
  ghost predicate FullChainNamed(areas: seq<AreaRecord>, areaID: string, localityID: string, dependentID: string, name: string) {
    exists i :: FullChainFoundAt(areas, areaID, localityID, dependentID, i)
      && DependentNamed(areas[i].localities, localityID, dependentID, name)
  }

  /** When the first area holds no full match, the search result is that of the other areas. */
  lemma FullChainTail(areas: seq<AreaRecord>, areaID: string, localityID: string, dependentID: string, name: string)
    requires areas != []
    requires areas[0].id != areaID || !HasDependentChain(areas[0].localities, localityID, dependentID)
    ensures HasFullChain(areas[1..], areaID, localityID, dependentID) <==> HasFullChain(areas, areaID, localityID, dependentID)
    ensures FullChainNamed(areas[1..], areaID, localityID, dependentID, name) ==> FullChainNamed(areas, areaID, localityID, dependentID, name)
  {
    if HasFullChain(areas, areaID, localityID, dependentID) {
      var i :| 0 <= i < |areas| && areas[i].id == areaID && HasDependentChain(areas[i].localities, localityID, dependentID);
      assert i > 0;
      assert areas[1..][i - 1] == areas[i];
    }
    if HasFullChain(areas[1..], areaID, localityID, dependentID) {
      var i :| 0 <= i < |areas[1..]| && areas[1..][i].id == areaID && HasDependentChain(areas[1..][i].localities, localityID, dependentID);
      assert areas[i + 1] == areas[1..][i];
    }
    if FullChainNamed(areas[1..], areaID, localityID, dependentID, name) {
      var i :| FullChainFoundAt(areas[1..], areaID, localityID, dependentID, i)
        && DependentNamed(areas[1..][i].localities, localityID, dependentID, name);
      assert areas[i + 1] == areas[1..][i];
      forall p | 0 <= p < i + 1 ensures areas[p].id != areaID || !HasDependentChain(areas[p].localities, localityID, dependentID) {
        if p > 0 { assert areas[p] == areas[1..][p - 1]; }
      }
      assert FullChainFoundAt(areas, areaID, localityID, dependentID, i + 1);
    }
  }

  /** The outer level of getDependentLocalityName's search. */
  function FullChainIn(areas: seq<AreaRecord>, areaID: string, localityID: string, dependentID: string): (r: Option<string>)
    ensures r.None? <==> !HasFullChain(areas, areaID, localityID, dependentID)
    ensures r.Some? ==> FullChainNamed(areas, areaID, localityID, dependentID, r.value)
  {
    if areas == [] then None
    else
      var inner := if areas[0].id == areaID then DependentIn(areas[0].localities, localityID, dependentID) else None;
      if inner.Some? then
        assert FullChainFoundAt(areas, areaID, localityID, dependentID, 0);
        inner
      else
        var r := FullChainIn(areas[1..], areaID, localityID, dependentID);
        FullChainTail(areas, areaID, localityID, dependentID, if r.Some? then r.value else "");
        r
  }

  /**
   * data.getDependentLocalityName: "" unless the area, locality and dependent
   * locality IDs all match along one path of the tree; otherwise the name at
   * the end of the first such path, in list order at every level.
   */
  function DependentLocalityName(t: Table, code: string, areaID: string, localityID: string, dependentID: string, language: string): (r: string)
    ensures var areas := Areas(t, code, NormalizeLanguage(t, code, language));
      && (!HasFullChain(areas, areaID, localityID, dependentID) ==> r == "")
      && (HasFullChain(areas, areaID, localityID, dependentID) ==> FullChainNamed(areas, areaID, localityID, dependentID, r))
  {
    match FullChainIn(Areas(t, code, NormalizeLanguage(t, code, language)), areaID, localityID, dependentID)
    case Some(name) => name
    case None => ""
  }
}
