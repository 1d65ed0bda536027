/**
 * The address value, its preparation for formatting, and the conversions of
 * the internal country records into the public data types (address.go).
 */
module Addresses {
  import opened Constants
  import opened Strings
  import opened Data
  import Errors

  /** An address; StreetAddress holds one string per address line. */
  datatype Address = Address(
    country: string,
    name: string,
    organization: string,
    streetAddress: seq<string>,
    dependentLocality: string,
    locality: string,
    administrativeArea: string,
    postCode: string,
    sortingCode: string)

  /** Go's zero Address. */
  const Zero: Address := Address("", "", "", [], "", "", "", "", "")

  /** Address.IsZero: every string field is empty and there are no address lines. */
  predicate IsZero(a: Address) {
    && a.country == "" && a.name == "" && a.organization == ""
    && |a.streetAddress| <= 0 && a.dependentLocality == "" && a.locality == ""
    && a.administrativeArea == "" && a.postCode == "" && a.sortingCode == ""
  }

  /** IsZero holds of exactly one address, the zero value. */
  lemma IsZeroIffZero(a: Address)
    ensures IsZero(a) <==> a == Zero
  {
  }

  /** The data the format templates are executed against. */
  datatype FormatData = FormatData(
    country: string,
    countryEnglish: string,
    name: string,
    organization: string,
    streetAddress: seq<string>,
    dependentLocality: string,
    locality: string,
    administrativeArea: string,
    administrativeAreaPostalKey: string,
    postCode: string,
    sortingCode: string)

  // ---------------------------------------------------------------------------
  // Street lines

  /** f applied to every element, in order. */
  function MapStrings(f: string -> string, xs: seq<string>): (r: seq<string>)
    ensures |r| == |xs| && forall i :: 0 <= i < |xs| ==> r[i] == f(xs[i])
  {
    seq(|xs|, i requires 0 <= i < |xs| => f(xs[i]))
  }

  lemma MapStringsAppend(f: string -> string, a: seq<string>, b: seq<string>)
    ensures MapStrings(f, a + b) == MapStrings(f, a) + MapStrings(f, b)
  {
  }

  /** The non-empty elements, in order. */
  function DropEmpty(xs: seq<string>): (r: seq<string>)
    ensures |r| <= |xs|
    ensures forall i :: 0 <= i < |r| ==> r[i] != "" && r[i] in xs
  {
    if xs == [] then []
    else
      var init := DropEmpty(xs[..|xs| - 1]);
      assert forall x :: x in xs[..|xs| - 1] ==> x in xs;
      init + if xs[|xs| - 1] != "" then [xs[|xs| - 1]] else []
  }

  lemma {:induction false} DropEmptyAppend(a: seq<string>, b: seq<string>)
    ensures DropEmpty(a + b) == DropEmpty(a) + DropEmpty(b)
    decreases |b|
  {
    if b == [] {
      assert a + b == a;
    } else {
      var n := |b| - 1;
      var ab := a + b;
      assert ab[..|ab| - 1] == a + b[..n];
      assert ab[|ab| - 1] == b[n];
      DropEmptyAppend(a, b[..n]);
    }
  }

  lemma {:induction false} DropEmptyNone(xs: seq<string>)
    ensures DropEmpty(xs) == [] <==> forall i :: 0 <= i < |xs| ==> xs[i] == ""
  {
    if xs != [] {
      var init := xs[..|xs| - 1];
      DropEmptyNone(init);
      assert forall i :: 0 <= i < |init| ==> init[i] == xs[i];
    }
  }

  /** The address lines, each trimmed, with the blank ones dropped, in their order. */
  function NonBlankLines(lines: seq<string>): (r: seq<string>)
    ensures |r| <= |lines|
  {
    DropEmpty(MapStrings(TrimSpace, lines))
  }

  /** No line survives exactly when every line is blank. */
  lemma NonBlankLinesEmpty(lines: seq<string>)
    ensures NonBlankLines(lines) == [] <==> forall i :: 0 <= i < |lines| ==> Blank(lines[i])
  {
    DropEmptyNone(MapStrings(TrimSpace, lines));
  }

  /** Every kept line is non-empty and already trimmed. */
  lemma NonBlankLinesTrimmed(lines: seq<string>)
    ensures forall x :: x in NonBlankLines(lines) ==> x != "" && TrimSpace(x) == x
  {
    var m := MapStrings(TrimSpace, lines);
    forall x | x in NonBlankLines(lines) ensures x != "" && TrimSpace(x) == x {
      var i :| 0 <= i < |NonBlankLines(lines)| && NonBlankLines(lines)[i] == x;
      var j :| 0 <= j < |m| && m[j] == x;
      TrimSpaceIdempotent(lines[j]);
    }
  }

  /**
   * Dropping and trimming works line by line: the result for a concatenation
   * is the concatenation of the results, so the kept lines stay in order.
   */
  lemma NonBlankLinesAppend(a: seq<string>, b: seq<string>)
    ensures NonBlankLines(a + b) == NonBlankLines(a) + NonBlankLines(b)
  {
    MapStringsAppend(TrimSpace, a, b);
    DropEmptyAppend(MapStrings(TrimSpace, a), MapStrings(TrimSpace, b));
  }

  /** A single line is kept, trimmed, exactly when it is not blank. */
  lemma NonBlankLinesSingle(line: string)
    ensures NonBlankLines([line]) == if Blank(line) then [] else [TrimSpace(line)]
  {
    var m := MapStrings(TrimSpace, [line]);
    assert m == [TrimSpace(line)];
    assert m[..0] == [];
  }

  /** The street-address loop of toFormatData. */
  method TrimStreetLines(lines: seq<string>) returns (r: seq<string>)
    ensures r == NonBlankLines(lines)
  {
    r := [];
    assert lines[..0] == [];
    for i := 0 to |lines|
      invariant r == NonBlankLines(lines[..i])
    {
      assert lines[..i + 1] == lines[..i] + [lines[i]];
      NonBlankLinesAppend(lines[..i], [lines[i]]);
      NonBlankLinesSingle(lines[i]);
      var trimmed := TrimSpace(lines[i]);
      if trimmed != "" {
        r := r + [trimmed];
      }
    }
    assert lines[..|lines|] == lines;
  }

  /**
   * How toFormatData shows the locality and the dependent locality: each by
   * the name a lookup finds for it, or by its ID when it is empty or the
   * lookup finds no name.
   */
  predicate LocalitiesShown(t: Table, a: Address, language: string, locality: string, dependentLocality: string) {
    && (var n := LocalityName(t, a.country, a.administrativeArea, a.locality, language);
        locality == if a.locality != "" && n != "" then n else a.locality)
    && (var n := DependentLocalityName(t, a.country, a.administrativeArea, a.locality, a.dependentLocality, language);
        dependentLocality == if a.dependentLocality != "" && n != "" then n else a.dependentLocality)
  }

  /**
   * Address.toFormatData. The display name of the country, which the source
   * obtains from a locale library, is the parameter countryName.
   * Subdivision keys are replaced by their names only when a lookup finds a
   * non-empty name, and the postal key is looked up only for a non-empty area.
   */
  method ToFormatData(t: Table, a: Address, language: string, countryName: string) returns (f: FormatData)
    ensures f.country == countryName && f.countryEnglish == ""
    ensures f.name == a.name && f.organization == a.organization
    ensures f.postCode == a.postCode && f.sortingCode == a.sortingCode
    ensures f.streetAddress == NonBlankLines(a.streetAddress)
    ensures var n := AdministrativeAreaName(t, a.country, a.administrativeArea, language);
      f.administrativeArea == if a.administrativeArea != "" && n != "" then n else a.administrativeArea
    ensures f.administrativeAreaPostalKey
      == if a.administrativeArea != "" then AdministrativeAreaPostalKey(t, a.country, a.administrativeArea) else ""
    ensures LocalitiesShown(t, a, language, f.locality, f.dependentLocality)
    ensures var areas := Areas(t, a.country, NormalizeLanguage(t, a.country, language));
      && (f.locality != a.locality ==> HasLocalityChain(areas, a.administrativeArea, a.locality))
      && (f.dependentLocality != a.dependentLocality ==>
            HasFullChain(areas, a.administrativeArea, a.locality, a.dependentLocality))
  {
    var lines := TrimStreetLines(a.streetAddress);
    f := FormatData("", "", a.name, a.organization, lines, a.dependentLocality, a.locality,
                    a.administrativeArea, "", a.postCode, a.sortingCode);
    f := f.(country := countryName);
    if a.administrativeArea != "" {
      var adminAreaName := AdministrativeAreaName(t, a.country, a.administrativeArea, language);
      if adminAreaName != "" {
        f := f.(administrativeArea := adminAreaName);
      }
      f := f.(administrativeAreaPostalKey := AdministrativeAreaPostalKey(t, a.country, a.administrativeArea));
    }
    if a.locality != "" {
      var localityName := LocalityName(t, a.country, a.administrativeArea, a.locality, language);
      if localityName != "" {
        f := f.(locality := localityName);
      }
    }
    if a.dependentLocality != "" {
      var dependentLocalityName := DependentLocalityName(t, a.country, a.administrativeArea, a.locality, a.dependentLocality, language);
      if dependentLocalityName != "" {
        f := f.(dependentLocality := dependentLocalityName);
      }
    }
  }

  // ---------------------------------------------------------------------------
  // Public data types and the conversions into them

  datatype PostCodeRegexData = PostCodeRegexData(regex: string, subdivisionRegex: map<string, PostCodeRegexData>)

  datatype DependentLocalityData = DependentLocalityData(id: string, name: string)

  datatype LocalityData = LocalityData(id: string, name: string, dependentLocalities: seq<DependentLocalityData>)

  datatype AreaData = AreaData(id: string, name: string, localities: seq<LocalityData>)

  datatype CountryData = CountryData(
    format: string,
    latinizedFormat: string,
    required: seq<Field>,
    allowed: seq<Field>,
    defaultLanguage: string,
    administrativeAreaNameType: int,
    localityNameType: int,
    dependentLocalityNameType: int,
    postCodeNameType: int,
    postCodeRegex: PostCodeRegexData,
    administrativeAreas: map<string, seq<AreaData>>)

  /** The public copy of a post-code regex tree. */
  function RegexToData(r: PostCodeRegex): (d: PostCodeRegexData)
    ensures d.regex == r.regex && d.subdivisionRegex.Keys == r.subdivisionRegex.Keys
  {
    PostCodeRegexData(r.regex, map k | k in r.subdivisionRegex :: RegexToData(r.subdivisionRegex[k]))
  }

  /** The internal tree a public regex tree was copied from. */
  function RegexFromData(d: PostCodeRegexData): (r: PostCodeRegex)
    ensures r.regex == d.regex && r.subdivisionRegex.Keys == d.subdivisionRegex.Keys
  {
    PostCodeRegex(d.regex, map k | k in d.subdivisionRegex :: RegexFromData(d.subdivisionRegex[k]))
  }

  /** The copy loses nothing: every regex and every key is kept at every depth. */
  lemma {:induction false} RegexRoundTrip(r: PostCodeRegex)
    ensures RegexFromData(RegexToData(r)) == r
    decreases r
  {
    forall k | k in r.subdivisionRegex
      ensures RegexFromData(RegexToData(r).subdivisionRegex[k]) == r.subdivisionRegex[k]
    {
      RegexRoundTrip(r.subdivisionRegex[k]);
    }
  }

  /** Every public tree is the copy of some internal one. */
  lemma {:induction false} RegexRoundTripData(d: PostCodeRegexData)
    ensures RegexToData(RegexFromData(d)) == d
    decreases d
  {
    forall k | k in d.subdivisionRegex
      ensures RegexToData(RegexFromData(d).subdivisionRegex[k]) == d.subdivisionRegex[k]
    {
      RegexRoundTripData(d.subdivisionRegex[k]);
    }
  }

  /** internalPostCodeRegexToPostCodeRegexData: copies the tree level by level. */
  method ConvertPostCodeRegex(r: PostCodeRegex) returns (d: PostCodeRegexData)
    ensures d == RegexToData(r)
    decreases r
  {
    var sub: map<string, PostCodeRegexData> := map[];
    var keys := r.subdivisionRegex.Keys;
    while keys != {}
      invariant keys <= r.subdivisionRegex.Keys
      invariant sub.Keys == r.subdivisionRegex.Keys - keys
      invariant forall k :: k in sub ==> sub[k] == RegexToData(r.subdivisionRegex[k])
      decreases |keys|
    {
      var subID :| subID in keys;
      var child := ConvertPostCodeRegex(r.subdivisionRegex[subID]);
      sub := sub[subID := child];
      keys := keys - {subID};
    }
    d := PostCodeRegexData(r.regex, sub);
  }

  function DependentToData(d: DependentLocalityRecord): DependentLocalityData
  {
    DependentLocalityData(d.id, d.name)
  }

  function LocalityToData(l: LocalityRecord): LocalityData
  {
    LocalityData(l.id, l.name,
      seq(|l.dependentLocalities|, i requires 0 <= i < |l.dependentLocalities| => DependentToData(l.dependentLocalities[i])))
  }

  function AreaToData(a: AreaRecord): AreaData
  {
    AreaData(a.id, a.name,
      seq(|a.localities|, i requires 0 <= i < |a.localities| => LocalityToData(a.localities[i])))
  }

  /** The public copy of a list of areas: same order, same IDs and names, no postal keys. */
  function AreasToData(areas: seq<AreaRecord>): (r: seq<AreaData>)
    ensures |r| == |areas|
    ensures forall i :: 0 <= i < |r| ==> r[i].id == areas[i].id && r[i].name == areas[i].name
  {
    seq(|areas|, i requires 0 <= i < |areas| => AreaToData(areas[i]))
  }

  function LocalityFromData(l: LocalityData): LocalityRecord
  {
    LocalityRecord(l.id, l.name,
      seq(|l.dependentLocalities|, i requires 0 <= i < |l.dependentLocalities|
        => DependentLocalityRecord(l.dependentLocalities[i].id, l.dependentLocalities[i].name)))
  }

  /** The internal area a public area was copied from, given the postal key the copy dropped. */
  function AreaFromData(a: AreaData, postalKey: string): AreaRecord
  {
    AreaRecord(a.id, a.name, postalKey,
      seq(|a.localities|, i requires 0 <= i < |a.localities| => LocalityFromData(a.localities[i])))
  }

  /** The postal key is the only thing the copy of an area loses. */
  lemma AreaRoundTrip(a: AreaRecord)
    ensures AreaFromData(AreaToData(a), a.postalKey) == a
  {
    forall i | 0 <= i < |a.localities|
      ensures LocalityFromData(LocalityToData(a.localities[i])) == a.localities[i]
    {
      var l := a.localities[i];
      assert LocalityFromData(LocalityToData(l)).dependentLocalities == l.dependentLocalities;
    }
    assert AreaFromData(AreaToData(a), a.postalKey).localities == a.localities;
  }

  /** internalAdministrativeAreasToAdministrativeAreaData: three nested copying loops. */
  method ConvertAreas(areas: seq<AreaRecord>) returns (result: seq<AreaData>)
    ensures result == AreasToData(areas)
  {
    result := [];
    for i := 0 to |areas|
      invariant |result| == i
      invariant forall k :: 0 <= k < i ==> result[k] == AreaToData(areas[k])
    {
      var adminArea := areas[i];
      var localities: seq<LocalityData> := [];
      for j := 0 to |adminArea.localities|
        invariant |localities| == j
        invariant forall k :: 0 <= k < j ==> localities[k] == LocalityToData(adminArea.localities[k])
      {
        var locality := adminArea.localities[j];
        var dependentLocalities: seq<DependentLocalityData> := [];
        for m := 0 to |locality.dependentLocalities|
          invariant |dependentLocalities| == m
          invariant forall k :: 0 <= k < m ==> dependentLocalities[k] == DependentToData(locality.dependentLocalities[k])
        {
          var dl := locality.dependentLocalities[m];
          dependentLocalities := dependentLocalities + [DependentLocalityData(dl.id, dl.name)];
        }
        localities := localities + [LocalityData(locality.id, locality.name, dependentLocalities)];
      }
      result := result + [AreaData(adminArea.id, adminArea.name, localities)];
    }
  }

  // ---------------------------------------------------------------------------
  // Field lists sorted by name

  /** Strictly increasing by Field.String(), hence free of duplicates. */
  predicate SortedByName(fs: seq<Field>) {
    forall i, j :: 0 <= i < j < |fs| ==> LexLess(String(fs[i]), String(fs[j]))
  }

  /** Inserts f at its place by name in a sorted list that lacks it. */
  function InsertByName(fs: seq<Field>, f: Field): (r: seq<Field>)
    requires SortedByName(fs) && f !in fs
    ensures SortedByName(r)
    ensures forall g :: g in r <==> g in fs || g == f
  {
    if fs == [] then [f]
    else if LexLess(String(f), String(fs[0])) then
      BelowHeadByName(fs, f);
      [f] + fs
    else
      var tail := InsertByName(fs[1..], f);
      AboveHeadByName(fs, f, tail);
      [fs[0]] + tail
  }

  /** The head of a sorted list stays in front when a larger field is inserted behind it. */
  lemma AboveHeadByName(fs: seq<Field>, f: Field, tail: seq<Field>)
    requires SortedByName(fs) && fs != [] && f !in fs && !LexLess(String(f), String(fs[0]))
    requires SortedByName(tail) && forall g :: g in tail <==> g in fs[1..] || g == f
    ensures SortedByName([fs[0]] + tail)
  {
    KeysAndNamesDistinct(f, fs[0]);
    LexTotal(String(f), String(fs[0]));
    HeadBelowRest(fs);
    forall k | 0 <= k < |tail| ensures LexLess(String(fs[0]), String(tail[k])) {
      assert tail[k] in tail;
    }
    SortedCons(fs[0], tail);
  }

  /** In a sorted list every later field comes after the head. */
  lemma HeadBelowRest(fs: seq<Field>)
    requires SortedByName(fs) && fs != []
    ensures forall g :: g in fs[1..] ==> LexLess(String(fs[0]), String(g))
  {
    forall g | g in fs[1..] ensures LexLess(String(fs[0]), String(g)) {
      var j :| 0 <= j < |fs[1..]| && fs[1..][j] == g;
      assert fs[j + 1] == g;
    }
  }

  /** A field before every field of a sorted list can be put in front of it. */
  lemma SortedCons(h: Field, tail: seq<Field>)
    requires SortedByName(tail)
    requires forall k :: 0 <= k < |tail| ==> LexLess(String(h), String(tail[k]))
    ensures SortedByName([h] + tail)
  {
    var r := [h] + tail;
    forall i, j | 0 <= i < j < |r| ensures LexLess(String(r[i]), String(r[j])) {
      assert r[j] == tail[j - 1];
      if i > 0 {
        assert r[i] == tail[i - 1];
      }
    }
  }

  lemma BelowHeadByName(fs: seq<Field>, f: Field)
    requires SortedByName(fs) && fs != [] && LexLess(String(f), String(fs[0]))
    ensures SortedByName([f] + fs)
  {
    forall j | 0 < j < |fs| ensures LexLess(String(f), String(fs[j])) {
      LexTransitive(String(f), String(fs[0]), String(fs[j]));
    }
  }

  /** Two name-sorted lists of the same fields are the same list. */
  lemma SortedByNameUnique(a: seq<Field>, b: seq<Field>)
    requires SortedByName(a) && SortedByName(b)
    requires forall f :: f in a <==> f in b
    ensures a == b
  {
    var na, nb := Errors.Names(a), Errors.Names(b);
    forall x ensures x in na <==> x in nb {
      if x in na {
        var i :| 0 <= i < |na| && na[i] == x;
        assert a[i] in b;
        var j :| 0 <= j < |b| && b[j] == a[i];
        assert nb[j] == x;
      }
      if x in nb {
        var j :| 0 <= j < |nb| && nb[j] == x;
        assert b[j] in a;
        var i :| 0 <= i < |a| && a[i] == b[j];
        assert na[i] == x;
      }
    }
    SortedUnique(na, nb);
    Errors.NamesInjective(a, b);
  }

  /** Gathers the fields of a set and sorts them by name, as the conversion does. */
  method SortFieldsByName(s: set<Field>) returns (r: seq<Field>)
    ensures SortedByName(r)
    ensures forall f :: f in r <==> f in s
  {
    r := [];
    var rest := s;
    while rest != {}
      invariant rest <= s
      invariant SortedByName(r)
      invariant forall f :: f in r <==> f in s && f !in rest
      decreases |rest|
    {
      var field :| field in rest;
      r := InsertByName(r, field);
      rest := rest - {field};
    }
  }

  /**
   * internalCountryDataToCountryData: the scalar fields are copied, the field
   * sets become name-sorted lists, the regex tree and every language's area
   * list are converted.
   */
  method ConvertCountry(c: CountryRecord) returns (d: CountryData)
    ensures d.format == c.format && d.latinizedFormat == c.latinizedFormat
    ensures d.defaultLanguage == c.defaultLanguage
    ensures d.administrativeAreaNameType == c.administrativeAreaNameType
    ensures d.localityNameType == c.localityNameType
    ensures d.dependentLocalityNameType == c.dependentLocalityNameType
    ensures d.postCodeNameType == c.postCodeNameType
    ensures d.postCodeRegex == RegexToData(c.postCodeRegex)
    ensures SortedByName(d.required) && forall f :: f in d.required <==> f in c.requiredFields
    ensures SortedByName(d.allowed) && forall f :: f in d.allowed <==> f in c.allowedFields
    ensures d.administrativeAreas == map l | l in c.administrativeAreas :: AreasToData(c.administrativeAreas[l])
  {
    var regex := ConvertPostCodeRegex(c.postCodeRegex);
    var required := SortFieldsByName(c.requiredFields);
    var allowed := SortFieldsByName(c.allowedFields);
    var administrativeAreas: map<string, seq<AreaData>> := map[];
    var langs := c.administrativeAreas.Keys;
    while langs != {}
      invariant langs <= c.administrativeAreas.Keys
      invariant administrativeAreas.Keys == c.administrativeAreas.Keys - langs
      invariant forall l :: l in administrativeAreas ==> administrativeAreas[l] == AreasToData(c.administrativeAreas[l])
      decreases |langs|
    {
      var lang :| lang in langs;
      var converted := ConvertAreas(c.administrativeAreas[lang]);
      administrativeAreas := administrativeAreas[lang := converted];
      langs := langs - {lang};
    }
    d := CountryData(c.format, c.latinizedFormat, required, allowed, c.defaultLanguage,
                     c.administrativeAreaNameType, c.localityNameType, c.dependentLocalityNameType,
                     c.postCodeNameType, regex, administrativeAreas);
  }

  /** address.GetCountry: the backfilled record of the code, converted. */
  method GetCountryData(t: Table, code: string) returns (d: CountryData)
    ensures var c := Backfilled(t, code);
      && d.format == c.format && d.latinizedFormat == c.latinizedFormat
      && d.defaultLanguage == c.defaultLanguage
      && d.administrativeAreaNameType == c.administrativeAreaNameType
      && d.localityNameType == c.localityNameType
      && d.dependentLocalityNameType == c.dependentLocalityNameType
      && d.postCodeNameType == c.postCodeNameType
      && d.postCodeRegex == RegexToData(c.postCodeRegex)
      && SortedByName(d.required) && (forall f :: f in d.required <==> f in c.requiredFields)
      && SortedByName(d.allowed) && (forall f :: f in d.allowed <==> f in c.allowedFields)
      && d.administrativeAreas == map l | l in c.administrativeAreas :: AreasToData(c.administrativeAreas[l])
  {
    var country := GetCountry(t, code);
    d := ConvertCountry(country);
  }
}
