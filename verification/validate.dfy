/**
 * Address validation (validate.go). The country check comes first and ends
 * validation when it fails; then four independent checks each contribute at
 * most one error: required fields, allowed fields, the subdivision chain and
 * the post code. Regular-expression matching is the parameter `matches`,
 * applied as matches(pattern, text).
 */
module Validate {
  import opened Wrappers
  import opened Constants
  import opened Strings
  import opened Data
  import opened Errors
  import opened Addresses

  // ---------------------------------------------------------------------------
  // Required fields

  /** A field counts as missing when its value trims to nothing; Country never does. */
  predicate IsMissing(a: Address, f: Field) {
    match f
    case Country => false
    case Name => Blank(a.name)
    case Organization => Blank(a.organization)
    case StreetAddress => forall i :: 0 <= i < |a.streetAddress| ==> Blank(a.streetAddress[i])
    case DependentLocality => Blank(a.dependentLocality)
    case Locality => Blank(a.locality)
    case AdministrativeArea => Blank(a.administrativeArea)
    case PostCode => Blank(a.postCode)
    case SortingCode => Blank(a.sortingCode)
  }

  /** The required fields the address lacks. */
  function MissingFields(a: Address, required: set<Field>): set<Field>
  {
    set f | f in required && IsMissing(a, f)
  }

  /** The street address is missing exactly when formatting would keep none of its lines. */
  lemma StreetMissingIffNoLines(a: Address)
    ensures IsMissing(a, StreetAddress) <==> NonBlankLines(a.streetAddress) == []
  {
    NonBlankLinesEmpty(a.streetAddress);
  }

  /** The inner loop of the StreetAddress case: stops at the first non-blank line. */
  method StreetAddressIsEmpty(lines: seq<string>) returns (isEmpty: bool)
    ensures isEmpty <==> forall i :: 0 <= i < |lines| ==> Blank(lines[i])
  {
    isEmpty := true;
    var i := 0;
    while i < |lines|
      invariant 0 <= i <= |lines|
      invariant isEmpty && forall k :: 0 <= k < i ==> Blank(lines[k])
    {
      if TrimSpace(lines[i]) != "" {
        isEmpty := false;
        break;
      }
      i := i + 1;
    }
  }

  /** The switch in checkRequiredFields's loop: whether one field is missing. */
  method FieldIsMissing(a: Address, field: Field) returns (missing: bool)
    ensures missing <==> IsMissing(a, field)
  {
    match field {
      case Country => missing := false;
      case Name => missing := TrimSpace(a.name) == "";
      case Organization => missing := TrimSpace(a.organization) == "";
      case StreetAddress => missing := StreetAddressIsEmpty(a.streetAddress);
      case DependentLocality => missing := TrimSpace(a.dependentLocality) == "";
      case Locality => missing := TrimSpace(a.locality) == "";
      case AdministrativeArea => missing := TrimSpace(a.administrativeArea) == "";
      case PostCode => missing := TrimSpace(a.postCode) == "";
      case SortingCode => missing := TrimSpace(a.sortingCode) == "";
    }
  }

  /**
   * checkRequiredFields: visits the required set in no particular order and
   * reports each missing field once; no error when none is missing.
   */
  method CheckRequiredFields(a: Address, required: set<Field>) returns (err: Option<Error>)
    ensures err.None? <==> MissingFields(a, required) == {}
    ensures err.Some? ==> err.value.MissingRequiredFields? && err.value.country == a.country
    ensures err.Some? ==> forall f :: f in err.value.fields <==> f in MissingFields(a, required)
    ensures err.Some? ==> forall i, j :: 0 <= i < j < |err.value.fields| ==> err.value.fields[i] != err.value.fields[j]
  {
    var fields: seq<Field> := [];
    var rest := required;
    while rest != {}
      invariant rest <= required
      invariant forall f :: f in fields <==> f in required && f !in rest && IsMissing(a, f)
      invariant forall i, j :: 0 <= i < j < |fields| ==> fields[i] != fields[j]
      decreases |rest|
    {
      var field :| field in rest;
      var missing := FieldIsMissing(a, field);
      if missing {
        fields := fields + [field];
      }
      rest := rest - {field};
    }
    if |fields| <= 0 {
      assert forall f :: f !in MissingFields(a, required);
      err := None;
    } else {
      assert fields[0] in MissingFields(a, required);
      err := Some(MissingRequiredFields(a.country, fields));
    }
  }

  // ---------------------------------------------------------------------------
  // Allowed fields

  /** A field has a value: a non-empty string, or at least one line for StreetAddress. */
  predicate IsSet(a: Address, f: Field) {
    match f
    case Country => a.country != ""
    case Name => a.name != ""
    case Organization => a.organization != ""
    case StreetAddress => |a.streetAddress| > 0
    case DependentLocality => a.dependentLocality != ""
    case Locality => a.locality != ""
    case AdministrativeArea => a.administrativeArea != ""
    case PostCode => a.postCode != ""
    case SortingCode => a.sortingCode != ""
  }

  /** One field's contribution to the report: itself when set and not allowed. */
  function Flag(a: Address, allowed: set<Field>, f: Field): seq<Field>
  {
    if IsSet(a, f) && f !in allowed then [f] else []
  }

  /** The fields checkAllowedFields reports: the eight non-country fields, each in turn. */
  function Unsupported(a: Address, allowed: set<Field>): seq<Field>
  {
    Flag(a, allowed, Name) + Flag(a, allowed, Organization) + Flag(a, allowed, StreetAddress)
    + Flag(a, allowed, DependentLocality) + Flag(a, allowed, Locality)
    + Flag(a, allowed, AdministrativeArea) + Flag(a, allowed, PostCode) + Flag(a, allowed, SortingCode)
  }

  /** Fields listed in strictly increasing Go value: declaration order, no repeats. */
  predicate Increasing(fields: seq<Field>) {
    forall i, j :: 0 <= i < j < |fields| ==> Value(fields[i]) < Value(fields[j])
  }

  /**
   * r is the report for the fields numbered up to v: increasing, and holding
   * exactly the non-country fields up to v that are set and not allowed.
   */
  predicate ReportUpTo(r: seq<Field>, a: Address, allowed: set<Field>, v: int) {
    && Increasing(r)
    && (forall g :: g in r ==> Value(g) <= v)
    && (forall g :: g in r <==> g != Country && Value(g) <= v && IsSet(a, g) && g !in allowed)
  }

  /** Appending the piece for the next field extends the report by that field. */
  lemma FlagStep(prefix: seq<Field>, a: Address, allowed: set<Field>, f: Field)
    requires f != Country && ReportUpTo(prefix, a, allowed, Value(f) - 1)
    ensures ReportUpTo(prefix + Flag(a, allowed, f), a, allowed, Value(f))
  {
    var r := prefix + Flag(a, allowed, f);
    forall i, j | 0 <= i < j < |r| ensures Value(r[i]) < Value(r[j]) {
      if j >= |prefix| {
        assert r[j] == f;
        assert r[i] in prefix;
      }
    }
    forall g ensures g in r <==> g != Country && Value(g) <= Value(f) && IsSet(a, g) && g !in allowed {
      if Value(g) == Value(f) {
        ValueInjective(g, f);
      }
    }
  }

  lemma ValueInjective(g: Field, f: Field)
    requires Value(g) == Value(f)
    ensures g == f
  {
    ValueRoundTrip(g);
    ValueRoundTrip(f);
  }

  /**
   * A field is reported exactly when it is set and not allowed, Country is
   * never reported, and the report lists fields in increasing Go value
   * (declaration order), each at most once.
   */
  lemma UnsupportedSpec(a: Address, allowed: set<Field>)
    ensures forall f :: f in Unsupported(a, allowed) <==> f != Country && IsSet(a, f) && f !in allowed
    ensures Increasing(Unsupported(a, allowed))
  {
    var r0: seq<Field> := [];
    assert ReportUpTo(r0, a, allowed, 1) by {
      forall g | g != Country ensures Value(g) > 1 {
        if Value(g) <= 1 { ValueInjective(g, Country); }
      }
    }
    FlagStep(r0, a, allowed, Name);
    var r1 := r0 + Flag(a, allowed, Name);
    FlagStep(r1, a, allowed, Organization);
    var r2 := r1 + Flag(a, allowed, Organization);
    FlagStep(r2, a, allowed, StreetAddress);
    var r3 := r2 + Flag(a, allowed, StreetAddress);
    FlagStep(r3, a, allowed, DependentLocality);
    var r4 := r3 + Flag(a, allowed, DependentLocality);
    FlagStep(r4, a, allowed, Locality);
    var r5 := r4 + Flag(a, allowed, Locality);
    FlagStep(r5, a, allowed, AdministrativeArea);
    var r6 := r5 + Flag(a, allowed, AdministrativeArea);
    FlagStep(r6, a, allowed, PostCode);
    var r7 := r6 + Flag(a, allowed, PostCode);
    FlagStep(r7, a, allowed, SortingCode);
    var r8 := r7 + Flag(a, allowed, SortingCode);
    assert r1 == Flag(a, allowed, Name);
    assert r8 == Unsupported(a, allowed);
  }

  /**
   * One of checkAllowedFields's eight tests: append f when the address sets
   * it and the country does not allow it.
   */
  method ReportIfUnsupported(fields: seq<Field>, a: Address, allowed: set<Field>, f: Field) returns (r: seq<Field>)
    ensures r == fields + Flag(a, allowed, f)
  {
    r := fields;
    if IsSet(a, f) && f !in allowed {
      r := r + [f];
    }
  }

  /**
   * checkAllowedFields: tests the eight non-country fields in order; no
   * error when none is reported.
   */
  method CheckAllowedFields(a: Address, allowed: set<Field>) returns (err: Option<Error>)
    ensures err.None? <==> Unsupported(a, allowed) == []
    ensures err.Some? ==> err.value == UnsupportedFields(a.country, Unsupported(a, allowed))
  {
    var fields: seq<Field> := [];
    fields := ReportIfUnsupported(fields, a, allowed, Name);
    fields := ReportIfUnsupported(fields, a, allowed, Organization);
    fields := ReportIfUnsupported(fields, a, allowed, StreetAddress);
    fields := ReportIfUnsupported(fields, a, allowed, DependentLocality);
    fields := ReportIfUnsupported(fields, a, allowed, Locality);
    fields := ReportIfUnsupported(fields, a, allowed, AdministrativeArea);
    fields := ReportIfUnsupported(fields, a, allowed, PostCode);
    fields := ReportIfUnsupported(fields, a, allowed, SortingCode);
    assert fields == Unsupported(a, allowed);
    if |fields| <= 0 {
      err := None;
    } else {
      err := Some(UnsupportedFields(a.country, fields));
    }
  }


  // ---------------------------------------------------------------------------
  // Subdivisions

  /**
   * What checkSubdivisions decides. Each search keeps the last entry with a
   * matching ID. An empty area ends the check; an unknown area is an error;
   * the locality is checked only when it is set and the area has localities,
   * and the dependent locality likewise one level down.
   */
  function SubdivisionError(a: Address, areas: seq<AreaRecord>): (r: Option<Error>)
    ensures r.Some? ==> r.value in {InvalidAdministrativeArea, InvalidLocality, InvalidDependentLocality}
    ensures a.administrativeArea == "" ==> r.None?
    ensures r == Some(InvalidAdministrativeArea) <==>
      a.administrativeArea != "" && forall i :: 0 <= i < |areas| ==> areas[i].id != a.administrativeArea
    ensures var i := LastIndexOf(AreaIds(areas), a.administrativeArea);
      r == Some(InvalidLocality) <==>
        && a.administrativeArea != "" && i >= 0
        && a.locality != "" && |areas[i].localities| > 0
        && forall j :: 0 <= j < |areas[i].localities| ==> areas[i].localities[j].id != a.locality
    ensures var i := LastIndexOf(AreaIds(areas), a.administrativeArea);
      var j := if i >= 0 then LastIndexOf(LocalityIds(areas[i].localities), a.locality) else -1;
      r == Some(InvalidDependentLocality) <==>
        && a.administrativeArea != "" && a.locality != "" && j >= 0
        && a.dependentLocality != "" && |areas[i].localities[j].dependentLocalities| > 0
        && forall k :: 0 <= k < |areas[i].localities[j].dependentLocalities| ==>
             areas[i].localities[j].dependentLocalities[k].id != a.dependentLocality
  {
    if a.administrativeArea == "" then None
    else
      var i := LastIndexOf(AreaIds(areas), a.administrativeArea);
      assert forall k :: 0 <= k < |areas| ==> AreaIds(areas)[k] == areas[k].id;
      if i < 0 then Some(InvalidAdministrativeArea)
      else
        var localities := areas[i].localities;
        if a.locality == "" || |localities| <= 0 then None
        else
          var j := LastIndexOf(LocalityIds(localities), a.locality);
          assert forall k :: 0 <= k < |localities| ==> LocalityIds(localities)[k] == localities[k].id;
          if j < 0 then Some(InvalidLocality)
          else
            var dependentLocalities := localities[j].dependentLocalities;
            if a.dependentLocality == "" || |dependentLocalities| <= 0 then None
            else
              var k := LastIndexOf(DependentLocalityIds(dependentLocalities), a.dependentLocality);
              assert forall m :: 0 <= m < |dependentLocalities| ==>
                DependentLocalityIds(dependentLocalities)[m] == dependentLocalities[m].id;
              if k < 0 then Some(InvalidDependentLocality) else None
  }

  /**
   * The search loops of checkSubdivisions: like the source, they run to the
   * end of the list, so the last match wins.
   */
  method LastMatch(ids: seq<string>, id: string) returns (idx: int)
    ensures idx == LastIndexOf(ids, id)
  {
    idx := -1;
    for i := 0 to |ids|
      invariant -1 <= idx < i
      invariant idx >= 0 ==> ids[idx] == id
      invariant forall k :: idx < k < i ==> ids[k] != id
    {
      if ids[i] == id {
        idx := i;
      }
    }
  }

  /** checkSubdivisions over the area list of the country's default language. */
  method CheckSubdivisions(a: Address, areas: seq<AreaRecord>) returns (err: Option<Error>)
    ensures err == SubdivisionError(a, areas)
  {
    err := None;
    if a.administrativeArea != "" {
      var adminAreaIdx := LastMatch(AreaIds(areas), a.administrativeArea);
      if adminAreaIdx == -1 {
        err := Some(InvalidAdministrativeArea);
        return;
      }
      var localities := areas[adminAreaIdx].localities;
      if a.locality == "" || |localities| <= 0 {
        return;
      }
      var localityIdx := LastMatch(LocalityIds(localities), a.locality);
      if localityIdx == -1 {
        err := Some(InvalidLocality);
        return;
      }
      var dependentLocalities := localities[localityIdx].dependentLocalities;
      if a.dependentLocality == "" || |dependentLocalities| <= 0 {
        return;
      }
      var dependentLocalitiesIdx := LastMatch(DependentLocalityIds(dependentLocalities), a.dependentLocality);
      if dependentLocalitiesIdx == -1 {
        err := Some(InvalidDependentLocality);
        return;
      }
    }
  }

  // ---------------------------------------------------------------------------
  // Post code

  /**
   * The regexes a post code is tested against: the root's, then, for as long
   * as the next key is present in the current level's map, that entry's.
   */
  function RegexPath(regex: PostCodeRegex, keys: seq<string>): (r: seq<string>)
    ensures 1 <= |r| <= |keys| + 1 && r[0] == regex.regex
  {
    if keys == [] || keys[0] !in regex.subdivisionRegex then [regex.regex]
    else [regex.regex] + RegexPath(regex.subdivisionRegex[keys[0]], keys[1..])
  }

  /** The keys of an address, from the administrative area down. */
  function SubdivisionKeys(a: Address): seq<string>
  {
    [a.administrativeArea, a.locality, a.dependentLocality]
  }

  /** The post code is set, the country has a regex, and some regex along the key path rejects it. */
  predicate PostCodeFails(matches: (string, string) -> bool, a: Address, regex: PostCodeRegex) {
    && a.postCode != "" && regex.regex != ""
    && exists i :: 0 <= i < |RegexPath(regex, SubdivisionKeys(a))|
         && !matches(RegexPath(regex, SubdivisionKeys(a))[i], a.postCode)
  }

  /**
   * checkPostCode: with a post code and a country regex, tests each level in
   * turn and stops at the first mismatch, producing one InvalidPostCode; a
   * level is tested only when the address's key is present one level up.
   */
  method CheckPostCode(matches: (string, string) -> bool, a: Address, regex: PostCodeRegex)
    returns (err: Option<Error>)
    ensures err.Some? ==> err.value == InvalidPostCode
    ensures err.Some? <==> PostCodeFails(matches, a, regex)
  {
    err := None;
    ghost var keys := SubdivisionKeys(a);
    ghost var path := RegexPath(regex, keys);
    if a.postCode != "" && regex.regex != "" {
      var country := regex;
      if !matches(country.regex, a.postCode) {
        assert !matches(path[0], a.postCode);
        err := Some(InvalidPostCode);
        return;
      }
      if a.administrativeArea in country.subdivisionRegex {
        var adminArea := country.subdivisionRegex[a.administrativeArea];
        ghost var rest := RegexPath(adminArea, keys[1..]);
        assert path == [country.regex] + rest;
        if !matches(adminArea.regex, a.postCode) {
          assert !matches(path[1], a.postCode);
          err := Some(InvalidPostCode);
          return;
        }
        if a.locality in adminArea.subdivisionRegex {
          var locality := adminArea.subdivisionRegex[a.locality];
          ghost var rest' := RegexPath(locality, keys[1..][1..]);
          assert keys[1..][1..] == [a.dependentLocality];
          assert rest == [adminArea.regex] + rest';
          if !matches(locality.regex, a.postCode) {
            assert !matches(path[2], a.postCode);
            err := Some(InvalidPostCode);
            return;
          }
          if a.dependentLocality in locality.subdivisionRegex {
            var dependentLocality := locality.subdivisionRegex[a.dependentLocality];
            assert rest' == [locality.regex, dependentLocality.regex];
            if !matches(dependentLocality.regex, a.postCode) {
              assert !matches(path[3], a.postCode);
              err := Some(InvalidPostCode);
              return;
            }
            assert path == [country.regex, adminArea.regex, locality.regex, dependentLocality.regex];
          } else {
            assert rest' == [locality.regex];
            assert path == [country.regex, adminArea.regex, locality.regex];
          }
        } else {
          assert rest == [adminArea.regex];
          assert path == [country.regex, adminArea.regex];
        }
      } else {
        assert path == [country.regex];
      }
    }
  }

  // ---------------------------------------------------------------------------
  // Validate

  function OptionToSeq(o: Option<Error>): (r: seq<Error>)
    ensures |r| <= 1 && (r == [] <==> o.None?)
  {
    if o.Some? then [o.value] else []
  }

  /** Which of the checks produces an error, in the order Validate runs them. */
  function Stage(e: Error): int {
    match e
    case InvalidCountryCode => 0
    case MissingRequiredFields(_, _) => 1
    case UnsupportedFields(_, _) => 2
    case InvalidAdministrativeArea => 3
    case InvalidLocality => 3
    case InvalidDependentLocality => 3
    case InvalidPostCode => 4
  }

  /**
   * The subdivision check as Validate runs it: only when the country has
   * subdivision data and has a list in its default language.
   */
  function CountrySubdivisionError(c: CountryRecord, a: Address): (r: Option<Error>)
    ensures r.Some? ==> Stage(r.value) == 3
  {
    if |c.administrativeAreas| > 0 && c.defaultLanguage in c.administrativeAreas
    then SubdivisionError(a, c.administrativeAreas[c.defaultLanguage])
    else None
  }

  /** The allowed-field check's error: one UnsupportedFields listing the report, if it is not empty. */
  function AllowedError(c: CountryRecord, a: Address): (r: Option<Error>)
    ensures r.None? <==> Unsupported(a, c.allowedFields) == []
    ensures r.Some? ==> Stage(r.value) == 2
  {
    var unsupported := Unsupported(a, c.allowedFields);
    if unsupported == [] then None else Some(UnsupportedFields(a.country, unsupported))
  }

  /** The post-code check's error: one InvalidPostCode when some regex on the path rejects the code. */
  function PostCodeError(matches: (string, string) -> bool, a: Address, regex: PostCodeRegex): (r: Option<Error>)
    ensures r.None? <==> !PostCodeFails(matches, a, regex)
    ensures r.Some? ==> Stage(r.value) == 4
  {
    if PostCodeFails(matches, a, regex) then Some(InvalidPostCode) else None
  }

  /** The errors come in strictly increasing check order, so no check reports twice. */
  predicate StagesIncrease(r: seq<Error>) {
    forall i, j :: 0 <= i < j < |r| ==> Stage(r[i]) < Stage(r[j])
  }

  /** Every error comes from a check between lo and hi. */
  predicate StagesWithin(r: seq<Error>, lo: int, hi: int) {
    forall i :: 0 <= i < |r| ==> lo <= Stage(r[i]) <= hi
  }

  /** Appending the optional error of check s after errors of earlier checks keeps the order. */
  lemma AppendStage(r: seq<Error>, o: Option<Error>, lo: int, s: int)
    requires StagesIncrease(r) && StagesWithin(r, lo, s - 1) && lo <= s
    requires o.Some? ==> Stage(o.value) == s
    ensures StagesIncrease(r + OptionToSeq(o)) && StagesWithin(r + OptionToSeq(o), lo, s)
  {
    var r' := r + OptionToSeq(o);
    forall i | 0 <= i < |r'| ensures r'[i] == if i < |r| then r[i] else o.value {
    }
  }

  /**
   * The errors of a known country's address after the required-field check:
   * one per failing check, in the order allowed fields, subdivisions, post code.
   */
  function LaterErrors(t: Table, matches: (string, string) -> bool, a: Address): (r: seq<Error>)
    ensures |r| <= 3 && StagesWithin(r, 2, 4) && StagesIncrease(r)
  {
    var c := Backfilled(t, a.country);
    var allowed, subdivision, postCode := AllowedError(c, a), CountrySubdivisionError(c, a), PostCodeError(matches, a, c.postCodeRegex);
    AppendStage([], allowed, 2, 2);
    AppendStage(OptionToSeq(allowed), subdivision, 2, 3);
    AppendStage(OptionToSeq(allowed) + OptionToSeq(subdivision), postCode, 2, 4);
    OptionToSeq(allowed) + OptionToSeq(subdivision) + OptionToSeq(postCode)
  }

  /** Every check passes: a known country, nothing missing or unsupported, valid subdivisions and post code. */
  predicate IsValid(t: Table, matches: (string, string) -> bool, a: Address) {
    var c := Backfilled(t, a.country);
    && HasCountry(t, a.country)
    && MissingFields(a, c.requiredFields) == {}
    && Unsupported(a, c.allowedFields) == []
    && CountrySubdivisionError(c, a).None?
    && !PostCodeFails(matches, a, c.postCodeRegex)
  }

  /**
   * Validate: an unknown country gives exactly InvalidCountryCode; otherwise
   * each failing check adds its one error, in check order, and there are no
   * errors exactly when the address is valid.
   */
  method Validate(t: Table, matches: (string, string) -> bool, a: Address) returns (errs: seq<Error>)
    ensures !HasCountry(t, a.country) ==> errs == [InvalidCountryCode]
    ensures HasCountry(t, a.country) ==>
      var m := MissingFields(a, Backfilled(t, a.country).requiredFields);
      && (m == {} ==> errs == LaterErrors(t, matches, a))
      && (m != {} ==>
            && errs != [] && errs[0].MissingRequiredFields? && errs[0].country == a.country
            && (forall f :: f in errs[0].fields <==> f in m)
            && errs[1..] == LaterErrors(t, matches, a))
    ensures errs == [] <==> IsValid(t, matches, a)
    ensures StagesIncrease(errs)
  {
    errs := [];
    if !HasCountry(t, a.country) {
      errs := errs + [InvalidCountryCode];
      return;
    }
    var countryData := GetCountry(t, a.country);
    var err := CheckRequiredFields(a, countryData.requiredFields);
    errs := AppendError(errs, err);
    ghost var required := errs;
    err := CheckAllowedFields(a, countryData.allowedFields);
    ghost var allowedErr := err;
    errs := AppendError(errs, err);
    err := SubdivisionStep(a, countryData);
    ghost var subdivisionErr := err;
    errs := AppendError(errs, err);
    err := PostCodeStep(matches, a, countryData.postCodeRegex);
    ghost var postCodeErr := err;
    errs := AppendError(errs, err);
    ghost var later := LaterErrors(t, matches, a);
    assert errs == required + later by {
      assert later == OptionToSeq(allowedErr) + OptionToSeq(subdivisionErr) + OptionToSeq(postCodeErr);
      AppendAssociative(required, OptionToSeq(allowedErr), OptionToSeq(subdivisionErr), OptionToSeq(postCodeErr));
    }
    ValidIffNoErrors(t, matches, a);
    ValidateOutcome(required, later, errs, MissingFields(a, countryData.requiredFields), a.country);
  }

  /** Validate's subdivision step: run only when the country has subdivision data in its default language. */
  method SubdivisionStep(a: Address, countryData: CountryRecord) returns (err: Option<Error>)
    ensures err == CountrySubdivisionError(countryData, a)
  {
    err := None;
    if |countryData.administrativeAreas| > 0 {
      if countryData.defaultLanguage in countryData.administrativeAreas {
        err := CheckSubdivisions(a, countryData.administrativeAreas[countryData.defaultLanguage]);
      }
    }
  }

  /** Validate's post-code step: run only when the address has a post code. */
  method PostCodeStep(matches: (string, string) -> bool, a: Address, regex: PostCodeRegex) returns (err: Option<Error>)
    ensures err == PostCodeError(matches, a, regex)
  {
    err := None;
    if a.postCode != "" {
      err := CheckPostCode(matches, a, regex);
    }
  }

  /** Validate's `if err != nil { errs = append(errs, err) }`. */
  method AppendError(errs: seq<Error>, err: Option<Error>) returns (r: seq<Error>)
    ensures r == errs + OptionToSeq(err)
  {
    r := errs;
    if err.Some? {
      r := r + [err.value];
    }
  }

  /**
   * What Validate's steps add up to for a known country: the required-field
   * error for the missing fields m, if any, followed by the later errors.
   */
  lemma ValidateOutcome(required: seq<Error>, later: seq<Error>, errs: seq<Error>, m: set<Field>, country: string)
    requires m == {} ==> required == []
    requires m != {} ==>
      && |required| == 1 && required[0].MissingRequiredFields? && required[0].country == country
      && forall f :: f in required[0].fields <==> f in m
    requires StagesWithin(later, 2, 4) && StagesIncrease(later)
    requires errs == required + later
    ensures m == {} ==> errs == later
    ensures m != {} ==>
      && errs != [] && errs[0].MissingRequiredFields? && errs[0].country == country
      && (forall f :: f in errs[0].fields <==> f in m)
      && errs[1..] == later
    ensures errs == [] <==> m == {} && later == []
    ensures StagesIncrease(errs)
  {
    if m != {} {
      assert errs[0] == required[0];
      assert errs[1..] == later;
    }
    StagesAfterRequired(required, later);
  }

  lemma AppendAssociative(r: seq<Error>, x: seq<Error>, y: seq<Error>, z: seq<Error>)
    ensures r + x + y + z == r + (x + y + z)
  {
  }

  /** A known country's address is valid exactly when nothing is missing and no later check fails. */
  lemma ValidIffNoErrors(t: Table, matches: (string, string) -> bool, a: Address)
    requires HasCountry(t, a.country)
    ensures IsValid(t, matches, a)
      <==> MissingFields(a, Backfilled(t, a.country).requiredFields) == {} && LaterErrors(t, matches, a) == []
  {
    var c := Backfilled(t, a.country);
    assert LaterErrors(t, matches, a) == []
      <==> AllowedError(c, a).None? && CountrySubdivisionError(c, a).None? && PostCodeError(matches, a, c.postCodeRegex).None?;
  }

  /** A required-field error, if any, comes before every later error. */
  lemma StagesAfterRequired(required: seq<Error>, later: seq<Error>)
    requires |required| <= 1 && StagesWithin(required, 1, 1)
    requires StagesWithin(later, 2, 4) && StagesIncrease(later)
    ensures StagesIncrease(required + later)
  {
    var r := required + later;
    forall i, j | 0 <= i < j < |r| ensures Stage(r[i]) < Stage(r[j]) {
      if i < |required| {
        assert Stage(r[i]) == 1 && r[j] == later[j - |required|];
      } else {
        assert r[i] == later[i - |required|] && r[j] == later[j - |required|];
      }
    }
  }
}
