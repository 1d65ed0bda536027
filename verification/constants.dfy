/**
 * The address fields and the presentational field names (constants.go).
 * Go declares both as `int` enumerations starting at 1 (`iota + 1`), so the
 * zero value is never a member; `Value` gives each member its Go number.
 */
module Constants {
  import opened Wrappers

  /** The nine address fields, in declaration order. */
  datatype Field =
    | Country
    | Name
    | Organization
    | StreetAddress
    | DependentLocality
    | Locality
    | AdministrativeArea
    | PostCode
    | SortingCode

  /** The Go number of a field: Country is 1, SortingCode is 9. */
  function Value(f: Field): (v: int)
    ensures 1 <= v <= 9
  {
    match f
    case Country => 1
    case Name => 2
    case Organization => 3
    case StreetAddress => 4
    case DependentLocality => 5
    case Locality => 6
    case AdministrativeArea => 7
    case PostCode => 8
    case SortingCode => 9
  }

  /** The field whose Go number is v, if there is one. */
  function FromValue(v: int): (r: Option<Field>)
    ensures r.Some? <==> 1 <= v <= 9
    ensures r.Some? ==> Value(r.value) == v
  {
    if v == 1 then Some(Country)
    else if v == 2 then Some(Name)
    else if v == 3 then Some(Organization)
    else if v == 4 then Some(StreetAddress)
    else if v == 5 then Some(DependentLocality)
    else if v == 6 then Some(Locality)
    else if v == 7 then Some(AdministrativeArea)
    else if v == 8 then Some(PostCode)
    else if v == 9 then Some(SortingCode)
    else None
  }

  /** Distinct fields have distinct numbers, and the number gives the field back. */
  lemma ValueRoundTrip(f: Field)
    ensures FromValue(Value(f)) == Some(f)
  {
  }

  /** Field.String() as produced by the stringer tool: the constant's identifier. */
  function String(f: Field): string
  {
    match f
    case Country => "Country"
    case Name => "Name"
    case Organization => "Organization"
    case StreetAddress => "StreetAddress"
    case DependentLocality => "DependentLocality"
    case Locality => "Locality"
    case AdministrativeArea => "AdministrativeArea"
    case PostCode => "PostCode"
    case SortingCode => "SortingCode"
  }

  /** Field.Key(): the token letter of the address format ("country" for Country). */
  function Key(f: Field): (k: string)
    ensures k != ""
    ensures f == Country <==> |k| > 1
  {
    match f
    case Country => "country"
    case Name => "N"
    case Organization => "O"
    case StreetAddress => "A"
    case DependentLocality => "D"
    case Locality => "C"
    case AdministrativeArea => "S"
    case PostCode => "Z"
    case SortingCode => "X"
  }

  /** Field.Key() applied to an arbitrary Go number: "" for every number outside 1..9. */
  function KeyOfValue(v: int): (k: string)
    ensures k == "" <==> v < 1 || v > 9
    ensures 1 <= v <= 9 ==> k == Key(FromValue(v).value)
  {
    match FromValue(v)
    case None => ""
    case Some(f) => Key(f)
  }

  /** Different fields have different keys and different names. */
  lemma KeysAndNamesDistinct(f: Field, g: Field)
    requires f != g
    ensures Key(f) != Key(g)
    ensures String(f) != String(g)
  {
  }

  /** No field name contains a comma, so a comma-joined list of names can be split back. */
  lemma NoCommaInName(f: Field)
    ensures ',' !in String(f)
  {
  }

  /** The field whose format-token letter is c, if c is one of N, O, A, D, C, S, Z, X. */
  function FieldOfLetter(c: char): (r: Option<Field>)
    ensures r.Some? ==> r.value != Country && Key(r.value) == [c]
    ensures r.None? ==> forall f :: Key(f) != [c]
  {
    if c == 'N' then Some(Name)
    else if c == 'O' then Some(Organization)
    else if c == 'A' then Some(StreetAddress)
    else if c == 'D' then Some(DependentLocality)
    else if c == 'C' then Some(Locality)
    else if c == 'S' then Some(AdministrativeArea)
    else if c == 'Z' then Some(PostCode)
    else if c == 'X' then Some(SortingCode)
    else None
  }

  /** The 22 presentational field names, in declaration order. */
  datatype FieldName =
    | Area | City | County | Department | District | DoSi | Eircode | Emirate
    | Island | Neighborhood | Oblast | PINCode | Parish | PostTown | PostalCode
    | Prefecture | Province | State | Suburb | Townland | VillageTownship | ZipCode

  /** The Go number of a field name: Area is 1, ZipCode is 22; 0 stays free for "unset". */
  function NameValue(n: FieldName): (v: int)
    ensures 1 <= v <= 22
  {
    match n
    case Area => 1
    case City => 2
    case County => 3
    case Department => 4
    case District => 5
    case DoSi => 6
    case Eircode => 7
    case Emirate => 8
    case Island => 9
    case Neighborhood => 10
    case Oblast => 11
    case PINCode => 12
    case Parish => 13
    case PostTown => 14
    case PostalCode => 15
    case Prefecture => 16
    case Province => 17
    case State => 18
    case Suburb => 19
    case Townland => 20
    case VillageTownship => 21
    case ZipCode => 22
  }

  /** Distinct field names have distinct Go numbers. */
  lemma NameValueInjective(n: FieldName, m: FieldName)
    requires n != m
    ensures NameValue(n) != NameValue(m)
  {
  }

  /** FieldName.String() as produced by the stringer tool: the constant's identifier. */
  function NameString(n: FieldName): string
  {
    match n
    case Area => "Area"
    case City => "City"
    case County => "County"
    case Department => "Department"
    case District => "District"
    case DoSi => "DoSi"
    case Eircode => "Eircode"
    case Emirate => "Emirate"
    case Island => "Island"
    case Neighborhood => "Neighborhood"
    case Oblast => "Oblast"
    case PINCode => "PINCode"
    case Parish => "Parish"
    case PostTown => "PostTown"
    case PostalCode => "PostalCode"
    case Prefecture => "Prefecture"
    case Province => "Province"
    case State => "State"
    case Suburb => "Suburb"
    case Townland => "Townland"
    case VillageTownship => "VillageTownship"
    case ZipCode => "ZipCode"
  }
}
