/**
 * The pure helpers of the metadata generator (generator/generate.go): the
 * parsers that turn the metadata's field strings into field sets and name
 * types, and the serialisers that print the collected records as Go source
 * for the built-in table.
 *
 * The generator's postCodeRegex, administrativeArea, locality and
 * dependentLocality types have exactly the shape of the table's records, so
 * the records of module Data stand for them.
 */
module Generator {
  import opened Wrappers
  import opened Strings
  import opened Constants
  import opened Data

  // ---------------------------------------------------------------------------
  // getFields

  /** The letter that stands for a field other than Country. */
  lemma LetterOfField(f: Field)
    requires f != Country
    ensures |Key(f)| == 1 && FieldOfLetter(Key(f)[0]) == Some(f)
  {
  }

  /** The fields named by the letters of s; every other character is ignored. */
  function FieldsOf(s: string): set<Field>
  {
    if s == [] then {}
    else
      FieldsOf(s[..|s| - 1]) + match FieldOfLetter(s[|s| - 1]) case Some(f) => {f} case None => {}
  }

  /** A field is read from s exactly when its letter occurs in s; Country never is. */
  lemma {:induction false} FieldsOfSpec(s: string, f: Field)
    ensures f in FieldsOf(s) <==> f != Country && Key(f)[0] in s
  {
    if s != [] {
      var init, c := s[..|s| - 1], s[|s| - 1];
      FieldsOfSpec(init, f);
      assert s == init + [c];
      if f != Country {
        LetterOfField(f);
      }
    }
  }

  /** Only the set of letters counts, not their order nor how often they occur. */
  lemma FieldsIgnoreOrderAndRepetition(s1: string, s2: string)
    requires forall c :: c in s1 <==> c in s2
    ensures FieldsOf(s1) == FieldsOf(s2)
  {
    forall f ensures f in FieldsOf(s1) <==> f in FieldsOf(s2) {
      FieldsOfSpec(s1, f);
      FieldsOfSpec(s2, f);
    }
  }

  /** getFields: reads the letters of a "require" or "upper" string into a field set. */
  method GetFields(fields: string) returns (upper: set<Field>)
    ensures upper == FieldsOf(fields)
    ensures forall f :: f in upper <==> f != Country && Key(f)[0] in fields
  {
    upper := {};
    for i := 0 to |fields|
      invariant upper == FieldsOf(fields[..i])
    {
      var field := fields[i];
      assert fields[..i + 1][..i] == fields[..i];
      if field == 'N' {
        upper := upper + {Name};
      } else if field == 'O' {
        upper := upper + {Organization};
      } else if field == 'A' {
        upper := upper + {StreetAddress};
      } else if field == 'D' {
        upper := upper + {DependentLocality};
      } else if field == 'C' {
        upper := upper + {Locality};
      } else if field == 'S' {
        upper := upper + {AdministrativeArea};
      } else if field == 'Z' {
        upper := upper + {PostCode};
      } else if field == 'X' {
        upper := upper + {SortingCode};
      }
    }
    assert fields[..|fields|] == fields;
    forall f ensures f in upper <==> f != Country && Key(f)[0] in fields {
      FieldsOfSpec(fields, f);
    }
  }

  // ---------------------------------------------------------------------------
  // getAllowedFields

  /** The character class of addressFormatRegex, `%[NOADCSZX]`. */
  predicate IsFormatLetter(c: char) {
    FieldOfLetter(c).Some?
  }

  /**
   * FindAllString of `%[NOADCSZX]` from position i: the leftmost match, then
   * the search resumes after it.
   */
  function MatchesFrom(s: string, i: nat): (r: seq<string>)
    requires i <= |s|
    ensures forall k :: 0 <= k < |r| ==> |r[k]| == 2 && r[k][0] == '%' && IsFormatLetter(r[k][1])
    decreases |s| - i
  {
    if i + 1 >= |s| then []
    else if s[i] == '%' && IsFormatLetter(s[i + 1]) then [s[i..i + 2]] + MatchesFrom(s, i + 2)
    else MatchesFrom(s, i + 1)
  }

  /** "%" immediately followed by c occurs in s at or after position i. */
  ghost predicate HasTokenFrom(s: string, i: nat, c: char) {
    exists j :: i <= j && j + 1 < |s| && s[j] == '%' && s[j + 1] == c
  }

  ghost predicate HasToken(s: string, c: char) {
    HasTokenFrom(s, 0, c)
  }

  /** The scan finds "%c" for a field letter c exactly when it occurs anywhere in the rest of s. */
  lemma {:induction false} MatchesFromSpec(s: string, i: nat, c: char)
    requires i <= |s| && IsFormatLetter(c)
    ensures ['%', c] in MatchesFrom(s, i) <==> HasTokenFrom(s, i, c)
    decreases |s| - i
  {
    if i + 1 < |s| {
      var next := if s[i] == '%' && IsFormatLetter(s[i + 1]) then i + 2 else i + 1;
      MatchesFromSpec(s, next, c);
      if HasTokenFrom(s, i, c) {
        var j :| i <= j && j + 1 < |s| && s[j] == '%' && s[j + 1] == c;
        if j >= next {
          assert HasTokenFrom(s, next, c);
        } else if j == i {
          assert s[i..i + 2] == ['%', c];
        }
      }
      if HasTokenFrom(s, next, c) {
        var j :| next <= j && j + 1 < |s| && s[j] == '%' && s[j + 1] == c;
        assert i <= j;
      }
    }
  }

  /** getAllowedFields: the fields whose "%" token occurs in a format string. */
  method GetAllowedFields(format: string) returns (allowed: set<Field>)
    ensures forall f :: f in allowed <==> f != Country && HasToken(format, Key(f)[0])
  {
    allowed := {};
    var fields := MatchesFrom(format, 0);
    for k := 0 to |fields|
      invariant forall f :: f in allowed <==> f != Country && ['%', Key(f)[0]] in fields[..k]
    {
      var field := fields[k];
      assert fields[..k + 1] == fields[..k] + [field];
      if field == "%N" {
        allowed := allowed + {Name};
      } else if field == "%O" {
        allowed := allowed + {Organization};
      } else if field == "%A" {
        allowed := allowed + {StreetAddress};
      } else if field == "%D" {
        allowed := allowed + {DependentLocality};
      } else if field == "%C" {
        allowed := allowed + {Locality};
      } else if field == "%S" {
        allowed := allowed + {AdministrativeArea};
      } else if field == "%Z" {
        allowed := allowed + {PostCode};
      } else if field == "%X" {
        allowed := allowed + {SortingCode};
      }
    }
    assert fields[..|fields|] == fields;
    forall f | f != Country ensures f in allowed <==> HasToken(format, Key(f)[0]) {
      LetterOfField(f);
      MatchesFromSpec(format, 0, Key(f)[0]);
    }
  }

  /**
   * The lower-case tokens "%n" (new line) and "%country" name no field:
   * inserting one into a format adds no field token.
   */
  lemma LowercaseTokenAddsNothing(x: string, w: string, y: string, c: char)
    requires w == "%n" || w == "%country"
    requires IsFormatLetter(c)
    ensures HasToken(x + w + y, c) <==> HasToken(x, c) || HasToken(y, c)
  {
    var s := x + w + y;
    if HasToken(s, c) {
      var j :| 0 <= j && j + 1 < |s| && s[j] == '%' && s[j + 1] == c;
      assert forall i :: |x| <= i < |x| + |w| ==> s[i] == w[i - |x|];
      assert w[0] != c && w[1] != c && forall i :: 1 <= i < |w| ==> w[i] != '%';
      if j + 1 < |x| {
        assert x[j] == '%' && x[j + 1] == c;
      } else {
        assert j >= |x| + |w|;
        assert y[j - |x| - |w|] == '%' && y[j - |x| - |w| + 1] == c;
      }
    }
    if HasToken(x, c) {
      var j :| 0 <= j && j + 1 < |x| && x[j] == '%' && x[j + 1] == c;
      assert s[j] == '%' && s[j + 1] == c;
    }
    if HasToken(y, c) {
      var j :| 0 <= j && j + 1 < |y| && y[j] == '%' && y[j + 1] == c;
      assert s[|x| + |w| + j] == '%' && s[|x| + |w| + j + 1] == c;
    }
  }

  // ---------------------------------------------------------------------------
  // convertFieldNameToConstant

  /** The spelling of each field name in the address metadata. */
  function MetadataName(n: FieldName): string
  {
    match n
    case Area => "area"
    case City => "city"
    case County => "county"
    case Department => "department"
    case District => "district"
    case DoSi => "do_si"
    case Eircode => "eircode"
    case Emirate => "emirate"
    case Island => "island"
    case Neighborhood => "neighborhood"
    case Oblast => "oblast"
    case PINCode => "pin"
    case Parish => "parish"
    case PostTown => "post_town"
    case PostalCode => "postal"
    case Prefecture => "prefecture"
    case Province => "province"
    case State => "state"
    case Suburb => "suburb"
    case Townland => "townland"
    case VillageTownship => "village_township"
    case ZipCode => "zip"
  }

  /** Different field names are spelt differently. */
  lemma MetadataNameInjective(n: FieldName, m: FieldName)
    requires MetadataName(n) == MetadataName(m)
    ensures n == m
  {
  }

  /** The switch of convertFieldNameToConstant: the field name a metadata spelling stands for. */
  function FieldNameOf(fieldName: string): (r: Option<FieldName>)
    ensures r.Some? ==> MetadataName(r.value) == fieldName
  {
    if fieldName == "area" then Some(Area)
    else if fieldName == "city" then Some(City)
    else if fieldName == "county" then Some(County)
    else if fieldName == "department" then Some(Department)
    else if fieldName == "district" then Some(District)
    else if fieldName == "do_si" then Some(DoSi)
    else if fieldName == "eircode" then Some(Eircode)
    else if fieldName == "emirate" then Some(Emirate)
    else if fieldName == "island" then Some(Island)
    else if fieldName == "neighborhood" then Some(Neighborhood)
    else if fieldName == "oblast" then Some(Oblast)
    else if fieldName == "pin" then Some(PINCode)
    else if fieldName == "parish" then Some(Parish)
    else if fieldName == "post_town" then Some(PostTown)
    else if fieldName == "postal" then Some(PostalCode)
    else if fieldName == "prefecture" then Some(Prefecture)
    else if fieldName == "province" then Some(Province)
    else if fieldName == "state" then Some(State)
    else if fieldName == "suburb" then Some(Suburb)
    else if fieldName == "townland" then Some(Townland)
    else if fieldName == "village_township" then Some(VillageTownship)
    else if fieldName == "zip" then Some(ZipCode)
    else None
  }

  /**
   * convertFieldNameToConstant: the FieldName number of a metadata spelling,
   * or -1 together with an error message for any other string.
   */
  function ConvertFieldNameToConstant(fieldName: string): (r: (int, Option<string>))
    ensures r.1.None? ==> exists n :: MetadataName(n) == fieldName && r.0 == NameValue(n)
    ensures r.1.Some? ==> r.0 == -1 && r.1.value == "unknown field name: " + fieldName
  {
    match FieldNameOf(fieldName)
    case Some(n) => (NameValue(n), None)
    case None => (-1, Some("unknown field name: " + fieldName))
  }

  /** Every field name's spelling converts back to that name's constant. */
  lemma ConvertRoundTrip(n: FieldName)
    ensures FieldNameOf(MetadataName(n)) == Some(n)
    ensures ConvertFieldNameToConstant(MetadataName(n)) == (NameValue(n), None)
  {
    match n
    case Area =>
    case City =>
    case County =>
    case Department =>
    case District =>
    case DoSi =>
    case Eircode =>
    case Emirate =>
    case Island =>
    case Neighborhood =>
    case Oblast =>
    case PINCode =>
    case Parish =>
    case PostTown =>
    case PostalCode =>
    case Prefecture =>
    case Province =>
    case State =>
    case Suburb =>
    case Townland =>
    case VillageTownship =>
    case ZipCode =>
  }

  /** The conversion fails exactly for the strings that spell no field name. */
  lemma ConvertFailsIffUnknown(fieldName: string)
    ensures ConvertFieldNameToConstant(fieldName).1.Some? <==> forall n :: MetadataName(n) != fieldName
  {
    if ConvertFieldNameToConstant(fieldName).1.Some? {
      forall n ensures MetadataName(n) != fieldName {
        ConvertRoundTrip(n);
      }
    }
  }

  /** Two different spellings that both convert give different constants. */
  lemma ConvertedConstantsDistinct(a: string, b: string)
    requires a != b
    requires ConvertFieldNameToConstant(a).1.None? && ConvertFieldNameToConstant(b).1.None?
    ensures ConvertFieldNameToConstant(a).0 != ConvertFieldNameToConstant(b).0
  {
    var n :| MetadataName(n) == a && ConvertFieldNameToConstant(a).0 == NameValue(n);
    var m :| MetadataName(m) == b && ConvertFieldNameToConstant(b).0 == NameValue(m);
    NameValueInjective(n, m);
  }

  // ---------------------------------------------------------------------------
  // The toCode serialisers

  /** The pieces of a list serialised one after the other, in list order. */
  function ConcatMap<T>(xs: seq<T>, piece: T -> string): string
  {
    if xs == [] then "" else ConcatMap(xs[..|xs| - 1], piece) + piece(xs[|xs| - 1])
  }

  /** Serialising a list is serialising its two halves one after the other. */
  lemma {:induction false} ConcatMapAppend<T>(xs: seq<T>, ys: seq<T>, piece: T -> string)
    ensures ConcatMap(xs + ys, piece) == ConcatMap(xs, piece) + ConcatMap(ys, piece)
  {
    if ys != [] {
      var init := ys[..|ys| - 1];
      ConcatMapAppend(xs, init, piece);
      assert (xs + ys)[..|xs + ys| - 1] == xs + init;
      assert (xs + ys)[|xs + ys| - 1] == ys[|ys| - 1];
    } else {
      assert xs + ys == xs;
    }
  }

  /** dependentLocality.toCode. */
  function DependentLocalityCode(d: DependentLocalityRecord): string
  {
    "{\n\tID: \"" + d.id + "\",\n\tName: \"" + d.name + "\",\n}"
  }

  /** One element of the DependentLocalities list of locality.toCode. */
  function DependentLocalityEntry(d: DependentLocalityRecord): string
  {
    DependentLocalityCode(d) + ",\n"
  }

  /** locality.toCode; the list of dependent localities is left out when it is empty. */
  function LocalityCode(l: LocalityRecord): string
  {
    var head := "{\n\tID: \"" + l.id + "\",\n\tName: \"" + l.name + "\",";
    if |l.dependentLocalities| > 0 then
      head + "\nDependentLocalities: []dependentLocality{\n"
      + ConcatMap(l.dependentLocalities, DependentLocalityEntry) + "\n}," + "\n}"
    else head + "\n}"
  }

  function LocalityEntry(l: LocalityRecord): string
  {
    LocalityCode(l) + ",\n"
  }

  /** administrativeArea.toCode; the list of localities is left out when it is empty. */
  function AreaCode(a: AreaRecord): string
  {
    var head := "{\n\tID: \"" + a.id + "\",\n\tName: \"" + a.name + "\",\n\tPostalKey: \"" + a.postalKey + "\",";
    if |a.localities| > 0 then
      head + "\nLocalities: []locality{\n" + ConcatMap(a.localities, LocalityEntry) + "\n}," + "\n}"
    else head + "\n}"
  }

  /** One element of a language's list in country.toCode. */
  function AreaEntry(a: AreaRecord): string
  {
    "\n" + AreaCode(a) + ","
  }

  /** locality.toCode: prints the record, then each dependent locality in list order. */
  method LocalityToCode(l: LocalityRecord) returns (str: string)
    ensures str == LocalityCode(l)
  {
    str := "{\n\tID: \"" + l.id + "\",\n\tName: \"" + l.name + "\",";
    if |l.dependentLocalities| > 0 {
      str := str + "\nDependentLocalities: []dependentLocality{\n";
      var head := str;
      for k := 0 to |l.dependentLocalities|
        invariant str == head + ConcatMap(l.dependentLocalities[..k], DependentLocalityEntry)
      {
        var dl := l.dependentLocalities[k];
        assert l.dependentLocalities[..k + 1][..k] == l.dependentLocalities[..k];
        str := str + (DependentLocalityCode(dl) + ",\n");
      }
      assert l.dependentLocalities[..|l.dependentLocalities|] == l.dependentLocalities;
      str := str + "\n},";
    }
    str := str + "\n}";
  }

  /** The loop of administrativeArea.toCode over the localities, in list order. */
  method LocalitiesToCode(ls: seq<LocalityRecord>) returns (str: string)
    ensures str == ConcatMap(ls, LocalityEntry)
  {
    str := "";
    for k := 0 to |ls|
      invariant str == ConcatMap(ls[..k], LocalityEntry)
    {
      var code := LocalityToCode(ls[k]);
      assert ls[..k + 1][..k] == ls[..k];
      str := str + (code + ",\n");
    }
    assert ls[..|ls|] == ls;
  }

  /** administrativeArea.toCode: prints the record, then each locality in list order. */
  method AreaToCode(a: AreaRecord) returns (str: string)
    ensures str == AreaCode(a)
  {
    str := "{\n\tID: \"" + a.id + "\",\n\tName: \"" + a.name + "\",\n\tPostalKey: \"" + a.postalKey + "\",";
    if |a.localities| > 0 {
      str := str + "\nLocalities: []locality{\n";
      var localities := LocalitiesToCode(a.localities);
      str := str + localities;
      str := str + "\n},";
    }
    str := str + "\n}";
  }

  /** A string with no double quote, so that it cannot end a quoted Go string early. */
  predicate QuoteFree(s: string) {
    '"' !in s
  }

  /** The position of the first double quote of s, or |s| when there is none. */
  function QuoteIndex(s: string): (k: nat)
    ensures k <= |s|
  {
    if s == [] || s[0] == '"' then 0 else 1 + QuoteIndex(s[1..])
  }

  lemma {:induction false} QuoteIndexAfter(x: string, y: string)
    requires QuoteFree(x)
    ensures QuoteIndex(x + ['"'] + y) == |x|
  {
    if x != [] {
      assert (x + ['"'] + y)[1..] == x[1..] + ['"'] + y;
      QuoteIndexAfter(x[1..], y);
    }
  }

  /** The first double quote after a quote-free prefix tells where the prefix ends. */
  lemma QuoteSplit(x: string, y: string, x2: string, y2: string)
    requires QuoteFree(x) && QuoteFree(x2)
    requires x + ['"'] + y == x2 + ['"'] + y2
    ensures x == x2 && y == y2
  {
    var s := x + ['"'] + y;
    QuoteIndexAfter(x, y);
    QuoteIndexAfter(x2, y2);
    assert x == s[..|x|] && x2 == s[..|x2|];
    assert y == s[|x| + 1..] && y2 == s[|x2| + 1..];
  }

  /**
   * The printed dependent locality can be read back: two records whose ID
   * and name contain no double quote print the same only if they are equal.
   */
  lemma DependentLocalityCodeInjective(d: DependentLocalityRecord, e: DependentLocalityRecord)
    requires QuoteFree(d.id) && QuoteFree(d.name) && QuoteFree(e.id) && QuoteFree(e.name)
    requires DependentLocalityCode(d) == DependentLocalityCode(e)
    ensures d == e
  {
    var middle, close := ",\n\tName: \"", ",\n}";
    DependentLocalityCodeShape(d);
    DependentLocalityCodeShape(e);
    PrefixCancel("{\n\tID: \"", d.id + ['"'] + (middle + (d.name + ['"'] + close)), e.id + ['"'] + (middle + (e.name + ['"'] + close)));
    QuoteSplit(d.id, middle + (d.name + ['"'] + close), e.id, middle + (e.name + ['"'] + close));
    PrefixCancel(middle, d.name + ['"'] + close, e.name + ['"'] + close);
    QuoteSplit(d.name, close, e.name, close);
  }

  /** The printed record split at its two closing quotes. */
  lemma DependentLocalityCodeShape(d: DependentLocalityRecord)
    ensures DependentLocalityCode(d) == "{\n\tID: \"" + (d.id + ['"'] + (",\n\tName: \"" + (d.name + ['"'] + ",\n}")))
  {
    assert "\",\n\tName: \"" == ['"'] + ",\n\tName: \"";
    assert "\",\n}" == ['"'] + ",\n}";
  }

  lemma PrefixCancel(p: string, x: string, y: string)
    requires p + x == p + y
    ensures x == y
  {
    assert x == (p + x)[|p|..];
    assert y == (p + y)[|p|..];
  }

  /** Localities are printed in list order: a longer list prints the shorter one's text first. */
  lemma LocalitiesInListOrder(ls: seq<LocalityRecord>, more: seq<LocalityRecord>)
    ensures ConcatMap(ls + more, LocalityEntry) == ConcatMap(ls, LocalityEntry) + ConcatMap(more, LocalityEntry)
  {
    ConcatMapAppend(ls, more, LocalityEntry);
  }

  // ---------------------------------------------------------------------------
  // postCodeRegex.toCode

  /**
   * postCodeRegex.toCode: the regex, then (only when there are any) the
   * nested regexes in increasing order of their subdivision IDs.
   */
  ghost function RegexCode(p: PostCodeRegex): string
    decreases p, 1
  {
    var head := "{\n\t\tregex: `" + p.regex + "`,";
    if |p.subdivisionRegex| > 0 then
      head + "\nsubdivisionRegex: map[string]postCodeRegex{\n"
      + RegexEntries(p, SortedOf(p.subdivisionRegex.Keys)) + "}" + "}"
    else head + "}"
  }

  /** The entries of the given subdivision IDs, in the order given. */
  ghost function RegexEntries(p: PostCodeRegex, ids: seq<string>): string
    decreases p, 0, |ids|
  {
    if ids == [] then ""
    else RegexEntries(p, ids[..|ids| - 1]) + RegexEntry(p, ids[|ids| - 1])
  }

  /** One nested regex: its quoted subdivision ID and its own code (IDs of p only). */
  ghost function RegexEntry(p: PostCodeRegex, id: string): string
    decreases p, 0, 0
  {
    if id in p.subdivisionRegex then "\"" + id + "\": " + RegexCode(p.subdivisionRegex[id]) + ",\n" else ""
  }

  /** The loop of postCodeRegex.toCode over the sorted subdivision IDs. */
  method RegexEntriesToCode(p: PostCodeRegex, ids: seq<string>) returns (str: string)
    requires forall k :: 0 <= k < |ids| ==> ids[k] in p.subdivisionRegex
    ensures str == RegexEntries(p, ids)
    decreases p, 0
  {
    str := "";
    for k := 0 to |ids|
      invariant str == RegexEntries(p, ids[..k])
    {
      var id := ids[k];
      var child := PostCodeRegexToCode(p.subdivisionRegex[id]);
      assert ids[..k + 1][..k] == ids[..k];
      str := str + ("\"" + id + "\": " + child + ",\n");
    }
    assert ids[..|ids|] == ids;
  }

  /** postCodeRegex.toCode: sorts the subdivision IDs and prints each nested regex in that order. */
  method PostCodeRegexToCode(p: PostCodeRegex) returns (str: string)
    ensures str == RegexCode(p)
    decreases p, 1
  {
    var ids := SortStrings(p.subdivisionRegex.Keys);
    str := "{\n\t\tregex: `" + p.regex + "`,";
    if |p.subdivisionRegex| > 0 {
      str := str + "\nsubdivisionRegex: map[string]postCodeRegex{\n";
      forall k | 0 <= k < |ids| ensures ids[k] in p.subdivisionRegex {
        assert ids[k] in ids;
      }
      var entries := RegexEntriesToCode(p, ids);
      str := str + entries;
      str := str + "}";
    }
    str := str + "}";
  }

  /** Printing the entries of two lists of IDs is printing each list in turn. */
  lemma {:induction false} RegexEntriesAppend(p: PostCodeRegex, xs: seq<string>, ys: seq<string>)
    ensures RegexEntries(p, xs + ys) == RegexEntries(p, xs) + RegexEntries(p, ys)
  {
    if ys == [] {
      assert xs + ys == xs;
    } else {
      var init := ys[..|ys| - 1];
      RegexEntriesAppend(p, xs, init);
      assert (xs + ys)[..|xs + ys| - 1] == xs + init;
      assert (xs + ys)[|xs + ys| - 1] == ys[|ys| - 1];
    }
  }

  /** The subdivisionRegex block is printed exactly when there are nested regexes. */
  lemma RegexBlockOmittedIffEmpty(p: PostCodeRegex)
    ensures RegexCode(p) == "{\n\t\tregex: `" + p.regex + "`,}" <==> |p.subdivisionRegex| == 0
  {
    var head := "{\n\t\tregex: `" + p.regex + "`,";
    if |p.subdivisionRegex| > 0 {
      assert |RegexCode(p)| >= |head| + 2 + |"\nsubdivisionRegex: map[string]postCodeRegex{\n"|;
    }
  }

  /**
   * The nested regexes are printed in increasing order of subdivision ID:
   * the entry of `id` comes after the entries of all smaller IDs and before
   * those of all larger ones.
   */
  lemma SubdivisionEntriesSorted(p: PostCodeRegex, id: string)
    requires id in p.subdivisionRegex
    ensures RegexEntries(p, SortedOf(p.subdivisionRegex.Keys)) ==
      RegexEntries(p, SortedOf(Below(p.subdivisionRegex.Keys, id)))
      + RegexEntry(p, id)
      + RegexEntries(p, SortedOf(Above(p.subdivisionRegex.Keys, id)))
  {
    var keys := p.subdivisionRegex.Keys;
    var below := SortedOf(Below(keys, id));
    var above := SortedOf(Above(keys, id));
    SortedOfSplit(keys, id);
    RegexEntriesAppend(p, below, [id]);
    RegexEntriesAppend(p, below + [id], above);
    assert [id][..0] == [];
  }

  // ---------------------------------------------------------------------------
  // country.toCode

  /**
   * The generator's country record. Its name types are FieldName values, and
   * the generator only ever stores one that converted without error, so
   * None stands for Go's zero value (not set).
   */
  datatype CountryMetadata = CountryMetadata(
    id: string,
    name: string,
    defaultLanguage: string,
    postCodePrefix: string,
    postCodeRegex: PostCodeRegex,
    format: string,
    latinizedFormat: string,
    administrativeAreaNameType: Option<FieldName>,
    localityNameType: Option<FieldName>,
    dependentLocalityNameType: Option<FieldName>,
    postCodeNameType: Option<FieldName>,
    allowedFields: set<Field>,
    requiredFields: set<Field>,
    upper: set<Field>,
    administrativeAreas: map<string, seq<AreaRecord>>)

  /** A quoted string member, printed only when the string is not empty. */
  function QuotedLine(member: string, value: string): string
  {
    if value != "" then "\n" + member + ": \"" + value + "\"," else ""
  }

  /** A name-type member, printed only when the name type is set. */
  function NameTypeLine(member: string, nameType: Option<FieldName>): string
  {
    match nameType
    case None => ""
    case Some(n) => "\n" + member + ": " + NameString(n) + ","
  }

  /** The PostCodeRegex member, printed when there is a regex or a nested one. */
  ghost function RegexLine(r: PostCodeRegex): string
  {
    if r.regex != "" || |r.subdivisionRegex| > 0 then "\nPostCodeRegex: postCodeRegex" + RegexCode(r) + "," else ""
  }

  /** The names (Field.String) of a set of fields. */
  function NamesOf(s: set<Field>): set<string>
  {
    set f | f in s :: String(f)
  }

  /** One entry of a field set. */
  function FieldLine(name: string): string
  {
    "\n" + name + ": {},"
  }

  /** A field-set member: its entries in increasing order of field name, or nothing for an empty set. */
  ghost function FieldBlock(member: string, s: set<Field>): string
  {
    if |s| > 0 then "\n" + member + ": map[Field]struct{}{" + ConcatMap(SortedOf(NamesOf(s)), FieldLine) + "\n},"
    else ""
  }

  /** The list of areas of one language. */
  function LanguageEntry(language: string, areas: seq<AreaRecord>): string
  {
    "\n\"" + language + "\": {" + ConcatMap(areas, AreaEntry) + "\n},"
  }

  /** The area lists of the given languages, in the order given (languages of the map only). */
  function LanguageEntries(areas: map<string, seq<AreaRecord>>, languages: seq<string>): string
  {
    ConcatMap(languages, LanguagePiece(areas))
  }

  /** LanguageItem with the map fixed, as the piece of ConcatMap. */
  function LanguagePiece(areas: map<string, seq<AreaRecord>>): string -> string
  {
    (language: string) => LanguageItem(areas, language)
  }

  /** The area list of one language of the map. */
  function LanguageItem(areas: map<string, seq<AreaRecord>>, language: string): string
  {
    if language in areas then LanguageEntry(language, areas[language]) else ""
  }

  /** The AdministrativeAreas member: the languages in increasing order, or nothing for an empty map. */
  ghost function AreasBlock(areas: map<string, seq<AreaRecord>>): string
  {
    if |areas| > 0 then
      "\nAdministrativeAreas: map[string][]administrativeArea {" + LanguageEntries(areas, SortedOf(areas.Keys)) + "\n},"
    else ""
  }

  /** country.toCode: the members in a fixed order, each optional one only when it is set. */
  ghost function CountryCode(c: CountryMetadata): string
  {
    "{\n\tID: \"" + c.id + "\",\n\tName: \"" + c.name + "\","
    + QuotedLine("DefaultLanguage", c.defaultLanguage)
    + QuotedLine("PostCodePrefix", c.postCodePrefix)
    + RegexLine(c.postCodeRegex)
    + QuotedLine("Format", c.format)
    + QuotedLine("LatinizedFormat", c.latinizedFormat)
    + NameTypeLine("AdministrativeAreaNameType", c.administrativeAreaNameType)
    + NameTypeLine("LocalityNameType", c.localityNameType)
    + NameTypeLine("DependentLocalityNameType", c.dependentLocalityNameType)
    + NameTypeLine("PostCodeNameType", c.postCodeNameType)
    + FieldBlock("AllowedFields", c.allowedFields)
    + FieldBlock("RequiredFields", c.requiredFields)
    + FieldBlock("Upper", c.upper)
    + AreasBlock(c.administrativeAreas)
    + "\n}"
  }

  /** The loop of the field-set part over the sorted names. */
  method FieldLinesToCode(fields: seq<string>) returns (str: string)
    ensures str == ConcatMap(fields, FieldLine)
  {
    str := "";
    for k := 0 to |fields|
      invariant str == ConcatMap(fields[..k], FieldLine)
    {
      assert fields[..k + 1][..k] == fields[..k];
      str := str + ("\n" + fields[k] + ": {},");
    }
    assert fields[..|fields|] == fields;
  }

  /**
   * The field-set part of country.toCode (the same code serves AllowedFields,
   * RequiredFields and Upper): collect the names, sort them, print each.
   */
  method FieldBlockToCode(member: string, s: set<Field>) returns (str: string)
    ensures str == FieldBlock(member, s)
  {
    str := "";
    if |s| > 0 {
      var fields := SortStrings(NamesOf(s));
      str := "\n" + member + ": map[Field]struct{}{";
      var lines := FieldLinesToCode(fields);
      str := str + lines;
      str := str + "\n},";
    }
  }

  /** The inner loop of the AdministrativeAreas part: one language's areas in list order. */
  method AreaListToCode(areas: seq<AreaRecord>) returns (str: string)
    ensures str == ConcatMap(areas, AreaEntry)
  {
    str := "";
    for k := 0 to |areas|
      invariant str == ConcatMap(areas[..k], AreaEntry)
    {
      var code := AreaToCode(areas[k]);
      assert areas[..k + 1][..k] == areas[..k];
      str := str + ("\n" + code + ",");
    }
    assert areas[..|areas|] == areas;
  }

  /** The outer loop of the AdministrativeAreas part, over the sorted languages. */
  method LanguageEntriesToCode(areas: map<string, seq<AreaRecord>>, languages: seq<string>) returns (str: string)
    requires forall k :: 0 <= k < |languages| ==> languages[k] in areas
    ensures str == LanguageEntries(areas, languages)
  {
    str := "";
    for k := 0 to |languages|
      invariant str == LanguageEntries(areas, languages[..k])
    {
      var language := languages[k];
      var list := AreaListToCode(areas[language]);
      assert languages[..k + 1][..k] == languages[..k];
      str := str + ("\n\"" + language + "\": {" + list + "\n},");
    }
    assert languages[..|languages|] == languages;
  }

  /** The AdministrativeAreas part of country.toCode: sort the languages, print each one's areas. */
  method AreasToCode(areas: map<string, seq<AreaRecord>>) returns (str: string)
    ensures str == AreasBlock(areas)
  {
    str := "";
    if |areas| > 0 {
      var languages := SortStrings(areas.Keys);
      forall k | 0 <= k < |languages| ensures languages[k] in areas {
        assert languages[k] in languages;
      }
      str := "\nAdministrativeAreas: map[string][]administrativeArea {";
      var entries := LanguageEntriesToCode(areas, languages);
      str := str + entries;
      str := str + "\n},";
    }
  }

  /** country.toCode: prints the members in their fixed order, leaving out those that are not set. */
  method CountryToCode(c: CountryMetadata) returns (str: string)
    ensures str == CountryCode(c)
  {
    str := "{\n\tID: \"" + c.id + "\",\n\tName: \"" + c.name + "\",";
    str := str + QuotedLine("DefaultLanguage", c.defaultLanguage);
    str := str + QuotedLine("PostCodePrefix", c.postCodePrefix);
    var regex := "";
    if c.postCodeRegex.regex != "" || |c.postCodeRegex.subdivisionRegex| > 0 {
      var code := PostCodeRegexToCode(c.postCodeRegex);
      regex := "\nPostCodeRegex: postCodeRegex" + code + ",";
    }
    str := str + regex;
    str := str + QuotedLine("Format", c.format);
    str := str + QuotedLine("LatinizedFormat", c.latinizedFormat);
    str := str + NameTypeLine("AdministrativeAreaNameType", c.administrativeAreaNameType);
    str := str + NameTypeLine("LocalityNameType", c.localityNameType);
    str := str + NameTypeLine("DependentLocalityNameType", c.dependentLocalityNameType);
    str := str + NameTypeLine("PostCodeNameType", c.postCodeNameType);
    var allowed := FieldBlockToCode("AllowedFields", c.allowedFields);
    str := str + allowed;
    var required := FieldBlockToCode("RequiredFields", c.requiredFields);
    str := str + required;
    var upper := FieldBlockToCode("Upper", c.upper);
    str := str + upper;
    var languages := AreasToCode(c.administrativeAreas);
    str := str + languages;
    str := str + "\n}";
  }

  /** A field-set member is printed exactly when the set is not empty. */
  lemma FieldBlockOmittedIffEmpty(member: string, s: set<Field>)
    ensures FieldBlock(member, s) == "" <==> s == {}
  {
    if s != {} {
      assert |FieldBlock(member, s)| > 0;
    }
  }

  /**
   * The fields of a set are printed in increasing order of name: the line
   * of f comes after the lines of all fields with smaller names and before
   * those with larger ones.
   */
  lemma FieldLinesSorted(s: set<Field>, f: Field)
    requires f in s
    ensures ConcatMap(SortedOf(NamesOf(s)), FieldLine) ==
      ConcatMap(SortedOf(Below(NamesOf(s), String(f))), FieldLine)
      + FieldLine(String(f))
      + ConcatMap(SortedOf(Above(NamesOf(s), String(f))), FieldLine)
  {
    var names := NamesOf(s);
    var below := SortedOf(Below(names, String(f)));
    var above := SortedOf(Above(names, String(f)));
    assert String(f) in names;
    SortedOfSplit(names, String(f));
    ConcatMapAppend(below, [String(f)], FieldLine);
    ConcatMapAppend(below + [String(f)], above, FieldLine);
    assert [String(f)][..0] == [];
  }

  lemma LanguageEntriesSnoc(areas: map<string, seq<AreaRecord>>, xs: seq<string>, language: string)
    ensures LanguageEntries(areas, xs + [language]) == LanguageEntries(areas, xs) + LanguageItem(areas, language)
  {
    assert (xs + [language])[..|xs|] == xs;
  }

  /** Printing the area lists of two lists of languages is printing each in turn. */
  lemma {:induction false} LanguageEntriesAppend(areas: map<string, seq<AreaRecord>>, xs: seq<string>, ys: seq<string>)
    ensures LanguageEntries(areas, xs + ys) == LanguageEntries(areas, xs) + LanguageEntries(areas, ys)
  {
    ConcatMapAppend(xs, ys, LanguagePiece(areas));
  }

  /** The AdministrativeAreas member is printed exactly when there is a language. */
  lemma AreasBlockOmittedIffEmpty(areas: map<string, seq<AreaRecord>>)
    ensures AreasBlock(areas) == "" <==> |areas| == 0
  {
    if |areas| > 0 {
      assert |AreasBlock(areas)| > 0;
    }
  }

  /**
   * The languages are printed in increasing order: the areas of `language`
   * come after those of all smaller language keys and before all larger ones.
   */
  lemma LanguagesSorted(areas: map<string, seq<AreaRecord>>, language: string)
    requires language in areas
    ensures LanguageEntries(areas, SortedOf(areas.Keys)) ==
      LanguageEntries(areas, SortedOf(Below(areas.Keys, language)))
      + LanguageEntry(language, areas[language])
      + LanguageEntries(areas, SortedOf(Above(areas.Keys, language)))
  {
    var below := SortedOf(Below(areas.Keys, language));
    var above := SortedOf(Above(areas.Keys, language));
    SortedOfSplit(areas.Keys, language);
    LanguageEntriesAppend(areas, below, [language]);
    LanguageEntriesAppend(areas, below + [language], above);
    assert [language][..0] == [];
  }

  /** The areas of one language are printed in list order. */
  lemma AreasInListOrder(areas: seq<AreaRecord>, more: seq<AreaRecord>)
    ensures ConcatMap(areas + more, AreaEntry) == ConcatMap(areas, AreaEntry) + ConcatMap(more, AreaEntry)
  {
    ConcatMapAppend(areas, more, AreaEntry);
  }
}

