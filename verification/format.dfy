/**
 * The formatters' decision logic (format.go): which address format a
 * country uses, how a format in Google's notation ("%N%n%O%n%A...") is
 * rewritten into a template by the string and HTML outputters, and what the
 * default and postal-label formatters hand to template execution.
 *
 * Template execution, HTML escaping and the white-space collapsing applied
 * to its output are not modelled; the formatters here stop at the template
 * string and the data it is executed against. Display names of countries
 * come from a localizer outside the model and are parameters.
 */
module Formatting {
  import opened Wrappers
  import opened Strings
  import opened Constants
  import opened Data
  import opened Addresses

  // ---------------------------------------------------------------------------
  // getFormat

  /**
   * getFormat: the latinized format when asked for and present; otherwise
   * the country's format, flagged as latinized when the country has no
   * separate latinized format; otherwise the fallback record's format.
   */
  function GetFormat(t: Table, countryCode: string, latinized: bool): (r: (string, bool))
    ensures var c := Backfilled(t, countryCode);
      && (latinized && c.latinizedFormat != "" ==> r.0 == c.latinizedFormat)
      && (!(latinized && c.latinizedFormat != "") && c.format != "" ==> r.0 == c.format)
      && (!(latinized && c.latinizedFormat != "") && c.format == "" ==> r.0 == Backfilled(t, Fallback).format)
      && (!r.1 <==> !latinized && c.latinizedFormat != "" && c.format != "")
  {
    var countryData := Backfilled(t, countryCode);
    if latinized && countryData.latinizedFormat != "" then (countryData.latinizedFormat, true)
    else if countryData.format != "" && countryData.latinizedFormat == "" then (countryData.format, true)
    else if countryData.format != "" then (countryData.format, false)
    else (Backfilled(t, Fallback).format, true)
  }

  /** The format is never empty while the fallback record has one, because formats are backfilled from it. */
  lemma GetFormatNotEmpty(t: Table, countryCode: string, latinized: bool)
    requires Lookup(t, Fallback).format != ""
    ensures GetFormat(t, countryCode, latinized).0 != ""
  {
    BackfilledFields(t, countryCode);
    BackfilledFields(t, Fallback);
  }

  /** Where the country line goes: after a latinized format, before any other. */
  function PlaceCountry(format: string, isLatinized: bool): string
  {
    if isLatinized then format + "%n%country" else "%country%n" + format
  }

  // ---------------------------------------------------------------------------
  // toUpper

  /**
   * toUpper: the template expression for a field, `fieldName` when given and
   * the field's name otherwise, piped through toUpper exactly when the field
   * is one of the upper-cased fields.
   */
  function ToUpperToken(field: Field, fieldName: string, upper: set<Field>): (r: string)
    ensures var base := if fieldName != "" then fieldName else String(field);
      && |base| <= |r| && r[..|base|] == base
      && (field in upper <==> r[|base|..] == " | toUpper")
      && (field !in upper <==> |r| == |base|)
  {
    var fieldToUse := if fieldName != "" then fieldName else String(field);
    if field in upper then fieldToUse + " | toUpper" else fieldToUse
  }

  // ---------------------------------------------------------------------------
  // Format tokens

  /** The tokens of a format: a field's "%" + key, or "%n" for a new line. */
  datatype Token = FieldToken(field: Field) | NewLine

  function TokenText(tok: Token): (s: string)
    ensures |s| >= 2 && s[0] == '%' && forall i :: 1 <= i < |s| ==> s[i] != '%'
  {
    match tok
    case FieldToken(f) => "%" + Key(f)
    case NewLine => "%n"
  }

  /** The token whose text starts s, if any. */
  function TokenAt(s: string): (r: Option<Token>)
    ensures r.Some? ==> TokenText(r.value) <= s
  {
    if |s| < 2 || s[0] != '%' then None
    else if s[1] == 'n' then Some(NewLine)
    else if "%country" <= s then Some(FieldToken(Country))
    else
      match FieldOfLetter(s[1])
      case Some(f) => Some(FieldToken(f))
      case None => None
  }

  /**
   * No token's text is a prefix of another's, so at most one token starts
   * at any position and the order in which the replacer tries them does not
   * matter.
   */
  lemma TokensPrefixFree(a: Token, b: Token, s: string)
    requires TokenText(a) <= s && TokenText(b) <= s
    ensures a == b
  {
    assert TokenText(a)[1] == s[1] == TokenText(b)[1];
    if a.FieldToken? && b.FieldToken? && a.field != b.field {
      KeysAndNamesDistinct(a.field, b.field);
    }
  }

  /** Every token is recognised: a token whose text starts s is the one TokenAt finds. */
  lemma TokenAtComplete(s: string, tok: Token)
    requires TokenText(tok) <= s
    ensures TokenAt(s) == Some(tok)
  {
    assert s[0] == '%' && s[1] == TokenText(tok)[1];
    match tok
    case NewLine =>
    case FieldToken(f) =>
      if f != Country {
        assert Key(f) == [s[1]];
        var g := FieldOfLetter(s[1]);
        if g.Some? && g.value != f {
          KeysAndNamesDistinct(g.value, f);
        }
      }
  }

  // ---------------------------------------------------------------------------
  // TransformFormat

  /** The two Outputter implementations. */
  datatype Outputter = StringOutputter | HTMLOutputter

  /** The CSS class the HTML outputter gives a field's span (address lines are numbered instead). */
  function HtmlClass(f: Field): string
    requires f != StreetAddress
  {
    match f
    case Country => "country"
    case Name => "name"
    case Organization => "organization"
    case DependentLocality => "dependent-locality"
    case Locality => "locality"
    case AdministrativeArea => "administrative-area"
    case PostCode => "post-code"
    case SortingCode => "sorting-code"
  }

  /** The text a token is replaced with. */
  function Expand(o: Outputter, upper: set<Field>, tok: Token): string
  {
    match tok
    case NewLine => if o.StringOutputter? then "\n" else "<br>"
    case FieldToken(f) =>
      if o.StringOutputter? then
        if f == StreetAddress then "{{ join ." + ToUpperToken(StreetAddress, "StreetAddress \"\\n\"", upper) + " }}"
        else "{{." + ToUpperToken(f, "", upper) + "}}"
      else
        if f == StreetAddress then
          "{{$numLines:=.StreetAddress|len}}{{range $lineNo, $line := .StreetAddress}}{{$realLineNo := inc $lineNo}}"
          + "<span class=\"address-line-{{$realLineNo}}\">{{" + ToUpperToken(StreetAddress, "$line", upper) + "}}</span>"
          + "{{if ne $numLines $realLineNo}}<br>{{end}}{{end}}"
        else
          "{{if ne ." + String(f) + " \"\" }}<span class=\"" + HtmlClass(f) + "\">{{."
          + ToUpperToken(f, "", upper) + "}}</span>{{end}}"
  }

  /** The replacement text of every token for one outputter and one set of upper-cased fields. */
  function Replacement(o: Outputter, upper: set<Field>): Token -> string
  {
    tok => Expand(o, upper, tok)
  }

  /**
   * strings.Replacer over the tokens: scanning left to right, each token is
   * replaced by rep(token) and the scan resumes after it; any other
   * character is copied.
   */
  function Rewrite(rep: Token -> string, format: string): string
    decreases |format|
  {
    if format == [] then []
    else
      match TokenAt(format)
      case Some(tok) => rep(tok) + Rewrite(rep, format[|TokenText(tok)|..])
      case None => [format[0]] + Rewrite(rep, format[1..])
  }

  /** TransformFormat of the string and HTML outputters. */
  function Transform(o: Outputter, upper: set<Field>, format: string): string
  {
    Rewrite(Replacement(o, upper), format)
  }

  /** A format without '%' is copied unchanged. */
  lemma {:induction false} NoPercentUnchanged(rep: Token -> string, format: string)
    requires '%' !in format
    ensures Rewrite(rep, format) == format
  {
    if format != [] {
      NoPercentUnchanged(rep, format[1..]);
    }
  }

  /** A token at the front is replaced and the rest is rewritten on its own. */
  lemma RewriteToken(rep: Token -> string, tok: Token, rest: string)
    ensures Rewrite(rep, TokenText(tok) + rest) == rep(tok) + Rewrite(rep, rest)
  {
    var s := TokenText(tok) + rest;
    TokenAtComplete(s, tok);
    assert s[|TokenText(tok)|..] == rest;
  }

  /** Which token starts x is not changed by appending y when y is empty or starts with '%'. */
  lemma TokenAtAppend(x: string, y: string)
    requires x != [] && (y == [] || y[0] == '%')
    ensures TokenAt(x + y) == TokenAt(x)
    ensures TokenAt(x).Some? ==> |TokenText(TokenAt(x).value)| <= |x|
  {
    var s := x + y;
    if TokenAt(s).Some? {
      var tok := TokenAt(s).value;
      if y != [] {
        assert s[|x|] == '%';
      }
      assert TokenText(tok) <= x;
      TokenAtComplete(x, tok);
    } else if TokenAt(x).Some? {
      TokenAtComplete(s, TokenAt(x).value);
    }
  }

  /**
   * Rewriting distributes over a split just before a '%': no token can
   * straddle the split, because no token has '%' after its first character.
   */
  lemma {:induction false} RewriteAppend(rep: Token -> string, x: string, y: string)
    requires y == [] || y[0] == '%'
    ensures Rewrite(rep, x + y) == Rewrite(rep, x) + Rewrite(rep, y)
    decreases |x|
  {
    if x == [] {
      assert x + y == y;
    } else {
      TokenAtAppend(x, y);
      match TokenAt(x)
      case Some(tok) =>
        var n := |TokenText(tok)|;
        assert (x + y)[n..] == x[n..] + y;
        RewriteAppend(rep, x[n..], y);
      case None =>
        assert (x + y)[1..] == x[1..] + y;
        RewriteAppend(rep, x[1..], y);
    }
  }

  /** With no upper-cased fields, no field is piped through toUpper. */
  lemma EmptyUpperKeepsCase(field: Field, fieldName: string)
    ensures ToUpperToken(field, fieldName, {}) == if fieldName != "" then fieldName else String(field)
  {
  }

  // ---------------------------------------------------------------------------
  // The formatters, up to template execution

  /**
   * DefaultFormatter.Format before execution: the country's format with the
   * country line added (after a latinized format, before any other), and
   * rewritten with no upper-cased fields; the data are the address's
   * format data in the normalized language.
   */
  method DefaultFormat(t: Table, output: Outputter, latinize: bool, a: Address, language: string, countryName: string)
    returns (template: string, data: FormatData)
    ensures var (format, isLatinized) := GetFormat(t, a.country, latinize);
      var country := Expand(output, {}, FieldToken(Country)) + Expand(output, {}, NewLine);
      template == if isLatinized then Transform(output, {}, format) + Expand(output, {}, NewLine) + Expand(output, {}, FieldToken(Country))
                  else country + Transform(output, {}, format)
    ensures data.country == countryName && data.countryEnglish == ""
    ensures data.name == a.name && data.organization == a.organization
    ensures data.postCode == a.postCode && data.sortingCode == a.sortingCode
    ensures data.streetAddress == NonBlankLines(a.streetAddress)
    ensures var n := AdministrativeAreaName(t, a.country, a.administrativeArea, NormalizeLanguage(t, a.country, language));
      data.administrativeArea == if a.administrativeArea != "" && n != "" then n else a.administrativeArea
    ensures data.administrativeAreaPostalKey
      == if a.administrativeArea != "" then AdministrativeAreaPostalKey(t, a.country, a.administrativeArea) else ""
    ensures LocalitiesShown(t, a, NormalizeLanguage(t, a.country, language), data.locality, data.dependentLocality)
  {
    var normalized := NormalizeLanguage(t, a.country, language);
    var (format, isLatinized) := GetFormat(t, a.country, latinize);
    ghost var original := format;
    format := PlaceCountry(format, isLatinized);
    template := Transform(output, {}, format);
    data := ToFormatData(t, a, normalized, countryName);
    CountryLinePlacement(Replacement(output, {}), original, isLatinized);
  }

  /**
   * The country line is the country token and a new-line token, after a
   * latinized format and before any other, whatever the format holds.
   */
  lemma CountryLinePlacement(rep: Token -> string, format: string, isLatinized: bool)
    ensures Rewrite(rep, PlaceCountry(format, isLatinized))
      == if isLatinized then Rewrite(rep, format) + rep(NewLine) + rep(FieldToken(Country))
         else rep(FieldToken(Country)) + rep(NewLine) + Rewrite(rep, format)
  {
    if isLatinized {
      RewriteAppend(rep, format, "%n%country");
      CountryLineTokens();
      RewriteTokenPair(rep, NewLine, FieldToken(Country));
    } else {
      RewriteHeader(rep, format);
    }
  }

  /** The two country lines are the new-line and country tokens, in either order. */
  lemma CountryLineTokens()
    ensures "%n%country" == TokenText(NewLine) + TokenText(FieldToken(Country))
    ensures "%country%n" == TokenText(FieldToken(Country)) + TokenText(NewLine)
  {
  }

  /** Two tokens in a row are replaced one after the other. */
  lemma RewriteTokenPair(rep: Token -> string, first: Token, second: Token)
    ensures Rewrite(rep, TokenText(first) + TokenText(second)) == rep(first) + rep(second)
  {
    RewriteToken(rep, first, TokenText(second));
    assert TokenText(second) == TokenText(second) + [];
    RewriteToken(rep, second, []);
  }

  /** The country line before a format: the country, then a new line. */
  lemma RewriteHeader(rep: Token -> string, format: string)
    ensures Rewrite(rep, "%country%n" + format) == rep(FieldToken(Country)) + rep(NewLine) + Rewrite(rep, format)
  {
    assert "%country%n" + format == TokenText(FieldToken(Country)) + ("%n" + format);
    RewriteToken(rep, FieldToken(Country), "%n" + format);
    assert "%n" + format == TokenText(NewLine) + format;
    RewriteToken(rep, NewLine, format);
  }

  /**
   * The country line of a postal label: both names upper-cased when they
   * differ, the English one alone otherwise. It always ends with the English
   * name, and it is empty only when both names are.
   */
  function CountryLabel(translatedDestination: string, englishDestination: string): (r: string)
    ensures translatedDestination == englishDestination ==> r == ToUpper(englishDestination)
    ensures translatedDestination != englishDestination ==>
      r == ToUpper(translatedDestination) + " - " + ToUpper(englishDestination)
    ensures r == "" <==> translatedDestination == "" && englishDestination == ""
    ensures |r| >= |englishDestination| && r[|r| - |englishDestination|..] == ToUpper(englishDestination)
  {
    if translatedDestination != englishDestination
    then ToUpper(translatedDestination) + " - " + ToUpper(englishDestination)
    else ToUpper(englishDestination)
  }

  /** International mail: the origin is a known country and differs from the destination, ignoring case. */
  predicate IsInternational(t: Table, originCountryCode: string, a: Address) {
    HasCountry(t, originCountryCode) && ToUpper(originCountryCode) != ToUpper(a.country)
  }

  /**
   * PostalLabelFormatter.Format before execution. For international mail the
   * country line is the destination's name in the origin's language and in
   * English (translatedDestination is the English name when the localizer
   * has no names for the origin's language), and the format gets the
   * country token when that line is not empty. The administrative area is
   * replaced by its postal key when the key contains a letter. Fields the
   * country upper-cases are piped through toUpper.
   */
  method PostalLabelFormat(t: Table, output: Outputter, originCountryCode: string, latinize: bool,
                           a: Address, language: string, countryName: string,
                           translatedDestination: string, englishDestination: string)
    returns (template: string, data: FormatData)
    ensures var (format, isLatinized) := GetFormat(t, a.country, latinize);
      var withCountry := IsInternational(t, originCountryCode, a) && CountryLabel(translatedDestination, englishDestination) != "";
      template == Transform(output, Backfilled(t, a.country).upper, if withCountry then PlaceCountry(format, isLatinized) else format)
    ensures data.country == if IsInternational(t, originCountryCode, a) then CountryLabel(translatedDestination, englishDestination) else countryName
    ensures data.administrativeAreaPostalKey
      == if a.administrativeArea != "" then AdministrativeAreaPostalKey(t, a.country, a.administrativeArea) else ""
    ensures HasAsciiLetter(data.administrativeAreaPostalKey) ==> data.administrativeArea == data.administrativeAreaPostalKey
    ensures !HasAsciiLetter(data.administrativeAreaPostalKey) ==>
      var n := AdministrativeAreaName(t, a.country, a.administrativeArea, NormalizeLanguage(t, a.country, language));
      data.administrativeArea == if a.administrativeArea != "" && n != "" then n else a.administrativeArea
    ensures data.countryEnglish == ""
    ensures data.streetAddress == NonBlankLines(a.streetAddress)
    ensures data.name == a.name && data.organization == a.organization
    ensures data.postCode == a.postCode && data.sortingCode == a.sortingCode
    ensures LocalitiesShown(t, a, NormalizeLanguage(t, a.country, language), data.locality, data.dependentLocality)
  {
    var normalized := NormalizeLanguage(t, a.country, language);
    var (format, isLatinized) := GetFormat(t, a.country, latinize);
    var countryData := GetCountry(t, a.country);
    data := ToFormatData(t, a, normalized, countryName);
    if IsInternational(t, originCountryCode, a) {
      data := data.(country := CountryLabel(translatedDestination, englishDestination));
      if data.country != "" {
        format := PlaceCountry(format, isLatinized);
      }
    }
    if HasAsciiLetter(data.administrativeAreaPostalKey) {
      data := data.(administrativeArea := data.administrativeAreaPostalKey);
    }
    template := Transform(output, countryData.upper, format);
  }
}
