# Boostport/address in Dafny

A model of the core of the Go library `github.com/Boostport/address`. The
library validates and formats international postal addresses using a
per-country metadata table. The table is derived from Google's address
metadata and holds, for each country:

- its required and allowed fields;
- its administrative area → locality → dependent locality hierarchy;
- its nested post-code regular expressions;
- its address format strings.

The model covers these parts of the library:

- **Metadata store** (`data.go`, module `Data`). The built-in table
  `generated` becomes a parameter `t: Table`, an immutable map from country
  code to record.
  - `getCountry` fills the unset parts of a record from the `ZZ` fallback
    record.
  - The name lookups walk the subdivision hierarchy.
  - `normalizeLanguage` chooses the language whose subdivision list is used.
- **Validator** (`validate.go`, module `Validate`): `Validate` and its four
  checks. Errors are a list of error kinds (`Errors.Error`) in the order
  `Validate` appends them.
- **Address value and builder** (`address.go`).
  - Module `Addresses`: the `Address` value, `IsZero`, `toFormatData`, and
    the conversion of internal records into the public `CountryData` types.
  - Module `AddressBuilder`: the `With*` options, `New` and `NewValid`.
- **Formatter** (`format.go`, module `Formatting`).
  - The selection of the format (`getFormat`).
  - The rewriting of `%X` tokens into template actions by both outputters,
    including `toUpper`.
  - The two formatters, up to the template text and the data they execute
    it against.
- **Zones** (`zone.go`, module `Zones`): the territory tests and both post-code
  matchers.
- **Constants and errors** (`constants.go`, `errors.go`; modules `Constants`
  and `Errors`): fields, their keys and names, and the error messages.
- **Generator helpers** (`generator/generate.go`, module `Generator`).
  - `getFields`, `getAllowedFields` and `convertFieldNameToConstant`.
  - The `toCode` serialisers that print the collected metadata as Go source.
- **Go standard library pieces the core relies on** (module `Strings`):
  - `strings.TrimSpace` with Go's white-space set;
  - ASCII upper- and lower-casing, `strings.Join`;
  - `strconv.Atoi` with its 64-bit range;
  - byte-wise string order and `sort.Strings`.

Regular-expression matching is never interpreted. It is the parameter
`matches(pattern, text)`, which stands for `regexp.MustCompile(pattern).MatchString(text)`.
The one exception is `isAlphabetRegex`, which is just "contains an ASCII
letter" (`Strings.HasAsciiLetter`).

Where the code and the library's description disagree, the model follows the
code. The description says every validation step contributes to the error
list. In the code, an unknown country code returns at once with
`ErrInvalidCountryCode` as the only error (validate.go:15-18), and
`Validate.Validate` models exactly that.

## Model

| member | source | states |
|---|---|---|
| Constants.Key | constants.go:22-46 | every field has a non-empty key, and only Country's key is longer than one letter |
| Constants.KeyOfValue | constants.go:22-46 | a Field number outside 1..9 has the empty key; inside it, the key of the field with that number |
| Constants.FromValue | constants.go:7-17 | exactly the numbers 1..9 are fields, and each maps back to its own number |
| Constants.ValueRoundTrip | constants.go:7-17 | every field's number converts back to that field |
| Constants.KeysAndNamesDistinct | constants.go:22-46 | different fields have different keys and different names |
| Constants.NoCommaInName | constants.go:7-17 | no field name contains a comma, so the comma-joined error lists can be split back |
| Constants.FieldOfLetter | constants.go:22-46 | a letter names a field exactly when it is that field's key; no letter names Country |
| Constants.NameValueInjective | constants.go:51-76 | the 22 FieldName constants are pairwise distinct and different from 0 ("unset") |
| Errors.FieldNames | errors.go:36-40 | the names list has one entry per field, in the fields' order |
| Errors.MissingRequiredFieldsError | errors.go:34-43 | the message is "missing required fields for <country>: " followed by the comma-joined field names |
| Errors.UnsupportedFieldsError | errors.go:52-61 | the message is "unsupported fields for <country>: " followed by the comma-joined field names |
| Errors.SentinelMessagesDistinct | errors.go:10-25 | the five sentinel errors have pairwise different messages |
| Errors.NamesInjective | errors.go:36-40 | two field lists with the same names list are the same list |
| Errors.FieldsReadBack | errors.go:34-61 | the field list can be recovered from a message by splitting what follows ": " at commas |
| Data.GetCountry | data.go:54-91 | the record is the table's record (or the zero record) with its format, name types and field sets taken from ZZ where unset |
| Data.BackfilledFields | data.go:54-91 | each backfilled part comes from ZZ exactly when the record's own part is unset; every other part is the record's own |
| Data.UnknownCountry | data.go:54-91 | an unknown code gets the empty record with ZZ's format and field sets |
| Data.FallbackIsFixedPoint | data.go:54-91 | backfilling ZZ itself changes nothing |
| Data.NormalizeLanguage | data.go:171-180 | the requested language when the backfilled country has subdivisions in it, the country's default language otherwise |
| Data.NormalizeLanguageIdempotent | data.go:171-180 | normalizing a normalized language changes nothing |
| Data.IndexOf | data.go:99-112 | the result is the first index holding the ID, or -1 when none does |
| Data.LastIndexOf | validate.go:165-224 | the result is the last index holding the ID, or -1 when none does |
| Data.AdministrativeAreaName | data.go:99-112 | the name of the first area with the ID in the normalized language's list, or "" when there is none |
| Data.AdministrativeAreaPostalKey | data.go:114-127 | the postal key of the first area with the ID in the default language's list, or "" when there is none |
| Data.LocalityIn | data.go:129-146 | a name is found exactly when some area with the ID holds a locality with the ID; it is the name of the first such locality in the first area that holds one |
| Data.LocalityFoundAtUnique | data.go:134-143 | the search of getLocalityName stops at one area and one locality only, so its result is determined |
| Data.LocalityName | data.go:129-146 | "" when no area/locality chain matches; otherwise the name of the first matching locality under the first area that holds one, even when that name is "" |
| Data.DependentIn | data.go:148-169 | a name is found exactly when a locality with the ID holds a dependent locality with the ID; it is the first such dependent locality in the first locality that holds one |
| Data.DependentFoundAtUnique | data.go:157-165 | the inner search stops at one locality and one dependent locality only |
| Data.FullChainIn | data.go:148-169 | a name is found exactly when an area → locality → dependent locality chain matches the three IDs; it comes from the first area with the ID through which the chain completes |
| Data.FullChainFoundAtUnique | data.go:155-167 | the outer search stops at one area only |
| Data.DependentLocalityName | data.go:148-169 | "" when no full chain matches; otherwise the name at the end of the first matching path, in list order at every level |
| Strings.TrimSpaceSpec | address.go:62-68 | TrimSpace removes exactly the leading and trailing Go white space: the result is a slice of the string with only white space before and after it, empty iff the string is all space, and otherwise starting and ending with a non-space |
| Strings.TrimSpaceIdempotent | address.go:62-68 | trimming twice is trimming once |
| Strings.ToUpperIdempotent | address.go:137-142 | upper-casing twice is upper-casing once |
| Strings.SplitJoin | errors.go:42 | joining comma-free strings with "," and splitting at "," gives them back |
| Strings.AtoiItoa | zone.go:97-101 | strconv.Atoi reads back every 64-bit integer printed in decimal |
| Strings.SortStrings | generator/generate.go:124-134 | sort.Strings yields the collected strings in strictly increasing byte order, each once |
| Strings.SortedUnique | address.go:345-367 | two strictly sorted lists with the same elements are equal, so the sorted order is unique |
| Strings.SortedOfSplit | generator/generate.go:233-253 | in sorted order every string comes after all smaller members and before all larger ones |
| Addresses.IsZeroIffZero | address.go:45-47 | IsZero holds for exactly one address, the zero value |
| Addresses.NonBlankLinesEmpty | address.go:62-68 | no street line survives exactly when every line is blank |
| Addresses.NonBlankLinesTrimmed | address.go:62-68 | every surviving street line is non-empty and already trimmed |
| Addresses.NonBlankLinesAppend | address.go:62-68 | the street lines are filtered one by one, in order |
| Addresses.TrimStreetLines | address.go:62-68 | the loop keeps the trimmed non-blank lines in their order |
| Addresses.ToFormatData | address.go:49-104 | copies the plain fields, trims the street lines, and replaces each subdivision ID by its localized name only when that name is found; a replaced locality or dependent locality had a matching chain |
| Addresses.RegexRoundTrip | address.go:382-398 | copying the post-code regex tree into the public type loses nothing, at every depth |
| Addresses.RegexRoundTripData | address.go:382-398 | every public regex tree is the copy of an internal one |
| Addresses.ConvertPostCodeRegex | address.go:382-398 | the loop over the subdivision map builds the copy of the whole tree |
| Addresses.AreaRoundTrip | address.go:400-444 | the public area keeps everything but the postal key: adding it back gives the original area |
| Addresses.ConvertAreas | address.go:400-444 | the public areas are the copies of the internal ones, in list order |
| Addresses.SortFieldsByName | address.go:345-367 | the field list is sorted by name and holds exactly the fields of the set |
| Addresses.ConvertCountry | address.go:332-380 | the public record carries the formats, language, name types and regex tree; its required and allowed lists are the record's sets sorted by name; every language's areas are copied |
| Addresses.GetCountryData | address.go:325-330 | GetCountry is the conversion of the backfilled record: formats, default language, the four backfilled name types, the regex tree, the sorted field lists and the area lists |
| Validate.StreetMissingIffNoLines | validate.go:71-84 | the street address counts as missing exactly when no line survives trimming |
| Validate.StreetAddressIsEmpty | validate.go:71-84 | the loop reports "empty" exactly when every line is blank |
| Validate.CheckRequiredFields | validate.go:52-118 | no error iff no required field is missing; otherwise one MissingRequiredFields error listing each missing field once |
| Validate.UnsupportedSpec | validate.go:120-163 | a field is reported iff it is set, is not Country, and is not allowed; the report is in Field order |
| Validate.CheckAllowedFields | validate.go:120-163 | no error iff nothing unsupported is set; otherwise one UnsupportedFields error with exactly those fields in Field order |
| Validate.SubdivisionError | validate.go:165-224 | an empty area is never an error; InvalidAdministrativeArea iff no area has the ID; InvalidLocality iff the locality is set and the last area with the ID has localities, none with that ID; InvalidDependentLocality iff, one level down under the last matching locality, the same holds |
| Validate.LastMatch | validate.go:175-183 | the loop ends at the last matching index, as the Go loop without a break does |
| Validate.CheckSubdivisions | validate.go:165-224 | the nested loops give the error SubdivisionError describes |
| Validate.CheckPostCode | validate.go:226-273 | the post code is rejected (InvalidPostCode) exactly when some regex on the path of subdivision IDs does not match it |
| Validate.AllowedError | validate.go:26-28 | the allowed-field step contributes an error exactly when an unsupported field is set |
| Validate.PostCodeError | validate.go:41-47 | the post-code step contributes an error exactly when the post code fails |
| Validate.LaterErrors | validate.go:26-47 | the steps after the required-field check yield at most three errors in step order |
| Validate.Validate | validate.go:11-50 | an unknown country yields only InvalidCountryCode; otherwise the missing-fields error (if any) followed by the later steps' errors in step order; no errors exactly when the address is valid |
| Validate.StagesAfterRequired | validate.go:22-47 | the required-field error precedes every later step's error |
| Zones.ContainsLiteral | zone.go:91-95 | the literal search succeeds iff the post code is one of the literals |
| Zones.InSomeRange | zone.go:103-107 | the range search succeeds iff some range holds the number, ends included |
| Zones.ExactMatch | zone.go:90-110 | an exact matcher accepts a listed literal, or a post code that parses as an integer inside some range |
| Zones.LiteralMatches | zone.go:90-110 | every listed literal is accepted, whatever the ranges |
| Zones.NonNumericMisses | zone.go:97-101 | a post code that is neither listed nor an integer is rejected |
| Zones.InvertedRangeMatchesNothing | zone.go:113-116 | a range with Start above End accepts nothing |
| Zones.RangeEndsMatch | zone.go:113-116 | both ends of a range, written in decimal, are accepted |
| Zones.ExactMatchMonotone | zone.go:90-110 | adding literals or ranges never rejects a post code that was accepted |
| Zones.TerritoryContains | zone.go:48-80 | containment implies the exact country test, the case-insensitive subdivision tests, inclusion and non-exclusion |
| Zones.TerritoryContainsWhenAllPass | zone.go:48-80 | the six tests together imply containment (the converse) |
| Zones.BlankTerritoryContainsAll | zone.go:48-80 | a territory with no constraints contains every address |
| Zones.CountryIsCaseSensitive | zone.go:50-52 | a country differing in any way, case included, is not contained |
| Zones.SubdivisionsIgnoreCase | zone.go:54-64 | addresses whose subdivisions agree up to ASCII case are in the same territories |
| Zones.ZoneContains | zone.go:14-22 | a zone contains an address iff one of its territories does |
| Zones.ZoneUnion | zone.go:14-22 | the zone of two territory lists contains what either list contains |
| AddressBuilder.Apply | address.go:137-204 | each option sets its own field (WithCountry upper-cased) and leaves every other field alone |
| AddressBuilder.New | address.go:124-133 | New applies the options to the zero address in order |
| AddressBuilder.UntouchedFieldStaysZero | address.go:124-133 | a field no option sets keeps its zero value |
| AddressBuilder.LastOptionWins | address.go:124-133 | the last option on a field decides its value |
| AddressBuilder.OptionsOnDifferentFieldsCommute | address.go:137-204 | options on different fields can be given in either order |
| AddressBuilder.NoOptionsIsZero | address.go:124-133 | New with no options gives a zero address |
| AddressBuilder.NewValid | address.go:108-120 | the address New builds, with no errors exactly when it is valid |
| Formatting.GetFormat | format.go:209-226 | the latinized format when asked for and present, else the country format, else ZZ's; the flag is false only when a latinized format was passed over |
| Formatting.GetFormatNotEmpty | format.go:209-226 | when ZZ has a format, every country gets a non-empty one |
| Formatting.ToUpperToken | format.go:192-207 | the field's template name, followed by " \| toUpper" exactly when the field is in the upper set |
| Formatting.EmptyUpperKeepsCase | format.go:53 | with an empty upper set no field is upper-cased |
| Formatting.TokenAt | format.go:151-190 | a token is only recognised where its text starts the remaining format |
| Formatting.TokenAtComplete | format.go:151-190 | every token whose text starts the remaining format is the one recognised there |
| Formatting.TokensPrefixFree | format.go:151-190 | at most one token matches at any position, so the replacement order does not matter |
| Formatting.NoPercentUnchanged | format.go:151-190 | a format with no "%" is left as it is |
| Formatting.RewriteToken | format.go:151-190 | a token followed by anything is replaced by its expansion and the rest is rewritten |
| Formatting.RewriteAppend | format.go:151-190 | rewriting two pieces split before a "%" is rewriting each |
| Formatting.CountryLinePlacement | format.go:47-51 | the country token and a newline go before the format, or after it when latinized |
| Formatting.DefaultFormat | format.go:41-62 | the template is the rewritten format with the country line placed by the latinized flag, nothing upper-cased; the data is the address's format data in the normalized language: country name, trimmed street lines, copied fields, and subdivision names wherever a lookup finds one |
| Formatting.CountryLabel | format.go:109-115 | the label always ends with the upper-cased English name and is empty exactly when both names are, which decides whether the country line is added; the translated name comes first only when the names differ |
| Formatting.PostalLabelFormat | format.go:79-137 | the country line only for international mail with a label; upper-casing as the country says; the area replaced by the postal key exactly when the key contains a letter; every other field as the format data in the normalized language gives it |
| Generator.FieldsOfSpec | generator/generate.go:1202-1229 | a field is read exactly when its letter occurs; Country never is |
| Generator.FieldsIgnoreOrderAndRepetition | generator/generate.go:1206-1226 | only which letters occur counts, not their order or repetition |
| Generator.GetFields | generator/generate.go:1202-1229 | the loop yields the fields whose letters occur, and never Country |
| Generator.MatchesFrom | generator/generate.go:26 | every match of `%[NOADCSZX]` is "%" followed by a field letter |
| Generator.MatchesFromSpec | generator/generate.go:1235 | the left-to-right, non-overlapping scan finds "%L" exactly when it occurs anywhere in the format |
| Generator.GetAllowedFields | generator/generate.go:1231-1261 | a field is allowed exactly when "%" followed by its uppercase letter occurs in the format |
| Generator.LowercaseTokenAddsNothing | generator/generate.go:1231-1261 | inserting "%n" or "%country" anywhere adds no field token |
| Generator.FieldNameOf | generator/generate.go:1263-1313 | a recognised spelling is the metadata spelling of the name returned |
| Generator.ConvertFieldNameToConstant | generator/generate.go:1263-1313 | success gives the number of the name with that spelling; failure gives -1 and "unknown field name: " followed by the input |
| Generator.ConvertRoundTrip | generator/generate.go:1263-1313 | each of the 22 spellings converts to its own constant without error |
| Generator.ConvertFailsIffUnknown | generator/generate.go:1263-1313 | the conversion fails exactly for strings that spell no field name |
| Generator.ConvertedConstantsDistinct | generator/generate.go:1263-1313 | different spellings that convert give different constants |
| Generator.DependentLocalityCodeInjective | generator/generate.go:414-420 | two dependent localities whose ID and name hold no double quote print differently unless they are equal |
| Generator.LocalityToCode | generator/generate.go:384-407 | prints the record, then its dependent localities in list order, leaving the list out when empty |
| Generator.AreaToCode | generator/generate.go:350-375 | prints the record with its postal key, then its localities in list order, leaving the list out when empty |
| Generator.LocalitiesInListOrder | generator/generate.go:362-364 | the localities are printed one after another in list order |
| Generator.PostCodeRegexToCode | generator/generate.go:124-154 | prints the regex, then the nested regexes recursively in sorted ID order |
| Generator.RegexBlockOmittedIffEmpty | generator/generate.go:138-149 | the subdivisionRegex block appears exactly when there are nested regexes |
| Generator.SubdivisionEntriesSorted | generator/generate.go:127-145 | the entry of each ID comes after those of all smaller IDs and before all larger ones |
| Generator.FieldBlockToCode | generator/generate.go:233-300 | a field set is printed as its names in sorted order, or not at all when empty |
| Generator.FieldBlockOmittedIffEmpty | generator/generate.go:233-300 | a field-set block is printed exactly when the set is not empty |
| Generator.FieldLinesSorted | generator/generate.go:237-249 | each field's line comes after those with smaller names and before those with larger ones |
| Generator.AreasToCode | generator/generate.go:302-334 | the languages are printed in sorted order, each with its areas in list order, or nothing for an empty map |
| Generator.AreasBlockOmittedIffEmpty | generator/generate.go:302-334 | the AdministrativeAreas block is printed exactly when there is a language |
| Generator.LanguagesSorted | generator/generate.go:305-330 | each language's areas come after those of smaller language keys and before larger ones |
| Generator.AreasInListOrder | generator/generate.go:322-326 | the areas of one language are printed in list order |
| Generator.CountryToCode | generator/generate.go:180-340 | the members in their fixed order, each optional member only when set; the output depends only on the record, not on map iteration order |

## Left out

- Template execution is not modelled: `html/template` parsing, execution and HTML escaping, and the two whitespace-collapsing regular expressions (format.go:16-18, 55-61, 130-136). The formatters stop at the template text and the data it is executed against.
- Regular-expression semantics are not modelled. `MatchString` in the post-code check and in `RegexMatcher` is the parameter `matches`; `checkPostalCodeRegex` in the generator is not part of this model.
- Display names, language tags and collation (`display.Regions`, `language.Make`/`Parse`, `collate`) are external services. The formatters take the localized country name and the translated and English destination names as parameters. `toFormatData` leaves `CountryEnglish` empty, as the Go code does.
- `ListCountries` and the `CountryList` sort glue (address.go:258-322) are left out, because their order comes from the external collator.
- The generator's runtime is left out because it is network I/O and concurrency: `main`, the worker pool, the HTTP fetches and JSON decoding. So is the `fmt.Println` in `country.toCode` (a diagnostic print when the default language is missing).
- `errors.Join` and `fmt.Errorf` wrapping are not modelled. Validation errors are a list of error kinds, and `NewValid` returns that list.
- `Strings.ToUpper` / `Strings.ToLower`: only ASCII letters change case; Go's Unicode case mapping of other letters is not modelled.
- nil and empty slices or maps are not distinguished.
- `PostCodeMatcher` is an open Go interface (zone.go:44), so callers may plug in matchers of their own. The model closes it to the two matchers the package defines, `ExactMatcher` and `RegexMatcher`; custom matchers are not modelled.
- The generated table (`data.generated.go`) is not part of this model; it is the parameter `t`.
- The stringer output (`constant_string.go`) is not part of this model. `Constants.String` and `Constants.NameString` give each constant's identifier.
- Validate.CheckRequiredFields: Go visits the required-field map in an unspecified order, so the model loops over the set in a nondeterministic order. Its contract states which fields are reported, each once, but not in what order.
- Generator.CountryMetadata: the name types are `Option<FieldName>`. The generator only stores a name type that converted without error, so the Go stringer's text for any other number is never printed.
- Helper structure: some loops and case splits are moved into helper methods (`Validate.ReportIfUnsupported`, `Validate.AppendError`, `Validate.FieldIsMissing`, `Validate.SubdivisionStep`, `Validate.PostCodeStep`, `Generator.LocalitiesToCode`, `Generator.FieldLinesToCode`, `Generator.AreaListToCode`, `Generator.LanguageEntriesToCode`, `Generator.RegexEntriesToCode`). Each helper does exactly what the inline Go code does.
