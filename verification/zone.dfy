/**
 * Zones (zone.go): a zone is a list of territories and contains an address
 * when one of them does; a territory is a conjunction of field tests and two
 * optional post-code matchers.
 *
 * Regular-expression matching is not modelled: a regex matcher is applied
 * through the predicate `matches(pattern, text)`, a parameter.
 */
module Zones {
  import opened Wrappers
  import opened Strings
  import opened Addresses

  /** A numeric post-code range, inclusive at both ends. */
  datatype PostCodeRange = PostCodeRange(start: int, end: int)

  /** The two PostCodeMatcher implementations: ExactMatcher and RegexMatcher. */
  datatype PostCodeMatcher =
    | Exact(literals: seq<string>, ranges: seq<PostCodeRange>)
    | Regex(pattern: string)

  /** A rule of a zone; an absent matcher is Go's nil interface value. */
  datatype Territory = Territory(
    country: string,
    administrativeArea: string,
    locality: string,
    dependentLocality: string,
    includedPostCodes: Option<PostCodeMatcher>,
    excludedPostCodes: Option<PostCodeMatcher>)

  type Zone = seq<Territory>

  // ---------------------------------------------------------------------------
  // ExactMatcher

  /** The literal search of ExactMatcher.Match, first to last. */
  function ContainsLiteral(literals: seq<string>, postCode: string): (r: bool)
    ensures r <==> postCode in literals
  {
    if literals == [] then false
    else if postCode == literals[0] then true
    else ContainsLiteral(literals[1..], postCode)
  }

  /** The range search of ExactMatcher.Match, first to last. */
  function InSomeRange(ranges: seq<PostCodeRange>, i: int): (r: bool)
    ensures r <==> exists k :: 0 <= k < |ranges| && ranges[k].start <= i <= ranges[k].end
  {
    if ranges == [] then false
    else if i >= ranges[0].start && i <= ranges[0].end then true
    else InSomeRange(ranges[1..], i)
  }

  /**
   * ExactMatcher.Match: a literal in the list matches; otherwise the post
   * code must parse as an integer (strconv.Atoi) lying in some range.
   */
  function ExactMatch(literals: seq<string>, ranges: seq<PostCodeRange>, postCode: string): (r: bool)
    ensures r <==>
      || postCode in literals
      || (Atoi(postCode).Some? && exists k :: 0 <= k < |ranges| && ranges[k].start <= Atoi(postCode).value <= ranges[k].end)
  {
    if ContainsLiteral(literals, postCode) then true
    else
      match Atoi(postCode)
      case None => false
      case Some(i) => InSomeRange(ranges, i)
  }

  /** PostCodeMatcher.Match for either implementation. */
  function Match(matches: (string, string) -> bool, m: PostCodeMatcher, postCode: string): bool
  {
    match m
    case Exact(literals, ranges) => ExactMatch(literals, ranges, postCode)
    case Regex(pattern) => matches(pattern, postCode)
  }

  /** A literal matches whatever its numeric reading and whatever the ranges. */
  lemma LiteralMatches(literals: seq<string>, ranges: seq<PostCodeRange>, k: nat)
    requires k < |literals|
    ensures ExactMatch(literals, ranges, literals[k])
  {
  }

  /** A post code that is neither a literal nor an integer never matches. */
  lemma NonNumericMisses(literals: seq<string>, ranges: seq<PostCodeRange>, postCode: string)
    requires postCode !in literals && Atoi(postCode).None?
    ensures !ExactMatch(literals, ranges, postCode)
  {
  }

  /** A range whose start is above its end matches nothing. */
  lemma InvertedRangeMatchesNothing(r: PostCodeRange, postCode: string)
    requires r.start > r.end
    ensures !ExactMatch([], [r], postCode)
  {
  }

  /** The ends of a range match, written in decimal. */
  lemma RangeEndsMatch(r: PostCodeRange)
    requires r.start <= r.end && MinInt64 <= r.start && r.end <= MaxInt64
    ensures ExactMatch([], [r], Itoa(r.start)) && ExactMatch([], [r], Itoa(r.end))
  {
    AtoiItoa(r.start);
    AtoiItoa(r.end);
  }

  /** More literals or more ranges can only enlarge what an exact matcher accepts. */
  lemma ExactMatchMonotone(literals: seq<string>, ranges: seq<PostCodeRange>,
                           moreLiterals: seq<string>, moreRanges: seq<PostCodeRange>, postCode: string)
    requires ExactMatch(literals, ranges, postCode)
    ensures ExactMatch(literals + moreLiterals, ranges + moreRanges, postCode)
  {
    if postCode !in literals {
      var k :| 0 <= k < |ranges| && ranges[k].start <= Atoi(postCode).value <= ranges[k].end;
      assert (ranges + moreRanges)[k] == ranges[k];
    }
  }

  // ---------------------------------------------------------------------------
  // Territory and Zone

  /** A territory field constrains the address only when it is not blank; the comparison ignores ASCII case. */
  predicate SameIgnoringCase(rule: string, value: string) {
    rule == "" || ToLower(value) == ToLower(rule)
  }

  /** Territory.contains. */
  function TerritoryContains(matches: (string, string) -> bool, t: Territory, a: Address): (r: bool)
    ensures r ==> t.country == "" || a.country == t.country
    ensures r ==> SameIgnoringCase(t.administrativeArea, a.administrativeArea)
    ensures r ==> SameIgnoringCase(t.locality, a.locality)
    ensures r ==> SameIgnoringCase(t.dependentLocality, a.dependentLocality)
    ensures r ==> t.excludedPostCodes.None? || !Match(matches, t.excludedPostCodes.value, a.postCode)
    ensures r ==> t.includedPostCodes.None? || Match(matches, t.includedPostCodes.value, a.postCode)
  {
    if t.country != "" && a.country != t.country then false
    else if t.administrativeArea != "" && ToLower(a.administrativeArea) != ToLower(t.administrativeArea) then false
    else if t.locality != "" && ToLower(a.locality) != ToLower(t.locality) then false
    else if t.dependentLocality != "" && ToLower(a.dependentLocality) != ToLower(t.dependentLocality) then false
    else
      var matchIncluded := if t.includedPostCodes.Some? then Match(matches, t.includedPostCodes.value, a.postCode) else true;
      var matchExcluded := if t.excludedPostCodes.Some? then Match(matches, t.excludedPostCodes.value, a.postCode) else false;
      matchIncluded && !matchExcluded
  }

  /** Every one of the six tests passing is enough: the guards are a conjunction. */
  lemma TerritoryContainsWhenAllPass(matches: (string, string) -> bool, t: Territory, a: Address)
    requires t.country == "" || a.country == t.country
    requires SameIgnoringCase(t.administrativeArea, a.administrativeArea)
    requires SameIgnoringCase(t.locality, a.locality)
    requires SameIgnoringCase(t.dependentLocality, a.dependentLocality)
    requires t.excludedPostCodes.None? || !Match(matches, t.excludedPostCodes.value, a.postCode)
    requires t.includedPostCodes.None? || Match(matches, t.includedPostCodes.value, a.postCode)
    ensures TerritoryContains(matches, t, a)
  {
  }

  /** A territory with every field blank and no matchers contains every address. */
  lemma BlankTerritoryContainsAll(matches: (string, string) -> bool, a: Address)
    ensures TerritoryContains(matches, Territory("", "", "", "", None, None), a)
  {
  }

  /** The country is compared exactly: a code differing only in case is rejected. */
  lemma CountryIsCaseSensitive(matches: (string, string) -> bool, t: Territory, a: Address)
    requires t.country != "" && a.country != t.country
    ensures !TerritoryContains(matches, t, a)
  {
  }

  /**
   * The subdivision tests ignore case: two addresses whose subdivisions agree
   * after lower-casing, and that agree on country and post code, are in the
   * same territories.
   */
  lemma SubdivisionsIgnoreCase(matches: (string, string) -> bool, t: Territory, a: Address, b: Address)
    requires a.country == b.country && a.postCode == b.postCode
    requires ToLower(a.administrativeArea) == ToLower(b.administrativeArea)
    requires ToLower(a.locality) == ToLower(b.locality)
    requires ToLower(a.dependentLocality) == ToLower(b.dependentLocality)
    ensures TerritoryContains(matches, t, a) == TerritoryContains(matches, t, b)
  {
  }

  /** Zone.Contains: the territories are tried in order and the first that contains the address decides. */
  function ZoneContains(matches: (string, string) -> bool, z: Zone, a: Address): (r: bool)
    ensures r <==> exists i :: 0 <= i < |z| && TerritoryContains(matches, z[i], a)
  {
    if z == [] then false
    else if TerritoryContains(matches, z[0], a) then true
    else ZoneContains(matches, z[1..], a)
  }

  /** A zone made of two lists of territories contains what either list contains. */
  lemma ZoneUnion(matches: (string, string) -> bool, z1: Zone, z2: Zone, a: Address)
    ensures ZoneContains(matches, z1 + z2, a) <==> ZoneContains(matches, z1, a) || ZoneContains(matches, z2, a)
  {
    if ZoneContains(matches, z1 + z2, a) {
      var i :| 0 <= i < |z1 + z2| && TerritoryContains(matches, (z1 + z2)[i], a);
      if i >= |z1| {
        assert z2[i - |z1|] == (z1 + z2)[i];
      }
    }
    if ZoneContains(matches, z1, a) {
      var i :| 0 <= i < |z1| && TerritoryContains(matches, z1[i], a);
      assert (z1 + z2)[i] == z1[i];
    }
    if ZoneContains(matches, z2, a) {
      var i :| 0 <= i < |z2| && TerritoryContains(matches, z2[i], a);
      assert (z1 + z2)[|z1| + i] == z2[i];
    }
  }
}
