/**
 * Building addresses from options (address.go): each With* option sets one
 * field, New applies a list of options to the zero address in order, and
 * NewValid also runs Validate on the result.
 */
module AddressBuilder {
  import opened Wrappers
  import opened Strings
  import opened Constants
  import opened Data
  import opened Errors
  import opened Addresses
  import opened Validate

  /** The With* functional options; each stands for the closure its Go function returns. */
  datatype AddressOption =
    | WithCountry(countryCode: string)
    | WithName(name: string)
    | WithOrganization(organization: string)
    | WithStreetAddress(streetAddress: seq<string>)
    | WithDependentLocality(dependentLocality: string)
    | WithLocality(locality: string)
    | WithAdministrativeArea(administrativeArea: string)
    | WithPostCode(postCode: string)
    | WithSortingCode(sortingCode: string)

  /** The value of one field: a string, or the address lines. */
  datatype FieldValue = Text(text: string) | Lines(lines: seq<string>)

  /** The value an address holds in a field. */
  function Get(a: Address, f: Field): FieldValue
  {
    match f
    case Country => Text(a.country)
    case Name => Text(a.name)
    case Organization => Text(a.organization)
    case StreetAddress => Lines(a.streetAddress)
    case DependentLocality => Text(a.dependentLocality)
    case Locality => Text(a.locality)
    case AdministrativeArea => Text(a.administrativeArea)
    case PostCode => Text(a.postCode)
    case SortingCode => Text(a.sortingCode)
  }

  /** Two addresses with the same value in every field are the same address. */
  lemma FieldsDetermineAddress(a: Address, b: Address)
    requires forall f :: Get(a, f) == Get(b, f)
    ensures a == b
  {
    assert Get(a, Country) == Get(b, Country) && Get(a, Name) == Get(b, Name);
    assert Get(a, Organization) == Get(b, Organization) && Get(a, StreetAddress) == Get(b, StreetAddress);
    assert Get(a, DependentLocality) == Get(b, DependentLocality) && Get(a, Locality) == Get(b, Locality);
    assert Get(a, AdministrativeArea) == Get(b, AdministrativeArea) && Get(a, PostCode) == Get(b, PostCode);
    assert Get(a, SortingCode) == Get(b, SortingCode);
  }

  /** The field an option sets. */
  function Target(o: AddressOption): Field
  {
    match o
    case WithCountry(_) => Country
    case WithName(_) => Name
    case WithOrganization(_) => Organization
    case WithStreetAddress(_) => StreetAddress
    case WithDependentLocality(_) => DependentLocality
    case WithLocality(_) => Locality
    case WithAdministrativeArea(_) => AdministrativeArea
    case WithPostCode(_) => PostCode
    case WithSortingCode(_) => SortingCode
  }

  /** What an option stores: the upper-cased code for WithCountry, the argument itself for every other option. */
  function Stored(o: AddressOption): FieldValue
  {
    match o
    case WithCountry(c) => Text(ToUpper(c))
    case WithName(s) => Text(s)
    case WithOrganization(s) => Text(s)
    case WithStreetAddress(lines) => Lines(lines)
    case WithDependentLocality(s) => Text(s)
    case WithLocality(s) => Text(s)
    case WithAdministrativeArea(s) => Text(s)
    case WithPostCode(s) => Text(s)
    case WithSortingCode(s) => Text(s)
  }

  /** Running an option's closure on an address: it sets its own field and no other. */
  function Apply(o: AddressOption, a: Address): (r: Address)
    ensures Get(r, Target(o)) == Stored(o)
    ensures forall f :: f != Target(o) ==> Get(r, f) == Get(a, f)
  {
    match o
    case WithCountry(c) => a.(country := ToUpper(c))
    case WithName(s) => a.(name := s)
    case WithOrganization(s) => a.(organization := s)
    case WithStreetAddress(lines) => a.(streetAddress := lines)
    case WithDependentLocality(s) => a.(dependentLocality := s)
    case WithLocality(s) => a.(locality := s)
    case WithAdministrativeArea(s) => a.(administrativeArea := s)
    case WithPostCode(s) => a.(postCode := s)
    case WithSortingCode(s) => a.(sortingCode := s)
  }

  /** The address New builds: the options applied to the zero address, first to last. */
  function Build(opts: seq<AddressOption>): Address
  {
    if opts == [] then Zero else Apply(opts[|opts| - 1], Build(opts[..|opts| - 1]))
  }

  /** New: start from the zero address and run every option on it in order. */
  method New(opts: seq<AddressOption>) returns (address: Address)
    ensures address == Build(opts)
  {
    address := Zero;
    for i := 0 to |opts|
      invariant address == Build(opts[..i])
    {
      assert opts[..i + 1][..i] == opts[..i];
      address := Apply(opts[i], address);
    }
    assert opts[..|opts|] == opts;
  }

  /** A field no option targets keeps its zero value. */
  lemma {:induction false} UntouchedFieldStaysZero(opts: seq<AddressOption>, f: Field)
    requires forall k :: 0 <= k < |opts| ==> Target(opts[k]) != f
    ensures Get(Build(opts), f) == Get(Zero, f)
  {
    if opts != [] {
      UntouchedFieldStaysZero(opts[..|opts| - 1], f);
    }
  }

  /** The last option that targets a field decides its value: a later option on the same field wins. */
  lemma {:induction false} LastOptionWins(opts: seq<AddressOption>, k: nat)
    requires k < |opts|
    requires forall j :: k < j < |opts| ==> Target(opts[j]) != Target(opts[k])
    ensures Get(Build(opts), Target(opts[k])) == Stored(opts[k])
  {
    if k < |opts| - 1 {
      var init := opts[..|opts| - 1];
      assert init[k] == opts[k];
      LastOptionWins(init, k);
    }
  }

  /** Options on different fields commute. */
  lemma OptionsOnDifferentFieldsCommute(o: AddressOption, p: AddressOption, a: Address)
    requires Target(o) != Target(p)
    ensures Apply(o, Apply(p, a)) == Apply(p, Apply(o, a))
  {
    forall f ensures Get(Apply(o, Apply(p, a)), f) == Get(Apply(p, Apply(o, a)), f) {
    }
    FieldsDetermineAddress(Apply(o, Apply(p, a)), Apply(p, Apply(o, a)));
  }

  /** With no options New gives the zero address. */
  lemma NoOptionsIsZero()
    ensures IsZero(Build([]))
  {
    IsZeroIffZero(Build([]));
  }

  /**
   * NewValid: the address New builds, with the errors Validate finds in it;
   * there are none exactly when the address is valid.
   */
  method NewValid(t: Table, matches: (string, string) -> bool, opts: seq<AddressOption>)
    returns (address: Address, errs: seq<Error>)
    ensures address == Build(opts)
    ensures errs == [] <==> IsValid(t, matches, address)
    ensures !HasCountry(t, address.country) ==> errs == [InvalidCountryCode]
  {
    address := New(opts);
    errs := Validate.Validate(t, matches, address);
  }
}
