/**
 * The validation errors (errors.go): five sentinel errors with fixed
 * messages and two structured errors that carry the country code and a list
 * of fields.
 */
module Errors {
  import opened Constants
  import opened Strings

  datatype Error =
    | InvalidCountryCode
    | InvalidDependentLocality
    | InvalidLocality
    | InvalidAdministrativeArea
    | InvalidPostCode
    | MissingRequiredFields(country: string, fields: seq<Field>)
    | UnsupportedFields(country: string, fields: seq<Field>)
  {
    predicate IsSentinel() {
      !MissingRequiredFields? && !UnsupportedFields?
    }
  }

  /** The stringer names of a list of fields, in list order. */
  function Names(fields: seq<Field>): seq<string>
  {
    seq(|fields|, i requires 0 <= i < |fields| => String(fields[i]))
  }

  const MissingPrefix: string := "missing required fields for "
  const UnsupportedPrefix: string := "unsupported fields for "

  /** What Error() returns for each error value. */
  function Message(e: Error): string
  {
    match e
    case InvalidCountryCode => "invalid country code"
    case InvalidDependentLocality => "invalid dependent locality"
    case InvalidLocality => "invalid locality"
    case InvalidAdministrativeArea => "invalid administrative area"
    case InvalidPostCode => "invalid post code"
    case MissingRequiredFields(c, fs) => MissingPrefix + c + ": " + Join(Names(fs), ",")
    case UnsupportedFields(c, fs) => UnsupportedPrefix + c + ": " + Join(Names(fs), ",")
  }

  /** Collects the names of the fields one by one, as both Error() methods do. */
  method FieldNames(fields: seq<Field>) returns (fieldsStr: seq<string>)
    ensures |fieldsStr| == |fields|
    ensures forall i :: 0 <= i < |fields| ==> fieldsStr[i] == String(fields[i])
  {
    fieldsStr := [];
    for i := 0 to |fields|
      invariant |fieldsStr| == i
      invariant forall k :: 0 <= k < i ==> fieldsStr[k] == String(fields[k])
    {
      fieldsStr := fieldsStr + [String(fields[i])];
    }
  }

  /** ErrMissingRequiredFields.Error(). */
  method MissingRequiredFieldsError(country: string, fields: seq<Field>) returns (msg: string)
    ensures msg == Message(MissingRequiredFields(country, fields))
  {
    var fieldsStr := FieldNames(fields);
    assert fieldsStr == Names(fields);
    msg := MissingPrefix + country + ": " + Join(fieldsStr, ",");
  }

  /** ErrUnsupportedFields.Error(). */
  method UnsupportedFieldsError(country: string, fields: seq<Field>) returns (msg: string)
    ensures msg == Message(UnsupportedFields(country, fields))
  {
    var fieldsStr := FieldNames(fields);
    assert fieldsStr == Names(fields);
    msg := UnsupportedPrefix + country + ": " + Join(fieldsStr, ",");
  }

  /** The five sentinel errors have five different messages. */
  lemma SentinelMessagesDistinct(e: Error, d: Error)
    requires e.IsSentinel() && d.IsSentinel() && e != d
    ensures Message(e) != Message(d)
  {
  }

  /** Different field lists have different name lists. */
  lemma {:induction false} NamesInjective(a: seq<Field>, b: seq<Field>)
    requires Names(a) == Names(b)
    ensures a == b
  {
    assert |a| == |b|;
    forall i | 0 <= i < |a| ensures a[i] == b[i] {
      assert Names(a)[i] == Names(b)[i];
      if a[i] != b[i] { KeysAndNamesDistinct(a[i], b[i]); }
    }
  }

  /**
   * The field list of a structured error can be read back from its message:
   * the text after "<prefix><country>: " split on ',' is the list of field
   * names in order, and the names determine the fields. With no fields the
   * message ends in ": ".
   */
  lemma FieldsReadBack(e: Error)
    requires e.MissingRequiredFields? || e.UnsupportedFields?
    ensures var p := |if e.MissingRequiredFields? then MissingPrefix else UnsupportedPrefix| + |e.country| + 2;
      && p <= |Message(e)|
      && Message(e)[p - 2..p] == ": "
      && (e.fields == [] ==> |Message(e)| == p)
      && (e.fields != [] ==> Split(Message(e)[p..], ',') == Names(e.fields))
  {
    var prefix := if e.MissingRequiredFields? then MissingPrefix else UnsupportedPrefix;
    var head := prefix + e.country + ": ";
    var tail := Join(Names(e.fields), ",");
    assert Message(e) == head + tail;
    assert (head + tail)[|head|..] == tail;
    assert (head + tail)[|head| - 2..|head|] == ": ";
    if e.fields != [] {
      forall i | 0 <= i < |Names(e.fields)| ensures ',' !in Names(e.fields)[i] {
        NoCommaInName(e.fields[i]);
      }
      SplitJoin(Names(e.fields), ',');
    }
  }
}
