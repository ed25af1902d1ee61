/** The establishment validator: required-field errors accumulated in a
    loop, then the e-mail, website and place-data format checks. */
module Validations {
  import opened Wrappers
  import opened Text
  import Seqs

  /** What the `google_place_data` property holds: nothing, a string (the
      only case that is parsed), or a value of another type. */
  datatype PlaceData = NoPlaceData | PlaceText(text: string) | PlaceObject

  /** The establishment object handed to the validator. A string property
      that is absent, `null` or `undefined` is `None`. */
  datatype Establishment = Establishment(
    name: Option<string>,
    address: Option<string>,
    city: Option<string>,
    postalCode: Option<string>,
    country: Option<string>,
    state: Option<string>,
    email: Option<string>,
    website: Option<string>,
    googlePlaceData: PlaceData)

  /** The required fields, in the order they are checked. */
  datatype RequiredField = Name | Address | City | PostalCode | Country

  const RequiredFields: seq<RequiredField> := [Name, Address, City, PostalCode, Country]

  /** The property name of a required field, as it appears in its error. */
  function FieldName(f: RequiredField): string {
    match f
    case Name => "name"
    case Address => "address"
    case City => "city"
    case PostalCode => "postal_code"
    case Country => "country"
  }

  function FieldValue(e: Establishment, f: RequiredField): Option<string> {
    match f
    case Name => e.name
    case Address => e.address
    case City => e.city
    case PostalCode => e.postalCode
    case Country => e.country
  }

  /** `${field} is required`. */
  function RequiredMessage(f: RequiredField): string {
    FieldName(f) + " is required"
  }

  const InvalidEmail := "Invalid email format"
  const InvalidWebsite := "Invalid website URL"
  const InvalidPlaceData := "google_place_data must be valid JSON"

  /** A required value is missing when it is falsy (absent or empty) or
      trims to the empty string. */
  predicate Missing(v: Option<string>) {
    v.None? || Trim(v.value) == ""
  }

  /** A string is truthy when it is present and non-empty. */
  predicate Truthy(v: Option<string>) {
    v.Some? && v.value != ""
  }

  // ---------------------------------------------------------------------
  // The e-mail pattern ^[^\s@]+@[^\s@]+\.[^\s@]+$
  // ---------------------------------------------------------------------

  /** A character of the class `[^\s@]`. */
  predicate EmailChar(c: char) {
    !IsSpace(c) && c != '@'
  }

  /** A non-empty run of `[^\s@]`: the language of `[^\s@]+`. */
  predicate EmailPart(s: string) {
    |s| > 0 && forall k :: 0 <= k < |s| ==> EmailChar(s[k])
  }

  /** The language of the whole pattern: local part, `@`, a domain label,
      a dot, and the rest. */
  ghost predicate MatchesEmailPattern(s: string) {
    exists i, j :: 0 < i < j < |s| &&
      EmailPart(s[..i]) && s[i] == '@' && EmailPart(s[i + 1..j]) &&
      s[j] == '.' && EmailPart(s[j + 1..])
  }

  /** The domain after the `@`: `[^\s@]` characters only, with a dot that is
      neither its first nor its last character. */
  predicate DomainOk(d: string) {
    (forall k :: 0 <= k < |d| ==> EmailChar(d[k])) &&
    exists k :: 0 < k < |d| - 1 && d[k] == '.'
  }

  /** `isValidEmail`. */
  predicate IsValidEmail(email: string) {
    var at := IndexOf(email, '@');
    0 < at < |email| && EmailPart(email[..at]) && DomainOk(email[at + 1..])
  }

  /** `isValidEmail` accepts exactly the language of its regular expression. */
  lemma IsValidEmailMatchesPattern(s: string)
    ensures IsValidEmail(s) <==> MatchesEmailPattern(s)
  {
    if IsValidEmail(s) {
      ValidEmailMatchesPattern(s);
    }
    if MatchesEmailPattern(s) {
      PatternIsValidEmail(s);
    }
  }

  lemma ValidEmailMatchesPattern(s: string)
    requires IsValidEmail(s)
    ensures MatchesEmailPattern(s)
  {
    var i := IndexOf(s, '@');
    var d := s[i + 1..];
    var k :| 0 < k < |d| - 1 && d[k] == '.';
    var j := i + 1 + k;
    assert s[i + 1..j] == d[..k];
    assert s[j + 1..] == d[k + 1..];
    assert EmailPart(s[i + 1..j]) && EmailPart(s[j + 1..]);
  }

  lemma PatternIsValidEmail(s: string)
    requires MatchesEmailPattern(s)
    ensures IsValidEmail(s)
  {
    var i, j :| 0 < i < j < |s| &&
      EmailPart(s[..i]) && s[i] == '@' && EmailPart(s[i + 1..j]) &&
      s[j] == '.' && EmailPart(s[j + 1..]);
    FirstAtAfterLocalPart(s, i);
    PartsMakeDomain(s[i + 1..], s, i, j);
  }

  /** The `@` after a local part is the first `@`. */
  lemma FirstAtAfterLocalPart(s: string, i: nat)
    requires i < |s| && s[i] == '@' && EmailPart(s[..i])
    ensures IndexOf(s, '@') == i
  {
    assert forall k :: 0 <= k < i ==> s[..i][k] == s[k];
  }

  /** The pieces of the pattern after the `@` make a valid domain. */
  lemma PartsMakeDomain(d: string, s: string, i: nat, j: nat)
    requires i < j < |s| && d == s[i + 1..]
    requires EmailPart(s[i + 1..j]) && s[j] == '.' && EmailPart(s[j + 1..])
    ensures DomainOk(d)
  {
    assert d[..j - i - 1] == s[i + 1..j];
    assert d[j - i..] == s[j + 1..];
    DomainFromParts(d, j - i - 1);
  }

  /** A label, a dot and a label make a valid domain. */
  lemma DomainFromParts(d: string, m: nat)
    requires m < |d| && d[m] == '.'
    requires EmailPart(d[..m]) && EmailPart(d[m + 1..])
    ensures DomainOk(d)
  {
    forall k | 0 <= k < |d|
      ensures EmailChar(d[k])
    {
      if k < m {
        assert d[k] == d[..m][k];
      } else if m < k {
        assert d[k] == d[m + 1..][k - m - 1];
      }
    }
  }

  /** No whitespace, a single `@` that is not the first character, and a
      dot after it that is neither right after the `@` nor last. */
  ghost predicate SingleAtDottedDomain(s: string) {
    NoSpace(s) &&
    exists i :: 0 < i < |s| && s[i] == '@' &&
      (forall k :: 0 <= k < |s| && k != i ==> s[k] != '@') &&
      (exists k :: i + 1 < k < |s| - 1 && s[k] == '.')
  }

  /** `isValidEmail` accepts exactly the strings without whitespace that
      hold one `@`, with a non-empty part before it and, after it, a part
      with a dot that is neither its first nor its last character. */
  lemma IsValidEmailMeaning(s: string)
    ensures IsValidEmail(s) <==> SingleAtDottedDomain(s)
  {
    if IsValidEmail(s) {
      ValidEmailHasSingleAt(s);
    }
    if SingleAtDottedDomain(s) {
      SingleAtIsValidEmail(s);
    }
  }

  lemma ValidEmailHasSingleAt(s: string)
    requires IsValidEmail(s)
    ensures SingleAtDottedDomain(s)
  {
    var i := IndexOf(s, '@');
    var d := s[i + 1..];
    assert forall k :: i < k < |s| ==> s[k] == d[k - i - 1];
    assert forall k :: 0 <= k < i ==> s[k] == s[..i][k];
    var m :| 0 < m < |d| - 1 && d[m] == '.';
    assert s[i + 1 + m] == '.';
  }

  lemma SingleAtIsValidEmail(s: string)
    requires SingleAtDottedDomain(s)
    ensures IsValidEmail(s)
  {
    var i :| 0 < i < |s| && s[i] == '@' &&
      (forall k :: 0 <= k < |s| && k != i ==> s[k] != '@') &&
      (exists k :: i + 1 < k < |s| - 1 && s[k] == '.');
    assert IndexOf(s, '@') == i;
    var k :| i + 1 < k < |s| - 1 && s[k] == '.';
    var d := s[i + 1..];
    assert d[k - i - 1] == '.';
  }

  // ---------------------------------------------------------------------
  // The validator
  // ---------------------------------------------------------------------

  /** The required-field errors for the fields of `fields`, in order. */
  function RequiredErrors(e: Establishment, fields: seq<RequiredField>): seq<string> {
    if fields == [] then []
    else
      var last := fields[|fields| - 1];
      RequiredErrors(e, fields[..|fields| - 1]) +
        (if Missing(FieldValue(e, last)) then [RequiredMessage(last)] else [])
  }

  /** Checking one more field appends at most that field's message. */
  lemma RequiredErrorsStep(e: Establishment, fields: seq<RequiredField>, i: nat)
    requires i < |fields|
    ensures RequiredErrors(e, fields[..i + 1]) ==
            RequiredErrors(e, fields[..i]) +
              if Missing(FieldValue(e, fields[i])) then [RequiredMessage(fields[i])] else []
  {
    assert fields[..i + 1][..i] == fields[..i];
  }

  /** The e-mail check runs only on a truthy e-mail. */
  function EmailErrors(e: Establishment): seq<string> {
    if Truthy(e.email) && !IsValidEmail(e.email.value) then [InvalidEmail] else []
  }

  /** The website check runs only on a truthy website; `isValidUrl` is
      whether the URL constructor accepts the string. */
  function WebsiteErrors(e: Establishment, isValidUrl: string -> bool): seq<string> {
    if Truthy(e.website) && !isValidUrl(e.website.value) then [InvalidWebsite] else []
  }

  /** The place data is parsed only when it is a string, the empty string
      included; `parsesAsJson` is whether `JSON.parse` returns. */
  function PlaceErrors(e: Establishment, parsesAsJson: string -> bool): seq<string> {
    if e.googlePlaceData.PlaceText? && !parsesAsJson(e.googlePlaceData.text) then [InvalidPlaceData] else []
  }

  /** Every error the validator reports, in check order. */
  function ExpectedErrors(e: Establishment, isValidUrl: string -> bool, parsesAsJson: string -> bool): seq<string> {
    RequiredErrors(e, RequiredFields) + EmailErrors(e) + WebsiteErrors(e, isValidUrl) + PlaceErrors(e, parsesAsJson)
  }

  datatype ValidationResult = ValidationResult(success: bool, error: seq<string>)

  /** `validateEstablishment`. */
  method ValidateEstablishment(e: Establishment, isValidUrl: string -> bool, parsesAsJson: string -> bool)
    returns (result: ValidationResult)
    ensures result.error == ExpectedErrors(e, isValidUrl, parsesAsJson)
    ensures result.success <==> result.error == []
  {
    var errors: seq<string> := [];
    for i := 0 to |RequiredFields|
      invariant errors == RequiredErrors(e, RequiredFields[..i])
    {
      var field := RequiredFields[i];
      var value := FieldValue(e, field);
      RequiredErrorsStep(e, RequiredFields, i);
      if value.None? || value.value == "" || Trim(value.value) == "" {
        errors := errors + [RequiredMessage(field)];
      }
    }
    assert RequiredFields[..|RequiredFields|] == RequiredFields;
    if Truthy(e.email) && !IsValidEmail(e.email.value) {
      errors := errors + [InvalidEmail];
    }
    assert errors == RequiredErrors(e, RequiredFields) + EmailErrors(e);
    if Truthy(e.website) && !isValidUrl(e.website.value) {
      errors := errors + [InvalidWebsite];
    }
    assert errors == RequiredErrors(e, RequiredFields) + EmailErrors(e) + WebsiteErrors(e, isValidUrl);
    if e.googlePlaceData.PlaceText? && !parsesAsJson(e.googlePlaceData.text) {
      errors := errors + [InvalidPlaceData];
    }
    result := ValidationResult(|errors| == 0, errors);
  }

  // ---------------------------------------------------------------------
  // Properties
  // ---------------------------------------------------------------------

  /** At most one error per required field checked. */
  lemma {:induction false} RequiredErrorsBound(e: Establishment, fields: seq<RequiredField>)
    ensures |RequiredErrors(e, fields)| <= |fields|
  {
    if fields != [] {
      RequiredErrorsBound(e, fields[..|fields| - 1]);
    }
  }

  /** The error list has at most eight entries: five required-field
      errors and three format errors. */
  lemma AtMostEightErrors(e: Establishment, isValidUrl: string -> bool, parsesAsJson: string -> bool)
    ensures |ExpectedErrors(e, isValidUrl, parsesAsJson)| <= 8
  {
    RequiredErrorsBound(e, RequiredFields);
  }

  /** Different required fields have different error messages, and none of
      them is a format error. */
  lemma RequiredMessagesDistinct(f: RequiredField, g: RequiredField)
    ensures RequiredMessage(f) == RequiredMessage(g) ==> f == g
    ensures RequiredMessage(f) != InvalidEmail
    ensures RequiredMessage(f) != InvalidWebsite
    ensures RequiredMessage(f) != InvalidPlaceData
  {
    if f != g {
      assert RequiredMessage(f)[0] != RequiredMessage(g)[0] ||
             |RequiredMessage(f)| != |RequiredMessage(g)|;
    }
    assert RequiredMessage(f)[0] != InvalidEmail[0];
    assert RequiredMessage(f)[0] != InvalidWebsite[0];
    assert RequiredMessage(f)[0] != InvalidPlaceData[0] || |RequiredMessage(f)| != |InvalidPlaceData|;
  }

  /** Over a list of distinct fields, the message of `f` occurs once if
      `f` is listed and missing, and not at all otherwise. */
  lemma {:induction false} RequiredErrorCount(e: Establishment, fields: seq<RequiredField>, f: RequiredField)
    requires forall a, b :: 0 <= a < b < |fields| ==> fields[a] != fields[b]
    ensures multiset(RequiredErrors(e, fields))[RequiredMessage(f)] ==
            if f in fields && Missing(FieldValue(e, f)) then 1 else 0
  {
    if fields != [] {
      var init := fields[..|fields| - 1];
      var last := fields[|fields| - 1];
      assert fields == init + [last];
      RequiredErrorCount(e, init, f);
      RequiredMessagesDistinct(last, f);
      assert last !in init;
    }
  }

  /** The five required fields are distinct and are all the fields. */
  lemma RequiredFieldsDistinct()
    ensures forall a, b :: 0 <= a < b < |RequiredFields| ==> RequiredFields[a] != RequiredFields[b]
    ensures forall f :: f in RequiredFields
  {
    forall f: RequiredField ensures f in RequiredFields {
      match f
      case Name => assert RequiredFields[0] == f;
      case Address => assert RequiredFields[1] == f;
      case City => assert RequiredFields[2] == f;
      case PostalCode => assert RequiredFields[3] == f;
      case Country => assert RequiredFields[4] == f;
    }
  }

  /** Each required field that is absent, empty or whitespace-only yields
      exactly one `"<field> is required"` error, and a present one none. */
  lemma OneErrorPerMissingField(e: Establishment, isValidUrl: string -> bool, parsesAsJson: string -> bool, f: RequiredField)
    ensures multiset(ExpectedErrors(e, isValidUrl, parsesAsJson))[RequiredMessage(f)] ==
            if Missing(FieldValue(e, f)) then 1 else 0
  {
    RequiredCountInAllFields(e, f);
    FormatErrorsNotRequired(EmailErrors(e), WebsiteErrors(e, isValidUrl), PlaceErrors(e, parsesAsJson), f);
  }

  /** Over the five required fields, a field's message occurs once if the
      field is missing and not at all otherwise. */
  lemma RequiredCountInAllFields(e: Establishment, f: RequiredField)
    ensures multiset(RequiredErrors(e, RequiredFields))[RequiredMessage(f)] ==
            if Missing(FieldValue(e, f)) then 1 else 0
  {
    RequiredFieldsDistinct();
    RequiredErrorCount(e, RequiredFields, f);
  }

  /** No format error is a required-field message. */
  lemma FormatErrorsNotRequired(email: seq<string>, website: seq<string>, place: seq<string>, f: RequiredField)
    requires email == [] || email == [InvalidEmail]
    requires website == [] || website == [InvalidWebsite]
    requires place == [] || place == [InvalidPlaceData]
    ensures multiset(email + website + place)[RequiredMessage(f)] == 0
  {
    RequiredMessagesDistinct(f, f);
  }

  /** The message of every field of `fields`, in order. */
  function AllMessages(fields: seq<RequiredField>): (r: seq<string>)
    ensures |r| == |fields|
  {
    if fields == [] then []
    else AllMessages(fields[..|fields| - 1]) + [RequiredMessage(fields[|fields| - 1])]
  }

  /** The required-field errors follow the field order. */
  lemma {:induction false} RequiredErrorsInFieldOrder(e: Establishment, fields: seq<RequiredField>)
    ensures Seqs.IsSubsequence(RequiredErrors(e, fields), AllMessages(fields))
  {
    if fields != [] {
      var init := fields[..|fields| - 1];
      var m := [RequiredMessage(fields[|fields| - 1])];
      RequiredErrorsInFieldOrder(e, init);
      Seqs.SubsequenceRefl(m);
      if Missing(FieldValue(e, fields[|fields| - 1])) {
        Seqs.SubsequenceAppend(RequiredErrors(e, init), AllMessages(init), m, m);
      } else {
        Seqs.SubsequenceAppend(RequiredErrors(e, init), AllMessages(init), [], m);
        assert RequiredErrors(e, init) + [] == RequiredErrors(e, init);
      }
    }
  }

  /** The errors come in check order: required fields in field order, then
      e-mail, then website, then place data. */
  lemma ErrorsInCheckOrder(e: Establishment, isValidUrl: string -> bool, parsesAsJson: string -> bool)
    ensures var errors := ExpectedErrors(e, isValidUrl, parsesAsJson);
            var n := |RequiredErrors(e, RequiredFields)|;
            Seqs.IsSubsequence(errors[..n], AllMessages(RequiredFields)) &&
            Seqs.IsSubsequence(errors[n..], [InvalidEmail, InvalidWebsite, InvalidPlaceData])
  {
    RequiredErrorsInFieldOrder(e, RequiredFields);
    FormatErrorsInOrder(EmailErrors(e), WebsiteErrors(e, isValidUrl), PlaceErrors(e, parsesAsJson));
    SplitAfterFirst(RequiredErrors(e, RequiredFields), EmailErrors(e), WebsiteErrors(e, isValidUrl), PlaceErrors(e, parsesAsJson));
  }

  lemma SplitAfterFirst(a: seq<string>, b: seq<string>, c: seq<string>, d: seq<string>)
    ensures (a + b + c + d)[..|a|] == a && (a + b + c + d)[|a|..] == b + c + d
  {
  }

  /** Each format check adds at most its own message, after the previous
      check's. */
  lemma FormatErrorsInOrder(email: seq<string>, website: seq<string>, place: seq<string>)
    requires email == [] || email == [InvalidEmail]
    requires website == [] || website == [InvalidWebsite]
    requires place == [] || place == [InvalidPlaceData]
    ensures Seqs.IsSubsequence(email + website + place, [InvalidEmail, InvalidWebsite, InvalidPlaceData])
  {
    Seqs.SubsequenceRefl(email);
    Seqs.SubsequenceRefl(website);
    Seqs.SubsequenceRefl(place);
    Seqs.SubsequenceAppend(email, [InvalidEmail], website, [InvalidWebsite]);
    Seqs.SubsequenceAppend(email + website, [InvalidEmail] + [InvalidWebsite], place, [InvalidPlaceData]);
    assert [InvalidEmail] + [InvalidWebsite] + [InvalidPlaceData] == [InvalidEmail, InvalidWebsite, InvalidPlaceData];
  }

  /** An absent or empty e-mail never produces the e-mail error; a present
      one does exactly when `isValidEmail` rejects it. */
  lemma EmailErrorRule(e: Establishment, isValidUrl: string -> bool, parsesAsJson: string -> bool)
    ensures InvalidEmail in ExpectedErrors(e, isValidUrl, parsesAsJson) <==>
            Truthy(e.email) && !IsValidEmail(e.email.value)
  {
    var req := RequiredErrors(e, RequiredFields);
    if InvalidEmail in req {
      forall f: RequiredField ensures multiset(req)[RequiredMessage(f)] <= 1 {
        RequiredErrorCount(e, RequiredFields, f);
      }
      RequiredErrorsFromFields(e, RequiredFields, InvalidEmail);
      var f :| RequiredMessage(f) == InvalidEmail;
      RequiredMessagesDistinct(f, f);
    }
    assert InvalidWebsite != InvalidEmail;
    assert InvalidPlaceData != InvalidEmail;
  }

  /** Every required-field error is the message of some field. */
  lemma {:induction false} RequiredErrorsFromFields(e: Establishment, fields: seq<RequiredField>, m: string)
    requires m in RequiredErrors(e, fields)
    ensures exists f :: RequiredMessage(f) == m
  {
    var init := fields[..|fields| - 1];
    var last := fields[|fields| - 1];
    if m in RequiredErrors(e, init) {
      RequiredErrorsFromFields(e, init, m);
    } else {
      assert RequiredMessage(last) == m;
    }
  }

  /** `state` is not checked: changing it never changes the errors. */
  lemma StateNotRequired(e: Establishment, state: Option<string>, isValidUrl: string -> bool, parsesAsJson: string -> bool)
    ensures ExpectedErrors(e.(state := state), isValidUrl, parsesAsJson) == ExpectedErrors(e, isValidUrl, parsesAsJson)
  {
    var e' := e.(state := state);
    assert forall f :: FieldValue(e', f) == FieldValue(e, f);
    RequiredErrorsSameFields(e, e', RequiredFields);
  }

  /** Two establishments with the same required values have the same
      required-field errors. */
  lemma {:induction false} RequiredErrorsSameFields(e: Establishment, e': Establishment, fields: seq<RequiredField>)
    requires forall f :: FieldValue(e', f) == FieldValue(e, f)
    ensures RequiredErrors(e', fields) == RequiredErrors(e, fields)
  {
    if fields != [] {
      RequiredErrorsSameFields(e, e', fields[..|fields| - 1]);
    }
  }

  /** With every required field filled in, the object validates exactly
      when each of the three format checks passes. */
  lemma {:induction false} CompleteObjectValidates(e: Establishment, isValidUrl: string -> bool, parsesAsJson: string -> bool)
    requires forall f :: !Missing(FieldValue(e, f))
    ensures ExpectedErrors(e, isValidUrl, parsesAsJson) == [] <==>
            EmailErrors(e) == [] && WebsiteErrors(e, isValidUrl) == [] && PlaceErrors(e, parsesAsJson) == []
  {
    NoMissingNoRequiredErrors(e, RequiredFields);
  }

  lemma {:induction false} NoMissingNoRequiredErrors(e: Establishment, fields: seq<RequiredField>)
    requires forall f :: !Missing(FieldValue(e, f))
    ensures RequiredErrors(e, fields) == []
  {
    if fields != [] {
      NoMissingNoRequiredErrors(e, fields[..|fields| - 1]);
    }
  }
}
