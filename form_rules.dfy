/**
  Validation rules that several form schemas state identically: the UNIJOS
  e-mail rule (login and signup) and the 11-digit phone rule (signup and
  create-listing).

  Every field validator in this model returns the messages of the rules the
  value breaks, in the order the schema declares them; the form shows the first.
  An empty field counts as absent: it gets only its "required" message, since
  the other rules skip absent values.
*/
module FormRules {
  import opened Text

  const UnijosSuffix: string := "@unijos.edu.ng"
  const EmailRequired: string := "Email is required"
  const EmailNotUnijos: string := "Must be a UNIJOS email address"
  const PhoneFormat: string := "Phone number must be 11 digits"

  /** `/^[0-9]{11}$/` */
  predicate IsElevenDigits(s: string)
  {
    |s| == 11 && forall i :: 0 <= i < |s| ==> IsDigit(s[i])
  }

  /**
    The e-mail field of both the login and the signup schema: required, then
    `/@unijos\.edu\.ng$/`.
  */
  function UnijosEmailErrors(email: string): (errs: seq<string>)
    ensures errs == [] <==> EndsWith(email, UnijosSuffix)
    ensures email == "" ==> errs == [EmailRequired]
    ensures email != "" && !EndsWith(email, UnijosSuffix) ==> errs == [EmailNotUnijos]
  {
    if email == "" then [EmailRequired]
    else if EndsWith(email, UnijosSuffix) then []
    else [EmailNotUnijos]
  }

  /** A required phone field: `required(requiredMessage)`, then `/^[0-9]{11}$/`. */
  function RequiredPhoneErrors(phone: string, requiredMessage: string): (errs: seq<string>)
    ensures errs == [] <==> IsElevenDigits(phone)
    ensures phone == "" ==> errs == [requiredMessage]
    ensures phone != "" && !IsElevenDigits(phone) ==> errs == [PhoneFormat]
  {
    if phone == "" then [requiredMessage]
    else if IsElevenDigits(phone) then []
    else [PhoneFormat]
  }
}
