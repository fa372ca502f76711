/**
  The signup page: the six-field signup schema and the password-strength meter
  shown under the password field.
*/
module Signup {
  import opened Text
  import opened FormRules

  datatype SignupForm = SignupForm(
    fullName: string,
    email: string,
    primaryPhone: string,
    secondaryPhone: string,
    password: string,
    confirmPassword: string)

  const FullNameRequired: string := "Full name is required"
  const FullNameTooShort: string := "Too short!"
  const PrimaryPhoneRequired: string := "Primary phone number is required"
  const PasswordTooShort: string := "Password must be at least 8 characters"
  const PasswordNeedsNumber: string := "Password requires a number"
  const PasswordNeedsLower: string := "Password requires a lowercase letter"
  const PasswordNeedsUpper: string := "Password requires an uppercase letter"
  const PasswordRequired: string := "Password is required"
  const PasswordsDiffer: string := "Passwords must match"
  const ConfirmRequired: string := "Please confirm your password"

  /** `fullName`: required, at least 3 characters. */
  function FullNameErrors(name: string): (errs: seq<string>)
    ensures errs == [] <==> |name| >= 3
    ensures name == "" ==> errs == [FullNameRequired]
  {
    if name == "" then [FullNameRequired]
    else if |name| < 3 then [FullNameTooShort]
    else []
  }

  /** `primaryPhone`: required, exactly 11 digits. */
  function PrimaryPhoneErrors(phone: string): (errs: seq<string>)
    ensures errs == [] <==> IsElevenDigits(phone)
  {
    RequiredPhoneErrors(phone, PrimaryPhoneRequired)
  }

  /** `secondaryPhone`: optional, but 11 digits when given. */
  function SecondaryPhoneErrors(phone: string): (errs: seq<string>)
    ensures errs == [] <==> phone == "" || IsElevenDigits(phone)
  {
    if phone == "" || IsElevenDigits(phone) then [] else [PhoneFormat]
  }

  /** The four composition rules of the password field. */
  predicate PasswordRulesHold(p: string)
  {
    |p| >= 8 && HasDigit(p) && HasLower(p) && HasUpper(p)
  }

  /** `password`: at least 8 characters, a digit, a lower-case and an upper-case letter; required. */
  function PasswordErrors(p: string): (errs: seq<string>)
    ensures errs == [] <==> PasswordRulesHold(p)
    ensures p == "" ==> errs == [PasswordRequired]
    ensures p != "" ==> (PasswordTooShort in errs <==> |p| < 8)
    ensures p != "" ==> (PasswordNeedsNumber in errs <==> !HasDigit(p))
    ensures p != "" ==> (PasswordNeedsLower in errs <==> !HasLower(p))
    ensures p != "" ==> (PasswordNeedsUpper in errs <==> !HasUpper(p))
  {
    if p == "" then [PasswordRequired]
    else
      (if |p| < 8 then [PasswordTooShort] else []) +
      (if HasDigit(p) then [] else [PasswordNeedsNumber]) +
      (if HasLower(p) then [] else [PasswordNeedsLower]) +
      (if HasUpper(p) then [] else [PasswordNeedsUpper])
  }

  /** `confirmPassword`: required, equal to `password`. */
  function ConfirmPasswordErrors(confirm: string, password: string): (errs: seq<string>)
    ensures errs == [] <==> confirm != "" && confirm == password
  {
    if confirm == "" then [ConfirmRequired]
    else if confirm != password then [PasswordsDiffer]
    else []
  }

  /** The signup form may be submitted: no field has an error. */
  function SignupValid(f: SignupForm): (ok: bool)
    ensures ok <==>
      && |f.fullName| >= 3
      && EndsWith(f.email, UnijosSuffix)
      && IsElevenDigits(f.primaryPhone)
      && (f.secondaryPhone == "" || IsElevenDigits(f.secondaryPhone))
      && PasswordRulesHold(f.password)
      && f.confirmPassword == f.password
  {
    && FullNameErrors(f.fullName) == []
    && UnijosEmailErrors(f.email) == []
    && PrimaryPhoneErrors(f.primaryPhone) == []
    && SecondaryPhoneErrors(f.secondaryPhone) == []
    && PasswordErrors(f.password) == []
    && ConfirmPasswordErrors(f.confirmPassword, f.password) == []
  }

  // ---------------------------------------------------------------------------
  // Password strength meter

  /** The `strength` object, its fields in declaration order. */
  datatype Strength = Strength(length: bool, number: bool, uppercase: bool, lowercase: bool)

  function StrengthOf(p: string): Strength
  {
    Strength(|p| >= 8, HasDigit(p), HasUpper(p), HasLower(p))
  }

  /** The four strength flags in the order the object declares them: length, number, uppercase, lowercase. */
  function StrengthValues(s: Strength): seq<bool>
  {
    [s.length, s.number, s.uppercase, s.lowercase]
  }

  /** The number of flags that are set. */
  function CountTrue(bs: seq<bool>): (n: nat)
    ensures n <= |bs|
    ensures n == |bs| <==> forall i :: 0 <= i < |bs| ==> bs[i]
    ensures n == 0 <==> forall i :: 0 <= i < |bs| ==> !bs[i]
  {
    if bs == [] then 0
    else (if bs[0] then 1 else 0) + CountTrue(bs[1..])
  }

  /** `strengthScore`: how many of the four checks the password passes. */
  function Score(p: string): (n: nat)
    ensures n <= 4
    ensures n == 4 <==> PasswordRulesHold(p)
    ensures n == 0 <==> |p| < 8 && !HasDigit(p) && !HasUpper(p) && !HasLower(p)
  {
    var vs := StrengthValues(StrengthOf(p));
    assert vs[0] == (|p| >= 8) && vs[1] == HasDigit(p) && vs[2] == HasUpper(p) && vs[3] == HasLower(p);
    CountTrue(vs)
  }

  const StrengthColors: seq<string> := ["red-500", "yellow-500", "blue-400", "green-400"]

  /** `strengthColor`: entry `score - 1` of the palette, 'gray-500' when there is none. */
  function StrengthColor(score: nat): (color: string)
    ensures color == "gray-500" <==> score == 0 || score > |StrengthColors|
    ensures 1 <= score <= |StrengthColors| ==> color == StrengthColors[score - 1]
  {
    if 1 <= score <= |StrengthColors| then StrengthColors[score - 1] else "gray-500"
  }

  /** The password meets the signup rules exactly when the meter shows green. */
  lemma GreenExactlyWhenAccepted(p: string)
    ensures StrengthColor(Score(p)) == "green-400" <==> PasswordErrors(p) == []
  {
  }

  /** The bar's width, `(strengthScore / 4) * 100` percent; exact for scores 0 to 4. */
  function BarWidthPercent(p: string): (w: nat)
    ensures w <= 100
    ensures w == 100 <==> PasswordErrors(p) == []
  {
    Score(p) * 25
  }

  /** The labels printed beside the four ticks, left to right. */
  const TickLabels: seq<string> := ["8+ chars", "Number", "Lowercase", "Uppercase"]

  /** What each label promises about the password. */
  predicate LabelHolds(tick: string, p: string)
  {
    if tick == "8+ chars" then |p| >= 8
    else if tick == "Number" then HasDigit(p)
    else if tick == "Lowercase" then HasLower(p)
    else if tick == "Uppercase" then HasUpper(p)
    else false
  }

  /** As written: tick `i` is lit by `Object.values(strength)[i]`. */
  function TickLitAsWritten(p: string, i: nat): bool
    requires i < |TickLabels|
  {
    StrengthValues(StrengthOf(p))[i]
  }

  /**
    The tick labelled 'Lowercase' lights for an upper-case letter and the tick
    labelled 'Uppercase' for a lower-case one.
  */
  lemma TickLabelsSwapped()
    ensures TickLabels[2] == "Lowercase" && TickLitAsWritten("A", 2) && !LabelHolds(TickLabels[2], "A")
    ensures TickLabels[3] == "Uppercase" && TickLitAsWritten("a", 3) && !LabelHolds(TickLabels[3], "a")
  {
    assert IsUpperAscii("A"[0]);
    assert IsLowerAscii("a"[0]);
  }

  /** The strength values in the order of the labels. */
  function TickValues(s: Strength): seq<bool>
  {
    [s.length, s.number, s.lowercase, s.uppercase]
  }

  /** Corrected: tick `i` is lit by the check its label names. */
  function TickLit(p: string, i: nat): (lit: bool)
    requires i < |TickLabels|
    ensures lit <==> LabelHolds(TickLabels[i], p)
  {
    TickValues(StrengthOf(p))[i]
  }

  /** Reordering the ticks does not change the score. */
  lemma CorrectedTicksKeepScore(p: string)
    ensures CountTrue(TickValues(StrengthOf(p))) == Score(p)
  {
    var s := StrengthOf(p);
    CountFour(s.length, s.number, s.uppercase, s.lowercase);
    CountFour(s.length, s.number, s.lowercase, s.uppercase);
  }

  function Bit(b: bool): nat { if b then 1 else 0 }

  lemma CountFour(a: bool, b: bool, c: bool, d: bool)
    ensures CountTrue([a, b, c, d]) == Bit(a) + Bit(b) + Bit(c) + Bit(d)
  {
    assert [a, b, c, d][1..] == [b, c, d];
    assert [b, c, d][1..] == [c, d];
    assert [c, d][1..] == [d];
    assert [d][1..] == [];
    assert CountTrue([d]) == Bit(d);
    assert CountTrue([c, d]) == Bit(c) + Bit(d);
    assert CountTrue([b, c, d]) == Bit(b) + Bit(c) + Bit(d);
  }
}
