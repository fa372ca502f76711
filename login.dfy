/** The login page's schema: an e-mail and a password, nothing else. */
module Login {
  import opened Text
  import opened FormRules
  import Signup

  datatype LoginForm = LoginForm(email: string, password: string)

  const PasswordTooShort: string := "Password must be at least 8 characters"
  const PasswordRequired: string := "Password is required"

  /** `password`: at least 8 characters; required. No composition rules. */
  function LoginPasswordErrors(p: string): (errs: seq<string>)
    ensures errs == [] <==> |p| >= 8
    ensures p == "" ==> errs == [PasswordRequired]
    ensures p != "" && |p| < 8 ==> errs == [PasswordTooShort]
  {
    if p == "" then [PasswordRequired]
    else if |p| < 8 then [PasswordTooShort]
    else []
  }

  /** The login form may be submitted: neither field has an error. */
  function LoginValid(f: LoginForm): (ok: bool)
    ensures ok <==> EndsWith(f.email, UnijosSuffix) && |f.password| >= 8
  {
    UnijosEmailErrors(f.email) == [] && LoginPasswordErrors(f.password) == []
  }

  /** Every password the signup schema accepts, the login schema accepts too. */
  lemma SignupPasswordPassesLogin(p: string)
    requires Signup.PasswordErrors(p) == []
    ensures LoginPasswordErrors(p) == []
  {
  }

  /** The converse fails: login checks only the length. */
  lemma LoginPasswordRuleIsWeaker()
    ensures LoginPasswordErrors("aaaaaaaa") == []
    ensures Signup.PasswordErrors("aaaaaaaa") != []
  {
    var p := "aaaaaaaa";
    assert !HasUpper(p) by {
      forall i | 0 <= i < |p| ensures !IsUpperAscii(p[i]) {
      }
    }
  }

  /** Whoever completes the signup form can log in with the same e-mail and password. */
  lemma SignedUpUserCanLogIn(f: Signup.SignupForm)
    requires Signup.SignupValid(f)
    ensures LoginValid(LoginForm(f.email, f.password))
    ensures Signup.Score(f.password) == 4
  {
  }
}
