/** The sign-up page: the client-side email lookup, the ordered gate of
    `handleSignUp`, and the condition that enables its submit button. */
module SignUp {
  import opened JsValues
  import opened JsStrings
  import opened PasswordPolicy

  /** How the page's REST lookup of `users?email=eq.<email>` ends: the
      `fetch` or `response.json()` rejected, or a response arrived with its
      `ok` flag and, when it parsed, the list of matching rows. */
  datatype EmailLookup = LookupThrew | LookupResponse(ok: bool, rows: seq<string>)

  /** `checkEmailExists`: a failed request and a request that threw both
      read as "no such account". */
  function CheckEmailExists(lookup: EmailLookup): (found: bool)
    ensures found <==> lookup.LookupResponse? && lookup.ok && |lookup.rows| > 0
  {
    match lookup
    case LookupThrew => false
    case LookupResponse(ok, rows) => if !ok then false else |rows| > 0
  }

  /** A backend error, an exception and an empty result cannot be told apart
      by the caller. */
  lemma BackendErrorLooksLikeNotFound(rows: seq<string>)
    ensures CheckEmailExists(LookupResponse(false, rows)) == CheckEmailExists(LookupResponse(true, []))
    ensures CheckEmailExists(LookupThrew) == CheckEmailExists(LookupResponse(true, []))
    ensures !CheckEmailExists(LookupResponse(true, []))
  {
  }

  const MismatchMessage := "Passwords do not match"
  const WeakPasswordMessage := "Password does not meet the requirements. Please check the criteria below."
  const ConfirmMessage := "Check your email to confirm your account."

  /** What the error slot shows: a plain text, or the "account already
      exists, sign in here" notice. */
  datatype ErrorDisplay = Text(text: string) | AccountExistsNotice

  /** How the awaited `supabase.auth.signUp` ends: accepted, answered with an
      error, or rejected (the promise throws; nothing on the page catches
      it). */
  datatype SignUpResult = Accepted | Refused(message: string) | Rejected

  /** The observable result of one `handleSignUp`: the busy flag and the two
      message slots it leaves, the email the lookup was run for (if it was
      run), and the credentials sent to the provider's `signUp` (if it was
      called). */
  datatype GateResult = GateResult(
    loading: bool,
    message: string,
    errorMsg: ErrorDisplay,
    lookedUp: Option<string>,
    signUpSent: Option<(string, string)>)

  /** The gate of `handleSignUp`, as a function of the form's fields, the
      lookup's result and how the provider's `signUp` ends. The prior
      message and error play no part: both are cleared on entry. */
  function SignUpOutcome(
    email: string, password: string, confirmPassword: string,
    lookup: EmailLookup, signUp: SignUpResult): (o: GateResult)
    // first gate: the passwords must match
    ensures password != confirmPassword ==>
      o == GateResult(false, "", Text(MismatchMessage), None, None)
    // second gate: the password must be strong
    ensures password == confirmPassword && !ValidatePassword(password).isValid ==>
      o == GateResult(false, "", Text(WeakPasswordMessage), None, None)
    // the lookup is run exactly when both client-side checks pass
    ensures o.lookedUp.Some? <==> password == confirmPassword && ValidatePassword(password).isValid
    ensures o.lookedUp.Some? ==> o.lookedUp.value == email
    // third gate: an existing account stops the sign-up
    ensures o.lookedUp.Some? && CheckEmailExists(lookup) ==>
      o == GateResult(false, "", AccountExistsNotice, Some(email), None)
    // the provider is called only when every gate passed
    ensures o.signUpSent.Some? <==> o.lookedUp.Some? && !CheckEmailExists(lookup)
    ensures o.signUpSent.Some? ==> o.signUpSent.value == (email, password)
    // success text iff the provider accepted; its error text when it refused
    ensures o.message != "" <==> o.signUpSent.Some? && signUp.Accepted?
    ensures o.message != "" ==> o.message == ConfirmMessage && o.errorMsg == Text("")
    ensures o.signUpSent.Some? && signUp.Refused? ==> o.errorMsg == Text(signUp.message)
    // a rejected `signUp` skips the final `setLoading(false)`: the form
    // stays busy with both slots still cleared
    ensures o.loading <==> o.signUpSent.Some? && signUp.Rejected?
    ensures o.loading ==> o.message == "" && o.errorMsg == Text("")
  {
    if password != confirmPassword then
      GateResult(false, "", Text(MismatchMessage), None, None)
    else if !ValidatePassword(password).isValid then
      GateResult(false, "", Text(WeakPasswordMessage), None, None)
    else if CheckEmailExists(lookup) then
      GateResult(false, "", AccountExistsNotice, Some(email), None)
    else
      match signUp
      case Refused(m) => GateResult(false, "", Text(m), Some(email), Some((email, password)))
      case Accepted => GateResult(false, ConfirmMessage, Text(""), Some(email), Some((email, password)))
      case Rejected => GateResult(true, "", Text(""), Some(email), Some((email, password)))
  }

  /** The submit button's `disabled` attribute, negated. */
  function SubmitEnabled(loading: bool, password: string, confirmPassword: string): (enabled: bool)
    ensures enabled ==> !loading && password == confirmPassword
    ensures enabled ==> Utf16Length(password) >= 8
  {
    !loading && ValidatePassword(password).isValid && password == confirmPassword
  }

  /** An enabled button means `handleSignUp` passes both client-side checks
      and goes on to the lookup; an idle form whose button is disabled
      stops at one of the first two gates. */
  lemma SubmitEnabledIffClientChecksPass(
    loading: bool, email: string, password: string, confirmPassword: string,
    lookup: EmailLookup, signUp: SignUpResult)
    ensures SubmitEnabled(loading, password, confirmPassword) <==>
      !loading && SignUpOutcome(email, password, confirmPassword, lookup, signUp).lookedUp.Some?
    ensures !loading && !SubmitEnabled(loading, password, confirmPassword) ==>
      SignUpOutcome(email, password, confirmPassword, lookup, signUp).errorMsg
        in {Text(MismatchMessage), Text(WeakPasswordMessage)}
  {
  }

  /** The page's state: the three inputs, the busy flag and the two message
      slots. */
  class SignUpForm {
    var email: string
    var password: string
    var confirmPassword: string
    var loading: bool
    var message: string
    var errorMsg: ErrorDisplay

    constructor ()
      ensures email == "" && password == "" && confirmPassword == ""
      ensures !loading && message == "" && errorMsg == Text("")
    {
      email, password, confirmPassword := "", "", "";
      loading := false;
      message, errorMsg := "", Text("");
    }

    /** `handleSignUp`, following the source's state updates and early
        returns step by step; `SignUpOutcome` states the same gate as a
        value, and the two are proved to agree. The lookup's result and
        the provider's answer are inputs; `lookedUp` and `signUpSent`
        report which of the two calls were made. The inputs are never
        changed. Every exit leaves the form idle except a rejected
        `signUp`, after which the form stays busy. */
    method HandleSignUp(lookup: EmailLookup, signUp: SignUpResult)
      returns (lookedUp: Option<string>, signUpSent: Option<(string, string)>)
      modifies this`loading, this`message, this`errorMsg
      ensures loading <==> signUpSent.Some? && signUp.Rejected?
      ensures GateResult(loading, message, errorMsg, lookedUp, signUpSent) ==
        SignUpOutcome(email, password, confirmPassword, lookup, signUp)
    {
      loading := true;
      message := "";
      errorMsg := Text("");
      lookedUp, signUpSent := None, None;

      if password != confirmPassword {
        errorMsg := Text(MismatchMessage);
        loading := false;
        return;
      }

      var passwordValidation := ValidatePassword(password);
      if !passwordValidation.isValid {
        errorMsg := Text(WeakPasswordMessage);
        loading := false;
        return;
      }

      lookedUp := Some(email);
      var emailExists := CheckEmailExists(lookup);
      if emailExists {
        errorMsg := AccountExistsNotice;
        loading := false;
        return;
      }

      signUpSent := Some((email, password));
      match signUp {
        case Rejected => return;
        case Refused(m) => errorMsg := Text(m);
        case Accepted => message := ConfirmMessage;
      }
      loading := false;
    }
  }
}
