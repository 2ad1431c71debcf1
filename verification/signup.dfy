/**
 * The sign-up page: its guard for visitors who are already signed in, and
 * the submit handler's validation order and outcome.
 *
 * The auth provider's sign-up call is an oracle: `outcome` is what it would
 * do if called.
 */
module Signup {
  import opened Wrappers
  import opened Text

  const PasswordsDiffer := "Passwords do not match"
  const PasswordTooShort := "Password must be at least 6 characters long"
  const Unexpected := "An unexpected error occurred"
  const MinPasswordLength := 6
  const AfterSignUp := "/login?message=Account created successfully! Please check your email to confirm your account."
  const ManagePath := "/blog/manage"

  datatype SignupForm = SignupForm(email: string, password: string, confirmPassword: string, fullName: string)

  /** What `signUpWithEmail` does if called. */
  datatype SignUpOutcome = ProviderError(message: string) | ProviderThrew | ProviderAccepted

  /** The arguments of a `signUpWithEmail(email, password, fullName)` call. */
  datatype SignUpCall = SignUpCall(email: string, password: string, fullName: string)

  /** The page state `handleSubmit` leaves and the effects it had. */
  datatype Submitted = Submitted(error: string, isLoading: bool, call: Option<SignUpCall>,
                                 redirect: Option<string>)

  /** The first validation failure, if any: a mismatch is reported before
      the length, and the length is counted in UTF-16 code units. */
  function Validate(form: SignupForm): (r: Option<string>)
    ensures form.password != form.confirmPassword ==> r == Some(PasswordsDiffer)
    ensures form.password == form.confirmPassword && Utf16Length(form.password) < MinPasswordLength ==>
              r == Some(PasswordTooShort)
    ensures r.None? <==> form.password == form.confirmPassword && Utf16Length(form.password) >= MinPasswordLength
  {
    if form.password != form.confirmPassword then Some(PasswordsDiffer)
    else if Utf16Length(form.password) < MinPasswordLength then Some(PasswordTooShort)
    else None
  }

  /** `handleSubmit`: validate, then call the provider once and report. */
  function HandleSubmit(form: SignupForm, error: string, isLoading: bool, outcome: SignUpOutcome): (s: Submitted)
    ensures s.call.Some? <==> Validate(form).None?
    ensures s.call.Some? ==> s.call.value == SignUpCall(form.email, form.password, form.fullName)
    ensures s.call.None? ==> s == Submitted(Validate(form).value, isLoading, None, None)
    ensures s.call.Some? ==> !s.isLoading
    ensures s.redirect.Some? <==> s.call.Some? && outcome.ProviderAccepted?
    ensures s.redirect.Some? ==> s.redirect.value == AfterSignUp && s.error == ""
    ensures s.call.Some? && outcome.ProviderError? ==> s.error == outcome.message
    ensures s.call.Some? && outcome.ProviderThrew? ==> s.error == Unexpected
  {
    match Validate(form)
    case Some(message) => Submitted(message, isLoading, None, None)
    case None =>
      var call := SignUpCall(form.email, form.password, form.fullName);
      match outcome
      case ProviderError(message) => Submitted(message, false, Some(call), None)
      case ProviderThrew => Submitted(Unexpected, false, Some(call), None)
      case ProviderAccepted => Submitted("", false, Some(call), Some(AfterSignUp))
  }

  /** A password of exactly six basic characters is long enough. */
  lemma SixCharactersAccepted(form: SignupForm)
    requires form.password == form.confirmPassword && |form.password| == MinPasswordLength
    requires forall i :: 0 <= i < |form.password| ==> form.password[i] as int <= 0xFFFF
    ensures Validate(form).None?
  {
  }

  /** A character outside the basic plane counts twice: three of them make
      a password long enough. */
  lemma AstralCharactersCountTwice(form: SignupForm)
    requires form.password == form.confirmPassword == "\U{1F600}\U{1F600}\U{1F600}"
    ensures Validate(form).None?
  {
    var p := form.password;
    assert p[1..][1..][1..] == [];
    assert Utf16Length(p[1..][1..]) == 2;
    assert Utf16Length(p[1..]) == 4;
  }

  /** A mismatch is reported even when the password is also too short. */
  lemma MismatchReportedFirst(form: SignupForm, error: string, isLoading: bool, outcome: SignUpOutcome)
    requires form.password != form.confirmPassword
    ensures HandleSubmit(form, error, isLoading, outcome).error == PasswordsDiffer
  {
  }

  // ---------------------------------------------------------------------------
  // The page guard
  // ---------------------------------------------------------------------------

  datatype View = Spinner | Nothing | Form

  /** What the page renders: a spinner while auth loads, nothing for a
      signed-in visitor, the form otherwise. */
  function PageView(isAuthenticated: bool, loading: bool): (v: View)
    ensures v == Form <==> !loading && !isAuthenticated
    ensures v == Spinner <==> loading
  {
    if loading then Spinner else if isAuthenticated then Nothing else Form
  }

  /** The redirect effect's target, if it fires. */
  function GuardRedirect(isAuthenticated: bool, loading: bool): (r: Option<string>)
    ensures r.Some? ==> r.value == ManagePath
  {
    if isAuthenticated && !loading then Some(ManagePath) else None
  }

  /** A signed-in visitor never sees the form, and once loading ends is
      redirected to the dashboard; the form is shown only when no redirect
      fires. */
  lemma SignedInVisitorRedirected(isAuthenticated: bool, loading: bool)
    ensures isAuthenticated ==> PageView(isAuthenticated, loading) != Form
    ensures GuardRedirect(isAuthenticated, loading).Some? <==> PageView(isAuthenticated, loading) == Nothing
  {
  }
}
