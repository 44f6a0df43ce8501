/** The sign-in form (signInForm.tsx): `handleLogin` sets its error message by
    a sequence of checks in which the later ones override the earlier ones,
    then signs in whatever the checks found, and navigates home when
    `checkAuth` reports a signed-in user. */
module SignInForm {
  import opened Common
  import Text
  import opened FormEffects
  import AuthContext

  const PASSWORD_MSG := "Please enter a valid password"
  const EMAIL_MSG := "Please enter a valid email address"
  const BOTH_MSG := "Please enter an email and password"

  /** The error the three validation checks leave, starting from `prev`: the
      password check runs first, the email check overrides it, and the check
      for both overrides them all. A field counts as empty when `trim` leaves
      nothing, so whitespace-only input is empty. */
  function LoginValidationError(prev: Option<string>, email: string, password: string): (r: Option<string>)
    ensures Text.IsBlank(email) && Text.IsBlank(password) ==> r == Some(BOTH_MSG)
    ensures Text.IsBlank(email) && !Text.IsBlank(password) ==> r == Some(EMAIL_MSG)
    ensures !Text.IsBlank(email) && Text.IsBlank(password) ==> r == Some(PASSWORD_MSG)
    ensures !Text.IsBlank(email) && !Text.IsBlank(password) ==> r == prev
  {
    Text.TrimEmptyIffBlank(email);
    Text.TrimEmptyIffBlank(password);
    var afterPassword := if Text.Trim(password) == "" then Some(PASSWORD_MSG) else prev;
    var afterEmail := if Text.Trim(email) == "" then Some(EMAIL_MSG) else afterPassword;
    if Text.Trim(email) == "" && Text.Trim(password) == "" then Some(BOTH_MSG) else afterEmail
  }

  /** The form's state: the two inputs and the error message (`null` is None). */
  class SignInFormState {
    var email: string
    var password: string
    var error: Option<string>

    constructor ()
      ensures email == "" && password == "" && error == None
    {
      email, password, error := "", "", None;
    }

    /** The email input's `onChange`. */
    method SetEmail(value: string)
      modifies this`email
      ensures email == value
    {
      email := value;
    }

    /** The password input's `onChange`. */
    method SetPassword(value: string)
      modifies this`password
      ensures password == value
    {
      password := value;
    }

    /** `handleLogin`, given what the awaited sign-in call produced and what
        the current-account lookup inside `checkAuth` produces. Validation
        only sets the message: the sign-in call is made in every case. A
        rejected sign-in ends the handler with the validation message still
        showing; a falsy session shows the retry message and throws; a session
        clears the message, runs `checkAuth` and navigates home exactly when
        it returns true. */
    method HandleLogin(signIn: Response<Session>, auth: AuthContext.AuthProvider,
                       lookup: Response<AuthContext.Account>)
      returns (completion: Completion<Session>, effects: seq<Effect>)
      modifies this`error, auth
      ensures effects != [] && effects[0] == SignInAccount(email, password)
      ensures signIn.Rejected? ==>
                completion == Threw && effects == [SignInAccount(email, password)] &&
                error == LoginValidationError(old(error), email, password) &&
                auth.State() == old(auth.State())
      ensures signIn == Resolved(None) ==>
                completion == Threw && effects == [SignInAccount(email, password)] &&
                error == Some(RETRY_MSG) && auth.State() == old(auth.State())
      ensures signIn.Succeeded() ==>
                var (after, isLoggedIn) := AuthContext.CheckAuthStep(old(auth.State()), lookup);
                completion == Returned(signIn.result.value) && error == None &&
                auth.State() == after &&
                effects == [SignInAccount(email, password), CheckAuth] +
                           (if isLoggedIn then [Navigate(HOME)] else [])
      ensures Navigate(HOME) in effects <==> signIn.Succeeded() && lookup.Succeeded()
    {
      var emailBlank, passwordBlank := Text.Trim(email) == "", Text.Trim(password) == "";
      if passwordBlank {
        error := Some(PASSWORD_MSG);
      }
      if emailBlank {
        error := Some(EMAIL_MSG);
      }
      if emailBlank && passwordBlank {
        error := Some(BOTH_MSG);
      }

      effects := [SignInAccount(email, password)];
      match signIn {
        case Rejected =>
          completion := Threw;
        case Resolved(None) =>
          error := Some(RETRY_MSG);
          completion := Threw;
        case Resolved(Some(session)) =>
          error := None;
          var isLoggedIn := auth.CheckAuth(lookup);
          effects := effects + [CheckAuth];
          if isLoggedIn {
            effects := effects + [Navigate(HOME)];
          }
          completion := Returned(session);
      }
    }
  }
}
