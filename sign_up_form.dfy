/** The sign-up form (signUpForm.tsx): `handleSignUp` flags empty fields,
    refuses a username or email that an existing profile already has, and
    otherwise creates the account, signs in, runs `checkAuth` and navigates
    home when it reports a signed-in user. */
module SignUpForm {
  import opened Common
  import Lists
  import opened FormEffects
  import AuthContext
  import Text

  const ALL_FIELDS_MSG := "Please enter all fields"
  const USERNAME_TAKEN_MSG := "Username already in use"
  const EMAIL_TAKEN_MSG := "Email already in use"

  /** The fields of an existing profile document the duplicate check reads. */
  datatype Profile = Profile(id: string, username: string, email: string)

  /** The predicate of `find((user) => user.username === username)`. */
  function HasUsername(username: string): Profile -> bool {
    (p: Profile) => p.username == username
  }

  /** The predicate of `find((user) => user.email === email)`. */
  function HasEmail(email: string): Profile -> bool {
    (p: Profile) => p.email == email
  }

  /** `profiles?.find(...)` is truthy: the loaded profiles include one whose
      username is exactly `username` (no trimming, no case folding). While the
      profiles are not loaded nothing is taken. */
  function UsernameTaken(profiles: Option<seq<Profile>>, username: string): (taken: bool)
    ensures taken <==> profiles.Some? &&
                       exists i :: 0 <= i < |profiles.value| && profiles.value[i].username == username
  {
    profiles.Some? && Lists.Find(profiles.value, HasUsername(username)).Some?
  }

  /** The same check on the email field. */
  function EmailTaken(profiles: Option<seq<Profile>>, email: string): (taken: bool)
    ensures taken <==> profiles.Some? &&
                       exists i :: 0 <= i < |profiles.value| && profiles.value[i].email == email
  {
    profiles.Some? && Lists.Find(profiles.value, HasEmail(email)).Some?
  }

  /** Some field is the empty string: an empty string is falsy, but a string
      of spaces is not, so unlike the sign-in form nothing is trimmed. */
  function AnyFieldEmpty(name: string, username: string, email: string, password: string): (empty: bool)
    ensures !empty <==> |name| > 0 && |username| > 0 && |email| > 0 && |password| > 0
  {
    email == "" || password == "" || name == "" || username == ""
  }

  /** Fields holding only whitespace pass the empty-field check, although the
      sign-in form would call them blank. */
  lemma WhitespaceFieldsPass(name: string, username: string, email: string, password: string)
    requires Text.IsBlank(name) && Text.IsBlank(username) && Text.IsBlank(email) && Text.IsBlank(password)
    requires name != "" && username != "" && email != "" && password != ""
    ensures !AnyFieldEmpty(name, username, email, password)
    ensures Text.Trim(name) == "" && Text.Trim(username) == ""
    ensures Text.Trim(email) == "" && Text.Trim(password) == ""
  {
    Text.TrimEmptyIffBlank(name);
    Text.TrimEmptyIffBlank(username);
    Text.TrimEmptyIffBlank(email);
    Text.TrimEmptyIffBlank(password);
  }

  /** The form's state: the four inputs and the error message (`null` is None). */
  class SignUpFormState {
    var name: string
    var username: string
    var email: string
    var password: string
    var error: Option<string>

    constructor ()
      ensures name == "" && username == "" && email == "" && password == "" && error == None
    {
      name, username, email, password, error := "", "", "", "", None;
    }

    /** The four inputs' `onChange` handlers, together. */
    method SetFields(name: string, username: string, email: string, password: string)
      modifies this`name, this`username, this`email, this`password
      ensures this.name == name && this.username == username
      ensures this.email == email && this.password == password
    {
      this.name, this.username, this.email, this.password := name, username, email, password;
    }

    /** The error message the empty-field check leaves, starting from `prev`. */
    function FieldsError(prev: Option<string>): (e: Option<string>)
      reads this
      ensures AnyFieldEmpty(name, username, email, password) ==> e == Some(ALL_FIELDS_MSG)
      ensures !AnyFieldEmpty(name, username, email, password) ==> e == prev
    {
      if AnyFieldEmpty(name, username, email, password) then Some(ALL_FIELDS_MSG) else prev
    }

    /** `handleSignUp`, given the loaded profiles (None while loading) and what
        the awaited create, sign-in and current-account calls produce. An
        empty field only sets a message. A taken username wins over a taken
        email, and either ends the handler without creating anything. Account
        creation happens exactly when neither is taken; a falsy or rejected
        creation throws before sign-in; a falsy session shows the retry
        message and throws; a session clears the message, runs `checkAuth`
        and navigates home exactly when it returns true. */
    method HandleSignUp(profiles: Option<seq<Profile>>, created: Response<Profile>,
                        signIn: Response<Session>, auth: AuthContext.AuthProvider,
                        lookup: Response<AuthContext.Account>)
      returns (completion: Completion<Option<Session>>, effects: seq<Effect>)
      modifies this`error, auth
      ensures var proceeds := !UsernameTaken(profiles, username) && !EmailTaken(profiles, email);
              (effects != [] <==> proceeds) &&
              (proceeds ==> effects[0] == CreateNewAccount(NewUser(email, password, name, username)))
      ensures UsernameTaken(profiles, username) ==>
                error == Some(USERNAME_TAKEN_MSG) && completion == Returned(None) &&
                auth.State() == old(auth.State())
      ensures !UsernameTaken(profiles, username) && EmailTaken(profiles, email) ==>
                error == Some(EMAIL_TAKEN_MSG) && completion == Returned(None) &&
                auth.State() == old(auth.State())
      ensures !UsernameTaken(profiles, username) && !EmailTaken(profiles, email) && !created.Succeeded() ==>
                completion == Threw && |effects| == 1 &&
                error == FieldsError(old(error)) && auth.State() == old(auth.State())
      ensures !UsernameTaken(profiles, username) && !EmailTaken(profiles, email) && created.Succeeded() ==>
                |effects| >= 2 && effects[1] == SignInAccount(email, password) &&
                (signIn.Rejected? ==>
                   completion == Threw && |effects| == 2 &&
                   error == FieldsError(old(error)) && auth.State() == old(auth.State())) &&
                (signIn == Resolved(None) ==>
                   completion == Threw && |effects| == 2 &&
                   error == Some(RETRY_MSG) && auth.State() == old(auth.State())) &&
                (signIn.Succeeded() ==>
                   var (after, isLoggedIn) := AuthContext.CheckAuthStep(old(auth.State()), lookup);
                   completion == Returned(Some(signIn.result.value)) && error == None &&
                   auth.State() == after &&
                   effects[2..] == [CheckAuth] + (if isLoggedIn then [Navigate(HOME)] else []))
      ensures Navigate(HOME) in effects <==>
                !UsernameTaken(profiles, username) && !EmailTaken(profiles, email) &&
                created.Succeeded() && signIn.Succeeded() && lookup.Succeeded()
    {
      if AnyFieldEmpty(name, username, email, password) {
        error := Some(ALL_FIELDS_MSG);
      }

      var existsUsername := if profiles.Some? then Lists.Find(profiles.value, HasUsername(username)) else None;
      var existsEmail := if profiles.Some? then Lists.Find(profiles.value, HasEmail(email)) else None;

      effects := [];
      if existsUsername.Some? {
        error := Some(USERNAME_TAKEN_MSG);
        completion := Returned(None);
      } else if existsEmail.Some? {
        error := Some(EMAIL_TAKEN_MSG);
        completion := Returned(None);
      } else {
        effects := [CreateNewAccount(NewUser(email, password, name, username))];
        if !created.Succeeded() {
          completion := Threw;
          return;
        }
        effects := effects + [SignInAccount(email, password)];
        match signIn {
          case Rejected =>
            completion := Threw;
          case Resolved(None) =>
            error := Some(RETRY_MSG);
            completion := Threw;
          case Resolved(Some(session)) =>
            error := None;
            var isLoggedIn := auth.CheckAuth(lookup);
            effects := effects + [CheckAuth];
            if isLoggedIn {
              effects := effects + [Navigate(HOME)];
            }
            completion := Returned(Some(session));
        }
      }
    }
  }
}
