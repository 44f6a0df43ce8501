/** The process-wide authentication state (AuthContext.tsx): the current user,
    `isAuthenticated` and `isLoading`, changed only by `checkAuth`, which looks
    up the current account and copies its profile fields into the state. */
module AuthContext {
  import opened Common

  /** `IUser`: the profile fields the client keeps for the signed-in user. */
  datatype User = User(id: string, name: string, username: string, email: string,
                       profilePic: string, bio: string)

  /** `INITIAL_USER`: every field empty. */
  const INITIAL_USER := User("", "", "", "", "", "")

  /** The profile document the current-account lookup resolves to; `docId` is
      the document's `$id`. */
  datatype Account = Account(docId: string, name: string, username: string, email: string,
                             profilePic: string, bio: string)

  /** The three state variables of the provider. */
  datatype AuthState = AuthState(user: User, isLoading: bool, isAuthenticated: bool)

  /** The provider's state when it mounts. */
  const INITIAL_STATE := AuthState(INITIAL_USER, false, false)

  /** The `user` value `checkAuth` builds from a found account. */
  function UserOf(a: Account): User {
    User(a.docId, a.name, a.username, a.email, a.profilePic, a.bio)
  }

  /** One `checkAuth` call: the new state and the returned boolean, given what
      the awaited account lookup produced (a rejection is caught). */
  function CheckAuthStep(s: AuthState, lookup: Response<Account>): (r: (AuthState, bool))
    ensures r.1 <==> lookup.Succeeded()
    ensures !r.0.isLoading
    ensures r.0.isAuthenticated <==> s.isAuthenticated || lookup.Succeeded()
    ensures r.1 ==> var a := lookup.result.value;
                    r.0.user.id == a.docId && r.0.user.name == a.name &&
                    r.0.user.username == a.username && r.0.user.email == a.email &&
                    r.0.user.profilePic == a.profilePic && r.0.user.bio == a.bio
    ensures !r.1 ==> r.0.user == s.user && r.0.isAuthenticated == s.isAuthenticated
  {
    match lookup
    case Resolved(Some(a)) => (AuthState(UserOf(a), false, true), true)
    case Resolved(None) => (s.(isLoading := false), false)
    case Rejected => (s.(isLoading := false), false)
  }

  /** The state after a series of `checkAuth` calls, oldest lookup first. */
  function RunCheckAuth(s: AuthState, lookups: seq<Response<Account>>): AuthState
    decreases |lookups|
  {
    if lookups == [] then s
    else RunCheckAuth(CheckAuthStep(s, lookups[0]).0, lookups[1..])
  }

  /** The account of the most recent successful lookup, if any. */
  function LastFound(lookups: seq<Response<Account>>): (r: Option<Account>)
    ensures r.None? <==> forall i :: 0 <= i < |lookups| ==> !lookups[i].Succeeded()
  {
    if lookups == [] then None
    else if lookups[|lookups| - 1].Succeeded() then lookups[|lookups| - 1].result
    else LastFound(lookups[..|lookups| - 1])
  }

  /** `checkAuth` never sets `isAuthenticated` back to false: once true, it
      stays true over any further calls. */
  lemma {:induction false} AuthenticatedStaysAuthenticated(s: AuthState, lookups: seq<Response<Account>>)
    requires s.isAuthenticated
    ensures RunCheckAuth(s, lookups).isAuthenticated
    decreases |lookups|
  {
    if lookups != [] {
      AuthenticatedStaysAuthenticated(CheckAuthStep(s, lookups[0]).0, lookups[1..]);
    }
  }

  /** `isLoading` is false after any call, and is never set to true. */
  lemma {:induction false} NeverLoadingAfterCheck(s: AuthState, lookups: seq<Response<Account>>)
    requires lookups != [] || !s.isLoading
    ensures !RunCheckAuth(s, lookups).isLoading
    decreases |lookups|
  {
    if lookups != [] {
      NeverLoadingAfterCheck(CheckAuthStep(s, lookups[0]).0, lookups[1..]);
    }
  }

  /** Running the calls of `a` and then those of `b` is running `a + b`. */
  lemma {:induction false} RunConcat(s: AuthState, a: seq<Response<Account>>, b: seq<Response<Account>>)
    ensures RunCheckAuth(s, a + b) == RunCheckAuth(RunCheckAuth(s, a), b)
    decreases |a|
  {
    if a != [] {
      assert (a + b)[0] == a[0];
      assert (a + b)[1..] == a[1..] + b;
      RunConcat(CheckAuthStep(s, a[0]).0, a[1..], b);
    } else {
      assert a + b == b;
    }
  }

  /** After a series of calls the user is the one copied from the last account
      found, or the starting user when none was found; the state is
      authenticated exactly when it was already or some lookup found an account. */
  lemma {:induction false} UserIsLastFound(s: AuthState, lookups: seq<Response<Account>>)
    ensures var t := RunCheckAuth(s, lookups);
            t.user == (match LastFound(lookups) case Some(a) => UserOf(a) case None => s.user) &&
            (t.isAuthenticated <==> s.isAuthenticated || LastFound(lookups).Some?)
    decreases |lookups|
  {
    if lookups != [] {
      var n := |lookups| - 1;
      var init := lookups[..n];
      assert lookups == init + [lookups[n]];
      RunConcat(s, init, [lookups[n]]);
      UserIsLastFound(s, init);
      var mid := RunCheckAuth(s, init);
      assert RunCheckAuth(mid, [lookups[n]]) == CheckAuthStep(mid, lookups[n]).0 by {
        assert [lookups[n]][1..] == [];
      }
    }
  }

  /** `AuthContextProvider`: the state variables and the `checkAuth` entry
      point. `setUser` and `setIsAuthenticated`, which the context also hands
      out, are not modelled. */
  class AuthProvider {
    var user: User
    var isLoading: bool
    var isAuthenticated: bool

    /** Mounting: `INITIAL_USER`, not loading, not authenticated. */
    constructor ()
      ensures State() == INITIAL_STATE
      ensures user.id == "" && user.username == "" && !isAuthenticated
    {
      user := INITIAL_USER;
      isLoading := false;
      isAuthenticated := false;
    }

    function State(): AuthState
      reads this
    {
      AuthState(user, isLoading, isAuthenticated)
    }

    /** `checkAuth`, given what the awaited current-account lookup produced:
        a found account is copied into `user` and authenticates; no account
        and a caught rejection change nothing but `isLoading`; the `finally`
        clears `isLoading` on every path. */
    method CheckAuth(lookup: Response<Account>) returns (isLoggedIn: bool)
      modifies this
      ensures (State(), isLoggedIn) == CheckAuthStep(old(State()), lookup)
      ensures old(isAuthenticated) ==> isAuthenticated
      ensures isLoggedIn <==> lookup.Succeeded()
    {
      match lookup {
        case Resolved(Some(currentAccount)) =>
          user := User(currentAccount.docId, currentAccount.name, currentAccount.username,
                       currentAccount.email, currentAccount.profilePic, currentAccount.bio);
          isAuthenticated := true;
          isLoggedIn := true;
        case Resolved(None) =>
          isLoggedIn := false;
        case Rejected =>
          isLoggedIn := false;
      }
      isLoading := false;
    }
  }
}
