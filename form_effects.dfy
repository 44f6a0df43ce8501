/** What the sign-in and sign-up handlers send to the outside world, in the
    order they send it: remote calls, the `checkAuth` call and navigation. */
module FormEffects {

  /** A session record returned by the sign-in call. */
  datatype Session = Session(id: string)

  /** The details the sign-up form hands to account creation. */
  datatype NewUser = NewUser(email: string, password: string, name: string, username: string)

  datatype Effect =
    | CreateNewAccount(user: NewUser)
    | SignInAccount(email: string, password: string)
    | CheckAuth
    | Navigate(path: string)

  /** The message both forms show when the sign-in call resolves to nothing. */
  const RETRY_MSG := "There was an error, please try again"

  /** Where a signed-in user is sent. */
  const HOME := "/home"
}
