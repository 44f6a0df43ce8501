# nexus_blog client rules, modelled in Dafny

nexus_blog is a social-media web client (posts, comments, replies, likes,
profiles, sign-in) whose data layer is a hosted backend reached through its
SDK. The logic the client itself owns is a handful of rules inside React
component handlers. This project models those rules and proves what they
guarantee:

- the optimistic like toggle under a post, and the delete control there
  (`postStats.tsx`);
- the sign-in form's validation-message precedence and the sequence of calls
  `handleLogin` makes (`signInForm.tsx`);
- the sign-up form's empty-field flag, duplicate username/email check, and
  the sequence create account, sign in, `checkAuth`, navigate
  (`signUpForm.tsx`);
- selecting a post's comments, showing at most five of them until "see more"
  is pressed, and clearing the comment box after a successful create
  (`comments.tsx`);
- selecting and counting a comment's replies, the per-reply delete control,
  and the delete handler's outcome (`replies.tsx`);
- sorting a profile's posts newest first (`profile.tsx`);
- the authentication state `user` / `isAuthenticated` / `isLoading` and its
  one transition, `checkAuth` (`AuthContext.tsx`).

Every remote call is an input. `Response<T>` says what awaiting it produced.
`Resolved(None)` is a falsy value such as `undefined`, which the API layer
returns for most failures. `Rejected` is a rejected promise. A handler that
throws ends in `Completion.Threw`. The remote calls, the `checkAuth` call and
the navigation a handler performs are returned in order as a `seq<Effect>`.
State that React keeps in `useState` is a field of a class. Each setter call
is an assignment to that field, and a method's `ensures` gives the whole new
state. Lists are Dafny sequences, which are values. So the toggle, which
copies `likes` first, and the sort, which sorts a `slice()` copy, cannot
change the list they started from. This holds by construction.

Modules: `Common` (Option, Response, Completion, and the `DeleteControl` that posts and replies share), `Lists` (`filter`, `find`,
counting), `Text` (`trim`), `FormEffects`, and one module per component:
`PostStats`, `SignInForm`, `SignUpForm`, `Comments`, `Replies`, `Profile`,
`AuthContext`.

Behaviour worth knowing, read off the code and proved in the contracts:

- Sign-in validation never stops the sign-in call (`HandleLogin` always
  emits `SignInAccount` first). When the sign-in call resolves, the message
  is then replaced: by the retry message, or by `null`. A validation message
  survives the handler only when the sign-in promise rejects.
- On sign-up, an empty field sets "Please enter all fields" but does not
  stop account creation. Only a taken username or email does.
- `checkAuth` never sets `isAuthenticated` to false. A failed lookup does
  not reset `user` to `INITIAL_USER` and does not set `isAuthenticated` to
  false: both keep the values they had (`AuthContext.CheckAuthStep`,
  `AuthContext.AuthenticatedStaysAuthenticated`).
- The sign-up form's empty-field check does not trim: a field of spaces
  passes it, although the sign-in form would call the same field blank
  (`SignUpForm.WhitespaceFieldsPass`).
- While the comments query refetches, which follows every successful comment
  create, a spinner replaces the whole list and the "see more" button.

## Model

| member | source | states |
|---|---|---|
| `Lists.Filter` | src/components/homepage/postStats.tsx:41 | the result's length is the number of elements that pass the predicate |
| `Lists.FilterMembers` | src/components/homepage/postStats.tsx:41 | the result holds exactly the elements of the input that pass the predicate |
| `Lists.FilterConcat` | src/components/post/comments.tsx:37-39 | filtering distributes over concatenation, so the input order is kept |
| `Lists.FilterDistinct` | src/components/homepage/postStats.tsx:41 | filtering a duplicate-free list yields a duplicate-free list |
| `Lists.Find` | src/components/auth/forms/signUpForm.tsx:36-37 | `find` is undefined exactly when no element passes; otherwise it is the first element that passes |
| `Text.Trim` | src/components/auth/forms/signInForm.tsx:26-32 | the trimmed string is no longer than the input and neither starts nor ends with whitespace |
| `Text.TrimCutsBlankEnds` | src/components/auth/forms/signInForm.tsx:26-32 | `trim()` keeps a slice `s[i..j]` of the input and cuts off only whitespace: `s[..i]` and `s[j..]` are blank; with `Trim`'s ensures this fixes the result to the input minus its leading and trailing whitespace |
| `Text.TrimEmptyIffBlank` | src/components/auth/forms/signInForm.tsx:26-34 | `trim()` yields "" exactly when every character is ECMAScript whitespace, so whitespace-only input counts as empty |
| `PostStats.LikerIds` | src/components/homepage/postStats.tsx:18 | the initial likes list has one id per liker, in the likers' order |
| `PostStats.CheckIsLiked` | src/components/homepage/postStats.tsx:29-31 | liked exactly when the user id occurs in the list |
| `PostStats.Toggled` | src/components/homepage/postStats.tsx:36-45 | the toggle flips whether the user has liked; if absent, the id is appended at the end |
| `PostStats.ToggleKeepsOthers` | src/components/homepage/postStats.tsx:36-45 | every other user id is in the toggled list exactly when it was in the original |
| `PostStats.UnlikeKeepsOrder` | src/components/homepage/postStats.tsx:40-41 | unliking removes every occurrence of the user id and keeps the other ids in their original order |
| `PostStats.LikeThenUnlike` | src/components/homepage/postStats.tsx:36-45 | like then unlike, from a list without the user, returns exactly the original list |
| `PostStats.LikeCountMovesByOne` | src/components/homepage/postStats.tsx:36-45 | on a duplicate-free list, liking adds one to the count and unliking takes one away |
| `PostStats.ToggleKeepsDistinct` | src/components/homepage/postStats.tsx:36-45 | the toggle keeps at most one entry per user id |
| `PostStats.PostStatsView.constructor` | src/components/homepage/postStats.tsx:17-19 | the local list starts as the post's liker ids; no mutation has been sent |
| `PostStats.PostStatsView.HandleLikePost` | src/components/homepage/postStats.tsx:33-67 | called with the post's own id, as the heart button does at line 67: the local list becomes the toggled list, and that same list is sent as `likesArray` with the post's id; on a duplicate-free list the displayed count (`LikeCount`, the list's length shown at line 75) goes up by one on a like and down by one on an unlike |
| `PostStats.PostStatsView.DeleteControlShown` | src/components/homepage/postStats.tsx:80-105 | the delete button is offered exactly when the viewer is the creator and no delete is in flight; a spinner shows during a delete |
| `SignInForm.LoginValidationError` | src/components/auth/forms/signInForm.tsx:26-34 | both blank gives "Please enter an email and password"; only email blank gives the email message, though the password check ran first; only password blank gives the password message; otherwise the previous message stays |
| `SignInForm.SignInFormState.constructor` | src/components/auth/forms/signInForm.tsx:9-11 | email and password start empty and the error starts null |
| `SignInForm.SignInFormState.SetEmail` | src/components/auth/forms/signInForm.tsx:78 | the email input's change sets the email |
| `SignInForm.SignInFormState.SetPassword` | src/components/auth/forms/signInForm.tsx:86 | the password input's change sets the password |
| `SignInForm.SignInFormState.HandleLogin` | src/components/auth/forms/signInForm.tsx:24-50 | sign-in is always called. A rejection keeps the validation message and throws. A falsy session sets the retry message and throws. A session clears the error, runs `checkAuth`, returns the session, and navigates to `/home` exactly when `checkAuth` returns true |
| `SignUpForm.UsernameTaken` | src/components/auth/forms/signUpForm.tsx:36 | taken exactly when the loaded profiles contain that exact username; nothing is taken while profiles are undefined |
| `SignUpForm.EmailTaken` | src/components/auth/forms/signUpForm.tsx:37 | taken exactly when the loaded profiles contain that exact email |
| `SignUpForm.AnyFieldEmpty` | src/components/auth/forms/signUpForm.tsx:32 | a field counts as missing only when it is the empty string; whitespace is not trimmed, unlike the sign-in form |
| `SignUpForm.WhitespaceFieldsPass` | src/components/auth/forms/signUpForm.tsx:32 | four non-empty whitespace-only fields pass the sign-up check, though `trim()` makes each of them "" |
| `SignUpForm.SignUpFormState.FieldsError` | src/components/auth/forms/signUpForm.tsx:32-34 | a missing field sets "Please enter all fields"; otherwise the previous message stays |
| `SignUpForm.SignUpFormState.constructor` | src/components/auth/forms/signUpForm.tsx:13-18 | all four fields start empty and the error starts null |
| `SignUpForm.SignUpFormState.SetFields` | src/components/auth/forms/signUpForm.tsx:99-127 | the inputs' changes set the four fields |
| `SignUpForm.SignUpFormState.HandleSignUp` | src/components/auth/forms/signUpForm.tsx:30-71 | a taken username wins over a taken email, and either sets its message without creating anything. Creation happens exactly when neither is taken, whatever the empty-field flag says. A failed creation throws before sign-in. A falsy session sets the retry message and throws. A session clears the error, runs `checkAuth`, and navigates to `/home` exactly when it returns true |
| `Comments.FilteredComments` | src/components/post/comments.tsx:37-39 | undefined while the comments are not loaded; otherwise exactly the comments of this post, no more than were loaded |
| `Comments.DisplayedComments` | src/components/post/comments.tsx:64-100 | nothing is shown while the comments query is fetching; otherwise the shown comments are a prefix of the filtered ones: min(5, n) of them while "see all" is off, all n while it is on |
| `Comments.ToggleLabel` | src/components/post/comments.tsx:64-110 | the button exists exactly when the query is not fetching and more than 5 comments match; it reads "see less" while "see all" is on, "see more" otherwise |
| `Comments.NothingHiddenWithoutToggle` | src/components/post/comments.tsx:64-110 | when the comments are loaded and not fetching and no button is offered, every matching comment is shown |
| `Comments.CommentsState.constructor` | src/components/post/comments.tsx:13-40 | the comment box starts empty and "see all" starts off |
| `Comments.CommentsState.Shown` | src/components/post/comments.tsx:64-100 | nothing is rendered while fetching or undefined; every rendered comment is a loaded comment of this post; with "see all" off, the number rendered is min(5, number of this post's comments) |
| `Comments.CommentsState.SetCommentValue` | src/components/post/comments.tsx:50 | typing sets the comment box |
| `Comments.CommentsState.CreateNewComment` | src/components/post/comments.tsx:18-32 | the request carries the post id, the box's text and the commenter. A created comment is returned and clears the box. A falsy or rejected result throws and leaves the box unchanged |
| `Comments.CommentsState.ToggleSeeAll` | src/components/post/comments.tsx:106 | pressing the button flips "see all" |
| `Replies.FilteredReplies` | src/components/post/replies.tsx:28-30 | undefined while replies are not loaded; otherwise exactly the replies whose `commentId` is this comment's id |
| `Replies.ReplyCount` | src/components/post/replies.tsx:52 | the displayed count is the number of loaded replies to this comment |
| `Replies.DeleteControlShown` | src/components/post/replies.tsx:77-100 | a control is rendered exactly when the viewer wrote the reply and it is the hovered one; it is the spinner exactly while a reply delete is pending, the button otherwise |
| `Replies.AtMostOneDeleteControl` | src/components/post/replies.tsx:77 | with unique reply ids, at most one reply shows a delete control (button or spinner) at a time |
| `Replies.HandleDeleteReply` | src/components/post/replies.tsx:32-42 | the deleted reply is returned exactly when the delete resolved to a record; otherwise the handler throws |
| `Profile.InsertPermutes` | src/components/profile/profile.tsx:43-47 | lemma for `SortNewestFirst`, the insertion sort that stands in for the engine's `Array.prototype.sort`: one insertion step adds the post and loses none |
| `Profile.SortNewestFirst` | src/components/profile/profile.tsx:43-47 | the result is a permutation of the input, of the same length, with creation times non-increasing |
| `Profile.SortPostsByDate` | src/components/profile/profile.tsx:38-48 | undefined posts give []; otherwise a newest-first permutation of the posts |
| `Profile.InsertAheadOfTies` | src/components/profile/profile.tsx:43-47 | lemma for `SortNewestFirst` (the insertion sort standing in for the engine's sort): among posts created at the same time, the inserted post comes first and the others keep their order |
| `Profile.SortIsStable` | src/components/profile/profile.tsx:43-47 | posts created at the same time keep their input order, as a stable `Array.prototype.sort` does |
| `AuthContext.CheckAuthStep` | src/context/AuthContext.tsx:66-89 | returns true exactly when an account is found. Then `user.id` comes from `$id`, the other five fields are copied, and the state is authenticated. Otherwise user and `isAuthenticated` are unchanged. `isLoading` is false afterwards |
| `AuthContext.AuthenticatedStaysAuthenticated` | src/context/AuthContext.tsx:66-89 | once authenticated, any further series of `checkAuth` calls leaves the state authenticated |
| `AuthContext.NeverLoadingAfterCheck` | src/context/AuthContext.tsx:86-88 | `isLoading` is false after any `checkAuth` call and is never set to true |
| `AuthContext.UserIsLastFound` | src/context/AuthContext.tsx:69-85 | after a series of calls, the user comes from the last account found, or is the starting user if none was found; the state is authenticated exactly when it was already or some lookup found an account |
| `AuthContext.AuthProvider.constructor` | src/context/AuthContext.tsx:61-63 | the provider starts with `INITIAL_USER` (all fields empty), not loading, not authenticated |
| `AuthContext.AuthProvider.CheckAuth` | src/context/AuthContext.tsx:66-89 | the new state and the returned flag are those of `CheckAuthStep`; `isAuthenticated` never goes from true to false |

## Left out

- The API layer (`src/lib/api.tsx`, `src/lib/config.tsx`) is a set of thin SDK wrappers. Only the results of its calls appear, as `Response` inputs. `signInAccount` and `getCurrentAccount` catch every failure and resolve to `undefined`, so for them `Rejected` covers a case the API layer never produces. The model keeps that case anyway, because the handlers would behave differently in it.
- Query-cache invalidation after mutations is not modelled; it happens inside the data-fetching library. The `isFetching` flag it raises on the comments query is an input of `Comments.DisplayedComments` and `Comments.ToggleLabel`.
- `handleDeletePost` in `postStats.tsx` is not modelled. It navigates home and throws on a falsy result.
- A post whose `likes` field is undefined is not modelled: the local list is always a sequence. In the source, spreading an undefined list would throw.
- Timestamps are integers. The missing-timestamp case, where `new Date("")` gives NaN and the comparator is inconsistent, is not modelled.
- Rendering, styling, modals, routing on browser storage and the mount-time `useEffect` that calls `checkAuth` are not modelled. `setUser` and `setIsAuthenticated`, which the context also exposes, are not modelled.
- Concurrency is not modelled: parallel likes on one post, a username check racing a write, and React's batching of state updates. Each handler runs as one sequential step.
- In-place mutation of the copied likes array is not modelled: the list is a value, so "the copy is mutated, not the original" holds by construction rather than by a separate proof.
