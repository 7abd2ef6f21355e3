# Account lifecycle and annotation session of an audio-transcript annotation tool

This project models, in Dafny, the two parts of the annotation tool that make decisions.

**Accounts and access control.** The Express server keeps a collection of users. Each user has
a role, an approval flag and an approval stamp.
- `register` validates a form in a fixed order and creates an unapproved account.
- `login` authenticates and issues a token, but only to approved accounts.
- An admin approves or rejects accounts.
- The `protect` and `admin` middlewares form the guard chain in front of every route.
- A seed script creates the first admin when there is none.
- On the client, three pieces mirror these rules: the registration form checks the password
  before it calls the server, the admin panel filters the user list and decides which actions
  each row offers, and `ProtectedRoute` decides what a guarded page renders.

**Annotation session.** The annotator picks a batch and a file, loads the file's segments
(each gets an audio path), edits their markup, saves one segment or all of them, and steps to
the previous or next file. Each segment card derives its initial transcript and its audio
player from the segment.

Modules, one per source file, plus three shared ones:
- `Js` (truthiness, `||''`, template `undefined`, `parseInt`/`toString` of file numbers)
- `Http` (reply kinds and status codes)
- `Users` (the user collection as a class over a sequence, and the Mongoose queries on it)
- `AuthController`, `AuthMiddleware`, `AuthRoutes`, `CreateAdmin`
- `Annotator`, `SegmentCard`, `AdminPanel`, `RegisterForm`, `ProtectedRoute`

The server's store, the admin panel and the annotator session are classes whose methods
update their fields. The guards, the filters and the card's derivations are functions. Bcrypt's
password comparison, token signing and token verification are function parameters. The replies
the client awaits are parameters too, each in the shape its handler reads:
- `Fetch` records whether a read resolved and with what. It is used for the annotator's batch,
  file and segment loads and for the admin panel's user fetches and refetches.
- A single save takes the error message of a failed request (`Option<string>`), and save-all
  takes an `accepts` oracle that says which of its requests succeed.
- The panel's approve, revoke and delete requests take an `Outcome`, and the registration
  form's request takes a `RegisterResult`.

Notes on the code as written, which the model follows:
- No server code refuses to reject an admin. The admin panel only hides the buttons
  (`RejectCanRemoveLastAdmin`, `AdminPanel.RowActions`).
- `handleSaveAll` only counts outcomes. It keeps no list of failed segments and does not
  write the saved markup back into `segments`.
- After a successful approve, revoke or delete, the panel clears the error after its refetch.
  A failed refetch therefore leaves no error shown, even though the list was not refreshed.
- A failed segment load keeps the previous file's segments while `currentFile` already names
  the new file.
- A batch change to the empty value clears the file and the segments but keeps the old file list.
- `SegmentCard` takes `segment` and `audioBase`. The annotator passes `index` and `onSave`,
  which the card never reads, so `handleSave` is not reachable from the rendered cards. It is
  modelled as the handler it is.

## Model

| member | source | states |
|---|---|---|
| Js.NatToString | client/src/components/Annotator.jsx:133 | a file number prints as a non-empty digit string without a leading zero (except 0 itself) |
| Js.ParseInt | client/src/components/Annotator.jsx:131 | `parseInt` gives NaN exactly for an empty string or one not starting with a digit, and a non-negative number otherwise |
| Js.ParseIntOfToString | client/src/components/Annotator.jsx:131-133 | `parseInt(n.toString()) == n` for every file number |
| Js.ToStringInjective | client/src/components/Annotator.jsx:131-133 | distinct file numbers print differently |
| Js.Utf16Length | controllers/authController.js:28 | a string's `.length` counts UTF-16 code units: one per character up to U+FFFF, two above it, so between the number of characters and twice that |
| Js.Utf16LengthOfBmp | client/src/components/Register.jsx:36 | for text without characters above U+FFFF, `.length` is the number of characters |
| Js.ThreeEmojiAreSixUnits | client/src/components/Register.jsx:36 | three emoji are three characters but six code units |
| Http.Reply.Status | controllers/authController.js:21 | the status code of each reply kind; 2xx exactly for success replies |
| Users.FindFirst | controllers/authController.js:33 | `findOne` returns a stored record that matches, and nothing exactly when no record matches |
| Users.FindById | middleware/authMiddleware.js:19 | `findById` finds a stored record with that id, and nothing exactly when no record has it |
| Users.FindByEmail | controllers/authController.js:33 | `findOne({ email })` finds a record with that email, nothing exactly when none has it |
| Users.FindByRole | scripts/createAdmin.js:13 | `findOne({ role })` finds a record with that role, nothing exactly when none has it |
| Users.AdminCount | scripts/createAdmin.js:13-14 | the number of admins is zero exactly when `findOne({ role: 'admin' })` finds nothing |
| Users.AdminCountAppend | scripts/createAdmin.js:20-28 | saving one record raises the admin count by one exactly when its role is 'admin' |
| Users.Instantiate | controllers/authController.js:39-43 | a created record carries the given fields, takes role and approval from the schema when not given, and has no approval stamp |
| Users.Public | controllers/authController.js:114 | `select('-password')` keeps every field of the record but the password: id, name, email, role and the approval fields |
| Users.Approved | controllers/authController.js:142-146 | the approve update sets isApproved, approvedBy and approvedAt together and changes no other field |
| Users.WithApproval | controllers/authController.js:140-148 | the approve update keeps the size and every id in place, and changes no record with another id |
| Users.WithApprovalLookup | controllers/authController.js:140-148 | approving keeps the size, leaves every other id as it was, finds the target approved and stamped, and leaves the collection unchanged for an unknown id |
| Users.ApproveIdempotent | controllers/authController.js:140-148 | approving twice with the same stamp is the same as approving once |
| Users.FindByIdUnique | middleware/authMiddleware.js:19 | with unique ids, `findById` returns exactly the record carrying the id |
| Users.WithoutId | controllers/authController.js:170 | deleting removes at most one record and adds none |
| Users.WithoutIdLookup | controllers/authController.js:170 | deleting an id removes exactly that record: the id is gone, every other id is found as before, the size drops by one when it existed, ids stay unique |
| Users.UserStore.Create | controllers/authController.js:39-43 | appends exactly one record, under an id no stored record has |
| Users.UserStore.FindByIdAndApprove | controllers/authController.js:140-148 | the collection becomes the approved one; the result is the updated record, and absent exactly when the id was unknown |
| Users.UserStore.FindByIdAndDelete | controllers/authController.js:170 | the collection loses the record with that id; the result is the removed record, if any |
| AuthController.RegisterValidation | controllers/authController.js:20-30 | the registration checks pass exactly when all four fields are truthy, the passwords match and the password's `.length` is at least 6 UTF-16 code units; otherwise the first failing check's message, in the source's order |
| AuthController.Register | controllers/authController.js:15-53 | a failed check or a known email gives 400 and leaves the store unchanged; otherwise exactly one record with the given name, email and password, the schema's role and approval, and a fresh id is appended, and 201 reports it |
| AuthController.Login | controllers/authController.js:63-102 | 400 without email or password; 401 for an unknown email or a wrong password; for a known email, a wrong password gives 401, a matching password on an unapproved account gives 403 'Your account is pending admin approval', and a matching password on an approved one gives a token; a token is issued exactly in that last case |
| AuthController.LoginHidesWhichCredentialFailed | controllers/authController.js:74-82 | an unknown email and a wrong password receive the identical 401 reply |
| AuthController.LoginRefusesUnapproved | controllers/authController.js:85-87 | no token is issued to an unapproved account; correct credentials give 403 |
| AuthController.GetMe | controllers/authController.js:112-115 | /me returns the caller's record without its password, or null once it is gone |
| AuthController.PendingUsers | controllers/authController.js:126 | the pending list holds a user's public record exactly when that user is not approved, and holds nothing else |
| AuthController.GetPendingUsers | controllers/authController.js:124-131 | the reply is 200, and its list holds a record exactly when it is the public record of an unapproved user |
| AuthController.ApproveUser | controllers/authController.js:136-157 | an unknown id gives 404 with the store unchanged; otherwise the target is approved and stamped with the acting admin and the time, and the reply is its public record |
| AuthController.RejectUser | controllers/authController.js:166-176 | an unknown id gives 404 with the store unchanged; otherwise exactly the target record is removed |
| AuthController.RejectCanRemoveLastAdmin | controllers/authController.js:170-176 | rejecting the only admin leaves no admin in the collection |
| AuthController.OtherAdminCounts | controllers/authController.js:170-176 | two admins with different ids make the admin count at least two |
| AuthMiddleware.Split | middleware/authMiddleware.js:11 | `split(' ')` gives at least one piece |
| AuthMiddleware.SplitWithoutSpace | middleware/authMiddleware.js:11 | a string without spaces splits into itself |
| AuthMiddleware.SplitAfterWord | middleware/authMiddleware.js:11 | a space-free word followed by more text is glued onto the first piece of that text |
| AuthMiddleware.SplitPiecesHaveNoSpace | middleware/authMiddleware.js:11 | no piece of a split contains a space |
| AuthMiddleware.BearerToken | middleware/authMiddleware.js:10-12 | a token is read only from a truthy header starting with 'Bearer', and it never contains a space |
| AuthMiddleware.BearerHeaderRoundTrip | client/src/services/api.js:21 | the header `Bearer ${token}` parses back to the same token when the token has no space |
| AuthMiddleware.Protect | middleware/authMiddleware.js:6-33 | next is called exactly when the token is present, verifies, names a stored user, and that user is approved; 401 'no token', 401 'token failed', 401 'User not found' and 403 'Account not approved' each exactly in their own case; no other reply is possible |
| AuthMiddleware.Admin | middleware/authMiddleware.js:35-41 | next is called exactly when req.user exists and its role is 'admin'; otherwise 403 'Access denied. Admin only.' |
| AuthMiddleware.ProtectWithoutBearerHeader | middleware/authMiddleware.js:10-16 | a missing header, or one not starting with 'Bearer', gives 401 'no token' |
| AuthMiddleware.ProtectAcceptsClientHeader | middleware/authMiddleware.js:10-29 | the client's header with a token that verifies to an approved stored user passes with that user |
| AuthRoutes.Routes | routes/authRoutes.js:7-19 | the route table: each route's method, path, guards and handler (a constant; its properties are AuthRoutes.GuardsByHandler and AuthRoutes.AdminRoutesNeedApprovedAdmin) |
| AuthRoutes.RunGuards | routes/authRoutes.js:7-19 | an empty chain passes the request through unchanged, and a chain only ever calls next, or replies 401 or 403 |
| AuthRoutes.Dispatch | routes/authRoutes.js:7-19 | a route without guards always reaches its handler, and a guarded one replies only 401 or 403 when it does not |
| AuthRoutes.ProtectThenAdmin | routes/authRoutes.js:14-19 | the chain protect, admin runs the handler exactly for a protect-accepted admin; protect's refusal passes through; an approved non-admin gets 403 |
| AuthRoutes.PublicAndMeRoutes | routes/authRoutes.js:7-11 | register and login always reach their handlers; /me runs exactly when protect passes |
| AuthRoutes.AdminRoutesNeedApprovedAdmin | routes/authRoutes.js:11-19 | each of the six admin routes runs protect then admin, so its handler runs exactly for an approved admin, and an approved non-admin reaches /me but gets 403 there |
| AuthRoutes.GuardsByHandler | routes/authRoutes.js:7-19 | register and login have no guard, /me only protect, and a route has protect, admin exactly when its handler is an admin handler |
| AuthRoutes.LoginTokenReachesMe | controllers/authController.js:90 | the token a successful login issues opens /me for the same account when verification inverts signing |
| CreateAdmin.SeedFields | scripts/createAdmin.js:20-26 | the seed record is 'Admin User', 'admin@example.com', role 'admin', approved |
| CreateAdmin.CreateAdminUser | scripts/createAdmin.js:12-28 | an existing admin means nothing is created; otherwise exactly one approved admin with the seed name and email is appended; the admin count ends at max(old count, 1) |
| CreateAdmin.RunRepeatedly | scripts/createAdmin.js:6-41 | any number of runs creates at most one record in total, and none when an admin existed |
| SegmentCard.Verbatim | client/src/components/SegmentCard.jsx:28 | the verbatim text is '' exactly when the field is missing or empty, the field otherwise |
| SegmentCard.Normalized | client/src/components/SegmentCard.jsx:29 | the normalized text is '' exactly when the field is missing or empty, the field otherwise |
| SegmentCard.Transcript | client/src/components/SegmentCard.jsx:30 | the initial transcript is the saved markup when non-empty, else the verbatim text; it is empty exactly when both are |
| SegmentCard.AudioPath | client/src/components/SegmentCard.jsx:31 | there is an audio path exactly when `segment.audio` is truthy, and it is audioBase followed by it |
| SegmentCard.Audio | client/src/components/SegmentCard.jsx:58-64 | the card shows 'No audio' exactly when there is no audio path, a player at that path otherwise |
| SegmentCard.IntendedAudio | client/src/components/SegmentCard.jsx:31 | the corrected card plays the segment's resolved `audio_path`, and shows 'No audio' exactly when it has none |
| Annotator.BatchListIsRange | client/src/components/Annotator.jsx:28-30 | the batch list is 1, 2, ..., max_batch: ascending, with exactly those members |
| Annotator.ProcessSegments | client/src/components/Annotator.jsx:68-71 | loaded segments keep their order and every field, and gain audio_path = '/data/audio/' + audio_filepath |
| Annotator.WithSavedRsml | client/src/components/Annotator.jsx:86-90 | a save changes only the markup of the segments with the saved id, and keeps the length |
| Annotator.SavePreservesAudioPaths | client/src/components/Annotator.jsx:86-90 | a save keeps every segment's audio path |
| Annotator.SavedMarkupShownOnCard | client/src/components/Annotator.jsx:86-90 | after a save, the card's `transcript` for that segment is the saved markup, or the verbatim text when '' was saved; a card already mounted keeps its textarea, which is uncontrolled |
| Annotator.LoadedSegmentStartsFromVerbatim | client/src/components/Annotator.jsx:157-162 | a loaded segment without markup starts from its verbatim text |
| Annotator.CardAudioAsWritten | client/src/components/Annotator.jsx:297-303 | as rendered, a card shows 'No audio' when `audio` is missing, and otherwise a source starting with "undefined" |
| Annotator.CardAudioCounterexample | client/src/components/SegmentCard.jsx:31 | a segment with a known file path whose card offers no audio |
| Annotator.LoadedSegmentPlaysItsFile | client/src/components/Annotator.jsx:68-71 | with the corrected card, every loaded segment plays its own file under the audio base |
| Annotator.SaveRequests | client/src/components/Annotator.jsx:106-108 | save-all sends one request per segment, in order, with its markup or '' |
| Annotator.Accepted | client/src/components/Annotator.jsx:106-114 | the number of accepted saves is at most the number of requests |
| Annotator.AcceptedSplit | client/src/components/Annotator.jsx:106-114 | each request's outcome counts independently of the others |
| Annotator.AcceptedBounds | client/src/components/Annotator.jsx:106-114 | every request counts exactly when all are accepted, none exactly when all fail |
| Annotator.SaveEach | client/src/components/Annotator.jsx:103-114 | the loop attempts every segment once, in order, continues past failures, and ends with successes + failures = the number of segments |
| Annotator.IndexOf | client/src/components/Annotator.jsx:131 | `indexOf` is the first position holding the number, and -1 exactly for NaN or a number not in the list |
| Annotator.PrevFile | client/src/components/Annotator.jsx:130-137 | prev moves exactly when the index is above 0, to the file before it |
| Annotator.NextFile | client/src/components/Annotator.jsx:139-146 | next moves exactly when the index is not the last, to the file after it (files[0] from index -1) |
| Annotator.IndexOfDistinct | client/src/components/Annotator.jsx:131 | in a list of distinct file numbers, `indexOf` of an element is its position |
| Annotator.PrevUndoesNext | client/src/components/Annotator.jsx:130-146 | next then prev returns to the same file |
| Annotator.NextUndoesPrev | client/src/components/Annotator.jsx:130-146 | prev then next returns to the same file |
| Annotator.PrevEnabled | client/src/components/Annotator.jsx:249 | the Prev button is enabled exactly when a file is chosen and its index is not 0 (a definition; its property is Annotator.ButtonsMatchHandlers) |
| Annotator.NextEnabled | client/src/components/Annotator.jsx:264 | the Next button is enabled exactly when a file is chosen and its index is not the last (a definition; its property is Annotator.ButtonsMatchHandlers) |
| Annotator.ButtonsMatchHandlers | client/src/components/Annotator.jsx:130-146 | for a selected file in the list, the prev and next buttons are enabled exactly when their handlers move |
| Annotator.LoadEffect | client/src/components/Annotator.jsx:148-169 | no batch means no change; otherwise loading ends false, and the segments become the processed reply with the error cleared, or stay with the error set |
| Annotator.Session.constructor | client/src/components/Annotator.jsx:12-18 | the session starts with no batches, files or segments, nothing chosen, not loading and no error |
| Annotator.Session.LoadBatches | client/src/components/Annotator.jsx:26-34 | the batches become 1..max_batch, or the error is set and the batches kept |
| Annotator.Session.HandleBatchChange | client/src/components/Annotator.jsx:36-50 | always clears the file and the segments; an empty batch fetches nothing; the files become the reply's list or [] |
| Annotator.Session.HandleFileChange | client/src/components/Annotator.jsx:52-54 | the file becomes the chosen value |
| Annotator.Session.LoadFileSegments | client/src/components/Annotator.jsx:148-169 | requests the current batch's file only with a batch, and then updates as the load effect says |
| Annotator.Session.HandleLoadSegments | client/src/components/Annotator.jsx:56-80 | nothing without both a batch and a file; otherwise the current file is loaded |
| Annotator.Session.HandleSave | client/src/components/Annotator.jsx:82-97 | a successful save writes the markup through to the segments with that id; a failed one leaves them untouched and reports the error |
| Annotator.Session.HandleSaveAll | client/src/components/Annotator.jsx:99-123 | nothing on an empty list; otherwise every segment is sent once, the segments are not changed, and the alert reports all saved or the two counts |
| Annotator.Session.HandlePrev | client/src/components/Annotator.jsx:130-137 | a no-op at index 0 or -1; otherwise moves to the previous file and loads it |
| Annotator.Session.HandleNext | client/src/components/Annotator.jsx:139-146 | a no-op at the last index; otherwise moves to the next file and loads it |
| AdminPanel.KeepApproval | client/src/components/AdminPanel.jsx:46-48 | the filter keeps exactly the rows with the chosen approval |
| AdminPanel.FilterUsers | client/src/components/AdminPanel.jsx:42-50 | 'all' shows the list unchanged, 'pending' exactly the unapproved rows, 'approved' exactly the approved ones |
| AdminPanel.KeepApprovalKeepsOrder | client/src/components/AdminPanel.jsx:45-48 | both filters keep the list's order |
| AdminPanel.FiltersPartition | client/src/components/AdminPanel.jsx:45-48 | 'pending' and 'approved' together hold every row exactly as often as the full list |
| AdminPanel.ShowsApprove | client/src/components/AdminPanel.jsx:273 | Approve shows exactly for an unapproved row (a definition; its properties are AdminPanel.RowActions) |
| AdminPanel.ShowsRevoke | client/src/components/AdminPanel.jsx:281 | Revoke shows exactly for an approved row that is not an admin (a definition; its properties are AdminPanel.RowActions) |
| AdminPanel.ShowsDelete | client/src/components/AdminPanel.jsx:289 | Delete shows exactly for a row that is not an admin (a definition; its properties are AdminPanel.RowActions) |
| AdminPanel.RowActions | client/src/components/AdminPanel.jsx:273-296 | an admin row never offers Revoke or Delete, Approve and Revoke never show together, and a row offers nothing exactly when it is an approved admin |
| AdminPanel.PendingTabIsApprovable | client/src/components/AdminPanel.jsx:45-48 | the 'pending' tab lists exactly the rows offering Approve, and no 'approved' row offers it |
| AdminPanel.FetchEffect | client/src/components/AdminPanel.jsx:28-40 | a fetch ends with loading false; a resolved one replaces users and stats and clears the error; a failed one keeps both and sets 'Failed to fetch users' |
| AdminPanel.WriteEffect | client/src/components/AdminPanel.jsx:52-86 | a failed write changes only the error, to its message; a successful one ends with loading false and the error cleared, with users and stats from the refetch when it resolves and kept when it fails |
| AdminPanel.DeleteFailureMessage | client/src/components/AdminPanel.jsx:83 | a failed delete shows the server's error when it is truthy, else 'Failed to delete user' |
| AdminPanel.PanelState.constructor | client/src/components/AdminPanel.jsx:7-12 | the panel starts with no users, zero stats, loading, no error and the 'all' filter, showing the empty list |
| AdminPanel.PanelState.ApplyFilter | client/src/components/AdminPanel.jsx:24-26 | the shown list becomes the filter of the full list |
| AdminPanel.PanelState.Mount | client/src/components/AdminPanel.jsx:16-22 | a non-admin is sent to '/', nothing is fetched and nothing changes; for an admin exactly one fetch of all users is sent and the whole panel state becomes the fetch's effect |
| AdminPanel.PanelState.FetchAllUsers | client/src/components/AdminPanel.jsx:28-40 | exactly one request for all users is sent, and the whole panel state becomes the fetch's effect, with the shown list following the filter |
| AdminPanel.PanelState.SetFilter | client/src/components/AdminPanel.jsx:181-198 | a tab sets the filter, and the shown list follows |
| AdminPanel.PanelState.WriteThenRefetch | client/src/components/AdminPanel.jsx:52-72 | the write is sent, and a refetch only after it succeeds; the whole panel state becomes the write's effect with the given failure message |
| AdminPanel.PanelState.HandleApprove | client/src/components/AdminPanel.jsx:52-61 | approve, then a refetch only on success; the whole panel state becomes the write's effect with 'Failed to approve user' as the failure message |
| AdminPanel.PanelState.HandleRevoke | client/src/components/AdminPanel.jsx:63-72 | revoke, then a refetch only on success; the whole panel state becomes the write's effect with 'Failed to revoke user' as the failure message |
| AdminPanel.PanelState.HandleDelete | client/src/components/AdminPanel.jsx:74-86 | nothing sent and nothing changed without the confirmation; otherwise delete, then a refetch only on success, and the whole panel state becomes the write's effect with the server's error, or 'Failed to delete user', as the failure message |
| RegisterForm.WithField | client/src/components/Register.jsx:18-23 | an input change replaces exactly the named field |
| RegisterForm.FormError | client/src/components/Register.jsx:31-39 | the form passes exactly when the passwords match and the password's `.length` is at least 6 UTF-16 code units; a mismatch is reported before the length |
| RegisterForm.ClientAgreesWithServer | client/src/components/Register.jsx:31-39 | with every input filled in, the client accepts a form exactly when the server's checks do, and both report a mismatch first |
| RegisterForm.ThreeEmojiPasswordPasses | client/src/components/Register.jsx:36-39 | a password of three emoji passes both the client's and the server's length check |
| RegisterForm.Form.constructor | client/src/components/Register.jsx:6-14 | the form starts with every field empty, no error, no success message and not loading |
| RegisterForm.Form.HandleChange | client/src/components/Register.jsx:18-23 | the form becomes the old one with the named field replaced |
| RegisterForm.Form.HandleSubmit | client/src/components/Register.jsx:25-62 | a failed check sets its message, calls nothing and never sets loading; otherwise register is called with the form, success clears every field and sets the message or the default, failure sets the error and keeps the form |
| ProtectedRoute.Decide | client/src/components/ProtectedRoute.jsx:5-28 | the spinner while loading; /login without a user; / for a non-admin on an admin-only page; the page exactly otherwise |
| ProtectedRoute.AnyUserPassesByDefault | client/src/components/ProtectedRoute.jsx:5 | without adminOnly, every logged-in user sees the page |
| ProtectedRoute.AdminOnlyMatchesServer | client/src/components/ProtectedRoute.jsx:24-26 | an admin-only page renders exactly when the server's `admin` middleware would call next for the same account |

## Findings

| source | as written | input that shows it | evidently intended | confidence | as-written member | corrected member |
|---|---|---|---|---|---|---|
| client/src/components/SegmentCard.jsx:31 | the card plays `audioBase + segment.audio`, but the annotator passes no `audioBase` and resolves the segment's file into `audio_path` instead (client/src/components/Annotator.jsx:68-71, 297-303) | a segment with `audio_filepath` 'b1/f1/s1.wav' and no `audio` gets the path '/data/audio/b1/f1/s1.wav', yet its card shows 'No audio'; a segment with `audio` 'x.wav' gets the source 'undefinedx.wav' | the card plays the segment's `audio_path` | medium, not executed | Annotator.CardAudioAsWritten | SegmentCard.IntendedAudio |

## Left out

- Database and server failures: the 500 replies that every controller sends from its `catch` block, and a failed save in the seed script, are not modelled.
- Password hashing by the schema's pre-save hook: the store keeps the password it was given, and `comparePassword` is a parameter.
- Token signing and verification are parameters. The 7-day expiry is a verification that fails. A malformed id, which Mongoose rejects by throwing, is not modelled: ids are numbers.
- The `User` schema is not part of this model. Its defaults for role and approval are a `SchemaDefaults` parameter of the store, so no particular default is assumed.
- `getAllUsers`, `revokeUser` and `deleteUser` are routed but not defined in the controller. Only the guards in front of them are modelled, and the stats the panel shows are taken as the server sends them.
- Express, CORS, static audio serving and the server's start-up; the axios wrapper apart from the `Bearer` header format; the login page; the guidelines dialog.
- The markup widget the card loads at run time, the rendering itself, `alert`, `window.confirm` (a parameter), `console` output and the 3-second redirect after registration.
- Asynchronous interleaving: each handler runs to completion with its awaited replies given as parameters, and React's state updates are applied in program order.
- Js.Interpolate: a missing field and a field that holds null are both `None`, printed as "undefined". The source prints "null" for a segment whose `audio_filepath` is null. The card's `audioBase` is an absent prop, so it is undefined as modelled.
- Js.NatToString: file numbers and `max_batch` are unbounded naturals. JavaScript numbers are doubles, and `toString` switches to exponent form from 1e21; neither is modelled.
- SegmentCard.IntendedAudio: the corrected card plays `audio_path` whenever it is set. The annotator sets it for every loaded segment, to '/data/audio/undefined' when `audio_filepath` is missing, so the corrected card shows a player, not 'No audio', for such a segment.
- AuthController.RegisterValidation: the request fields are taken to be strings or missing. Express parses any JSON value into the body, and the controller does not check types. A number, boolean, object or array is not modelled. For example, the number 1234 as both password fields is truthy, equal to itself, and has an undefined `.length`, so `undefined < 6` is false and the request goes on to `findOne` and `create`. The same holds for AuthController.Login, where a non-string email goes into `findOne({ email })` unchanged.
- Annotator.Accepted: whether a save succeeds is a function of the request sent. Two identical requests in one save-all (two segments with the same id and the same markup) therefore get the same outcome in the model. In the source each PUT can fail on its own. The bounds proved about the counts do not depend on this.
- Js.ParseInt: only leading decimal digits are read. Leading blanks, a sign and the number forms `parseInt` also accepts are not modelled, because the file selector only holds '' or printed file numbers.
- Annotator.Session.HandleSave: the error message of a failed request is a parameter; how axios builds it is not modelled.
- RegisterForm.Form.HandleSubmit: a failure without a message shows no error in the original (`undefined` is falsy); the model stores '' for it.
- The dates `approvedAt` and `createdAt` are opaque timestamps, and the registered date shown in the panel is not modelled.
