# pillow-listings account subsystem in Dafny

This project models the account subsystem of the pillow-listings web application, a small
listings board with user registration. The subsystem has three parts:

- the **form validation rules** that guard every write: registration, login, rename,
  listing, profile picture, movie review and search;
- the **document store** with its schema constraints:
  - users with unique usernames and emails;
  - items and reviews that reference an existing user;
- the **user-management request handlers**:
  - `register`, `login` and `logout`;
  - the account page, whose POST runs one of three sub-forms chosen by the submitted
    `submit` label: rename the current user, publish a listing, or replace the profile
    picture.

The session holds the login manager's session id, which *is* the username (`get_id`). It is
resolved by a username lookup (`load_user`). A rename therefore leaves the session holding
an id that no longer resolves. `Flows.RenameThenLogInAgain` and the rename branch of
`Routes.App.Account` state this.

Files, one module each:

- `wrappers.dfy`: `Option`.
- `validators.dfy`: the field validators and how a field runs its chain.
  - A validation error is recorded and the chain goes on.
  - A stop-validation error (`InputRequired`, `FileRequired`, `FileAllowed`) is recorded
    and the chain ends.
  - So an empty username gets only "This field is required.".
  - An over-long taken name gets both the length message and the taken message.
- `models.dfy`: `User`, `Item`, `Review`, the store invariant `StoreValid`, `GetId`,
  `LoadUser`, and lemmas that each store change keeps the invariant.
- `forms.dfy`: the errors each form collects, and lemmas that state each form's rules.
- `routes.dfy`: the class `App`, which holds the users, items, reviews and session.
  - Its methods `Register`, `Login`, `Logout` and `Account` change that state.
  - Their postconditions give the new state and the response for every path, including
    every failure path.
- `flows.dfy`: request sequences against a fresh `App`, taken from the scenarios of the
  repository's user tests.

Modelling choices:

- Item posters and review commenters are document references. Users are never deleted, so
  a user's position in `users` stands for its document id. A reference survives a rename.
- Responses are abstract: `Render(page, errors)`, `RedirectIndex`, `RedirectLogin`,
  `RedirectAccount`, `FlashRedirectLogin(message)`, `BadRequest` and `ServerError`.
- The password-hash primitive is a `Hasher` value (a hash function and a check function)
  given to `App`. Flows that log in require `Sound(hasher)`: a password checks against its
  own hash.
- The email-shape test of the `Email()` validator is a `string -> bool` given to `App`.
- The upload time (`current_time()`) is the `now` parameter of `Account`.

In these places the code behaves in ways a reader may not expect; the model follows the code:

- **Rename response.** After a successful rename the handler redirects to the endpoint
  `"bpUser  .logout"`, which does not exist. The rename is already saved (routes.py:78-79),
  and building the URL then fails. The model performs the rename and answers `ServerError`,
  not a redirect to the login page.
- **Listing description length.** The listing form accepts descriptions of 1 to 1000
  characters (forms.py:91). The `Item` schema demands 5 to 1000 (models.py:47). A 1 to 4
  character description passes the form, but saving it fails. The model answers
  `ServerError` and stores nothing (`Routes.ListingSaveAgreesWithForm`).
- **Missing `submit` field.** If an account POST has no `submit` field, reading it fails
  and the request is refused (`BadRequest`). This happens before any sub-form runs.
- **Login redirect.** A successful login redirects to the account page of the logged-in
  user (routes.py:48).

## Model

| member | source | states |
|---|---|---|
| `Validators.RunChain` | flask_app/forms.py:43-45 | a field has no errors exactly when every validator in its chain passes; every message comes from a failing validator; every failing validator before the first stopping one contributes its message |
| `Validators.ChainStopsAtFirstStop` | flask_app/forms.py:43-45 | the first stopping validator ends the chain: its message is the last one recorded, and no validator after it adds a message |
| `Validators.LengthMessageOneToForty` | flask_app/forms.py:44 | the message of `Length(1, 40)` is "Field must be between 1 and 40 characters long." |
| `Validators.LengthMessageOneToHundred` | flask_app/forms.py:30 | the message of `Length(1, 100)` is "Field must be between 1 and 100 characters long." |
| `Validators.LengthMessageFiveToFiveHundred` | flask_app/forms.py:37 | the message of `Length(5, 500)` is "Field must be between 5 and 500 characters long." |
| `Models.LoadUser` | flask_app/models.py:9-11 | the user loader finds nothing exactly when no stored user has the id as username; otherwise it finds the first user with that username |
| `Models.StoreValid` | flask_app/models.py:14-48 | the schema: usernames and emails unique, username of 1 to 40 characters, email present, item description of 5 to 1000 characters, review content of 5 to 500 characters, IMDb id of exactly 9 and movie title of 1 to 100, and every poster and commenter an existing user |
| `Models.ReferencesResolve` | flask_app/models.py:35-42 | in a valid store every item's poster and every review's commenter is a user whose session id loads that same user |
| `Models.GetIdResolves` | flask_app/models.py:30-31 | with unique usernames, a user's own session id (its username) resolves back to that user |
| `Models.RenameKeepsStoreValid` | flask_app/bpUser/routes.py:76-79 | renaming the current user to a valid name that no other user holds keeps usernames and emails unique and every reference valid; the new name resolves to the renamed user, and a changed old name resolves to nobody |
| `Models.AddUserKeepsStoreValid` | flask_app/bpUser/routes.py:28-31 | adding a valid user whose username and email are both free keeps the store valid, and the new user's id resolves to it |
| `Models.AddItemKeepsStoreValid` | flask_app/bpUser/routes.py:84-93 | saving an item that meets the Item schema keeps the store valid |
| `Models.ReplacePhotoKeepsStoreValid` | flask_app/bpUser/routes.py:108-115 | replacing a user's picture keeps the store valid and every session id resolving exactly as before |
| `Forms.SearchQueryErrors` | flask_app/forms.py:28-32 | a query is accepted exactly when its length is in [1, 100]; an empty one gets only the required message, an over-long one only "Field must be between 1 and 100 characters long." |
| `Forms.ReviewTextErrors` | flask_app/forms.py:35-39 | a comment is accepted exactly when its length is in [5, 500]; an empty one gets only the required message |
| `Forms.ReviewTextLengthMessage` | flask_app/forms.py:36-38 | a non-empty comment outside [5, 500] gets exactly "Field must be between 5 and 500 characters long." |
| `Forms.ReviewFormAgreesWithSchema` | flask_app/models.py:36 | the review form accepts exactly the comments the Review schema can store |
| `Forms.RegistrationErrors` | flask_app/forms.py:42-61 | a registration is accepted exactly when the username has 1 to 40 characters and is free, the email is present, well formed and free, the password is present and the confirmation equals it |
| `Forms.RegistrationUsernameRules` | flask_app/forms.py:43-56 | an empty username gets only "This field is required."; an over-long one gets the 1-to-40 length message; "Username is taken" appears exactly when the name is non-empty and a stored user has it |
| `Forms.RegistrationEmailRules` | flask_app/forms.py:58-61 | an empty email gets only the required message; a present, malformed one gets "Invalid email address."; "Email is taken" appears exactly when the email is non-empty and a stored user has it; the email field passes exactly when the email is present, well formed and free |
| `Forms.ConfirmPasswordRule` | flask_app/forms.py:48-50 | a present confirmation that differs from the password gets exactly "Field must be equal to password."; the field passes exactly when it is present and equal to the password |
| `Forms.LoginErrors` | flask_app/forms.py:64-67 | the login form only requires both fields: it is accepted exactly when both are non-empty, and each empty field gets the required message |
| `Forms.UpdateUsernameRules` | flask_app/forms.py:70-80 | an empty new name gets only the required message; an over-long one gets the length message; "That username is already taken" appears exactly when the name is non-empty, differs from the current user's and a stored user has it; the form passes exactly when the length is in [1, 40] and the name is the user's own or free |
| `Forms.RenameToOwnNameAccepted` | flask_app/forms.py:76-80 | keeping one's own valid name is accepted, although a stored user (oneself) has it |
| `Forms.PostItemErrors` | flask_app/forms.py:83-95 | a listing is accepted exactly when the price is present, rooms, restrooms and property type are among their fixed options, and the description has 1 to 1000 characters |
| `Forms.AnyPriceAccepted` | flask_app/forms.py:94-95 | the value of a present price never changes the listing form's outcome |
| `Forms.PhotoErrors` | flask_app/forms.py:98-102 | an upload is accepted exactly when a named file is present and its lower-cased name ends in .jpg, .jpeg or .png |
| `Forms.PhotoRules` | flask_app/forms.py:99-102 | a missing upload gets only the required message; a present file with another extension gets only "Images Only!" |
| `Routes.ParseSubmitter` | flask_app/bpUser/routes.py:73-95 | each sub-form is selected exactly when the submitted label equals its button text; any other label selects none |
| `Routes.ContentTypeOfImageNames` | flask_app/bpUser/routes.py:103-105 | the content type is cut from the name's last three characters, so a ".jpeg" file is stored as "images/peg", a ".jpg" one as "images/jpg" and a ".png" one as "images/png" |
| `Routes.ProfileImage` | flask_app/bpUser/routes.py:128-132 | with unique usernames, the image shown is the stored picture of the user with that username, or empty when there is none |
| `Routes.CredentialsMatch` | flask_app/bpUser/routes.py:44-46 | with unique usernames, the credentials match exactly when some stored user has the username and the password checks against that user's hash |
| `Routes.ListingSaveAgreesWithForm` | flask_app/models.py:47 | of the listings the form accepts, exactly those with a description of at least 5 characters can be saved |
| `Routes.App.CurrentUser` | flask_app/models.py:9-11 | the current user is the user the session id resolves to; it exists whenever the session id is a stored username |
| `Routes.App.Register` | flask_app/bpUser/routes.py:22-34 | an authenticated caller is redirected to the index and nothing changes; a GET renders the form; an accepted POST appends exactly one user holding the hash of the password and redirects to login; a refused POST changes nothing and renders the errors; the store invariant is kept |
| `Routes.App.Login` | flask_app/bpUser/routes.py:37-53 | no collection changes; an authenticated caller is redirected to the index; form errors are rendered; the session is bound to the username exactly when the credentials match, otherwise the failure message is flashed and the session is unchanged |
| `Routes.App.Logout` | flask_app/bpUser/routes.py:56-60 | a logged-in user's session is cleared and the index is shown; without a resolving session nothing changes and the login page is shown |
| `Routes.App.Account` | flask_app/bpUser/routes.py:63-124 | without a resolving session, redirect to login and no change; every change targets the session's user and never the URL's name; at most one sub-form runs, chosen by its label; a refused sub-form or an unknown label changes nothing and renders the page; a rename changes only that user's name, after which the new name resolves to the user and the old one to nobody; a publish appends exactly one item posted by that user with the form's values; a picture update replaces that user's picture whether or not one existed and renders it; the store invariant is kept |
| `Flows.RegisterThenLogin` | tests/test_users.py:38-46 | registering and logging in with the same credentials binds the session to the username |
| `Flows.RegisterTwice` | tests/test_users.py:20-33 | a second registration of a name is refused with "Username is taken" and the store keeps exactly one user of that name |
| `Flows.RenameThenLogInAgain` | tests/test_users.py:96-137 | after a rename the old session id no longer resolves; logging in under the new name binds the new id; the store holds the new name and not the old |
| `Flows.RenameOntoTakenName` | tests/test_users.py:142-170 | renaming onto another user's name is refused with "That username is already taken" and changes no user |
| `Flows.WrongPassword` | tests/test_users.py:48-73 | a wrong password flashes "Login failed. Check your username and/or password" and leaves the session unset |
| `Flows.PublishOneListing` | flask_app/bpUser/routes.py:81-94 | publishing a valid listing redirects to the index and stores exactly one item, posted by the logged-in user |
| `Flows.RejectNonImage` | flask_app/bpUser/routes.py:95-115 | after a picture is stored, an upload that is not an image is refused with "Images Only!" and the stored picture stays |

## Left out

- HTML rendering, `url_for`, `flash` and the debug output: responses are abstract values. The login page that `login_required` sends anonymous callers to is configured in a file that is not part of this model; it is taken to be the login page.
- CSRF-token checking, which is part of `validate_on_submit`, is not modelled.
- The password-hash primitive: hashing and checking are parameters. Hashes are not salted in the model, so registering the same password twice stores the same hash.
- `Email()`: the email-shape test is a parameter. The schema's own email-field check on save is not modelled separately; the model requires only that the email is present.
- `secure_filename` is taken to leave the uploaded file name unchanged. The content type is cut from that name.
- GridFS storage of the picture is modelled as bytes plus a content type. `get_b64_img`'s base64 step is not modelled.
- `current_time()` is not part of this model; `now` is a parameter.
- Python's `lower()` is modelled on ASCII letters only.
- `Routes.ProfileImage` requires that the username resolves. The source fails when it does not; the account page only calls it for the current user, whose name always resolves.
- The `submit.data` checks inside each account branch are not modelled separately. They hold whenever the label matches, because each button text is a non-empty, non-false value.
- Review creation: the movie routes are commented out, so no handler creates a review. Reviews are carried in the store only so that their schema constraints belong to the invariant. Only the review and search form rules are modelled.
- The listing board's read-only views (`flask_app/bpItem/routes.py`).
- Concurrent requests, including two renames racing past the same uniqueness check. The model handles one request at a time.
- Mongo document ids are modelled as positions in the user collection. This is exact only because no operation deletes a user.
