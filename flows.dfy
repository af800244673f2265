/**
  Request sequences against a fresh application, each stating what the
  handlers' contracts guarantee about the whole exchange: registering and
  logging in, registering a name twice, renaming (and the session the rename
  leaves behind), renaming onto another user's name, a wrong password,
  publishing a listing and uploading a picture that is not an image.
 */
module Flows {

  import opened Wrappers
  import opened Validators
  import opened Models
  import opened Forms
  import opened Routes

  const NoListing := ListingInput("", "", "", "", "")

  /** A fresh application after one user has registered and logged in. */
  method LoggedIn(hasher: Hasher, isEmail: string -> bool, name: string, email: string, password: string)
    returns (app: App)
    requires Sound(hasher)
    requires 1 <= |name| <= 40 && email != "" && isEmail(email) && password != ""
    ensures fresh(app) && app.Valid() && app.hasher == hasher && app.isEmail == isEmail
    ensures app.users == [User(name, email, hasher.hash(password), None)]
    ensures app.items == [] && app.session == Some(name)
    ensures app.CurrentUser() == Some(0)
  {
    app := new App(hasher, isEmail);
    var registered := app.Register(POST, RegistrationInput(name, email, password, password));
    assert app.users == [User(name, email, hasher.hash(password), None)];
    var loggedIn := app.Login(POST, LoginInput(name, password));
    assert LoadUser(app.users, name) == Some(0);
  }

  /** Registering and then logging in with the same credentials binds the session to the username. */
  method RegisterThenLogin(hasher: Hasher, isEmail: string -> bool, name: string, email: string, password: string)
    returns (session: Option<string>)
    requires Sound(hasher)
    requires 1 <= |name| <= 40 && email != "" && isEmail(email) && password != ""
    ensures session == Some(name)
  {
    var app := new App(hasher, isEmail);
    var registered := app.Register(POST, RegistrationInput(name, email, password, password));
    var loggedIn := app.Login(POST, LoginInput(name, password));
    session := app.session;
  }

  /** A second registration of a name is refused as taken; the store keeps one user of that name. */
  method RegisterTwice(
    hasher: Hasher, isEmail: string -> bool, name: string, email: string, otherEmail: string, password: string)
    returns (second: Response, stored: seq<User>)
    requires 1 <= |name| <= 40 && email != "" && isEmail(email) && password != ""
    ensures second.Render? && second.page == RegisterPage
    ensures FieldError("username", UsernameTakenMessage) in second.errors
    ensures |stored| == 1 && stored[0].username == name
  {
    var app := Registered(hasher, isEmail, name, email, password);
    RegistrationUsernameRules(app.users, name);
    second := app.Register(POST, RegistrationInput(name, otherEmail, password, password));
    stored := app.users;
    var messages := RegistrationUsernameErrors(stored, name);
    var k :| 0 <= k < |messages| && messages[k] == UsernameTakenMessage;
    assert second.errors[k] == FieldError("username", UsernameTakenMessage);
  }

  /**
    After a rename the old session id resolves to nobody, so the user is no
    longer logged in; logging in under the new name binds the new id.
   */
  method RenameThenLogInAgain(
    hasher: Hasher, isEmail: string -> bool, oldName: string, newName: string,
    email: string, password: string, now: string)
    returns (staleResolves: bool, session: Option<string>, stored: seq<User>)
    requires Sound(hasher)
    requires 1 <= |oldName| <= 40 && 1 <= |newName| <= 40 && oldName != newName
    requires email != "" && isEmail(email) && password != ""
    ensures !staleResolves
    ensures session == Some(newName)
    ensures |stored| == 1 && stored[0].username == newName && !UsernameTaken(stored, oldName)
  {
    var app := LoggedIn(hasher, isEmail, oldName, email, password);
    UpdateUsernameRules(app.users, oldName, newName);
    var renamed := app.Account(oldName, POST, Some("Update Username"), AccountInput(newName, NoListing, None), now);
    assert app.users == [User(newName, email, hasher.hash(password), None)];
    staleResolves := app.Authenticated();
    var again := app.Login(POST, LoginInput(newName, password));
    session := app.session;
    stored := app.users;
  }

  /** A fresh application after one user has registered, with nobody logged in. */
  method Registered(hasher: Hasher, isEmail: string -> bool, name: string, email: string, password: string)
    returns (app: App)
    requires 1 <= |name| <= 40 && email != "" && isEmail(email) && password != ""
    ensures fresh(app) && app.Valid() && app.hasher == hasher && app.isEmail == isEmail
    ensures app.users == [User(name, email, hasher.hash(password), None)]
    ensures app.items == [] && app.session == None
  {
    app := new App(hasher, isEmail);
    var registered := app.Register(POST, RegistrationInput(name, email, password, password));
  }

  /** A second registration, with a name and an email the stored user does not have. */
  method RegisterAnother(app: App, name: string, email: string, password: string)
    requires app.Valid() && app.session == None && |app.users| == 1
    requires app.users[0].username != name && app.users[0].email != email
    requires 1 <= |name| <= 40 && email != "" && app.isEmail(email) && password != ""
    modifies app
    ensures app.Valid() && app.session == None
    ensures app.users == old(app.users) + [User(name, email, app.hasher.hash(password), None)]
  {
    assert !UsernameTaken(app.users, name) && !EmailTaken(app.users, email);
    var registered := app.Register(POST, RegistrationInput(name, email, password, password));
  }

  /** A fresh application after two users have registered and the second has logged in. */
  method SecondLoggedIn(
    hasher: Hasher, isEmail: string -> bool, first: string, second: string,
    firstEmail: string, secondEmail: string, password: string)
    returns (app: App)
    requires Sound(hasher)
    requires 1 <= |first| <= 40 && 1 <= |second| <= 40 && first != second
    requires firstEmail != "" && isEmail(firstEmail) && secondEmail != "" && isEmail(secondEmail)
    requires firstEmail != secondEmail && password != ""
    ensures fresh(app) && app.Valid() && app.isEmail == isEmail
    ensures app.users == [User(first, firstEmail, hasher.hash(password), None), User(second, secondEmail, hasher.hash(password), None)]
    ensures app.session == Some(second) && app.CurrentUser() == Some(1)
  {
    app := Registered(hasher, isEmail, first, firstEmail, password);
    RegisterAnother(app, second, secondEmail, password);
    assert LoadUser(app.users, second) == Some(1);
    var loggedIn := app.Login(POST, LoginInput(second, password));
  }

  /** Renaming onto another user's name is refused as taken and changes nothing. */
  method RenameOntoTakenName(
    hasher: Hasher, isEmail: string -> bool, first: string, second: string,
    firstEmail: string, secondEmail: string, password: string, now: string)
    returns (response: Response, before: seq<User>, after: seq<User>)
    requires Sound(hasher)
    requires 1 <= |first| <= 40 && 1 <= |second| <= 40 && first != second
    requires firstEmail != "" && isEmail(firstEmail) && secondEmail != "" && isEmail(secondEmail)
    requires firstEmail != secondEmail && password != ""
    ensures response.Render? && FieldError("username", RenameTakenMessage) in response.errors
    ensures after == before && |after| == 2
  {
    var app := SecondLoggedIn(hasher, isEmail, first, second, firstEmail, secondEmail, password);
    before := app.users;
    UpdateUsernameRules(before, second, first);
    response := app.Account(second, POST, Some("Update Username"), AccountInput(first, NoListing, None), now);
    after := app.users;
    var messages := UpdateUsernameErrors(before, second, first);
    var k :| 0 <= k < |messages| && messages[k] == RenameTakenMessage;
    assert response.errors[k] == FieldError("username", RenameTakenMessage);
  }

  /** A wrong password flashes the login failure and leaves the session unset. */
  method WrongPassword(
    hasher: Hasher, isEmail: string -> bool, name: string, email: string, password: string, attempt: string)
    returns (response: Response, session: Option<string>)
    requires 1 <= |name| <= 40 && email != "" && isEmail(email) && password != "" && attempt != ""
    requires !hasher.check(hasher.hash(password), attempt)
    ensures response == FlashRedirectLogin(LoginFailedMessage)
    ensures session == None
  {
    var app := new App(hasher, isEmail);
    var registered := app.Register(POST, RegistrationInput(name, email, password, password));
    response := app.Login(POST, LoginInput(name, attempt));
    session := app.session;
  }

  /** Publishing a valid listing stores exactly one item, posted by the logged-in user. */
  method PublishOneListing(
    hasher: Hasher, isEmail: string -> bool, name: string, email: string, password: string,
    listing: ListingInput, now: string)
    returns (response: Response, items: seq<Item>, users: seq<User>)
    requires Sound(hasher)
    requires 1 <= |name| <= 40 && email != "" && isEmail(email) && password != ""
    requires PostItemErrors(listing) == [] && |listing.description| >= 5
    ensures response == RedirectIndex
    ensures items == [NewItem(0, listing, now)] && |users| == 1 && users[0].username == name
  {
    var app := LoggedIn(hasher, isEmail, name, email, password);
    response := app.Account(name, POST, Some("Publish your listing"), AccountInput("", listing, None), now);
    items := app.items;
    users := app.users;
  }

  /** After a picture is stored, an upload that is not an image is refused and the stored picture stays. */
  method RejectNonImage(
    hasher: Hasher, isEmail: string -> bool, name: string, email: string, password: string,
    image: Upload, other: Upload, now: string)
    returns (response: Response, stored: Option<Photo>)
    requires Sound(hasher)
    requires 1 <= |name| <= 40 && email != "" && isEmail(email) && password != ""
    requires image.filename != "" && HasExtension(image.filename, ImageExtensions)
    requires other.filename != "" && !HasExtension(other.filename, ImageExtensions)
    ensures response.Render? && response.errors == [FieldError("photo", ImagesOnlyMessage)]
    ensures stored == Some(Photo(image.stream, ContentType(image.filename)))
  {
    var app := LoggedIn(hasher, isEmail, name, email, password);
    var first := app.Account(name, POST, Some("Update profile picture"), AccountInput("", NoListing, Some(image)), now);
    PhotoRules(Some(other));
    response := app.Account(name, POST, Some("Update profile picture"), AccountInput("", NoListing, Some(other)), now);
    stored := app.users[0].profilePic;
  }
}
