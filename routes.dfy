/**
  The user-management request handlers: register, login, logout and the
  account page, whose POST runs one of three sub-forms chosen by the
  submitted `submit` tag. The application state is the user, item and
  review collections plus the session, which holds the session id (the
  username given at login) or nothing.

  Page rendering, redirects and flashed messages are reduced to a Response
  value. The password-hash primitive and the email-shape test are supplied
  when the application is created.
 */
module Routes {

  import opened Wrappers
  import opened Validators
  import opened Models
  import opened Forms

  datatype Verb = GET | POST

  /** The password-hash primitive: hash a password, check a password against a stored hash. */
  datatype Hasher = Hasher(hash: string -> string, check: (string, string) -> bool)

  /** A password always checks against its own hash. */
  ghost predicate Sound(h: Hasher)
  {
    forall p :: h.check(h.hash(p), p)
  }

  /** The page a response renders; the account page shows the current user's picture. */
  datatype Page = RegisterPage | LoginPage | AccountPage(image: seq<bv8>)

  datatype Response =
    | Render(page: Page, errors: seq<FieldError>)
    | RedirectIndex
    | RedirectLogin
    | RedirectAccount(username: string)
    | FlashRedirectLogin(message: string)
    | BadRequest
    | ServerError

  const LoginFailedMessage := "Login failed. Check your username and/or password"

  /** The sub-form of the account page a POST is for. */
  datatype Submitter = UpdateUsername | PublishListing | UpdatePhoto | Other

  /** The submitted tag selects a sub-form by exact equality with that form's button text. */
  function ParseSubmitter(tag: string): (s: Submitter)
    ensures s == UpdateUsername <==> tag == "Update Username"
    ensures s == PublishListing <==> tag == "Publish your listing"
    ensures s == UpdatePhoto <==> tag == "Update profile picture"
  {
    if tag == "Update Username" then UpdateUsername
    else if tag == "Publish your listing" then PublishListing
    else if tag == "Update profile picture" then UpdatePhoto
    else Other
  }

  /** The last three characters of a name, or the whole of a shorter one. */
  function LastThree(s: string): string
  {
    if |s| >= 3 then s[|s| - 3..] else s
  }

  /** The content type a profile picture is stored with: "images/" and the name's last three characters. */
  function ContentType(filename: string): string
  {
    "images/" + LastThree(filename)
  }

  /**
    The content type is cut from the file name, not derived from the
    extension: a ".jpeg" file is stored as "images/peg".
   */
  lemma ContentTypeOfImageNames(filename: string)
    ensures EndsWith(filename, ".jpeg") ==> ContentType(filename) == "images/peg"
    ensures EndsWith(filename, ".jpg") ==> ContentType(filename) == "images/jpg"
    ensures EndsWith(filename, ".png") ==> ContentType(filename) == "images/png"
  {
    var n := |filename|;
    if EndsWith(filename, ".jpeg") {
      assert filename[n - 3..] == filename[n - 5..][2..];
    }
    if EndsWith(filename, ".jpg") || EndsWith(filename, ".png") {
      assert filename[n - 3..] == filename[n - 4..][1..];
    }
  }

  /** The stored picture of the user with this username (without the base64 step), or nothing. */
  function ProfileImage(users: seq<User>, username: string): (image: seq<bv8>)
    requires UsernameTaken(users, username)
    ensures UniqueUsernames(users) ==>
              forall i :: 0 <= i < |users| && users[i].username == username ==>
                image == (if users[i].profilePic.Some? then users[i].profilePic.value.bytes else [])
  {
    var i := LoadUser(users, username).value;
    match users[i].profilePic
    case None => []
    case Some(photo) => photo.bytes
  }

  /** A user is found by the given username and the password checks against the stored hash. */
  function CredentialsMatch(users: seq<User>, hasher: Hasher, form: LoginInput): (ok: bool)
    ensures UniqueUsernames(users) ==>
              (ok <==> exists i :: 0 <= i < |users| && users[i].username == form.username &&
                                   hasher.check(users[i].password, form.password))
  {
    match LoadUser(users, form.username)
    case None => false
    case Some(i) => hasher.check(users[i].password, form.password)
  }

  /** The listing a validated form publishes, posted by user `poster`. */
  function NewItem(poster: nat, form: ListingInput, date: string): Item
  {
    Item(poster, form.price, form.rooms, form.restrooms, form.propertyType, form.description, date)
  }

  /**
    Of the listings the form accepts, the store saves exactly those whose
    description has at least five characters: the form allows one to four,
    the Item schema does not.
   */
  lemma ListingSaveAgreesWithForm(poster: nat, form: ListingInput, date: string, userCount: nat)
    requires PostItemErrors(form) == [] && poster < userCount
    ensures ItemValid(NewItem(poster, form, date), userCount) <==> |form.description| >= 5
  {
  }

  /** What an account-page POST carries for the three sub-forms. */
  datatype AccountInput = AccountInput(username: string, listing: ListingInput, photo: Option<Upload>)

  class App {
    var users: seq<User>
    var items: seq<Item>
    var reviews: seq<Review>
    /** The session id given at login (the username), or nothing when logged out. */
    var session: Option<string>
    const hasher: Hasher
    const isEmail: string -> bool

    ghost predicate Valid()
      reads this
    {
      StoreValid(users, items, reviews)
    }

    /** The user loader applied to the session id. */
    function CurrentUser(): (r: Option<nat>)
      reads this
      ensures r.Some? ==> session.Some? && r.value < |users| && GetId(users[r.value]) == session.value
      ensures session.Some? && UsernameTaken(users, session.value) ==> r.Some?
    {
      if session.None? then None else LoadUser(users, session.value)
    }

    predicate Authenticated()
      reads this
    {
      CurrentUser().Some?
    }

    /** The account page for the current user, with the given form errors. */
    function AccountView(errors: seq<FieldError>): Response
      reads this
      requires Authenticated()
    {
      Render(AccountPage(ProfileImage(users, session.value)), errors)
    }

    constructor (hasher: Hasher, isEmail: string -> bool)
      ensures Valid()
      ensures users == [] && items == [] && reviews == [] && session == None
      ensures this.hasher == hasher && this.isEmail == isEmail
    {
      this.hasher := hasher;
      this.isEmail := isEmail;
      users, items, reviews, session := [], [], [], None;
    }

    /**
      Registration: an authenticated caller is sent to the index; an accepted
      form adds exactly one user, holding the hash of the password.
     */
    method Register(request: Verb, form: RegistrationInput) returns (response: Response)
      requires Valid()
      modifies this
      ensures Valid()
      ensures items == old(items) && reviews == old(reviews) && session == old(session)
      ensures old(Authenticated()) ==> response == RedirectIndex && users == old(users)
      ensures !old(Authenticated()) && request == GET ==> response == Render(RegisterPage, []) && users == old(users)
      ensures !old(Authenticated()) && request == POST ==>
                var errors := RegistrationErrors(old(users), isEmail, form);
                if errors == [] then
                  && users == old(users) + [User(form.username, form.email, hasher.hash(form.password), None)]
                  && response == RedirectLogin
                else
                  users == old(users) && response == Render(RegisterPage, errors)
    {
      if Authenticated() {
        return RedirectIndex;
      }
      if request == GET {
        return Render(RegisterPage, []);
      }
      var errors := RegistrationErrors(users, isEmail, form);
      if errors != [] {
        return Render(RegisterPage, errors);
      }
      var user := User(form.username, form.email, hasher.hash(form.password), None);
      AddUserKeepsStoreValid(users, items, reviews, user);
      users := users + [user];
      response := RedirectLogin;
    }

    /**
      Login: the session is bound to the username exactly when a user with
      that name exists and the password checks against its hash.
     */
    method Login(request: Verb, form: LoginInput) returns (response: Response)
      requires Valid()
      modifies this
      ensures Valid()
      ensures users == old(users) && items == old(items) && reviews == old(reviews)
      ensures old(Authenticated()) ==> response == RedirectIndex && session == old(session)
      ensures !old(Authenticated()) && request == GET ==> response == Render(LoginPage, []) && session == old(session)
      ensures !old(Authenticated()) && request == POST ==>
                if LoginErrors(form) != [] then
                  response == Render(LoginPage, LoginErrors(form)) && session == old(session)
                else if CredentialsMatch(users, hasher, form) then
                  && session == Some(form.username)
                  && CurrentUser() == LoadUser(users, form.username)
                  && response == RedirectAccount(form.username)
                else
                  response == FlashRedirectLogin(LoginFailedMessage) && session == old(session)
    {
      if Authenticated() {
        return RedirectIndex;
      }
      if request == GET {
        return Render(LoginPage, []);
      }
      var errors := LoginErrors(form);
      if errors != [] {
        return Render(LoginPage, errors);
      }
      var found := LoadUser(users, form.username);
      if found.Some? && hasher.check(users[found.value].password, form.password) {
        session := Some(GetId(users[found.value]));
        response := RedirectAccount(users[found.value].username);
      } else {
        response := FlashRedirectLogin(LoginFailedMessage);
      }
    }

    /** Logout clears the session; without a resolving session it redirects to the login page. */
    method Logout() returns (response: Response)
      requires Valid()
      modifies this
      ensures Valid()
      ensures users == old(users) && items == old(items) && reviews == old(reviews)
      ensures old(Authenticated()) ==> session == None && response == RedirectIndex
      ensures !old(Authenticated()) ==> session == old(session) && response == RedirectLogin
    {
      if !Authenticated() {
        return RedirectLogin;
      }
      session := None;
      response := RedirectIndex;
    }

    /**
      The account page. Every change targets the session's user; the user
      name in the URL is never read. A POST runs at most one sub-form, chosen
      by its tag; a sub-form that fails validation changes nothing and the
      page is rendered with its errors.
     */
    method Account(urlUsername: string, request: Verb, submit: Option<string>, form: AccountInput, now: string)
      returns (response: Response)
      requires Valid()
      modifies this
      ensures Valid()
      ensures reviews == old(reviews) && session == old(session)
      ensures !old(Authenticated()) ==> response == RedirectLogin && unchanged(this)
      ensures old(Authenticated()) && request == GET ==> unchanged(this) && response == AccountView([])
      ensures old(Authenticated()) && request == POST && submit.None? ==> unchanged(this) && response == BadRequest
      ensures old(Authenticated()) && request == POST && submit.Some? ==>
                var me := old(CurrentUser()).value;
                match ParseSubmitter(submit.value)
                case Other =>
                  unchanged(this) && response == AccountView([])
                case UpdateUsername =>
                  var errors := Label("username", UpdateUsernameErrors(old(users), old(users)[me].username, form.username));
                  if errors == [] then
                    && users == Renamed(old(users), me, form.username)
                    && items == old(items)
                    && response == ServerError
                    && LoadUser(users, form.username) == Some(me)
                    && (form.username != old(users)[me].username ==> !Authenticated())
                  else
                    unchanged(this) && response == AccountView(errors)
                case PublishListing =>
                  var errors := PostItemErrors(form.listing);
                  var item := NewItem(me, form.listing, now);
                  if errors == [] && ItemValid(item, |old(users)|) then
                    users == old(users) && items == old(items) + [item] && response == RedirectIndex
                  else if errors == [] then
                    unchanged(this) && response == ServerError
                  else
                    unchanged(this) && response == AccountView(errors)
                case UpdatePhoto =>
                  var errors := PhotoErrors(form.photo);
                  if errors == [] then
                    var upload := form.photo.value;
                    && users == old(users)[me := old(users)[me].(profilePic := Some(Photo(upload.stream, ContentType(upload.filename))))]
                    && items == old(items)
                    && response == Render(AccountPage(upload.stream), [])
                  else
                    unchanged(this) && response == AccountView(errors)
    {
      if !Authenticated() {
        return RedirectLogin;
      }
      var me := CurrentUser().value;
      if request == GET {
        return AccountView([]);
      }
      if submit.None? {
        return BadRequest;
      }
      var submitter := ParseSubmitter(submit.value);
      var errors: seq<FieldError> := [];
      if submitter == UpdateUsername {
        errors := Label("username", UpdateUsernameErrors(users, users[me].username, form.username));
        if errors == [] {
          UpdateUsernameRules(users, users[me].username, form.username);
          RenameKeepsStoreValid(users, items, reviews, me, form.username);
          users := Renamed(users, me, form.username);
          // the redirect that follows names an endpoint that does not exist
          return ServerError;
        }
      } else if submitter == PublishListing {
        errors := PostItemErrors(form.listing);
        if errors == [] {
          var item := NewItem(me, form.listing, now);
          if !ItemValid(item, |users|) {
            // saving raises a validation error of the Item schema
            return ServerError;
          }
          items := items + [item];
          return RedirectIndex;
        }
      } else if submitter == UpdatePhoto {
        errors := PhotoErrors(form.photo);
        if errors == [] {
          var upload := form.photo.value;
          var pic := Photo(upload.stream, ContentType(upload.filename));
          ReplacePhotoKeepsStoreValid(users, items, reviews, me, pic);
          users := users[me := users[me].(profilePic := Some(pic))];
        }
      }
      response := AccountView(errors);
    }
  }
}
