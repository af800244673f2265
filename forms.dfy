/**
  The forms of the site and the errors each collects when it is validated.
  A field's errors are the messages of its validator chain (see
  Validators.RunChain); a form's errors list every failing field, in the
  order the form declares its fields. A form is accepted when it has no
  errors. Uniqueness checks read a snapshot of the stored users.
 */
module Forms {

  import opened Wrappers
  import opened Validators
  import opened Models

  datatype FieldError = FieldError(field: string, message: string)

  /** Tags each message of a field with the field's name. */
  function Label(field: string, messages: seq<string>): (errors: seq<FieldError>)
    ensures |errors| == |messages|
    ensures forall k :: 0 <= k < |messages| ==> errors[k] == FieldError(field, messages[k])
  {
    seq(|messages|, k requires 0 <= k < |messages| => FieldError(field, messages[k]))
  }

  /** An inline validator that looks a value up and raises `message` when it is found. */
  function Unique(found: bool, message: string): Check
  {
    if found then Fail(message) else Pass
  }

  // ---------------------------------------------------------------- SearchForm

  function SearchQueryErrors(query: string): (errors: seq<string>)
    ensures errors == [] <==> 1 <= |query| <= 100
    ensures query == "" ==> errors == [RequiredMessage]
    ensures query != "" && |query| > 100 ==> errors == ["Field must be between 1 and 100 characters long."]
  {
    LengthMessageOneToHundred();
    ChainOfTwo(InputRequired(query), Length(query, 1, 100));
    RunChain([InputRequired(query), Length(query, 1, 100)])
  }

  // ----------------------------------------------------------- MovieReviewForm

  function ReviewTextErrors(text: string): (errors: seq<string>)
    ensures errors == [] <==> 5 <= |text| <= 500
    ensures text == "" ==> errors == [RequiredMessage]
  {
    ChainOfTwo(InputRequired(text), Length(text, 5, 500));
    RunChain([InputRequired(text), Length(text, 5, 500)])
  }

  /** A non-empty comment outside [5, 500] gets exactly the length message. */
  lemma ReviewTextLengthMessage(text: string)
    requires text != "" && !(5 <= |text| <= 500)
    ensures ReviewTextErrors(text) == ["Field must be between 5 and 500 characters long."]
  {
    LengthMessageFiveToFiveHundred();
    ChainOfTwo(InputRequired(text), Length(text, 5, 500));
  }

  /** The review form accepts exactly the comments the Review schema can store. */
  lemma ReviewFormAgreesWithSchema(text: string, review: Review, userCount: nat)
    requires review.content == text
    requires review.commenter < userCount && |review.imdbId| == 9 && 1 <= |review.movieTitle| <= 100
    ensures ReviewTextErrors(text) == [] <==> ReviewValid(review, userCount)
  {
  }

  // ---------------------------------------------------------- RegistrationForm

  datatype RegistrationInput = RegistrationInput(
    username: string,
    email: string,
    password: string,
    confirmPassword: string)

  const UsernameTakenMessage := "Username is taken"
  const EmailTakenMessage := "Email is taken"

  /** InputRequired, Length(1, 40), then validate_username. */
  function RegistrationUsernameErrors(users: seq<User>, username: string): seq<string>
  {
    RunChain([
      InputRequired(username),
      Length(username, 1, 40),
      Unique(LoadUser(users, username).Some?, UsernameTakenMessage)])
  }

  /** InputRequired, Email(), then validate_email. */
  function RegistrationEmailErrors(users: seq<User>, isEmail: string -> bool, email: string): seq<string>
  {
    RunChain([
      InputRequired(email),
      Email(isEmail, email),
      Unique(EmailTaken(users, email), EmailTakenMessage)])
  }

  function PasswordErrors(password: string): seq<string>
  {
    RunChain([InputRequired(password)])
  }

  /** InputRequired, then EqualTo("password"). */
  function ConfirmPasswordErrors(confirmPassword: string, password: string): seq<string>
  {
    RunChain([InputRequired(confirmPassword), EqualTo(confirmPassword, password, "password")])
  }

  /** What a registration must satisfy, stated without the validator machinery. */
  predicate RegistrationAcceptable(users: seq<User>, isEmail: string -> bool, form: RegistrationInput)
  {
    && 1 <= |form.username| <= 40
    && !UsernameTaken(users, form.username)
    && form.email != ""
    && isEmail(form.email)
    && !EmailTaken(users, form.email)
    && form.password != ""
    && form.confirmPassword == form.password
  }

  function RegistrationErrors(users: seq<User>, isEmail: string -> bool, form: RegistrationInput): (errors: seq<FieldError>)
    ensures errors == [] <==> RegistrationAcceptable(users, isEmail, form)
  {
    RegistrationUsernameRules(users, form.username);
    RegistrationEmailRules(users, isEmail, form.email);
    ChainOfOne(InputRequired(form.password));
    ConfirmPasswordRule(form.confirmPassword, form.password);
    Label("username", RegistrationUsernameErrors(users, form.username))
    + Label("email", RegistrationEmailErrors(users, isEmail, form.email))
    + Label("password", PasswordErrors(form.password))
    + Label("confirm_password", ConfirmPasswordErrors(form.confirmPassword, form.password))
  }

  /**
    The username rules of registration: an empty name gets only the required
    message, an over-long one the length message, and "Username is taken"
    appears exactly when a stored user already has the (non-empty) name.
   */
  lemma RegistrationUsernameRules(users: seq<User>, username: string)
    ensures username == "" ==> RegistrationUsernameErrors(users, username) == [RequiredMessage]
    ensures username != "" && |username| > 40 ==>
              "Field must be between 1 and 40 characters long." in RegistrationUsernameErrors(users, username)
    ensures UsernameTakenMessage in RegistrationUsernameErrors(users, username) <==>
              username != "" && UsernameTaken(users, username)
    ensures RegistrationUsernameErrors(users, username) == [] <==>
              1 <= |username| <= 40 && !UsernameTaken(users, username)
  {
    LengthMessageOneToForty();
    ChainOfThree(
      InputRequired(username),
      Length(username, 1, 40),
      Unique(LoadUser(users, username).Some?, UsernameTakenMessage));
  }

  /** "Email is taken" appears exactly when a stored user already has the (non-empty) email. */
  lemma RegistrationEmailRules(users: seq<User>, isEmail: string -> bool, email: string)
    ensures email == "" ==> RegistrationEmailErrors(users, isEmail, email) == [RequiredMessage]
    ensures email != "" && !isEmail(email) ==> InvalidEmailMessage in RegistrationEmailErrors(users, isEmail, email)
    ensures EmailTakenMessage in RegistrationEmailErrors(users, isEmail, email) <==>
              email != "" && EmailTaken(users, email)
    ensures RegistrationEmailErrors(users, isEmail, email) == [] <==>
              email != "" && isEmail(email) && !EmailTaken(users, email)
  {
    ChainOfThree(
      InputRequired(email),
      Email(isEmail, email),
      Unique(EmailTaken(users, email), EmailTakenMessage));
  }

  /** The confirmation must repeat the password; otherwise "Field must be equal to password.". */
  lemma ConfirmPasswordRule(confirmPassword: string, password: string)
    ensures confirmPassword != "" && confirmPassword != password ==>
              ConfirmPasswordErrors(confirmPassword, password) == ["Field must be equal to password."]
    ensures ConfirmPasswordErrors(confirmPassword, password) == [] <==>
              confirmPassword != "" && confirmPassword == password
  {
    ChainOfTwo(InputRequired(confirmPassword), EqualTo(confirmPassword, password, "password"));
    assert EqualToMessage("password") == "Field must be equal to password.";
  }

  // ----------------------------------------------------------------- LoginForm

  datatype LoginInput = LoginInput(username: string, password: string)

  /** Both fields are only required: the credentials are checked by the login handler. */
  function LoginErrors(form: LoginInput): (errors: seq<FieldError>)
    ensures errors == [] <==> form.username != "" && form.password != ""
    ensures errors ==
              (if form.username == "" then [FieldError("username", RequiredMessage)] else [])
              + (if form.password == "" then [FieldError("password", RequiredMessage)] else [])
  {
    ChainOfOne(InputRequired(form.username));
    ChainOfOne(InputRequired(form.password));
    Label("username", RunChain([InputRequired(form.username)]))
    + Label("password", RunChain([InputRequired(form.password)]))
  }

  // -------------------------------------------------------- UpdateUsernameForm

  const RenameTakenMessage := "That username is already taken"

  /** InputRequired, Length(1, 40), then validate_username against the current user's name. */
  function UpdateUsernameErrors(users: seq<User>, currentName: string, newName: string): seq<string>
  {
    RunChain([
      InputRequired(newName),
      Length(newName, 1, 40),
      if newName != currentName then Unique(LoadUser(users, newName).Some?, RenameTakenMessage) else Pass])
  }

  /**
    The rename rules: an empty name gets only the required message, an
    over-long one the length message; the name is refused as taken exactly
    when it differs from the current user's own and a stored user has it.
   */
  lemma UpdateUsernameRules(users: seq<User>, currentName: string, newName: string)
    ensures newName == "" ==> UpdateUsernameErrors(users, currentName, newName) == [RequiredMessage]
    ensures newName != "" && |newName| > 40 ==>
              "Field must be between 1 and 40 characters long." in UpdateUsernameErrors(users, currentName, newName)
    ensures RenameTakenMessage in UpdateUsernameErrors(users, currentName, newName) <==>
              newName != "" && newName != currentName && UsernameTaken(users, newName)
    ensures UpdateUsernameErrors(users, currentName, newName) == [] <==>
              1 <= |newName| <= 40 && (newName == currentName || !UsernameTaken(users, newName))
  {
    LengthMessageOneToForty();
    ChainOfThree(
      InputRequired(newName),
      Length(newName, 1, 40),
      if newName != currentName then Unique(LoadUser(users, newName).Some?, RenameTakenMessage) else Pass);
  }

  /** Keeping one's own (valid) name is accepted even though a stored user has it. */
  lemma RenameToOwnNameAccepted(users: seq<User>, currentName: string)
    requires 1 <= |currentName| <= 40
    ensures UpdateUsernameErrors(users, currentName, currentName) == []
  {
    UpdateUsernameRules(users, currentName, currentName);
  }

  // -------------------------------------------------------------- PostItemForm

  const RoomOptions := ["0 (Studio)+", "1+", "2+", "3+", "4+", "5+"]
  const RestroomOptions := ["1+", "2+", "3+", "4+", "5+"]
  const TypeOptions := ["Home", "Apartment", "Condo", "Townhome"]

  datatype ListingInput = ListingInput(
    price: string,
    rooms: string,
    restrooms: string,
    propertyType: string,
    description: string)

  /** validate_price accepts every price. */
  function ValidatePrice(price: string): Check
  {
    Pass
  }

  function PostItemErrors(form: ListingInput): (errors: seq<FieldError>)
    ensures errors == [] <==>
              && form.price != ""
              && form.rooms in RoomOptions
              && form.restrooms in RestroomOptions
              && form.propertyType in TypeOptions
              && 1 <= |form.description| <= 1000
  {
    ChainOfTwo(InputRequired(form.price), ValidatePrice(form.price));
    ChainOfOne(Choice(form.rooms, RoomOptions));
    ChainOfOne(Choice(form.restrooms, RestroomOptions));
    ChainOfOne(Choice(form.propertyType, TypeOptions));
    ChainOfTwo(InputRequired(form.description), Length(form.description, 1, 1000));
    Label("price", RunChain([InputRequired(form.price), ValidatePrice(form.price)]))
    + Label("rooms", RunChain([Choice(form.rooms, RoomOptions)]))
    + Label("restrooms", RunChain([Choice(form.restrooms, RestroomOptions)]))
    + Label("propertyType", RunChain([Choice(form.propertyType, TypeOptions)]))
    + Label("description", RunChain([InputRequired(form.description), Length(form.description, 1, 1000)]))
  }

  /** The value of a present price never affects the listing form's outcome. */
  lemma AnyPriceAccepted(form: ListingInput, price: string)
    requires form.price != "" && price != ""
    ensures PostItemErrors(form.(price := price)) == PostItemErrors(form)
  {
    ChainOfTwo(InputRequired(form.price), ValidatePrice(form.price));
    ChainOfTwo(InputRequired(price), ValidatePrice(price));
  }

  // ----------------------------------------------------- UpdateProfilePicForm

  const ImageExtensions := ["jpg", "jpeg", "png"]
  const ImagesOnlyMessage := "Images Only!"

  /** FileRequired, then FileAllowed(jpg, jpeg, png) with the message "Images Only!". */
  function PhotoErrors(photo: Option<Upload>): (errors: seq<FieldError>)
    ensures errors == [] <==>
              photo.Some? && photo.value.filename != "" && HasExtension(photo.value.filename, ImageExtensions)
  {
    ChainOfTwo(FileRequired(photo), FileAllowed(photo, ImageExtensions, ImagesOnlyMessage));
    Label("photo", RunChain([
      FileRequired(photo),
      FileAllowed(photo, ImageExtensions, ImagesOnlyMessage)]))
  }

  /** A missing upload is "required"; a present one with another extension is "Images Only!". */
  lemma PhotoRules(photo: Option<Upload>)
    ensures (photo.None? || photo.value.filename == "") ==>
              PhotoErrors(photo) == [FieldError("photo", RequiredMessage)]
    ensures photo.Some? && photo.value.filename != "" && !HasExtension(photo.value.filename, ImageExtensions) ==>
              PhotoErrors(photo) == [FieldError("photo", ImagesOnlyMessage)]
  {
    ChainOfTwo(FileRequired(photo), FileAllowed(photo, ImageExtensions, ImagesOnlyMessage));
  }
}
