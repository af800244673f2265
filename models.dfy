/**
  The stored documents (User, Item, Review), the constraints the document
  schema declares on their fields, and the identity binding of the login
  manager: a user's session id is its username, and a session id is resolved
  by looking the username up.

  References between documents (an item's poster, a review's commenter) are
  document ids. Users are never deleted, so a user's position in the user
  collection stands for its id: it stays the same when the user is renamed.
 */
module Models {

  import opened Wrappers

  /** A stored profile picture: the bytes and the content type it was saved with. */
  datatype Photo = Photo(bytes: seq<bv8>, contentType: string)

  datatype User = User(username: string, email: string, password: string, profilePic: Option<Photo>)

  /** A listing; `poster` is the id (position) of the user who posted it. */
  datatype Item = Item(
    poster: nat,
    price: string,
    rooms: string,
    restrooms: string,
    propertyType: string,
    description: string,
    date: string)

  /** A movie review; `commenter` is the id (position) of its author. */
  datatype Review = Review(
    commenter: nat,
    content: string,
    date: string,
    imdbId: string,
    movieTitle: string)

  /** The field constraints of User: username of 1 to 40 characters, email present. */
  predicate UserValid(u: User)
  {
    1 <= |u.username| <= 40 && u.email != ""
  }

  /** The field constraints of Item: an existing poster, a description of 5 to 1000 characters. */
  predicate ItemValid(item: Item, userCount: nat)
  {
    item.poster < userCount && 5 <= |item.description| <= 1000
  }

  /** The field constraints of Review. */
  predicate ReviewValid(review: Review, userCount: nat)
  {
    && review.commenter < userCount
    && 5 <= |review.content| <= 500
    && |review.imdbId| == 9
    && 1 <= |review.movieTitle| <= 100
  }

  predicate UniqueUsernames(users: seq<User>)
  {
    forall i, j :: 0 <= i < |users| && 0 <= j < |users| && users[i].username == users[j].username ==> i == j
  }

  predicate UniqueEmails(users: seq<User>)
  {
    forall i, j :: 0 <= i < |users| && 0 <= j < |users| && users[i].email == users[j].email ==> i == j
  }

  /** Everything the schema demands of the three collections together. */
  predicate StoreValid(users: seq<User>, items: seq<Item>, reviews: seq<Review>)
  {
    && UniqueUsernames(users)
    && UniqueEmails(users)
    && (forall i :: 0 <= i < |users| ==> UserValid(users[i]))
    && (forall k :: 0 <= k < |items| ==> ItemValid(items[k], |users|))
    && (forall k :: 0 <= k < |reviews| ==> ReviewValid(reviews[k], |users|))
  }

  predicate UsernameTaken(users: seq<User>, username: string)
  {
    exists i :: 0 <= i < |users| && users[i].username == username
  }

  predicate EmailTaken(users: seq<User>, email: string)
  {
    exists i :: 0 <= i < |users| && users[i].email == email
  }

  /** The session id of a user. */
  function GetId(u: User): string
  {
    u.username
  }

  /** The user loader: the first stored user whose username is the session id. */
  function LoadUser(users: seq<User>, id: string): (r: Option<nat>)
    ensures r.None? <==> !UsernameTaken(users, id)
    ensures r.Some? ==> r.value < |users| && users[r.value].username == id
    ensures r.Some? ==> forall j :: 0 <= j < r.value ==> users[j].username != id
  {
    if users == [] then None
    else if users[0].username == id then Some(0)
    else match LoadUser(users[1..], id)
      case None => None
      case Some(k) => Some(k + 1)
  }

  /** With unique usernames, a user's own session id resolves back to that user. */
  lemma GetIdResolves(users: seq<User>, i: nat)
    requires UniqueUsernames(users) && i < |users|
    ensures LoadUser(users, GetId(users[i])) == Some(i)
  {
  }

  /** In a valid store every item's poster and every review's commenter is a user its session id loads. */
  lemma ReferencesResolve(users: seq<User>, items: seq<Item>, reviews: seq<Review>)
    requires StoreValid(users, items, reviews)
    ensures forall k :: 0 <= k < |items| ==>
              LoadUser(users, GetId(users[items[k].poster])) == Some(items[k].poster)
    ensures forall k :: 0 <= k < |reviews| ==>
              LoadUser(users, GetId(users[reviews[k].commenter])) == Some(reviews[k].commenter)
  {
    forall k | 0 <= k < |items| {
      GetIdResolves(users, items[k].poster);
    }
    forall k | 0 <= k < |reviews| {
      GetIdResolves(users, reviews[k].commenter);
    }
  }

  /** The collection after user `i` is renamed. */
  function Renamed(users: seq<User>, i: nat, newName: string): seq<User>
    requires i < |users|
  {
    users[i := users[i].(username := newName)]
  }

  /**
    Renaming a user to a name no other user holds keeps the store valid; the
    new name resolves to the renamed user and the old name to nobody.
   */
  lemma {:induction false} RenameKeepsStoreValid(
    users: seq<User>, items: seq<Item>, reviews: seq<Review>, i: nat, newName: string)
    requires StoreValid(users, items, reviews) && i < |users|
    requires 1 <= |newName| <= 40
    requires newName == users[i].username || !UsernameTaken(users, newName)
    ensures StoreValid(Renamed(users, i, newName), items, reviews)
    ensures LoadUser(Renamed(users, i, newName), newName) == Some(i)
    ensures newName != users[i].username ==> LoadUser(Renamed(users, i, newName), users[i].username) == None
  {
    var after := Renamed(users, i, newName);
    assert forall k :: 0 <= k < |after| && k != i ==> after[k] == users[k];
    assert after[i].username == newName;
    assert forall k :: 0 <= k < |after| ==> after[k].email == users[k].email;
    GetIdResolves(after, i);
    if newName != users[i].username {
      var previous := users[i].username;
      forall k | 0 <= k < |after| ensures after[k].username != previous {
        if k != i {
          assert users[k].username != previous;
        }
      }
    }
  }

  /** Adding a valid user whose username and email are both free keeps the store valid. */
  lemma {:induction false} AddUserKeepsStoreValid(
    users: seq<User>, items: seq<Item>, reviews: seq<Review>, u: User)
    requires StoreValid(users, items, reviews)
    requires UserValid(u) && !UsernameTaken(users, u.username) && !EmailTaken(users, u.email)
    ensures StoreValid(users + [u], items, reviews)
    ensures LoadUser(users + [u], GetId(u)) == Some(|users|)
  {
    var after := users + [u];
    assert forall k :: 0 <= k < |users| ==> after[k] == users[k];
    assert after[|users|] == u;
    GetIdResolves(after, |users|);
  }

  /** Adding a valid item keeps the store valid and changes no user. */
  lemma AddItemKeepsStoreValid(
    users: seq<User>, items: seq<Item>, reviews: seq<Review>, item: Item)
    requires StoreValid(users, items, reviews) && ItemValid(item, |users|)
    ensures StoreValid(users, items + [item], reviews)
  {
  }

  /** Replacing a user's picture keeps the store valid and every session id resolving as before. */
  lemma {:induction false} ReplacePhotoKeepsStoreValid(
    users: seq<User>, items: seq<Item>, reviews: seq<Review>, i: nat, pic: Photo)
    requires StoreValid(users, items, reviews) && i < |users|
    ensures StoreValid(users[i := users[i].(profilePic := Some(pic))], items, reviews)
    ensures forall id :: LoadUser(users[i := users[i].(profilePic := Some(pic))], id) == LoadUser(users, id)
  {
    var after := users[i := users[i].(profilePic := Some(pic))];
    assert forall k :: 0 <= k < |after| ==> after[k].username == users[k].username;
    assert forall k :: 0 <= k < |after| ==> after[k].email == users[k].email;
    forall id ensures LoadUser(after, id) == LoadUser(users, id) {
      LoadUserSameNames(users, after, id);
    }
  }

  /** Two collections with the same usernames position by position resolve every id alike. */
  lemma {:induction false} LoadUserSameNames(a: seq<User>, b: seq<User>, id: string)
    requires |a| == |b|
    requires forall k :: 0 <= k < |a| ==> a[k].username == b[k].username
    ensures LoadUser(a, id) == LoadUser(b, id)
  {
    if a != [] && a[0].username != id {
      LoadUserSameNames(a[1..], b[1..], id);
    }
  }
}
