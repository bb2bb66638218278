/**
  The `users` repository. Lookups are functions of the table; the table
  itself is a `UserStore` whose methods insert a row or change fields of one
  row in place, as the ORM does on a loaded `User` before `commit()`.
*/
module Users {
  import opened Wrappers
  import opened Errors
  import opened Models
  import opened Schemas
  import Jwt

  /** Position of the first row with this email. */
  function IndexOfEmail(us: seq<User>, email: string): (r: Option<nat>)
    ensures r.Some? ==> r.value < |us| && us[r.value].email == email
    ensures r.Some? ==> forall j :: 0 <= j < r.value ==> us[j].email != email
    ensures r.None? ==> forall j :: 0 <= j < |us| ==> us[j].email != email
  {
    if us == [] then None
    else if us[0].email == email then Some(0)
    else
      match IndexOfEmail(us[1..], email)
      case None => None
      case Some(k) => Some(k + 1)
  }

  /** `get_user_by_email`: the first row whose email is `email`, or None. */
  function GetUserByEmail(us: seq<User>, email: string): (r: Option<User>)
    ensures r.Some? ==> r.value in us && r.value.email == email
    ensures r.None? <==> forall u :: u in us ==> u.email != email
  {
    match IndexOfEmail(us, email)
    case None => None
    case Some(i) => Some(us[i])
  }

  /** With unique emails, every row is what the lookup of its own email returns. */
  lemma GetUserByEmailFindsRow(us: seq<User>, u: User)
    requires UserEmailsUnique(us) && u in us
    ensures GetUserByEmail(us, u.email) == Some(u)
  {
    var k :| 0 <= k < |us| && us[k] == u;
    var i := IndexOfEmail(us, u.email).value;
    assert !(i < k) && !(k < i);
  }

  /** The lookup reads emails only: two tables with the same emails in the same order find the same position. */
  lemma {:induction false} IndexOfEmailReadsEmails(us: seq<User>, vs: seq<User>, email: string)
    requires |us| == |vs|
    requires forall j :: 0 <= j < |us| ==> us[j].email == vs[j].email
    ensures IndexOfEmail(us, email) == IndexOfEmail(vs, email)
    decreases |us|
  {
    if us != [] && us[0].email != email {
      IndexOfEmailReadsEmails(us[1..], vs[1..], email);
    }
  }

  /** The changes the repository makes to a loaded user before committing. */
  datatype Edit =
    | SetToken(token: Option<Jwt.Token>)  // update_token
    | Confirm                             // confirmed_email
    | SetAvatar(url: string)              // update_avatar

  /** The user after one edit: exactly the edited column changes. */
  function ApplyEdit(u: User, e: Edit): (r: User)
    ensures r.id == u.id && r.username == u.username && r.email == u.email
    ensures r.password == u.password && r.createdAt == u.createdAt
    ensures r.refreshToken == (if e.SetToken? then e.token else u.refreshToken)
    ensures r.confirmed == (e.Confirm? || u.confirmed)
    ensures r.avatar == (if e.SetAvatar? then Some(e.url) else u.avatar)
  {
    match e
    case SetToken(token) => u.(refreshToken := token)
    case Confirm => u.(confirmed := true)
    case SetAvatar(url) => u.(avatar := Some(url))
  }

  /** The table after the row with primary key `id` received the edit. */
  function EditRow(us: seq<User>, id: int, e: Edit): (r: seq<User>)
    ensures |r| == |us|
    ensures forall j :: 0 <= j < |us| ==> r[j] == if us[j].id == id then ApplyEdit(us[j], e) else us[j]
  {
    seq(|us|, j requires 0 <= j < |us| => if us[j].id == id then ApplyEdit(us[j], e) else us[j])
  }

  /** Editing a row keeps the keys, so the table's constraints still hold. */
  lemma EditRowKeepsKeys(us: seq<User>, id: int, e: Edit)
    requires UserEmailsUnique(us) && UserIdsUnique(us)
    ensures UserEmailsUnique(EditRow(us, id, e)) && UserIdsUnique(EditRow(us, id, e))
    ensures forall j :: 0 <= j < |us| ==> EditRow(us, id, e)[j].email == us[j].email
    ensures forall j :: 0 <= j < |us| ==> EditRow(us, id, e)[j].id == us[j].id
  {
  }

  /** Looking a user up after an edit finds the edited row when the edit was to that user, the unchanged row otherwise. */
  lemma EditThenLookup(us: seq<User>, id: int, e: Edit, email: string)
    ensures GetUserByEmail(EditRow(us, id, e), email)
            == match GetUserByEmail(us, email)
               case None => None
               case Some(u) => Some(if u.id == id then ApplyEdit(u, e) else u)
  {
    IndexOfEmailReadsEmails(us, EditRow(us, id, e), email);
  }

  /** `User(**body.dict(), avatar=avatar)` with the next primary key. */
  function UserFromBody(id: int, body: UserModel, avatar: Option<string>, now: int): (u: User)
    ensures u.email == body.email && u.username == body.username && u.password == body.password
    ensures u.id == id && u.avatar == avatar && !u.confirmed && u.refreshToken == None
  {
    NewUser(id, body.username, body.email, body.password, now, avatar)
  }

  /** After a successful insert, the lookup of the new email finds the new row. */
  lemma InsertThenLookup(us: seq<User>, u: User)
    requires GetUserByEmail(us, u.email).None?
    ensures GetUserByEmail(us + [u], u.email) == Some(u)
    ensures forall email :: email != u.email ==> GetUserByEmail(us + [u], email) == GetUserByEmail(us, email)
  {
    forall email | email != u.email
      ensures GetUserByEmail(us + [u], email) == GetUserByEmail(us, email)
    {
      InsertKeepsIndex(us, u, email);
    }
    assert (us + [u])[|us|] == u;
    var i := IndexOfEmail(us + [u], u.email).value;
    assert i == |us|;
  }

  lemma {:induction false} InsertKeepsIndex(us: seq<User>, u: User, email: string)
    requires u.email != email
    ensures IndexOfEmail(us + [u], email) == IndexOfEmail(us, email)
    decreases |us|
  {
    if us != [] {
      assert (us + [u])[1..] == us[1..] + [u];
      InsertKeepsIndex(us[1..], u, email);
    } else {
      assert ([u])[1..] == [];
    }
  }

  /** The `users` table and its id sequence. */
  class UserStore {
    var users: seq<User>
    /** The next value of the `users.id` sequence. */
    var nextId: int

    ghost predicate Valid()
      reads this
    {
      && nextId >= 1
      && UserEmailsUnique(users)
      && UserIdsUnique(users)
      && (forall u :: u in users ==> 1 <= u.id < nextId)
    }

    constructor ()
      ensures Valid() && users == [] && nextId == 1
    {
      users := [];
      nextId := 1;
    }

    /**
      `create_user`: inserts the body's fields with the avatar URL (None when
      the avatar service raised). The UNIQUE constraint on `email` makes the
      commit fail when the email is taken, and nothing is inserted; the id
      drawn from the sequence for the failed INSERT is used up all the same.
    */
    method CreateUser(body: UserModel, avatar: Option<string>, now: int) returns (r: Result<User, Failure>)
      requires Valid()
      modifies this
      ensures Valid()
      ensures GetUserByEmail(old(users), body.email).Some? ==>
                r == Err(Uncaught("IntegrityError")) && users == old(users) && nextId == old(nextId) + 1
      ensures GetUserByEmail(old(users), body.email).None? ==>
                && r == Ok(UserFromBody(old(nextId), body, avatar, now))
                && users == old(users) + [r.value]
                && nextId == old(nextId) + 1
    {
      if GetUserByEmail(users, body.email).Some? {
        nextId := nextId + 1;
        return Err(Uncaught("IntegrityError"));
      }
      var added := UserFromBody(nextId, body, avatar, now);
      users := users + [added];
      nextId := nextId + 1;
      r := Ok(added);
    }

    /** `update_token`: stores the refresh token (or clears it) on a loaded user. */
    method UpdateToken(user: User, token: Option<Jwt.Token>)
      requires Valid() && user in users
      modifies this
      ensures Valid() && nextId == old(nextId)
      ensures users == EditRow(old(users), user.id, SetToken(token))
    {
      EditRowKeepsKeys(users, user.id, SetToken(token));
      users := EditRow(users, user.id, SetToken(token));
    }

    /** `confirmed_email`: marks the user with this email confirmed; a `ValueError` when there is none. */
    method ConfirmedEmail(email: string) returns (r: Result<(), Failure>)
      requires Valid()
      modifies this
      ensures Valid() && nextId == old(nextId)
      ensures GetUserByEmail(old(users), email).None? ==>
                r == Err(Uncaught("ValueError")) && users == old(users)
      ensures GetUserByEmail(old(users), email).Some? ==>
                r == Ok(()) && users == EditRow(old(users), GetUserByEmail(old(users), email).value.id, Confirm)
    {
      var user := GetUserByEmail(users, email);
      if user.None? {
        return Err(Uncaught("ValueError"));
      }
      EditRowKeepsKeys(users, user.value.id, Confirm);
      users := EditRow(users, user.value.id, Confirm);
      r := Ok(());
    }

    /** `update_avatar`: sets the avatar URL of the user with this email and returns the user. */
    method UpdateAvatar(email: string, url: string) returns (r: Result<User, Failure>)
      requires Valid()
      modifies this
      ensures Valid() && nextId == old(nextId)
      ensures GetUserByEmail(old(users), email).None? ==>
                r == Err(Uncaught("ValueError")) && users == old(users)
      ensures GetUserByEmail(old(users), email).Some? ==>
                var u := GetUserByEmail(old(users), email).value;
                r == Ok(ApplyEdit(u, SetAvatar(url))) && users == EditRow(old(users), u.id, SetAvatar(url))
    {
      var user := GetUserByEmail(users, email);
      if user.None? {
        return Err(Uncaught("ValueError"));
      }
      EditRowKeepsKeys(users, user.value.id, SetAvatar(url));
      users := EditRow(users, user.value.id, SetAvatar(url));
      r := Ok(ApplyEdit(user.value, SetAvatar(url)));
    }
  }
}
