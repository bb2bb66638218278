/**
  The two database tables as records. A table is a sequence of rows in
  storage order; `created_at` is a Unix time supplied by the caller, ids are
  assigned by the owning store.
*/
module Models {
  import opened Wrappers
  import opened Calendar
  import Jwt

  /**
    A row of `contacts`. The columns other than `id` are nullable in the
    schema; the model takes every field but `additional_info` as present,
    since rows are only inserted from validated request bodies.
  */
  datatype Contact = Contact(
    id: int,
    firstName: string,
    lastName: string,
    email: string,
    phone: string,
    birthday: Date,
    additionalInfo: Option<string>,
    createdAt: int,
    ownerId: int)

  /**
    A row of `users`. `password` holds the password hash; `avatar` and
    `refresh_token` are nullable; the stored refresh token is the token
    string, modelled by its value.
  */
  datatype User = User(
    id: int,
    username: string,
    email: string,
    password: string,
    createdAt: int,
    avatar: Option<string>,
    refreshToken: Option<Jwt.Token>,
    confirmed: bool)

  /** A freshly inserted user: the column defaults leave it unconfirmed and without a refresh token. */
  function NewUser(id: int, username: string, email: string, password: string, createdAt: int, avatar: Option<string>): (u: User)
    ensures !u.confirmed && u.refreshToken == None
    ensures u.id == id && u.email == email && u.password == password && u.avatar == avatar
  {
    User(id, username, email, password, createdAt, avatar, None, false)
  }

  /** `contacts.email` is UNIQUE over the whole table, across owners. */
  ghost predicate ContactEmailsUnique(cs: seq<Contact>) {
    forall i, j :: 0 <= i < j < |cs| ==> cs[i].email != cs[j].email
  }

  /** `contacts.id` is the primary key. */
  ghost predicate ContactIdsUnique(cs: seq<Contact>) {
    forall i, j :: 0 <= i < j < |cs| ==> cs[i].id != cs[j].id
  }

  /** `users.email` is NOT NULL and UNIQUE. */
  ghost predicate UserEmailsUnique(us: seq<User>) {
    forall i, j :: 0 <= i < j < |us| ==> us[i].email != us[j].email
  }

  /** `users.id` is the primary key. */
  ghost predicate UserIdsUnique(us: seq<User>) {
    forall i, j :: 0 <= i < j < |us| ==> us[i].id != us[j].id
  }
}
