/** The request and response shapes and their field constraints. */
module Schemas {
  import opened Wrappers
  import opened Calendar
  import opened Models
  import Jwt

  /** The fields a client supplies to create a contact. */
  datatype ContactBase = ContactBase(
    firstName: string,
    lastName: string,
    email: string,
    phone: string,
    birthday: Date,
    additionalInfo: Option<string>)

  /** A `ContactBase` built without `additional_info` gets None, the field's default. */
  function ContactBaseWithDefaults(firstName: string, lastName: string, email: string, phone: string, birthday: Date): (b: ContactBase)
    ensures b.additionalInfo == None
    ensures b.firstName == firstName && b.lastName == lastName && b.email == email
    ensures b.phone == phone && b.birthday == birthday
  {
    ContactBase(firstName, lastName, email, phone, birthday, None)
  }

  /** Every field may be null; a null field means "leave unchanged". */
  datatype ContactUpdate = ContactUpdate(
    firstName: Option<string>,
    lastName: Option<string>,
    email: Option<string>,
    phone: Option<string>,
    birthday: Option<Date>,
    additionalInfo: Option<string>)

  /** `ContactBase` extended with `id`, `created_at` and `owner_id`. */
  datatype ContactResponse = ContactResponse(base: ContactBase, id: int, createdAt: int, ownerId: int)

  /** `ContactResponse.from_orm(contact)`. */
  function FromOrm(c: Contact): (r: ContactResponse)
    ensures r.id == c.id && r.createdAt == c.createdAt && r.ownerId == c.ownerId
    ensures r.base == ContactBase(c.firstName, c.lastName, c.email, c.phone, c.birthday, c.additionalInfo)
  {
    ContactResponse(ContactBase(c.firstName, c.lastName, c.email, c.phone, c.birthday, c.additionalInfo),
                    c.id, c.createdAt, c.ownerId)
  }

  /** The signup body. */
  datatype UserModel = UserModel(username: string, email: string, password: string)

  /** `Field(min_length=5, max_length=16)` on username, `Field(min_length=6, max_length=10)` on password. */
  predicate UserModelValid(m: UserModel) {
    5 <= |m.username| <= 16 && 6 <= |m.password| <= 10
  }

  /** Request validation of a signup body: None is a 422 validation error. */
  function ParseUserModel(username: string, email: string, password: string): (r: Option<UserModel>)
    ensures r.Some? <==> 5 <= |username| <= 16 && 6 <= |password| <= 10
    ensures r.Some? ==> r.value == UserModel(username, email, password) && UserModelValid(r.value)
  {
    var m := UserModel(username, email, password);
    if UserModelValid(m) then Some(m) else None
  }

  /** `UserDb`: a user as the signup response shows it. `avatar` is a required string. */
  datatype UserDb = UserDb(id: int, username: string, email: string, createdAt: int, avatar: string)

  /** `UserResponse`: the user and a message. */
  datatype UserResponse = UserResponse(user: UserDb, detail: string)

  /** Response validation of a user as `UserDb`: a null avatar fails it. */
  function UserDbFromOrm(u: User): (r: Option<UserDb>)
    ensures r.Some? <==> u.avatar.Some?
    ensures r.Some? ==> r.value.id == u.id && r.value.email == u.email && r.value.username == u.username
    ensures r.Some? ==> r.value.avatar == u.avatar.value && r.value.createdAt == u.createdAt
  {
    match u.avatar
    case None => None
    case Some(url) => Some(UserDb(u.id, u.username, u.email, u.createdAt, url))
  }

  /** The login and refresh response. */
  datatype TokenModel = TokenModel(accessToken: Jwt.Token, refreshToken: Jwt.Token, tokenType: string)

  /** A `TokenModel` built without `token_type` gets "bearer". */
  function TokenModelWithDefaults(access: Jwt.Token, refresh: Jwt.Token): (m: TokenModel)
    ensures m.tokenType == "bearer" && m.accessToken == access && m.refreshToken == refresh
  {
    TokenModel(access, refresh, "bearer")
  }
}
