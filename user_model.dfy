/**
 * The user table and the user payloads: the `ModeType` enum, the stored
 * `User` row, the patch payload and the public view that the API returns.
 */
module UserModel {
  import opened Common

  /** The two tracking regimes a user or a record is tagged with. */
  datatype ModeType = Beast | Swasthya

  /** The string value of each enum member. */
  function ModeValue(m: ModeType): (s: string)
    ensures s == "beast" || s == "swasthya"
  {
    match m
    case Beast => "beast"
    case Swasthya => "swasthya"
  }

  /** The `Literal["beast", "swasthya"]` check the payload schemas apply to a mode string. */
  function ParseMode(s: string): (r: Option<ModeType>)
    ensures r.Some? <==> s == "beast" || s == "swasthya"
    ensures r.Some? ==> ModeValue(r.value) == s
  {
    if s == "beast" then Some(Beast)
    else if s == "swasthya" then Some(Swasthya)
    else None
  }

  /** Every enum member passes the literal check and reads back as itself. */
  lemma ModeRoundTrip(m: ModeType)
    ensures ParseMode(ModeValue(m)) == Some(m)
  {
  }

  /** A mode field left out of a payload or a form takes the value "swasthya". */
  function ModeOrDefault(m: Option<ModeType>): (r: ModeType)
    ensures m.None? ==> r == Swasthya
    ensures m.Some? ==> r == m.value
  {
    if m.Some? then m.value else Swasthya
  }

  /** A row of the `users` table. Timestamps are ticks of the store's clock. */
  datatype User = User(
    id: int,
    email: string,
    fullName: string,
    hashedPassword: string,
    age: Option<int>,
    gender: Option<string>,
    height: Option<real>,
    weight: Option<real>,
    preferredMode: Option<ModeType>,
    createdAt: nat,
    updatedAt: Option<nat>)

  /** `id` is the primary key. */
  ghost predicate UniqueIds(users: seq<User>) {
    forall i, j :: 0 <= i < j < |users| ==> users[i].id != users[j].id
  }

  /** `email` is a unique column. */
  ghost predicate UniqueEmails(users: seq<User>) {
    forall i, j :: 0 <= i < j < |users| ==> users[i].email != users[j].email
  }

  ghost predicate Registered(users: seq<User>, id: int) {
    exists i :: 0 <= i < |users| && users[i].id == id
  }

  /** The profile patch payload: every field optional, `None` meaning "leave unchanged". */
  datatype UserUpdate = UserUpdate(
    fullName: Option<string>,
    email: Option<string>,
    password: Option<string>,
    age: Option<int>,
    gender: Option<string>,
    height: Option<real>,
    weight: Option<real>,
    preferredMode: Option<ModeType>)

  /** The patch an empty request body parses to. */
  function EmptyUserUpdate(): (u: UserUpdate)
    ensures u.fullName.None? && u.email.None? && u.password.None? && u.age.None?
    ensures u.gender.None? && u.height.None? && u.weight.None? && u.preferredMode.None?
  {
    UserUpdate(None, None, None, None, None, None, None, None)
  }

  /** The response schema for a user. */
  datatype UserView = UserView(id: int, email: string, fullName: string, createdAt: nat, updatedAt: Option<nat>)

  function PublicView(u: User): (v: UserView)
    ensures v.id == u.id && v.email == u.email && v.fullName == u.fullName
    ensures v.createdAt == u.createdAt && v.updatedAt == u.updatedAt
  {
    UserView(u.id, u.email, u.fullName, u.createdAt, u.updatedAt)
  }

  /** The public view does not depend on the stored password hash, nor on the profile fields. */
  lemma PublicViewHidesSecrets(
    u: User, hashedPassword: string, age: Option<int>, gender: Option<string>,
    height: Option<real>, weight: Option<real>, preferredMode: Option<ModeType>)
    ensures PublicView(u.(hashedPassword := hashedPassword, age := age, gender := gender,
                          height := height, weight := weight, preferredMode := preferredMode)) == PublicView(u)
  {
  }
}
