/**
 * The `/users` endpoints: the caller's own profile, any profile by id, and
 * the profile patch with its email-uniqueness rule. The password hash is an
 * uninterpreted function passed in; the caller is the id the authentication
 * dependency resolved; the clock is a parameter.
 */
module UserRouter {
  import opened Common
  import opened UserModel

  /** The position of the first user with the given id: `filter(User.id == id).first()`. */
  function IndexOfId(users: seq<User>, id: int): (r: Option<nat>)
    ensures r.Some? ==> r.value < |users| && users[r.value].id == id
    ensures r.Some? ==> forall j :: 0 <= j < r.value ==> users[j].id != id
    ensures r.None? <==> !Registered(users, id)
    decreases |users|
  {
    if users == [] then None
    else if users[0].id == id then Some(0)
    else
      match IndexOfId(users[1..], id)
      case None => None
      case Some(k) => Some(k + 1)
  }

  /** Whether some user holds the email: `filter(User.email == email).first()` is not `None`. */
  function HasEmail(users: seq<User>, email: string): (b: bool)
    ensures b <==> exists j :: 0 <= j < |users| && users[j].email == email
    decreases |users|
  {
    if users == [] then false
    else users[0].email == email || HasEmail(users[1..], email)
  }

  /**
   * The patched profile: each field the update supplies replaces the stored
   * value, a new password is stored only as its hash, and the id and the
   * timestamps are left alone.
   */
  function Patch(u: User, upd: UserUpdate, hash: string -> string): (r: User)
    ensures r.id == u.id && r.createdAt == u.createdAt && r.updatedAt == u.updatedAt
    ensures r.fullName == if upd.fullName.Some? then upd.fullName.value else u.fullName
    ensures r.email == if upd.email.Some? then upd.email.value else u.email
    ensures r.hashedPassword == if upd.password.Some? then hash(upd.password.value) else u.hashedPassword
    ensures r.age == if upd.age.Some? then upd.age else u.age
    ensures r.gender == if upd.gender.Some? then upd.gender else u.gender
    ensures r.height == if upd.height.Some? then upd.height else u.height
    ensures r.weight == if upd.weight.Some? then upd.weight else u.weight
    ensures r.preferredMode == if upd.preferredMode.Some? then upd.preferredMode else u.preferredMode
  {
    User(
      u.id,
      if upd.email.Some? then upd.email.value else u.email,
      if upd.fullName.Some? then upd.fullName.value else u.fullName,
      if upd.password.Some? then hash(upd.password.value) else u.hashedPassword,
      if upd.age.Some? then upd.age else u.age,
      if upd.gender.Some? then upd.gender else u.gender,
      if upd.height.Some? then upd.height else u.height,
      if upd.weight.Some? then upd.weight else u.weight,
      if upd.preferredMode.Some? then upd.preferredMode else u.preferredMode,
      u.createdAt,
      u.updatedAt)
  }

  /**
   * The row the commit writes: `updated_at` is refreshed only when some
   * column actually changed, since otherwise no UPDATE statement is issued.
   */
  function Committed(before: User, after: User, now: nat): (r: User)
    ensures after == before ==> r == before
    ensures after != before ==> r == after.(updatedAt := Some(now))
  {
    if after == before then before else after.(updatedAt := Some(now))
  }

  /** The patch asks for an email that differs from the caller's and that some user already holds. */
  predicate EmailConflict(users: seq<User>, current: User, upd: UserUpdate): (b: bool)
    ensures b <==> upd.email.Some? && upd.email.value != current.email
                   && exists j :: 0 <= j < |users| && users[j].email == upd.email.value
  {
    upd.email.Some? && upd.email.value != current.email && HasEmail(users, upd.email.value)
  }

  const EmailTaken := HttpError(400, "Email already registered")
  const UserNotFound := HttpError(404, "User not found")

  class UserStore {
    var users: seq<User>

    ghost predicate Valid()
      reads this
    {
      UniqueIds(users) && UniqueEmails(users)
    }

    constructor (users: seq<User>)
      requires UniqueIds(users) && UniqueEmails(users)
      ensures Valid() && this.users == users
    {
      this.users := users;
    }

    /** GET /users/{user_id}: any authenticated caller may read any profile. */
    function GetUser(callerId: int, userId: int): (r: Result<UserView>)
      reads this
      requires Valid() && Registered(users, callerId)
      ensures r.Ok? <==> Registered(users, userId)
      ensures r.Ok? ==> exists i :: 0 <= i < |users| && users[i].id == userId && r.value == PublicView(users[i])
      ensures r.Err? ==> r.error == UserNotFound
    {
      match IndexOfId(users, userId)
      case None => Err(UserNotFound)
      case Some(i) => Ok(PublicView(users[i]))
    }

    /** GET /users/me: the caller's own row, as the public view. */
    function ReadUsersMe(callerId: int): (v: UserView)
      reads this
      requires Valid() && Registered(users, callerId)
      ensures v.id == callerId
      ensures exists i :: 0 <= i < |users| && users[i].id == callerId && v == PublicView(users[i])
      ensures GetUser(callerId, callerId) == Ok(v)
    {
      PublicView(users[IndexOfId(users, callerId).value])
    }

    /**
     * PUT /users/me. The fields are applied one by one to a working copy of
     * the caller's row; an email clash abandons the copy, so nothing is
     * committed; otherwise the copy replaces the caller's row and nothing
     * else in the table changes.
     */
    method UpdateUser(callerId: int, userUpdate: UserUpdate, hash: string -> string, now: nat)
      returns (r: Result<UserView>)
      requires Valid() && Registered(users, callerId)
      modifies this
      ensures Valid()
      ensures
        var i := IndexOfId(old(users), callerId).value;
        var current := old(users)[i];
        if EmailConflict(old(users), current, userUpdate) then
          r == Err(EmailTaken) && users == old(users)
        else
          users == old(users)[i := Committed(current, Patch(current, userUpdate, hash), now)]
          && r == Ok(PublicView(users[i]))
    {
      var i := IndexOfId(users, callerId).value;
      var current := users[i];
      var u := current;
      if userUpdate.fullName.Some? {
        u := u.(fullName := userUpdate.fullName.value);
      }
      if userUpdate.email.Some? {
        if userUpdate.email.value != current.email {
          if HasEmail(users, userUpdate.email.value) {
            return Err(EmailTaken);
          }
        }
        u := u.(email := userUpdate.email.value);
      }
      if userUpdate.password.Some? {
        u := u.(hashedPassword := hash(userUpdate.password.value));
      }
      if userUpdate.age.Some? {
        u := u.(age := userUpdate.age);
      }
      if userUpdate.gender.Some? {
        u := u.(gender := userUpdate.gender);
      }
      if userUpdate.height.Some? {
        u := u.(height := userUpdate.height);
      }
      if userUpdate.weight.Some? {
        u := u.(weight := userUpdate.weight);
      }
      if userUpdate.preferredMode.Some? {
        u := u.(preferredMode := userUpdate.preferredMode);
      }
      assert u == Patch(current, userUpdate, hash);
      UpdateKeepsUniqueness(users, i, userUpdate, hash, now);
      u := Committed(current, u, now);
      users := users[i := u];
      r := Ok(PublicView(u));
    }
  }

  /** A successful patch keeps ids and emails unique across the table. */
  lemma UpdateKeepsUniqueness(users: seq<User>, i: nat, upd: UserUpdate, hash: string -> string, now: nat)
    requires UniqueIds(users) && UniqueEmails(users) && i < |users|
    requires !EmailConflict(users, users[i], upd)
    ensures var u := Committed(users[i], Patch(users[i], upd, hash), now);
            UniqueIds(users[i := u]) && UniqueEmails(users[i := u])
  {
    var u := Committed(users[i], Patch(users[i], upd, hash), now);
    var s := users[i := u];
    forall a, b | 0 <= a < b < |s|
      ensures s[a].email != s[b].email
    {
      if a == i || b == i {
        var other := if a == i then b else a;
        if upd.email.Some? && upd.email.value != users[i].email {
          assert s[other].email == users[other].email;
        }
      }
    }
  }

  /** A patch clashes exactly when another user already holds the requested email. */
  lemma ConflictMeansAnotherUserHoldsEmail(users: seq<User>, i: nat, upd: UserUpdate)
    requires UniqueIds(users) && UniqueEmails(users) && i < |users|
    ensures EmailConflict(users, users[i], upd) <==>
            upd.email.Some? && exists j :: 0 <= j < |users| && users[j].id != users[i].id && users[j].email == upd.email.value
  {
    if upd.email.Some? {
      var e := upd.email.value;
      if exists j :: 0 <= j < |users| && users[j].id != users[i].id && users[j].email == e {
        var j :| 0 <= j < |users| && users[j].id != users[i].id && users[j].email == e;
        assert j != i;
        assert users[i].email != e by {
          if j < i { assert users[j].email != users[i].email; } else { assert users[i].email != users[j].email; }
        }
      }
      if EmailConflict(users, users[i], upd) {
        var j :| 0 <= j < |users| && users[j].email == e;
        assert j != i;
        if j < i { assert users[j].id != users[i].id; } else { assert users[i].id != users[j].id; }
      }
    }
  }

  /** Asking for the caller's own current email never clashes, whoever else is registered. */
  lemma OwnEmailNeverConflicts(users: seq<User>, current: User, upd: UserUpdate)
    requires upd.email == Some(current.email)
    ensures !EmailConflict(users, current, upd)
  {
  }

  /** An all-`None` patch commits the stored row unchanged, `updated_at` included. */
  lemma EmptyUpdateChangesNothing(u: User, hash: string -> string, now: nat)
    ensures Committed(u, Patch(u, EmptyUserUpdate(), hash), now) == u
  {
  }

  /** A patch can set a nullable profile field but never clear it. */
  lemma PatchNeverClears(u: User, upd: UserUpdate, hash: string -> string)
    ensures u.age.Some? ==> Patch(u, upd, hash).age.Some?
    ensures u.gender.Some? ==> Patch(u, upd, hash).gender.Some?
    ensures u.height.Some? ==> Patch(u, upd, hash).height.Some?
    ensures u.weight.Some? ==> Patch(u, upd, hash).weight.Some?
    ensures u.preferredMode.Some? ==> Patch(u, upd, hash).preferredMode.Some?
  {
  }
}
