/** routers/user.py: reading and updating the signed-in user's profile. The
    caller is the user the authentication dependency loaded, so their row
    exists; the update overwrites exactly the three profile fields. */
module Users {
  import opened Common
  import opened Models

  /** What `POST /user/profile` does to the loaded user (lines 25-27): the three
      profile fields take the submitted values, `None` included; the email,
      password and name in the body are ignored. */
  function WithProfile(u: User, data: UserCreate): (r: User)
    ensures r.careerRole == data.careerRole
    ensures r.experienceLevel == data.experienceLevel
    ensures r.locationPreference == data.locationPreference
    ensures r.id == u.id && r.email == u.email && r.hashedPassword == u.hashedPassword
    ensures r.fullName == u.fullName && r.createdAt == u.createdAt
  {
    u.(careerRole := data.careerRole,
       experienceLevel := data.experienceLevel,
       locationPreference := data.locationPreference)
  }

  /** The result depends on the body's three profile fields only. */
  lemma WithProfileIgnoresAccountFields(u: User, a: UserCreate, b: UserCreate)
    requires a.careerRole == b.careerRole && a.experienceLevel == b.experienceLevel
    requires a.locationPreference == b.locationPreference
    ensures WithProfile(u, a) == WithProfile(u, b)
  {
  }

  /** Submitting the same profile twice has the effect of submitting it once. */
  lemma WithProfileIdempotent(u: User, data: UserCreate)
    ensures WithProfile(WithProfile(u, data), data) == WithProfile(u, data)
  {
  }

  /** No two rows share an id (the primary key). */
  predicate UniqueIds(rows: seq<User>) {
    forall i, j :: 0 <= i < j < |rows| ==> rows[i].id != rows[j].id
  }

  predicate Registered(rows: seq<User>, id: int) {
    exists i :: 0 <= i < |rows| && rows[i].id == id
  }

  /** The position of the first row with that id. */
  function PositionOf(rows: seq<User>, id: int): (k: nat)
    requires Registered(rows, id)
    ensures k < |rows| && rows[k].id == id
    ensures forall i :: 0 <= i < k ==> rows[i].id != id
  {
    if rows[0].id == id then 0
    else
      assert Registered(rows[1..], id) by {
        var i :| 0 <= i < |rows| && rows[i].id == id;
        assert rows[1..][i - 1] == rows[i];
      }
      var k := PositionOf(rows[1..], id);
      assert forall i :: 1 <= i < |rows| ==> rows[i] == rows[1..][i - 1];
      1 + k
  }

  /** The user table. */
  class UserTable {
    var rows: seq<User>

    ghost predicate Valid()
      reads this
    {
      UniqueIds(rows)
    }

    constructor (users: seq<User>)
      requires UniqueIds(users)
      ensures Valid() && rows == users
    {
      rows := users;
    }

    /** `GET /user/profile` (lines 13-15): the caller's row as stored. */
    function Profile(caller: int): (u: User)
      reads this
      requires Valid() && Registered(rows, caller)
      ensures u in rows && u.id == caller
      ensures forall x :: x in rows && x.id == caller ==> x == u
    {
      rows[PositionOf(rows, caller)]
    }

    /** `POST /user/profile` (lines 17-31) by `caller`. */
    method UpdateProfile(caller: int, data: UserCreate) returns (u: User)
      requires Valid() && Registered(rows, caller)
      modifies this
      ensures Valid() && Registered(rows, caller)
      ensures u == WithProfile(old(Profile(caller)), data) && u == Profile(caller)
      ensures |rows| == |old(rows)|
      ensures forall i :: 0 <= i < |rows| ==>
                rows[i] == if old(rows)[i].id == caller then u else old(rows)[i]
    {
      var k := PositionOf(rows, caller);
      u := WithProfile(rows[k], data);
      rows := rows[k := u];
      assert rows[k].id == caller;
    }
  }
}
