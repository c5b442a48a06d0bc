/** The user lifecycle of the `/auth` and `/admin` routes: registration,
    the login approval gate, seeding, profile edits, and the admin's approval,
    role and deletion actions on the user collection. Password hashing is
    opaque: hashes arrive as parameters and the comparison is the parameter
    `verify`. */
module Users {
  import opened Common

  /** A profile field: never set, explicitly `null`, or a string. In a
      request body `Unset` stands for `undefined`. */
  datatype Field = Unset | Null | Text(s: string)

  datatype Profile = Profile(name: Field, bio: Field, contact: Field, image: Field)

  /** The body of `PUT /auth/profile`. */
  datatype ProfileEdit = ProfileEdit(name: Field, bio: Field, contact: Field)

  datatype User = User(
    id: UserId,
    username: string,
    password: string,
    role: Role,
    isApproved: bool,
    profile: Option<Profile>)

  /** A user as the routes return it: everything but the password hash. */
  datatype PublicUser = PublicUser(
    id: UserId,
    username: string,
    role: Role,
    isApproved: bool,
    profile: Option<Profile>)

  /** The body of a successful login, token aside: the profile image alone
      stands for the profile, and is `Unset` when there is no profile. */
  datatype LoginReply = LoginReply(
    id: UserId,
    username: string,
    role: Role,
    image: Field,
    isApproved: bool)

  /** A response code and the user collection after the request. */
  datatype Outcome = Outcome(code: int, users: seq<User>)

  const EmptyProfile: Profile := Profile(Unset, Unset, Unset, Unset)
  const SeedProfile: Profile := Profile(Text("Super Admin"), Text("The Boss"), Unset, Unset)

  function Public(u: User): (p: PublicUser)
    ensures p.id == u.id && p.username == u.username && p.role == u.role
    ensures p.isApproved == u.isApproved && p.profile == u.profile
  {
    PublicUser(u.id, u.username, u.role, u.isApproved, u.profile)
  }

  function Reply(u: User): LoginReply
  {
    LoginReply(u.id, u.username, u.role, if u.profile.Some? then u.profile.value.image else Unset, u.isApproved)
  }

  function Named(name: string): User -> bool
  {
    (u: User) => u.username == name
  }

  function Identified(id: UserId): User -> bool
  {
    (u: User) => u.id == id
  }

  predicate NameTaken(users: seq<User>, name: string)
  {
    exists u :: u in users && u.username == name
  }

  predicate HasAdmin(users: seq<User>)
  {
    exists u :: u in users && u.role == Admin
  }

  /** Ids are distinct and below the next id to allocate. */
  predicate WellFormed(users: seq<User>, nextId: UserId)
  {
    (forall i, j :: 0 <= i < j < |users| ==> users[i].id != users[j].id) &&
    (forall u :: u in users ==> u.id < nextId)
  }

  // ---------------------------------------------------------------------
  // auth.js
  // ---------------------------------------------------------------------

  /** `POST /auth/register`: a taken username gives 400 and no change; the
      first account of an empty collection is an approved admin, every later
      one an unapproved member. */
  function Registration(users: seq<User>, name: string, hash: string, id: UserId): (r: Outcome)
    ensures NameTaken(users, name) ==> r == Outcome(BAD_REQUEST, users)
    ensures !NameTaken(users, name) ==>
      r.code == CREATED && |r.users| == |users| + 1 && r.users[..|users|] == users &&
      var u := r.users[|users|];
      u.id == id && u.username == name && u.password == hash && u.profile.None? &&
      (u.role == Admin <==> users == []) && (u.isApproved <==> users == [])
  {
    if NameTaken(users, name) then Outcome(BAD_REQUEST, users)
    else
      var first := |users| == 0;
      Outcome(CREATED, users + [User(id, name, hash, if first then Admin else Member, first, None)])
  }

  /** `POST /auth/login`. Unknown users and failed password checks give 401;
      with a correct password an unapproved non-admin still gets 401, while
      an admin logs in whatever its approval flag. */
  function Login(users: seq<User>, name: string, password: string,
                 verify: (string, string) -> bool): (r: Result<LoginReply>)
    ensures FindFirst(users, Named(name)).None? ==> r == Err(UNAUTHORIZED)
    ensures FindFirst(users, Named(name)).Some? ==>
      var u := users[FindFirst(users, Named(name)).value];
      u.username == name &&
      (!verify(password, u.password) ==> r == Err(UNAUTHORIZED)) &&
      (verify(password, u.password) ==>
        if u.isApproved || u.role == Admin then r == Ok(Reply(u)) else r == Err(UNAUTHORIZED))
  {
    match FindFirst(users, Named(name))
    case None => Err(UNAUTHORIZED)
    case Some(k) =>
      var u := users[k];
      if !verify(password, u.password) then Err(UNAUTHORIZED)
      else if !u.isApproved && u.role != Admin then Err(UNAUTHORIZED)
      else Ok(Reply(u))
  }

  /** Only approved accounts and admins ever log in. */
  lemma {:induction false} LoginGate(users: seq<User>, name: string, password: string,
                                     verify: (string, string) -> bool)
    requires Login(users, name, password, verify).Ok?
    ensures var p := Login(users, name, password, verify).value;
      p.username == name && (p.isApproved || p.role == Admin) &&
      exists u :: u in users && Reply(u) == p && verify(password, u.password)
  {
    var k := FindFirst(users, Named(name)).value;
    assert users[k] in users;
  }

  /** `POST /auth/seed`: 400 when any admin exists, otherwise one approved
      admin named "admin" with the fixed profile. */
  function Seeding(users: seq<User>, hash: string, id: UserId): (r: Outcome)
    ensures HasAdmin(users) ==> r == Outcome(BAD_REQUEST, users)
    ensures !HasAdmin(users) ==>
      r.code == CREATED &&
      r.users == users + [User(id, "admin", hash, Admin, true, Some(SeedProfile))]
  {
    if HasAdmin(users) then Outcome(BAD_REQUEST, users)
    else Outcome(CREATED, users + [User(id, "admin", hash, Admin, true, Some(SeedProfile))])
  }

  /** After seeding an admin exists, so a second seed is refused. */
  lemma {:induction false} SeedOnce(users: seq<User>, hash: string, id: UserId, hash2: string, id2: UserId)
    ensures HasAdmin(Seeding(users, hash, id).users)
    ensures Seeding(Seeding(users, hash, id).users, hash2, id2).code == BAD_REQUEST
  {
    var r := Seeding(users, hash, id);
    if !HasAdmin(users) {
      assert r.users[|users|] in r.users;
    }
  }

  function Overwrite(incoming: Field, current: Field): Field
  {
    if incoming != Unset then incoming else current
  }

  /** The profile merge: a missing profile starts empty; each of name, bio
      and contact is replaced exactly when the request value is not
      `undefined` (so `null` and "" overwrite); the image is kept. */
  function MergeProfile(p: Option<Profile>, e: ProfileEdit): (r: Profile)
    ensures var base := if p.Some? then p.value else EmptyProfile;
      (e.name != Unset ==> r.name == e.name) && (e.name == Unset ==> r.name == base.name) &&
      (e.bio != Unset ==> r.bio == e.bio) && (e.bio == Unset ==> r.bio == base.bio) &&
      (e.contact != Unset ==> r.contact == e.contact) && (e.contact == Unset ==> r.contact == base.contact) &&
      r.image == base.image
  {
    var base := if p.Some? then p.value else EmptyProfile;
    Profile(Overwrite(e.name, base.name), Overwrite(e.bio, base.bio), Overwrite(e.contact, base.contact), base.image)
  }

  /** An edit that supplies nothing keeps an existing profile, and merging is
      idempotent. */
  lemma MergeProfileProperties(p: Profile, e: ProfileEdit)
    ensures MergeProfile(Some(p), ProfileEdit(Unset, Unset, Unset)) == p
    ensures MergeProfile(Some(MergeProfile(Some(p), e)), e) == MergeProfile(Some(p), e)
  {
  }

  /** `PUT /auth/profile` for the authenticated user `id`. */
  function ProfileUpdate(users: seq<User>, id: UserId, e: ProfileEdit): (r: Outcome)
    ensures FindFirst(users, Identified(id)).None? ==> r == Outcome(NOT_FOUND, users)
    ensures FindFirst(users, Identified(id)).Some? ==>
      var k := FindFirst(users, Identified(id)).value;
      r.code == OK && |r.users| == |users| &&
      r.users[k] == users[k].(profile := Some(MergeProfile(users[k].profile, e))) &&
      forall j :: 0 <= j < |users| && j != k ==> r.users[j] == users[j]
  {
    match FindFirst(users, Identified(id))
    case None => Outcome(NOT_FOUND, users)
    case Some(k) => Outcome(OK, users[k := users[k].(profile := Some(MergeProfile(users[k].profile, e)))])
  }

  // ---------------------------------------------------------------------
  // admin.js
  // ---------------------------------------------------------------------

  predicate AwaitingApproval(u: User)
  {
    !u.isApproved && u.role == Member
  }

  /** The public view of the users `keep` selects, in collection order. */
  function Select(users: seq<User>, keep: User -> bool): (r: seq<PublicUser>)
    ensures |r| <= |users|
    ensures forall i :: 0 <= i < |users| && keep(users[i]) ==> Public(users[i]) in r
    ensures forall p :: p in r ==> exists u :: u in users && keep(u) && Public(u) == p
  {
    if users == [] then []
    else
      (if keep(users[0]) then [Public(users[0])] else []) + Select(users[1..], keep)
  }

  /** `GET /admin/users/pending`: exactly the unapproved members. */
  function PendingUsers(users: seq<User>): (r: seq<PublicUser>)
    ensures forall i :: 0 <= i < |users| && !users[i].isApproved && users[i].role == Member ==>
      Public(users[i]) in r
    ensures forall p :: p in r ==> !p.isApproved && p.role == Member
  {
    Select(users, AwaitingApproval)
  }

  /** `GET /admin/users`: exactly the approved users, of any role. */
  function Directory(users: seq<User>): (r: seq<PublicUser>)
    ensures forall i :: 0 <= i < |users| && users[i].isApproved ==> Public(users[i]) in r
    ensures forall p :: p in r ==> p.isApproved
  {
    Select(users, (u: User) => u.isApproved)
  }

  /** Every user is either awaiting approval, listed in the directory, or an
      unapproved admin; no user is in both lists. */
  lemma {:induction false} ListsPartition(users: seq<User>, i: nat)
    requires i < |users|
    ensures Public(users[i]) in PendingUsers(users) || Public(users[i]) in Directory(users)
            || (users[i].role == Admin && !users[i].isApproved)
    ensures !(Public(users[i]) in PendingUsers(users) && Public(users[i]) in Directory(users))
  {
  }

  /** `PUT /admin/users/:id/approve`: the target alone becomes approved. */
  function Approval(users: seq<User>, id: UserId): (r: Outcome)
    ensures FindFirst(users, Identified(id)).None? ==> r == Outcome(NOT_FOUND, users)
    ensures FindFirst(users, Identified(id)).Some? ==>
      var k := FindFirst(users, Identified(id)).value;
      r.code == OK && |r.users| == |users| &&
      r.users[k] == users[k].(isApproved := true) &&
      forall j :: 0 <= j < |users| && j != k ==> r.users[j] == users[j]
  {
    match FindFirst(users, Identified(id))
    case None => Outcome(NOT_FOUND, users)
    case Some(k) => Outcome(OK, users[k := users[k].(isApproved := true)])
  }

  /** Approving twice is approving once. */
  lemma {:induction false} ApprovalIdempotent(users: seq<User>, id: UserId)
    ensures Approval(Approval(users, id).users, id) == Approval(users, id)
  {
    var r := Approval(users, id);
    match FindFirst(users, Identified(id))
    case None =>
    case Some(k) =>
      FindFirstAt(r.users, Identified(id), k);
  }

  /** `DELETE /admin/users/:id`: exactly the target is removed. */
  function Removal(users: seq<User>, id: UserId): (r: Outcome)
    ensures FindFirst(users, Identified(id)).None? ==> r == Outcome(NOT_FOUND, users)
    ensures FindFirst(users, Identified(id)).Some? ==>
      r.code == OK && r.users == RemoveAt(users, FindFirst(users, Identified(id)).value)
  {
    match FindFirst(users, Identified(id))
    case None => Outcome(NOT_FOUND, users)
    case Some(k) => Outcome(OK, RemoveAt(users, k))
  }

  /** With distinct ids, the removed user is gone and everyone else stays. */
  lemma {:induction false} RemovalExact(users: seq<User>, nextId: UserId, id: UserId)
    requires WellFormed(users, nextId)
    requires FindFirst(users, Identified(id)).Some?
    ensures var r := Removal(users, id).users;
      (forall u :: u in r ==> u.id != id) &&
      (forall u :: u in users && u.id != id ==> u in r) &&
      (forall u :: u in r ==> u in users) &&
      WellFormed(r, nextId)
  {
    var k := FindFirst(users, Identified(id)).value;
    var r := Removal(users, id).users;
    forall u | u in r
      ensures u.id != id && u in users
    {
      var j :| 0 <= j < |r| && r[j] == u;
      if j < k {
        assert u == users[j];
      } else {
        assert u == users[j + 1];
      }
    }
    forall u | u in users && u.id != id
      ensures u in r
    {
      var j :| 0 <= j < |users| && users[j] == u;
      assert j != k;
      if j < k {
        assert r[j] == u;
      } else {
        assert r[j - 1] == u;
      }
    }
  }

  /** `PUT /admin/users/:id/role`: the given role is stored on the target only. */
  function RoleChange(users: seq<User>, id: UserId, role: Role): (r: Outcome)
    ensures FindFirst(users, Identified(id)).None? ==> r == Outcome(NOT_FOUND, users)
    ensures FindFirst(users, Identified(id)).Some? ==>
      var k := FindFirst(users, Identified(id)).value;
      r.code == OK && |r.users| == |users| &&
      r.users[k] == users[k].(role := role) &&
      forall j :: 0 <= j < |users| && j != k ==> r.users[j] == users[j]
  {
    match FindFirst(users, Identified(id))
    case None => Outcome(NOT_FOUND, users)
    case Some(k) => Outcome(OK, users[k := users[k].(role := role)])
  }

  /** Register an admin, register a member, the member's login is refused,
      the admin approves the member, and the member's login succeeds. */
  lemma {:induction false} ApprovalScenario(adminName: string, adminHash: string,
                                            memberName: string, memberHash: string, memberPassword: string,
                                            verify: (string, string) -> bool)
    requires adminName != memberName
    requires verify(memberPassword, memberHash)
    ensures var s1 := Registration([], adminName, adminHash, 0);
      var s2 := Registration(s1.users, memberName, memberHash, 1);
      var s3 := Approval(s2.users, 1);
      s1.code == CREATED && s1.users[0].role == Admin && s1.users[0].isApproved &&
      s2.code == CREATED && s2.users[1].role == Member && !s2.users[1].isApproved &&
      Login(s2.users, memberName, memberPassword, verify) == Err(UNAUTHORIZED) &&
      s3.code == OK &&
      Login(s3.users, memberName, memberPassword, verify).Ok?
  {
    var s1 := Registration([], adminName, adminHash, 0);
    assert !NameTaken(s1.users, memberName) by {
      assert s1.users == [s1.users[0]];
    }
    var s2 := Registration(s1.users, memberName, memberHash, 1);
    assert s2.users == [s1.users[0], s2.users[1]];
    FindFirstAt(s2.users, Named(memberName), 1);
    FindFirstAt(s2.users, Identified(1), 1);
    var s3 := Approval(s2.users, 1);
    FindFirstAt(s3.users, Named(memberName), 1);
  }

  /** The user collection. Identifiers are allocated from a counter. */
  class UserStore {
    var users: seq<User>
    var nextId: UserId

    ghost predicate Valid()
      reads this
    {
      WellFormed(users, nextId)
    }

    constructor ()
      ensures Valid() && users == []
    {
      users := [];
      nextId := 0;
    }

    method Register(name: string, hash: string) returns (code: int)
      requires Valid()
      modifies this
      ensures Valid()
      ensures Outcome(code, users) == Registration(old(users), name, hash, old(nextId))
    {
      var taken := exists u :: u in users && u.username == name;
      if taken {
        return BAD_REQUEST;
      }
      var isFirstAccount := |users| == 0;
      var role := if isFirstAccount then Admin else Member;
      users := users + [User(nextId, name, hash, role, isFirstAccount, None)];
      nextId := nextId + 1;
      code := CREATED;
    }

    method Seed(hash: string) returns (code: int)
      requires Valid()
      modifies this
      ensures Valid()
      ensures Outcome(code, users) == Seeding(old(users), hash, old(nextId))
    {
      var adminExists := exists u :: u in users && u.role == Admin;
      if adminExists {
        return BAD_REQUEST;
      }
      users := users + [User(nextId, "admin", hash, Admin, true, Some(SeedProfile))];
      nextId := nextId + 1;
      code := CREATED;
    }

    /** Returns the updated user without its password. */
    method UpdateProfile(caller: Caller, e: ProfileEdit) returns (code: int, body: Option<PublicUser>)
      requires Valid()
      modifies this`users
      ensures Valid()
      ensures Outcome(code, users) == ProfileUpdate(old(users), caller.id, e)
      ensures code == OK <==> body.Some?
      ensures body.Some? ==> body.value.id == caller.id && exists u :: u in users && body.value == Public(u)
    {
      var found := FindFirst(users, Identified(caller.id));
      if found.None? {
        return NOT_FOUND, None;
      }
      var k := found.value;
      var user := users[k];
      var profile := if user.profile.None? then EmptyProfile else user.profile.value;
      profile := profile.(name := if e.name != Unset then e.name else profile.name);
      profile := profile.(bio := if e.bio != Unset then e.bio else profile.bio);
      profile := profile.(contact := if e.contact != Unset then e.contact else profile.contact);
      user := user.(profile := Some(profile));
      users := users[k := user];
      code, body := OK, Some(Public(user));
    }

    method Approve(caller: Caller, id: UserId) returns (code: int)
      requires Valid() && caller.role == Admin
      modifies this`users
      ensures Valid()
      ensures Outcome(code, users) == Approval(old(users), id)
    {
      var found := FindFirst(users, Identified(id));
      if found.None? {
        return NOT_FOUND;
      }
      var k := found.value;
      users := users[k := users[k].(isApproved := true)];
      code := OK;
    }

    method Delete(caller: Caller, id: UserId) returns (code: int)
      requires Valid() && caller.role == Admin
      modifies this`users
      ensures Valid()
      ensures Outcome(code, users) == Removal(old(users), id)
    {
      var found := FindFirst(users, Identified(id));
      if found.None? {
        return NOT_FOUND;
      }
      RemovalExact(users, nextId, id);
      users := RemoveAt(users, found.value);
      code := OK;
    }

    method SetRole(caller: Caller, id: UserId, role: Role) returns (code: int)
      requires Valid() && caller.role == Admin
      modifies this`users
      ensures Valid()
      ensures Outcome(code, users) == RoleChange(old(users), id, role)
    {
      var found := FindFirst(users, Identified(id));
      if found.None? {
        return NOT_FOUND;
      }
      var k := found.value;
      users := users[k := users[k].(role := role)];
      code := OK;
    }
  }
}
