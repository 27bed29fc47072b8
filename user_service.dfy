/** The user collection: registration with a unique e-mail, look-ups,
    partial updates, soft deletion, and the two discovery queries. The
    password hash is computed outside the model and handed in. */
module UserService {
  import opened Common

  const EmailExists := "User with this email already exists"
  const UserNotFound := "User not found"

  datatype Role = UserRole | AdminRole

  /** A user document with the schema's defaults: role `user`, rating and
      rating count 0, active, and empty skill and availability lists. */
  datatype User = User(
    id: Id,
    email: string,
    password: string,
    firstName: string,
    lastName: string,
    bio: Option<string>,
    location: Option<string>,
    role: Role,
    offeredSkills: seq<string>,
    wantedSkills: seq<string>,
    availability: seq<string>,
    rating: real,
    totalRatings: int,
    isActive: bool,
    createdAt: Time,
    updatedAt: Time)

  /** A validated registration payload. */
  datatype CreateUserDto = CreateUserDto(
    email: string,
    password: string,
    firstName: string,
    lastName: string,
    bio: Option<string>,
    location: Option<string>,
    offeredSkills: Option<seq<string>>,
    wantedSkills: Option<seq<string>>,
    availability: Option<seq<string>>)

  /** A validated profile update: every field optional, and no e-mail,
      password or role among them. */
  datatype UpdateUserDto = UpdateUserDto(
    firstName: Option<string>,
    lastName: Option<string>,
    bio: Option<string>,
    location: Option<string>,
    offeredSkills: Option<seq<string>>,
    wantedSkills: Option<seq<string>>,
    availability: Option<seq<string>>,
    isActive: Option<bool>)

  /** A registration saved at `now` with the given hash in place of the
      password. A `required` string left empty fails the save, the first such
      path in declaration order being reported. */
  function NewUser(id: Id, dto: CreateUserDto, hashedPassword: string, now: Time): (r: Result<User>)
    ensures r.Ok? <==> dto.email != "" && hashedPassword != "" && dto.firstName != "" && dto.lastName != ""
    ensures dto.email == "" ==> r == Err(SchemaViolation("email"))
    ensures r.Ok? ==>
      && r.value.id == id && r.value.email == dto.email && r.value.password == hashedPassword
      && r.value.firstName == dto.firstName && r.value.lastName == dto.lastName
      && r.value.bio == dto.bio && r.value.location == dto.location
      && r.value.role == UserRole && r.value.rating == 0.0 && r.value.totalRatings == 0 && r.value.isActive
      && r.value.offeredSkills == dto.offeredSkills.GetOr([])
      && r.value.wantedSkills == dto.wantedSkills.GetOr([])
      && r.value.availability == dto.availability.GetOr([])
      && r.value.createdAt == now && r.value.updatedAt == now
  {
    if dto.email == "" then Err(SchemaViolation("email"))
    else if hashedPassword == "" then Err(SchemaViolation("password"))
    else if dto.firstName == "" then Err(SchemaViolation("firstName"))
    else if dto.lastName == "" then Err(SchemaViolation("lastName"))
    else Ok(User(id, dto.email, hashedPassword, dto.firstName, dto.lastName, dto.bio, dto.location, UserRole,
                 dto.offeredSkills.GetOr([]), dto.wantedSkills.GetOr([]), dto.availability.GetOr([]),
                 0.0, 0, true, now, now))
  }

  /** The document after `findByIdAndUpdate(id, dto)` at `now`. Update
      validators are not run, so an empty name is written as given. */
  function ApplyUpdate(u: User, dto: UpdateUserDto, now: Time): (r: User)
    ensures r.id == u.id && r.email == u.email && r.password == u.password && r.role == u.role
    ensures r.rating == u.rating && r.totalRatings == u.totalRatings && r.createdAt == u.createdAt
    ensures r.firstName == dto.firstName.GetOr(u.firstName) && r.lastName == dto.lastName.GetOr(u.lastName)
    ensures r.offeredSkills == dto.offeredSkills.GetOr(u.offeredSkills)
    ensures r.wantedSkills == dto.wantedSkills.GetOr(u.wantedSkills)
    ensures r.availability == dto.availability.GetOr(u.availability)
    ensures r.bio == (if dto.bio.Some? then dto.bio else u.bio)
    ensures r.location == (if dto.location.Some? then dto.location else u.location)
    ensures r.isActive == dto.isActive.GetOr(u.isActive)
    ensures r.updatedAt == now
    ensures r == u.(firstName := r.firstName, lastName := r.lastName, bio := r.bio, location := r.location,
                    offeredSkills := r.offeredSkills, wantedSkills := r.wantedSkills,
                    availability := r.availability, isActive := r.isActive, updatedAt := r.updatedAt)
  {
    u.(firstName := dto.firstName.GetOr(u.firstName),
       lastName := dto.lastName.GetOr(u.lastName),
       bio := if dto.bio.Some? then dto.bio else u.bio,
       location := if dto.location.Some? then dto.location else u.location,
       offeredSkills := dto.offeredSkills.GetOr(u.offeredSkills),
       wantedSkills := dto.wantedSkills.GetOr(u.wantedSkills),
       availability := dto.availability.GetOr(u.availability),
       isActive := dto.isActive.GetOr(u.isActive),
       updatedAt := now)
  }

  /** `.select('-password')`: the document as a query returns it, without
      the hash (an empty string standing for the missing field; a stored
      hash is never empty). */
  function WithoutPassword(u: User): User {
    u.(password := "")
  }

  /** Every document of a collection without its hash. */
  function Projected(users: seq<User>): (r: seq<User>)
    ensures |r| == |users|
    ensures forall i :: 0 <= i < |r| ==> r[i] == WithoutPassword(users[i])
  {
    seq(|users|, i requires 0 <= i < |users| => WithoutPassword(users[i]))
  }

  /** A test that does not look at the hash counts the same documents
      before and after the projection. */
  lemma {:induction false} ProjectedCount(users: seq<User>, p: User -> bool)
    requires forall u :: p(WithoutPassword(u)) == p(u)
    ensures Count(Projected(users), p) == Count(users, p)
  {
    if users != [] {
      assert Projected(users)[1..] == Projected(users[1..]);
      ProjectedCount(users[1..], p);
    }
  }

  /** The mongo `offeredSkills: { $in: skills }` test: some offered skill is
      one of `skills`, compared exactly. */
  predicate OffersAny(u: User, skills: seq<string>) {
    exists k :: 0 <= k < |u.offeredSkills| && u.offeredSkills[k] in skills
  }

  function OffersAnyOf(u: User, skills: seq<string>): (b: bool)
    ensures b <==> OffersAny(u, skills)
  {
    FirstIndex(u.offeredSkills, (s: string) => s in skills).Some?
  }

  /** The `find(...).select('-password').limit(10)` of `getSmartMatches`:
      the first ten matches for a user who wants `wanted`, or all of them
      when there are fewer. */
  function MatchesAmong(users: seq<User>, userId: Id, wanted: seq<string>): (r: seq<User>)
    ensures var n := Count(users, (u: User) => IsMatchFor(userId, wanted, u));
      |r| == if n < 10 then n else 10
    ensures forall i :: 0 <= i < |r| ==>
      IsMatchFor(userId, wanted, r[i]) && r[i].password == "" && r[i] in Projected(users)
    ensures multiset(r) <= multiset(Projected(users))
  {
    var p := (u: User) => IsMatchFor(userId, wanted, u);
    var all := Filter(Projected(users), p);
    ProjectedCount(users, p);
    var r := Take(all, 10);
    TakeMultiset(all, 10);
    forall i | 0 <= i < |r|
      ensures IsMatchFor(userId, wanted, r[i]) && r[i].password == "" && r[i] in Projected(users)
    {
      assert r[i] == all[i] && all[i] in all;
      assert p(r[i]) && r[i] in Projected(users);
      var j :| 0 <= j < |users| && Projected(users)[j] == r[i];
    }
    r
  }

  /** The candidates `getSmartMatches` draws from for a user who wants
      `wanted`: every active other user offering one of those skills. */
  predicate IsMatchFor(userId: Id, wanted: seq<string>, u: User) {
    u.id != userId && u.isActive && OffersAny(u, wanted)
  }

  predicate HasId(users: seq<User>, id: Id) {
    exists i :: 0 <= i < |users| && users[i].id == id
  }

  predicate HasEmail(users: seq<User>, email: string) {
    exists i :: 0 <= i < |users| && users[i].email == email
  }

  /** The collection's invariant: ids and e-mails are both keys, and every
      user has a (non-empty) password hash. */
  ghost predicate UniqueKeys(users: seq<User>) {
    && (forall i, j :: 0 <= i < j < |users| ==> users[i].id != users[j].id)
    && (forall i, j :: 0 <= i < j < |users| ==> users[i].email != users[j].email)
    && (forall i :: 0 <= i < |users| ==> users[i].password != "")
  }

  function IndexOfId(users: seq<User>, id: Id): (r: Option<nat>)
    ensures r.Some? <==> HasId(users, id)
    ensures r.Some? ==> r.value < |users| && users[r.value].id == id
  {
    FirstIndex(users, (u: User) => u.id == id)
  }

  /** When no user with `id` is active (there is at most one), none is
      listed among the active users. */
  lemma {:induction false} InactiveNotListed(users: seq<User>, id: Id)
    requires forall j :: 0 <= j < |users| && users[j].id == id ==> !users[j].isActive
    ensures var active := Filter(users, (u: User) => u.isActive);
            forall k :: 0 <= k < |active| ==> active[k].id != id
  {
    var active := Filter(users, (u: User) => u.isActive);
    forall k | 0 <= k < |active| ensures active[k].id != id {
      assert active[k] in users && active[k].isActive;
    }
  }

  /** The user collection, in insertion order (the order a query without a
      sort returns). */
  class UserStore {
    var users: seq<User>

    ghost predicate Valid()
      reads this
    {
      UniqueKeys(users)
    }

    constructor ()
      ensures Valid() && users == []
    {
      users := [];
    }

    /** `create(dto)`: refuses an e-mail already registered, active or not;
        otherwise saves exactly one new user. `newId` is the ObjectId the
        driver generates and `hashedPassword` the bcrypt hash of
        `dto.password`. */
    method Create(dto: CreateUserDto, hashedPassword: string, newId: Id, now: Time) returns (r: Result<User>)
      requires Valid() && !HasId(users, newId)
      modifies this
      ensures Valid()
      ensures HasEmail(old(users), dto.email) ==> r == Err(Conflict(EmailExists))
      ensures !HasEmail(old(users), dto.email) ==> r == NewUser(newId, dto, hashedPassword, now)
      ensures r.Ok? ==> users == old(users) + [r.value]
      ensures r.Err? ==> users == old(users)
    {
      var existing := FirstIndex(users, (u: User) => u.email == dto.email);
      if existing.Some? {
        return Err(Conflict(EmailExists));
      }
      r := NewUser(newId, dto, hashedPassword, now);
      if r.Ok? {
        users := users + [r.value];
      }
    }

    /** `findAll()`: the active users, in store order, without their
        hashes. */
    function FindAll(): (r: seq<User>)
      reads this
      ensures forall i :: 0 <= i < |r| ==> r[i].isActive && r[i].password == "" && r[i] in Projected(users)
      ensures forall i :: 0 <= i < |users| && users[i].isActive ==> WithoutPassword(users[i]) in r
      ensures multiset(r) <= multiset(Projected(users))
    {
      Filter(Projected(users), (u: User) => u.isActive)
    }

    /** `findById(id)`: active or not, without its hash. */
    function FindById(id: Id): (r: Result<User>)
      reads this
      ensures r.Ok? <==> HasId(users, id)
      ensures r.Ok? ==> exists i :: 0 <= i < |users| && users[i].id == id && r.value == WithoutPassword(users[i])
      ensures r.Ok? ==> r.value.id == id && r.value.password == ""
      ensures r.Err? ==> r.error == NotFound(UserNotFound)
    {
      match IndexOfId(users, id)
      case Some(i) => Ok(WithoutPassword(users[i]))
      case None => Err(NotFound(UserNotFound))
    }

    /** `update(id, dto)`: rewrites the given fields of one user. */
    method Update(id: Id, dto: UpdateUserDto, now: Time) returns (r: Result<User>)
      requires Valid()
      modifies this
      ensures Valid()
      ensures !HasId(old(users), id) ==> r == Err(NotFound(UserNotFound)) && users == old(users)
      ensures HasId(old(users), id) ==>
        var i := IndexOfId(old(users), id).value;
        && users == old(users)[i := ApplyUpdate(old(users)[i], dto, now)]
        && r == Ok(WithoutPassword(users[i]))
    {
      var found := IndexOfId(users, id);
      if found.None? {
        return Err(NotFound(UserNotFound));
      }
      var i := found.value;
      users := users[i := ApplyUpdate(users[i], dto, now)];
      r := Ok(WithoutPassword(users[i]));
    }

    /** `remove(id)`: a soft delete. The user stays in the collection,
        inactive, and so drops out of every query of active users. */
    method Remove(id: Id, now: Time) returns (r: Result<()>)
      requires Valid()
      modifies this
      ensures Valid()
      ensures !HasId(old(users), id) ==> r == Err(NotFound(UserNotFound)) && users == old(users)
      ensures HasId(old(users), id) ==>
        var i := IndexOfId(old(users), id).value;
        && r == Ok(())
        && users == old(users)[i := old(users)[i].(isActive := false, updatedAt := now)]
      ensures |users| == |old(users)|
      ensures forall k :: 0 <= k < |FindAll()| ==> FindAll()[k].id != id
    {
      var found := IndexOfId(users, id);
      if found.None? {
        InactiveNotListed(users, id);
        return Err(NotFound(UserNotFound));
      }
      var i := found.value;
      users := users[i := users[i].(isActive := false, updatedAt := now)];
      r := Ok(());
      InactiveNotListed(users, id);
    }

    /** `searchBySkills(skills)`: the active users offering at least one of
        `skills`, without their hashes. */
    function SearchBySkills(skills: seq<string>): (r: seq<User>)
      reads this
      ensures forall i :: 0 <= i < |r| ==>
        r[i].isActive && OffersAny(r[i], skills) && r[i].password == "" && r[i] in Projected(users)
      ensures forall i :: 0 <= i < |users| && users[i].isActive && OffersAny(users[i], skills) ==>
        WithoutPassword(users[i]) in r
      ensures multiset(r) <= multiset(Projected(users))
    {
      Filter(Projected(users), (u: User) => u.isActive && OffersAnyOf(u, skills))
    }

    /** `getSmartMatches(userId)`: ten active other users offering a skill
        the user wants, or all of them when there are fewer, in store order
        and without their hashes; none for a user who wants nothing;
        NotFound for an unknown user. */
    function GetSmartMatches(userId: Id): (r: Result<seq<User>>)
      reads this
      ensures r.Err? <==> !HasId(users, userId)
      ensures r.Err? ==> r.error == NotFound(UserNotFound)
      ensures r.Ok? ==>
        var wanted := FindById(userId).value.wantedSkills;
        var n := Count(users, (u: User) => IsMatchFor(userId, wanted, u));
        |r.value| == if wanted == [] then 0 else if n < 10 then n else 10
      ensures r.Ok? ==> forall i :: 0 <= i < |r.value| ==>
        && r.value[i].id != userId && r.value[i].isActive && r.value[i].password == ""
        && OffersAny(r.value[i], FindById(userId).value.wantedSkills)
        && r.value[i] in Projected(users)
      ensures r.Ok? ==> multiset(r.value) <= multiset(Projected(users))
    {
      var user :- FindById(userId);
      var wanted := user.wantedSkills;
      if |wanted| == 0 then Ok([])
      else Ok(MatchesAmong(users, userId, wanted))
    }
  }

  /** The limit is the only thing that can leave a candidate out: with ten
      or fewer candidates, every one of them is returned. */
  lemma {:induction false} SmartMatchesComplete(store: UserStore, userId: Id, wanted: seq<string>)
    requires store.FindById(userId).Ok? && store.FindById(userId).value.wantedSkills == wanted
    requires Count(store.users, (u: User) => IsMatchFor(userId, wanted, u)) <= 10
    ensures store.GetSmartMatches(userId).Ok?
    ensures forall i :: 0 <= i < |store.users| && IsMatchFor(userId, wanted, store.users[i])
              ==> WithoutPassword(store.users[i]) in store.GetSmartMatches(userId).value
  {
    if wanted != [] {
      var p := (u: User) => IsMatchFor(userId, wanted, u);
      var all := Filter(Projected(store.users), p);
      ProjectedCount(store.users, p);
      assert store.GetSmartMatches(userId).value == MatchesAmong(store.users, userId, wanted) == all;
      forall i | 0 <= i < |store.users| && p(store.users[i]) ensures WithoutPassword(store.users[i]) in all {
        assert Projected(store.users)[i] == WithoutPassword(store.users[i]);
      }
    }
  }
}
