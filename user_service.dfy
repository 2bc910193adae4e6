/** The user service: reads, create, update (PUT), patch (PATCH) and delete over the
    `users` table. */
module UserServices {
  import opened Common
  import Table
  import opened UserModel

  /** The body of a create request. The identity-provider id it carries is never stored. */
  datatype UserCreateDto = UserCreateDto(
    firebaseUid: Option<string>,
    userEmail: string,
    userRole: string,
    userFirstName: string,
    userLastName: string,
    userPhoneNumber: string,
    userAddress: Option<string>,
    userBirthDate: DateTime,
    userProfilePicture: Option<string>)

  /** The body of a PUT request. The birth date is not nullable: a client that leaves it out
      sends `DateTime.MinValue`. */
  datatype UserUpdateDto = UserUpdateDto(
    userFirstName: Option<string>,
    userLastName: Option<string>,
    userPhoneNumber: Option<string>,
    userAddress: Option<string>,
    userBirthDate: DateTime,
    userProfilePicture: Option<string>,
    userRole: Option<string>,
    isRoleVerified: Option<bool>,
    userIsVerified: Option<bool>)

  /** The body of a PATCH request: every field, the birth date included, may be left out. */
  datatype UserPatchDto = UserPatchDto(
    userFirstName: Option<string>,
    userLastName: Option<string>,
    userPhoneNumber: Option<string>,
    userAddress: Option<string>,
    userBirthDate: Option<DateTime>,
    userProfilePicture: Option<string>,
    userRole: Option<string>,
    isRoleVerified: Option<bool>,
    userIsVerified: Option<bool>)

  /** What the reads return for one user. */
  datatype UserReadDto = UserReadDto(
    userId: Uuid,
    userEmail: string,
    userRole: string,
    isRoleVerified: bool,
    userFirstName: string,
    userLastName: string,
    userPhoneNumber: string,
    userAddress: Option<string>,
    createUserDate: DateTime,
    userBirthDate: DateTime,
    userProfilePicture: Option<string>,
    userIsVerified: bool)

  /** The user a read DTO describes. */
  function FromReadDto(d: UserReadDto): User {
    User(d.userId, d.userEmail, d.userRole, d.isRoleVerified, d.userFirstName, d.userLastName,
      d.userPhoneNumber, d.userAddress, d.createUserDate, d.userBirthDate, d.userProfilePicture,
      d.userIsVerified)
  }

  /** The projection every read uses. It loses nothing. */
  function ToReadDto(u: User): (d: UserReadDto)
    ensures FromReadDto(d) == u
  {
    UserReadDto(u.userId, u.userEmail, u.userRole, u.isRoleVerified, u.userFirstName,
      u.userLastName, u.userPhoneNumber, u.userAddress, u.createUserDate, u.userBirthDate,
      u.userProfilePicture, u.userIsVerified)
  }

  /** The row a create request inserts under the store-generated key `id` at time `now`:
      neither the role nor the account is verified, and the creation date is `now`. */
  function NewUser(id: Uuid, dto: UserCreateDto, now: DateTime): (u: User)
    ensures u.userId == id && u.createUserDate == now
    ensures !u.isRoleVerified && !u.userIsVerified
    ensures u.userEmail == dto.userEmail && u.userRole == dto.userRole
    ensures u.userBirthDate == dto.userBirthDate
    ensures u.userFirstName == dto.userFirstName && u.userLastName == dto.userLastName
    ensures u.userPhoneNumber == dto.userPhoneNumber && u.userAddress == dto.userAddress
    ensures u.userProfilePicture == dto.userProfilePicture
  {
    User(id, dto.userEmail, dto.userRole, false, dto.userFirstName, dto.userLastName,
      dto.userPhoneNumber, dto.userAddress, now, dto.userBirthDate, dto.userProfilePicture, false)
  }

  /** The identity-provider id of a create request has no effect on the stored user. */
  lemma NewUserIgnoresFirebaseUid(id: Uuid, dto: UserCreateDto, uid: Option<string>, now: DateTime)
    ensures NewUser(id, dto.(firebaseUid := uid), now) == NewUser(id, dto, now)
  {
  }

  /** The effect of a PATCH request: each supplied field overwrites. The e-mail address, the
      creation date and the key are out of its reach, and no timestamp changes. */
  function MergeUserPatch(u: User, dto: UserPatchDto): (m: User)
    ensures m.userId == u.userId && m.userEmail == u.userEmail
    ensures m.createUserDate == u.createUserDate
  {
    u.(
      userFirstName := Patch(u.userFirstName, dto.userFirstName),
      userLastName := Patch(u.userLastName, dto.userLastName),
      userPhoneNumber := Patch(u.userPhoneNumber, dto.userPhoneNumber),
      userAddress := PatchNullable(u.userAddress, dto.userAddress),
      userBirthDate := Patch(u.userBirthDate, dto.userBirthDate),
      userProfilePicture := PatchNullable(u.userProfilePicture, dto.userProfilePicture),
      userRole := Patch(u.userRole, dto.userRole),
      isRoleVerified := Patch(u.isRoleVerified, dto.isRoleVerified),
      userIsVerified := Patch(u.userIsVerified, dto.userIsVerified))
  }

  /** The effect of a PUT request: as a patch, except that the birth date is overwritten only
      when it differs from `DateTime.MinValue`. */
  function MergeUserUpdate(u: User, dto: UserUpdateDto): (m: User)
    ensures m.userId == u.userId && m.userEmail == u.userEmail
    ensures m.createUserDate == u.createUserDate
  {
    u.(
      userFirstName := Patch(u.userFirstName, dto.userFirstName),
      userLastName := Patch(u.userLastName, dto.userLastName),
      userPhoneNumber := Patch(u.userPhoneNumber, dto.userPhoneNumber),
      userAddress := PatchNullable(u.userAddress, dto.userAddress),
      userBirthDate := if dto.userBirthDate != MinValue then dto.userBirthDate else u.userBirthDate,
      userProfilePicture := PatchNullable(u.userProfilePicture, dto.userProfilePicture),
      userRole := Patch(u.userRole, dto.userRole),
      isRoleVerified := Patch(u.isRoleVerified, dto.isRoleVerified),
      userIsVerified := Patch(u.userIsVerified, dto.userIsVerified))
  }

  /** The PATCH request a PUT request amounts to: `DateTime.MinValue` reads as "no birth date
      supplied". */
  function UpdateAsPatch(dto: UserUpdateDto): (p: UserPatchDto)
    ensures p.userBirthDate.None? <==> dto.userBirthDate == MinValue
    ensures p.userBirthDate.Some? ==> p.userBirthDate.value == dto.userBirthDate
  {
    UserPatchDto(dto.userFirstName, dto.userLastName, dto.userPhoneNumber, dto.userAddress,
      if dto.userBirthDate == MinValue then None else Some(dto.userBirthDate),
      dto.userProfilePicture, dto.userRole, dto.isRoleVerified, dto.userIsVerified)
  }

  /** PUT and PATCH differ only in how the birth date is left out. */
  lemma MergeUserUpdateIsPatch(u: User, dto: UserUpdateDto)
    ensures MergeUserUpdate(u, dto) == MergeUserPatch(u, UpdateAsPatch(dto))
  {
  }

  /** A PATCH request that supplies nothing. */
  const NoUserChanges: UserPatchDto := UserPatchDto(None, None, None, None, None, None, None, None, None)

  /** An empty PATCH leaves the user exactly as it was. */
  lemma MergeUserPatchNoChanges(u: User)
    ensures MergeUserPatch(u, NoUserChanges) == u
  {
  }

  /** Sending the same PATCH twice has the effect of sending it once. */
  lemma MergeUserPatchIdempotent(u: User, dto: UserPatchDto)
    ensures MergeUserPatch(MergeUserPatch(u, dto), dto) == MergeUserPatch(u, dto)
  {
  }

  /** PATCH can store `DateTime.MinValue` as a birth date; PUT never can, since it reads that
      value as "left out". */
  lemma MinValueBirthDate(u: User, dto: UserUpdateDto)
    ensures MergeUserPatch(u, NoUserChanges.(userBirthDate := Some(MinValue))).userBirthDate == MinValue
    ensures MergeUserUpdate(u, dto).userBirthDate == MinValue ==> u.userBirthDate == MinValue
  {
  }

  /** The verification flags are tested for presence, not truth: a supplied `false` revokes,
      by PUT and by PATCH alike, and an absent flag keeps its value. */
  lemma VerifiedFlagsOverwrite(u: User, dto: UserUpdateDto, patch: UserPatchDto)
    ensures dto.isRoleVerified == Some(false) ==> !MergeUserUpdate(u, dto).isRoleVerified
    ensures dto.userIsVerified == Some(false) ==> !MergeUserUpdate(u, dto).userIsVerified
    ensures patch.isRoleVerified == Some(false) ==> !MergeUserPatch(u, patch).isRoleVerified
    ensures patch.userIsVerified == Some(false) ==> !MergeUserPatch(u, patch).userIsVerified
    ensures patch.isRoleVerified.None? ==> MergeUserPatch(u, patch).isRoleVerified == u.isRoleVerified
    ensures patch.userIsVerified.None? ==> MergeUserPatch(u, patch).userIsVerified == u.userIsVerified
  {
  }

  /** The fields a PATCH may supply are each valid for the table when supplied. */
  predicate ValidUserPatch(dto: UserPatchDto) {
    && (dto.userFirstName.Some? ==> Required(dto.userFirstName.value) && |dto.userFirstName.value| <= 100)
    && (dto.userLastName.Some? ==> Required(dto.userLastName.value) && |dto.userLastName.value| <= 100)
    && (dto.userPhoneNumber.Some? ==> Required(dto.userPhoneNumber.value) && |dto.userPhoneNumber.value| <= 20)
    && (dto.userRole.Some? ==> ValidUserRole(dto.userRole.value))
  }

  /** A valid user stays valid under a PATCH exactly when every supplied field is valid. The
      service checks nothing itself. */
  lemma MergeUserPatchKeepsValid(u: User, dto: UserPatchDto)
    requires ValidUser(u)
    ensures ValidUser(MergeUserPatch(u, dto)) <==> ValidUserPatch(dto)
  {
  }

  class UserService {
    /** The `users` table, in table order. */
    var users: seq<User>

    ghost predicate Valid()
      reads this
    {
      Table.KeysUnique(users, UserKey)
    }

    constructor (initial: seq<User>)
      requires Table.KeysUnique(initial, UserKey)
      ensures Valid() && users == initial
    {
      users := initial;
    }

    /** `GetAllUsersAsync`: one read DTO per stored user, in table order. */
    function GetAllUsers(): (all: seq<UserReadDto>)
      reads this
      ensures |all| == |users|
      ensures forall i :: 0 <= i < |users| ==> FromReadDto(all[i]) == users[i]
    {
      Table.MapRows(users, ToReadDto)
    }

    /** `GetUserByIdAsync`: null exactly when no user has the id, otherwise a copy of that user. */
    function GetUserById(userId: Uuid): (found: Option<UserReadDto>)
      reads this
      ensures found.None? <==> !Table.HasKey(users, UserKey, userId)
      ensures found.Some? ==> FromReadDto(found.value) in users && found.value.userId == userId
    {
      match Table.Find(users, UserKey, userId)
      case None => None
      case Some(u) => Some(ToReadDto(u))
    }

    /** `CreateUserAsync`: appends the new user under the fresh key `newId` and returns its
        projection, which a read by that key then returns. */
    method CreateUser(dto: UserCreateDto, newId: Uuid, now: DateTime) returns (created: UserReadDto)
      requires Valid()
      requires !Table.HasKey(users, UserKey, newId)
      modifies this
      ensures Valid()
      ensures users == old(users) + [NewUser(newId, dto, now)]
      ensures created == ToReadDto(NewUser(newId, dto, now))
      ensures GetUserById(newId) == Some(created)
      ensures forall k :: k != newId ==> GetUserById(k) == old(GetUserById(k))
    {
      var user := NewUser(newId, dto, now);
      Table.AppendFresh(users, UserKey, user);
      users := users + [user];
      created := ToReadDto(user);
    }

    /** `UpdateUserAsync` (PUT): false, with nothing changed, when the id is absent; otherwise
        the user is overwritten field by field with what the DTO supplies. */
    method UpdateUser(userId: Uuid, dto: UserUpdateDto) returns (found: bool)
      requires Valid()
      modifies this
      ensures Valid()
      ensures found == Table.HasKey(old(users), UserKey, userId)
      ensures !found ==> users == old(users)
      ensures found ==>
        var i := Table.IndexOf(old(users), UserKey, userId).value;
        users == old(users)[i := MergeUserUpdate(old(users)[i], dto)]
      ensures found ==>
        GetUserById(userId) == Some(ToReadDto(MergeUserUpdate(old(Table.Find(users, UserKey, userId)).value, dto)))
      ensures forall k :: k != userId ==> GetUserById(k) == old(GetUserById(k))
    {
      var index := Table.IndexOf(users, UserKey, userId);
      if index.None? {
        return false;
      }
      var i := index.value;
      var user := MergeUserUpdate(users[i], dto);
      Table.ReplaceKeepingKey(users, UserKey, i, user);
      users := users[i := user];
      return true;
    }

    /** `PatchUserAsync` (PATCH): as `UpdateUser`, with the birth date nullable. */
    method PatchUser(userId: Uuid, dto: UserPatchDto) returns (found: bool)
      requires Valid()
      modifies this
      ensures Valid()
      ensures found == Table.HasKey(old(users), UserKey, userId)
      ensures !found ==> users == old(users)
      ensures found ==>
        var i := Table.IndexOf(old(users), UserKey, userId).value;
        users == old(users)[i := MergeUserPatch(old(users)[i], dto)]
      ensures found ==>
        GetUserById(userId) == Some(ToReadDto(MergeUserPatch(old(Table.Find(users, UserKey, userId)).value, dto)))
      ensures forall k :: k != userId ==> GetUserById(k) == old(GetUserById(k))
    {
      var index := Table.IndexOf(users, UserKey, userId);
      if index.None? {
        return false;
      }
      var i := index.value;
      var user := MergeUserPatch(users[i], dto);
      Table.ReplaceKeepingKey(users, UserKey, i, user);
      users := users[i := user];
      return true;
    }

    /** `DeleteUserAsync`: false, with nothing changed, when the id is absent; otherwise
        exactly that user is removed. */
    method DeleteUser(userId: Uuid) returns (found: bool)
      requires Valid()
      modifies this
      ensures Valid()
      ensures found == Table.HasKey(old(users), UserKey, userId)
      ensures !found ==> users == old(users)
      ensures found ==>
        var i := Table.IndexOf(old(users), UserKey, userId).value;
        users == old(users)[..i] + old(users)[i + 1..]
      ensures GetUserById(userId).None?
      ensures forall k :: k != userId ==> GetUserById(k) == old(GetUserById(k))
    {
      var index := Table.IndexOf(users, UserKey, userId);
      if index.None? {
        return false;
      }
      var i := index.value;
      Table.RemoveAt(users, UserKey, i);
      users := users[..i] + users[i + 1..];
      return true;
    }
  }
}
