/** The admin service's account operations: changing a user's status,
    deleting a user, and flipping a provider's verified badge. */
module Admin {
  import opened Domain
  import opened Store

  /** The guard ladder `updateUserStatus` and `deleteUser` share: an admin
      cannot act on their own account (400, before any lookup), then 404 for
      an unknown target, then 403 for a target that is an admin. */
  function TargetGuard(users: map<Id, User>, adminId: Id, targetId: Id): (r: Option<Failure>)
    ensures r.None? <==> adminId != targetId && targetId in users && users[targetId].role != Admin
    ensures adminId == targetId ==> r == Some(SelfModification)
    ensures adminId != targetId && targetId !in users ==> r == Some(NotFound(UserEntity))
    ensures adminId != targetId && targetId in users && users[targetId].role == Admin ==> r == Some(Forbidden)
  {
    if adminId == targetId then Some(SelfModification)
    else if targetId !in users then Some(NotFound(UserEntity))
    else if users[targetId].role == Admin then Some(Forbidden)
    else None
  }

  /** No admin account can be changed or removed through these operations,
      whoever asks, and the answers are 400, 404 and 403 only. */
  lemma AdminsAreProtected(users: map<Id, User>, adminId: Id, targetId: Id)
    ensures targetId in users && users[targetId].role == Admin ==> TargetGuard(users, adminId, targetId).Some?
    ensures TargetGuard(users, adminId, targetId).Some? ==>
      StatusCode(TargetGuard(users, adminId, targetId).value) in {400, 403, 404}
  {
  }

  /** `updateUserStatus`: on success only the target's `status` changes. */
  method UpdateUserStatus(db: Db, adminId: Id, targetId: Id, status: UserStatus) returns (r: Outcome<User>)
    requires db.Valid()
    modifies db`users
    ensures db.Valid()
    ensures match TargetGuard(old(db.users), adminId, targetId)
      case Some(f) => r == Err(f) && db.users == old(db.users)
      case None =>
        var u := old(db.users)[targetId].(status := status);
        r == Ok(u) && db.users == old(db.users)[targetId := u]
  {
    var g := TargetGuard(db.users, adminId, targetId);
    if g.Some? {
      return Err(g.value);
    }
    var u := db.users[targetId].(status := status);
    db.users := db.users[targetId := u];
    r := Ok(u);
  }

  /** Setting a status twice is setting it once, and setting the status the
      user already has changes nothing. */
  lemma StatusWriteIsIdempotent(users: map<Id, User>, targetId: Id, status: UserStatus)
    requires targetId in users
    ensures var u := users[targetId].(status := status);
      users[targetId := u][targetId := u.(status := status)] == users[targetId := u]
    ensures users[targetId].status == status ==> users[targetId := users[targetId].(status := status)] == users
  {
  }

  /** `deleteUser`: on success only the target's row goes. */
  method DeleteUser(db: Db, adminId: Id, targetId: Id) returns (r: Outcome<()>)
    requires db.Valid()
    modifies db`users
    ensures db.Valid()
    ensures match TargetGuard(old(db.users), adminId, targetId)
      case Some(f) => r == Err(f) && db.users == old(db.users)
      case None => r == Ok(()) && db.users == old(db.users) - {targetId}
  {
    var g := TargetGuard(db.users, adminId, targetId);
    if g.Some? {
      return Err(g.value);
    }
    db.users := db.users - {targetId};
    r := Ok(());
  }

  /** After a successful delete the admin's own account and every other
      admin are still there. */
  lemma DeleteSparesAdmins(users: map<Id, User>, adminId: Id, targetId: Id, k: Id)
    requires TargetGuard(users, adminId, targetId).None?
    requires k in users && (k == adminId || users[k].role == Admin)
    ensures k in users - {targetId}
  {
  }

  function ToggleVerified(p: ProviderProfile): (r: ProviderProfile)
    ensures r.isVerified == !p.isVerified
    ensures r.(isVerified := p.isVerified) == p
  {
    p.(isVerified := !p.isVerified)
  }

  /** Toggling twice restores the profile. */
  lemma ToggleVerifiedIsAnInvolution(p: ProviderProfile)
    ensures ToggleVerified(ToggleVerified(p)) == p
  {
  }

  /** `toggleProviderVerification`: 404 for an unknown profile, else
      `isVerified` flips and nothing else in the table changes. */
  method ToggleProviderVerification(db: Db, providerId: Id) returns (r: Outcome<ProviderProfile>)
    requires db.Valid()
    modifies db`profiles
    ensures db.Valid()
    ensures providerId !in old(db.profiles) ==> r == Err(NotFound(ProviderEntity)) && db.profiles == old(db.profiles)
    ensures providerId in old(db.profiles) ==>
      var p := ToggleVerified(old(db.profiles)[providerId]);
      r == Ok(p) && db.profiles == old(db.profiles)[providerId := p]
  {
    if providerId !in db.profiles {
      return Err(NotFound(ProviderEntity));
    }
    var p := ToggleVerified(db.profiles[providerId]);
    var ps := db.profiles[providerId := p];
    KeepsUniqueProfileUsers(db.profiles, providerId, p);
    db.profiles := ps;
    assert Consistent(db.profiles, db.categories, db.meals, db.orders, db.reviews, db.nextId);
    r := Ok(p);
  }

  /** Rewriting a profile without changing its user keeps `userId` unique. */
  lemma KeepsUniqueProfileUsers(profiles: map<Id, ProviderProfile>, id: Id, p: ProviderProfile)
    requires UniqueProfileUsers(profiles) && id in profiles && p.userId == profiles[id].userId
    ensures UniqueProfileUsers(profiles[id := p])
  {
  }
}
