/**
 * A user's purchased packages: the full list, the list of packages that can still be spent,
 * and the choice of the package the account points to as its active one. The lists put the
 * newest purchase first.
 */
module UserPackages {
  import opened Wrappers
  import opened Types
  import opened Errors
  import opened Records
  import Seqs
  import Sorting
  import Store

  /** `UserPackage.find({ userId })`, in natural order. */
  function OwnedBy(ps: seq<UserPackage>, userId: nat): (r: seq<UserPackage>)
    ensures forall p | p in r :: p in ps && p.userId == userId
    ensures forall p | p in ps && p.userId == userId :: p in r
  {
    Seqs.Filter(ps, (p: UserPackage) => p.userId == userId)
  }

  /** `.sort({ purchasedAt: -1 })`: newest purchase first, ties in natural order. */
  function NewestFirst(ps: seq<UserPackage>): (r: seq<UserPackage>)
    ensures forall i, j | 0 <= i < j < |r| :: r[i].purchasedAt >= r[j].purchasedAt
    ensures multiset(r) == multiset(ps)
    ensures forall p :: p in r <==> p in ps
  {
    var r := Sorting.SortBy(ps, (p: UserPackage) => -p.purchasedAt);
    forall p ensures p in r <==> p in ps {
      Sorting.SortKeepsElements(ps, (p: UserPackage) => -p.purchasedAt, p);
    }
    r
  }

  /** `getMyPackages`: every package of the caller, newest purchase first. */
  function MyPackages(ps: seq<UserPackage>, userId: nat): (r: seq<UserPackage>)
    ensures forall i, j | 0 <= i < j < |r| :: r[i].purchasedAt >= r[j].purchasedAt
    ensures forall p | p in r :: p in ps && p.userId == userId
    ensures forall p | p in ps && p.userId == userId :: p in r
    ensures multiset(r) == multiset(OwnedBy(ps, userId))
  {
    NewestFirst(OwnedBy(ps, userId))
  }

  /** `getMyActivePackages`: exactly the caller's usable packages, newest purchase first. */
  function MyActivePackages(ps: seq<UserPackage>, userId: nat, now: int): (r: seq<UserPackage>)
    ensures forall i, j | 0 <= i < j < |r| :: r[i].purchasedAt >= r[j].purchasedAt
    ensures forall p | p in r :: p in ps && p.userId == userId && Usable(p, now)
    ensures forall p | p in ps && p.userId == userId && Usable(p, now) :: p in r
    ensures multiset(r) == multiset(Seqs.Filter(ps, (p: UserPackage) => p.userId == userId && Usable(p, now)))
  {
    NewestFirst(Seqs.Filter(ps, (p: UserPackage) => p.userId == userId && Usable(p, now)))
  }

  /** The active list is the full list with the spent, exhausted and expired packages left out. */
  lemma ActiveAmongMine(ps: seq<UserPackage>, userId: nat, now: int)
    ensures forall p | p in MyActivePackages(ps, userId, now) :: p in MyPackages(ps, userId)
    ensures forall p | p in MyPackages(ps, userId) && Usable(p, now) :: p in MyActivePackages(ps, userId, now)
  {
  }

  /**
   * The guard of `setActivePackage`: active, with turns left, and not expired before `now`.
   * The expiry test is not strict, unlike the one of the lists.
   */
  predicate Available(p: UserPackage, now: int) {
    p.isActive && p.remainingTurns > 0 && !(p.expiresAt < now)
  }

  /**
   * Every listed package can be designated, and so can one more kind: a package that
   * expires exactly at `now`, which no list shows any longer.
   */
  lemma AvailableOrExpiringNow(p: UserPackage, now: int)
    ensures Available(p, now) <==> Usable(p, now) || (p.isActive && p.remainingTurns > 0 && p.expiresAt == now)
  {
  }

  /** `UserPackage.findOne({ _id: id, userId })`: the position of the caller's package with that id. */
  function FindOwned(ps: seq<UserPackage>, id: nat, userId: nat): (r: Option<nat>)
    ensures r.Some? ==> r.value < |ps| && ps[r.value].id == id && ps[r.value].userId == userId
    ensures r.None? <==> forall p | p in ps :: p.id != id || p.userId != userId
  {
    Seqs.FindFirst(ps, (p: UserPackage) => p.id == id && p.userId == userId)
  }

  /** `User.findByIdAndUpdate(userId, { activePackageId })`: nothing happens when there is no such user. */
  function Designate(users: seq<User>, userId: nat, packageId: nat): seq<User> {
    match FindUser(users, userId)
    case None => users
    case Some(j) => users[j := users[j].(activePackageId := Some(packageId))]
  }

  /** Designating a package changes that one user's pointer and nothing else. */
  lemma {:induction false} DesignateOnlyPoints(users: seq<User>, userId: nat, packageId: nat)
    requires forall i, j | 0 <= i < j < |users| :: users[i].id != users[j].id
    ensures |Designate(users, userId, packageId)| == |users|
    ensures forall i | 0 <= i < |users| ::
      Designate(users, userId, packageId)[i]
        == if users[i].id == userId then users[i].(activePackageId := Some(packageId)) else users[i]
  {
    match FindUser(users, userId)
    case None =>
      forall i | 0 <= i < |users| ensures users[i].id != userId {
        assert users[i] in users;
      }
    case Some(j) =>
  }

  function Unavailable<T>(): Result<T> {
    Fail("PACKAGE_UNAVAILABLE", "Gói đặt cơm không còn khả dụng", 400)
  }

  /**
   * `setActivePackage`: the package must be the caller's and still available; then only the
   * caller's `activePackageId` changes. The package itself is not written.
   */
  method SetActivePackage(db: Store.Db, userId: nat, packageId: nat, now: int) returns (r: Result<UserPackage>)
    requires db.Valid()
    modifies db`users
    ensures db.Valid()
    ensures FindOwned(old(db.userPackages), packageId, userId).None? ==>
      r == Raise(PackageNotFound) && unchanged(db)
    ensures FindOwned(old(db.userPackages), packageId, userId).Some? ==>
      var p := old(db.userPackages)[FindOwned(old(db.userPackages), packageId, userId).value];
      && (!Available(p, now) ==> r == Unavailable() && unchanged(db))
      && (Available(p, now) ==> r == Ok(p) && db.users == Designate(old(db.users), userId, packageId))
  {
    var k := FindOwned(db.userPackages, packageId, userId);
    if k.None? {
      return Raise(PackageNotFound);
    }
    var p := db.userPackages[k.value];
    if !Available(p, now) {
      return Unavailable();
    }
    var j := FindUser(db.users, userId);
    if j.Some? {
      assert ValidUser(db.users[j.value]);
      db.ReplaceUser(j.value, db.users[j.value].(activePackageId := Some(packageId)));
    }
    r := Ok(p);
  }
}
