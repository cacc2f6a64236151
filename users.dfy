/**
 * The administrators' view of the accounts: listing with filters, one account with its
 * packages, and blocking and unblocking.
 */
module Users {
  import opened Wrappers
  import opened Types
  import opened Errors
  import opened Records
  import Text
  import Seqs
  import Sorting
  import Store
  import Auth
  import UserPackages

  /** An account as the responses show it: without the password hash and the code fields. */
  datatype UserView = UserView(
    id: nat,
    name: string,
    email: string,
    role: UserRole,
    isVerified: bool,
    isBlocked: bool,
    activePackageId: Option<nat>,
    createdAt: int)

  function View(u: User): UserView {
    UserView(u.id, u.name, u.email, u.role, u.isVerified, u.isBlocked, u.activePackageId, u.createdAt)
  }

  // ---------------------------------------------------------------- listing

  /** The query string of `getUsers`; an absent parameter is `None`. */
  datatype UserQuery = UserQuery(role: Option<string>, isBlocked: Option<string>, search: Option<string>)

  /** A query parameter that is present and not empty, as a JavaScript condition reads it. */
  predicate Given(s: Option<string>) {
    s.Some? && s.value != []
  }

  /** `{ $regex: search, $options: "i" }` for a search without pattern characters: a case-blind substring. */
  predicate SearchHit(field: string, search: string) {
    Text.Contains(Text.LowerAscii(field), Text.LowerAscii(search))
  }

  /**
   * The filter of `getUsers`: a given role must equal the account's role; a present
   * `isBlocked`, even empty, selects blocked accounts when it is "true" and unblocked ones
   * otherwise; a given search must hit the name or the email.
   */
  predicate Matches(u: User, q: UserQuery) {
    && (Given(q.role) ==> RoleName(u.role) == q.role.value)
    && (q.isBlocked.Some? ==> u.isBlocked == (q.isBlocked.value == "true"))
    && (Given(q.search) ==> SearchHit(u.name, q.search.value) || SearchHit(u.email, q.search.value))
  }

  /** The accounts `getUsers` finds: exactly the matching ones, newest first. */
  function Listed(users: seq<User>, q: UserQuery): (s: seq<User>)
    ensures forall u :: u in s <==> u in users && Matches(u, q)
    ensures forall i, j | 0 <= i < j < |s| :: s[i].createdAt >= s[j].createdAt
    ensures multiset(s) == multiset(Seqs.Filter(users, (u: User) => Matches(u, q)))
  {
    var matching := Seqs.Filter(users, (u: User) => Matches(u, q));
    var s := Sorting.SortBy(matching, (u: User) => -u.createdAt);
    forall u ensures u in s <==> u in matching {
      Sorting.SortKeepsElements(matching, (u: User) => -u.createdAt, u);
    }
    s
  }

  /** `getUsers`: the listed accounts in the same order, each without its secrets. */
  function GetUsers(users: seq<User>, q: UserQuery): (r: seq<UserView>)
    ensures |r| == |Listed(users, q)|
    ensures forall i | 0 <= i < |r| :: r[i] == View(Listed(users, q)[i])
    ensures forall i, j | 0 <= i < j < |r| :: r[i].createdAt >= r[j].createdAt
  {
    var s := Listed(users, q);
    seq(|s|, i requires 0 <= i < |s| => View(s[i]))
  }

  /** An empty query lists every account. */
  lemma EmptyQueryListsAll(users: seq<User>)
    ensures forall u :: u in Listed(users, UserQuery(None, None, None)) <==> u in users
  {
  }

  /** Any `isBlocked` value other than "true" lists only unblocked accounts. */
  lemma OtherBlockedValueMeansUnblocked(users: seq<User>, q: UserQuery)
    requires q.isBlocked.Some? && q.isBlocked.value != "true"
    ensures forall u | u in Listed(users, q) :: !u.isBlocked
  {
  }

  /** The search ignores the case of ASCII letters in the search text. */
  lemma SearchIgnoresCase(u: User, q: UserQuery, search: string)
    ensures Matches(u, q.(search := Some(search))) == Matches(u, q.(search := Some(Text.LowerAscii(search))))
  {
    Text.LowerAsciiTwice(search);
  }

  // ---------------------------------------------------------------- one account

  /** The response of `getUserById`: the account, its populated active package and its packages. */
  datatype UserDetail = UserDetail(user: UserView, activePackage: Option<UserPackage>, packages: seq<UserPackage>)

  /** `populate("activePackageId")`: the referenced package, or null when it no longer exists. */
  function PopulatePackage(ps: seq<UserPackage>, id: Option<nat>): (r: Option<UserPackage>)
    ensures r.Some? ==> r.value in ps && id == Some(r.value.id)
    ensures r.None? <==> id.None? || forall p | p in ps :: p.id != id.value
  {
    if id.None? then None
    else match Seqs.FindFirst(ps, (p: UserPackage) => p.id == id.value)
      case None => None
      case Some(k) => Some(ps[k])
  }

  /**
   * `getUserById`: USER_NOT_FOUND for an unknown id; otherwise the account without its
   * secrets and exactly its packages, newest purchase first.
   */
  function GetUserById(users: seq<User>, ps: seq<UserPackage>, id: nat): (r: Result<UserDetail>)
    ensures r.Err? <==> FindUser(users, id).None?
    ensures r.Err? ==> r == Raise(UserNotFound)
    ensures r.Ok? ==>
      var u := users[FindUser(users, id).value];
      && r.value.user == View(u)
      && r.value.activePackage == PopulatePackage(ps, u.activePackageId)
      && (forall p :: p in r.value.packages <==> p in ps && p.userId == id)
      && (forall i, j | 0 <= i < j < |r.value.packages| :: r.value.packages[i].purchasedAt >= r.value.packages[j].purchasedAt)
      && multiset(r.value.packages) == multiset(UserPackages.OwnedBy(ps, id))
  {
    match FindUser(users, id)
    case None => Raise(UserNotFound)
    case Some(k) =>
      var u := users[k];
      Ok(UserDetail(View(u), PopulatePackage(ps, u.activePackageId), UserPackages.MyPackages(ps, u.id)))
  }

  // ---------------------------------------------------------------- blocking

  function CannotBlockAdmin<T>(): Result<T> {
    Fail("CANNOT_BLOCK_ADMIN", "Không thể khóa tài khoản admin", 400)
  }

  /**
   * `blockUser`: USER_NOT_FOUND for an unknown id and CANNOT_BLOCK_ADMIN for an
   * administrator, changing nothing; otherwise the account's flag is set and nothing else
   * changes.
   */
  method BlockUser(db: Store.Db, id: nat) returns (r: Result<UserView>)
    requires db.Valid()
    modifies db`users
    ensures db.Valid()
    ensures FindUser(old(db.users), id).None? ==> r == Raise(UserNotFound) && unchanged(db)
    ensures FindUser(old(db.users), id).Some? ==>
      var k := FindUser(old(db.users), id).value;
      var u := old(db.users)[k];
      && (u.role == Admin ==> r == CannotBlockAdmin() && unchanged(db))
      && (u.role != Admin ==>
            r == Ok(View(u.(isBlocked := true))) && db.users == old(db.users)[k := u.(isBlocked := true)])
  {
    var k := FindUser(db.users, id);
    if k.None? {
      return Raise(UserNotFound);
    }
    var u := db.users[k.value];
    if u.role == Admin {
      return CannotBlockAdmin();
    }
    assert ValidUser(u);
    db.ReplaceUser(k.value, u.(isBlocked := true));
    r := Ok(View(u.(isBlocked := true)));
  }

  /** `unblockUser`: USER_NOT_FOUND for an unknown id; otherwise the flag is cleared, with no role check. */
  method UnblockUser(db: Store.Db, id: nat) returns (r: Result<UserView>)
    requires db.Valid()
    modifies db`users
    ensures db.Valid()
    ensures FindUser(old(db.users), id).None? ==> r == Raise(UserNotFound) && unchanged(db)
    ensures FindUser(old(db.users), id).Some? ==>
      var k := FindUser(old(db.users), id).value;
      var u := old(db.users)[k];
      && r == Ok(View(u.(isBlocked := false)))
      && db.users == old(db.users)[k := u.(isBlocked := false)]
  {
    var k := FindUser(db.users, id);
    if k.None? {
      return Raise(UserNotFound);
    }
    var u := db.users[k.value];
    assert ValidUser(u);
    db.ReplaceUser(k.value, u.(isBlocked := false));
    r := Ok(View(u.(isBlocked := false)));
  }

  /** Unblocking an unblocked account changes nothing. */
  lemma UnblockIsIdempotent(users: seq<User>, k: nat)
    requires k < |users| && !users[k].isBlocked
    ensures users[k := users[k].(isBlocked := false)] == users
  {
    assert users[k].(isBlocked := false) == users[k];
  }

  /** Unblocking an account just blocked restores the table as it was. */
  lemma BlockUnblockRestores(users: seq<User>, k: nat)
    requires k < |users| && !users[k].isBlocked
    ensures users[k := users[k].(isBlocked := true)][k := users[k].(isBlocked := false)] == users
  {
  }

  /**
   * A blocked account cannot log in, whatever the password: its stored email still finds
   * it, and the block is checked before the password.
   */
  lemma {:induction false} BlockedCannotLogIn(users: seq<User>, k: nat, password: string,
                                              compare: (string, string) -> bool)
    requires k < |users| && users[k].email == NormalizeEmail(users[k].email)
    requires forall j | 0 <= j < |users| && j != k :: users[j].email != users[k].email
    ensures Auth.Login(users[k := users[k].(isBlocked := true)], users[k].email, password, compare)
      == Raise(UserBlocked)
  {
    var blocked := users[k := users[k].(isBlocked := true)];
    var email := users[k].email;
    assert forall j | 0 <= j < k :: blocked[j] == users[j];
    Seqs.FindFirstAt(blocked, k, (u: User) => u.email == NormalizeEmail(email));
  }
}
