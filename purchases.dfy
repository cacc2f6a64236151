/**
 * Purchase requests: a user asks for a catalog template, an administrator approves it (which
 * mints a purchased package) or rejects it. Once a request has left `pending` it never returns:
 * approving or rejecting it again is refused.
 */
module Purchases {
  import opened Wrappers
  import opened Types
  import opened Errors
  import opened Records
  import Seqs
  import Clock
  import Orders
  import Store

  // ---------------------------------------------------------------- lookups and refusals

  /** A template that exists and is on sale. */
  predicate Offered(mealPackages: seq<MealPackage>, id: nat) {
    FindTemplate(mealPackages, id).Some? && mealPackages[FindTemplate(mealPackages, id).value].isActive
  }

  predicate IsPendingFor(q: PurchaseRequest, userId: nat, mealPackageId: nat) {
    q.userId == userId && q.mealPackageId == mealPackageId && q.status == Pending
  }

  /** `findOne({ userId, mealPackageId, status: "pending" })` finds something. */
  predicate HasPending(requests: seq<PurchaseRequest>, userId: nat, mealPackageId: nat) {
    exists q | q in requests :: IsPendingFor(q, userId, mealPackageId)
  }

  function TemplateUnavailable<T>(): Result<T> {
    Fail("PACKAGE_NOT_FOUND", "Gói đặt cơm không tồn tại hoặc không khả dụng", 404)
  }

  function AlreadyPending<T>(): Result<T> {
    Fail("REQUEST_ALREADY_EXISTS", "Bạn đã có yêu cầu mua gói này đang chờ xử lý", 400)
  }

  function RequestNotFound<T>(): Result<T> {
    Fail("REQUEST_NOT_FOUND", "Không tìm thấy yêu cầu", 404)
  }

  function AlreadyProcessed<T>(): Result<T> {
    Fail("REQUEST_ALREADY_PROCESSED", "Yêu cầu đã được xử lý", 400)
  }

  // ---------------------------------------------------------------- createPurchaseRequest

  /** A new request: pending, stamped with the time it was made, not processed. */
  function NewRequest(id: nat, userId: nat, mealPackageId: nat, now: int): PurchaseRequest {
    PurchaseRequest(id, userId, mealPackageId, Pending, now, None, None)
  }

  /**
   * The template must exist and be on sale; then the same user must not already have a
   * pending request for it. Requests for other templates do not matter.
   */
  method CreatePurchaseRequest(db: Store.Db, userId: nat, mealPackageId: nat, now: int) returns (r: Result<PurchaseRequest>)
    requires db.Valid()
    modifies db`requests, db`nextId
    ensures db.Valid()
    ensures !Offered(old(db.mealPackages), mealPackageId) ==>
      r == TemplateUnavailable() && unchanged(db)
    ensures Offered(old(db.mealPackages), mealPackageId) && HasPending(old(db.requests), userId, mealPackageId) ==>
      r == AlreadyPending() && unchanged(db)
    ensures Offered(old(db.mealPackages), mealPackageId) && !HasPending(old(db.requests), userId, mealPackageId) ==>
      r == Ok(NewRequest(old(db.nextId), userId, mealPackageId, now))
      && db.requests == old(db.requests) + [r.value]
  {
    if !Offered(db.mealPackages, mealPackageId) {
      return TemplateUnavailable();
    }
    var existing := Seqs.FindFirst(db.requests, (q: PurchaseRequest) => IsPendingFor(q, userId, mealPackageId));
    if existing.Some? {
      assert db.requests[existing.value] in db.requests;
      return AlreadyPending();
    }
    assert forall q | q in db.requests :: q.id < db.nextId;
    var id := db.NewId();
    var q := NewRequest(id, userId, mealPackageId, now);
    db.AddRequest(q);
    r := Ok(q);
  }

  /** At most one pending request per user and template. */
  predicate OnePending(requests: seq<PurchaseRequest>) {
    forall i, j | 0 <= i < j < |requests| ::
      !(requests[i].status == Pending && IsPendingFor(requests[j], requests[i].userId, requests[i].mealPackageId))
  }

  /** A request stored by `createPurchaseRequest` keeps at most one pending request per user and template. */
  lemma CreateKeepsOnePending(requests: seq<PurchaseRequest>, q: PurchaseRequest)
    requires OnePending(requests) && !HasPending(requests, q.userId, q.mealPackageId)
    ensures OnePending(requests + [q])
  {
    var rs := requests + [q];
    forall i, j | 0 <= i < j < |rs|
      ensures !(rs[i].status == Pending && IsPendingFor(rs[j], rs[i].userId, rs[i].mealPackageId))
    {
      if j == |requests| {
        assert rs[i] in requests;
      }
    }
  }

  // ---------------------------------------------------------------- approve and reject

  /** The lookup and status check both handlers begin with: the position of a pending request. */
  function PendingRequest(requests: seq<PurchaseRequest>, id: nat): (r: Result<nat>)
    ensures r.Ok? ==> r.value < |requests| && requests[r.value].id == id && requests[r.value].status == Pending
    ensures r == RequestNotFound() <==> FindRequest(requests, id).None?
    ensures r == AlreadyProcessed() <==>
      FindRequest(requests, id).Some? && requests[FindRequest(requests, id).value].status != Pending
  {
    match FindRequest(requests, id)
    case None => RequestNotFound()
    case Some(k) => if requests[k].status != Pending then AlreadyProcessed() else Ok(k)
  }

  /** The request after processing: its new status and who processed it when. */
  function Processed(q: PurchaseRequest, status: PurchaseStatus, adminId: nat, now: int): PurchaseRequest {
    q.(status := status, processedAt := Some(now), processedBy := Some(adminId))
  }

  /** Approved and rejected are final: the request is refused by both handlers from then on. */
  lemma ProcessedIsFinal(requests: seq<PurchaseRequest>, id: nat, k: nat, status: PurchaseStatus, adminId: nat, now: int)
    requires PendingRequest(requests, id) == Ok(k) && status != Pending
    ensures PendingRequest(requests[k := Processed(requests[k], status, adminId, now)], id) == AlreadyProcessed()
  {
    Seqs.FindFirstUpdate(requests, k, Processed(requests[k], status, adminId, now), (q: PurchaseRequest) => q.id == id);
  }

  /** Processing a request never adds a pending one. */
  lemma ProcessKeepsOnePending(requests: seq<PurchaseRequest>, k: nat, q: PurchaseRequest)
    requires OnePending(requests) && k < |requests| && q.status != Pending
    ensures OnePending(requests[k := q])
  {
  }

  /**
   * The purchased package approval mints from template `p`: all of its turns, its type,
   * active, bought `now` and expiring `validDays` days later.
   */
  function Minted(id: nat, userId: nat, p: MealPackage, now: int): UserPackage {
    UserPackage(id, userId, p.id, p.turns, now, now + p.validDays * Clock.MsPerDay, p.packageType, true)
  }

  /**
   * A package minted from a stored template can be charged by orders of its type from the
   * moment of approval until it expires.
   */
  lemma MintedIsChargeable(id: nat, userId: nat, p: MealPackage, now: int, t: int)
    requires ValidMealPackage(p) && now <= t < now + p.validDays * Clock.MsPerDay
    ensures Orders.Eligible(Minted(id, userId, p, now), userId, p.packageType, t)
    ensures Minted(id, userId, p, now).expiresAt - Minted(id, userId, p, now).purchasedAt >= Clock.MsPerDay
  {
  }

  /** `activePackageId` is set to the new package only when the user had none. */
  function WithDefaultPackage(u: User, userPackageId: nat): User {
    if u.activePackageId.None? then u.(activePackageId := Some(userPackageId)) else u
  }

  /** Only the first approval designates the active package; later ones leave it alone. */
  lemma FirstApprovalDesignates(u: User, first: nat, second: nat)
    ensures WithDefaultPackage(WithDefaultPackage(u, first), second).activePackageId
      == if u.activePackageId.None? then Some(first) else u.activePackageId
  {
  }

  /** The request, its user and its template as `populate` finds them. */
  datatype Parties = Parties(request: nat, user: nat, template: MealPackage)

  /**
   * The checks of `approvePurchaseRequest`: the request must exist and be pending; a user or
   * template deleted since the request was made populates as `null`, and reading a field
   * of it throws.
   */
  function ApprovalParties(requests: seq<PurchaseRequest>, users: seq<User>, mealPackages: seq<MealPackage>, id: nat)
    : (r: Result<Parties>)
    ensures r.Ok? ==> && r.value.request < |requests| && requests[r.value.request].id == id
                      && requests[r.value.request].status == Pending
                      && r.value.user < |users| && users[r.value.user].id == requests[r.value.request].userId
                      && r.value.template in mealPackages
                      && r.value.template.id == requests[r.value.request].mealPackageId
    ensures PendingRequest(requests, id).Err? ==> r == Err(PendingRequest(requests, id).thrown)
    ensures PendingRequest(requests, id).Ok? ==>
      var q := requests[PendingRequest(requests, id).value];
      r.Err? <==> FindUser(users, q.userId).None? || FindTemplate(mealPackages, q.mealPackageId).None?
    ensures r.Err? && PendingRequest(requests, id).Ok? ==> r == Err(NullReference)
  {
    match PendingRequest(requests, id)
    case Err(e) => Err(e)
    case Ok(k) =>
      var q := requests[k];
      match FindTemplate(mealPackages, q.mealPackageId)
      case None => Err(NullReference)
      case Some(t) =>
        match FindUser(users, q.userId)
        case None => Err(NullReference)
        case Some(j) => Ok(Parties(k, j, mealPackages[t]))
  }

  /** The approved request and the package it minted. */
  datatype Approval = Approval(request: PurchaseRequest, userPackage: UserPackage)

  /**
   * Approval mints one purchased package, marks the request approved by `adminId` at `now`
   * and designates the package as the user's active one if the user had none. The email
   * that follows is best effort: its outcome is not looked at.
   */
  method ApprovePurchaseRequest(db: Store.Db, adminId: nat, id: nat, now: int) returns (r: Result<Approval>)
    requires db.Valid()
    modifies db`requests, db`userPackages, db`users, db`nextId
    ensures db.Valid()
    ensures var c := ApprovalParties(old(db.requests), old(db.users), old(db.mealPackages), id);
      c.Err? ==> r == Err(c.thrown) && unchanged(db)
    ensures var c := ApprovalParties(old(db.requests), old(db.users), old(db.mealPackages), id);
      c.Ok? ==>
        var q, u := old(db.requests)[c.value.request], old(db.users)[c.value.user];
        var up := Minted(old(db.nextId), q.userId, c.value.template, now);
        && r == Ok(Approval(Processed(q, Approved, adminId, now), up))
        && db.userPackages == old(db.userPackages) + [up]
        && db.requests == old(db.requests)[c.value.request := Processed(q, Approved, adminId, now)]
        && db.users == old(db.users)[c.value.user := WithDefaultPackage(u, up.id)]
  {
    var c := ApprovalParties(db.requests, db.users, db.mealPackages, id);
    if c.Err? {
      return Err(c.thrown);
    }
    var a := Approve(db, adminId, c.value.request, c.value.user, c.value.template, now);
    r := Ok(a);
  }

  /** The writes of an approval: the minted package, the approved request, the user's designation. */
  method Approve(db: Store.Db, adminId: nat, k: nat, j: nat, p: MealPackage, now: int) returns (a: Approval)
    requires db.Valid() && k < |db.requests| && j < |db.users|
    modifies db`requests, db`userPackages, db`users, db`nextId
    ensures db.Valid()
    ensures a.userPackage == Minted(old(db.nextId), old(db.requests)[k].userId, p, now)
    ensures a.request == Processed(old(db.requests)[k], Approved, adminId, now)
    ensures db.userPackages == old(db.userPackages) + [a.userPackage]
    ensures db.requests == old(db.requests)[k := a.request]
    ensures db.users == old(db.users)[j := WithDefaultPackage(old(db.users)[j], a.userPackage.id)]
  {
    var q := db.requests[k];
    var u := db.users[j];
    assert ValidUser(u);
    assert forall x | x in db.userPackages :: x.id < db.nextId;
    var upId := db.NewId();
    var up := Minted(upId, q.userId, p, now);
    db.AddUserPackage(up);
    var processed := Processed(q, Approved, adminId, now);
    db.ReplaceRequest(k, processed);
    db.ReplaceUser(j, WithDefaultPackage(u, upId));
    a := Approval(processed, up);
  }

  /** Rejection marks the request rejected by `adminId` at `now` and creates nothing. */
  method RejectPurchaseRequest(db: Store.Db, adminId: nat, id: nat, now: int) returns (r: Result<PurchaseRequest>)
    requires db.Valid()
    modifies db`requests
    ensures db.Valid()
    ensures PendingRequest(old(db.requests), id).Err? ==>
      r == Err(PendingRequest(old(db.requests), id).thrown) && db.requests == old(db.requests)
    ensures PendingRequest(old(db.requests), id).Ok? ==>
      var k := PendingRequest(old(db.requests), id).value;
      r == Ok(Processed(old(db.requests)[k], Rejected, adminId, now))
      && db.requests == old(db.requests)[k := r.value]
  {
    var c := PendingRequest(db.requests, id);
    if c.Err? {
      return Err(c.thrown);
    }
    var processed := Processed(db.requests[c.value], Rejected, adminId, now);
    db.ReplaceRequest(c.value, processed);
    r := Ok(processed);
  }
}
