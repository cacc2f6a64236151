/**
 * Confirming a menu's orders (`confirmAllOrders`): every unconfirmed order of the menu, in
 * natural order, debits its package by its number of items, becomes confirmed, and leaves
 * its package deactivated when no turn is left; then the menu is locked.
 */
module Confirmation {
  import opened Wrappers
  import opened Errors
  import opened Records
  import Seqs
  import Text
  import Store

  /** What one order costs: the package it is charged to and its number of items (one turn each). */
  datatype Charge = Charge(packageId: nat, count: nat)

  /** `Order.find({ dailyMenuId, isConfirmed: false })`: the menu's unconfirmed orders, in order. */
  function PendingOf(orders: seq<Order>, menuId: nat): (r: seq<Order>)
    ensures forall o | o in r :: o in orders && o.dailyMenuId == menuId && !o.isConfirmed
    ensures forall o | o in orders && o.dailyMenuId == menuId && !o.isConfirmed :: o in r
  {
    Seqs.Filter(orders, (o: Order) => o.dailyMenuId == menuId && !o.isConfirmed)
  }

  function ChargeOf(o: Order, items: seq<OrderItem>): Charge {
    Charge(o.userPackageId, |ItemsOfOrder(items, o.id)|)
  }

  /** The charges of some orders, in their order. */
  function Charges(orders: seq<Order>, items: seq<OrderItem>): (r: seq<Charge>)
    ensures |r| == |orders|
    ensures forall i | 0 <= i < |r| :: r[i] == ChargeOf(orders[i], items)
  {
    seq(|orders|, i requires 0 <= i < |orders| => ChargeOf(orders[i], items))
  }

  /** `totalItemsConfirmed`: the sum of the item counts. */
  function Total(cs: seq<Charge>): nat {
    if cs == [] then 0 else Total(cs[..|cs| - 1]) + cs[|cs| - 1].count
  }

  // ---------------------------------------------------------------- the packages

  /** `UserPackage.findById`: the position of the package with that id. */
  function PackageIndex(ps: seq<UserPackage>, id: nat): (r: Option<nat>)
    ensures r.Some? ==> r.value < |ps| && ps[r.value].id == id
    ensures r.None? <==> forall p | p in ps :: p.id != id
  {
    Seqs.FindFirst(ps, (p: UserPackage) => p.id == id)
  }

  /** A package after `$inc: { remainingTurns: -count }` and the exhaustion check. */
  function Debited(p: UserPackage, count: nat): (q: UserPackage)
    ensures q == p.(remainingTurns := q.remainingTurns, isActive := q.isActive)
    ensures q.remainingTurns == p.remainingTurns - count
    ensures q.isActive <==> p.isActive && q.remainingTurns > 0
  {
    var left := p.remainingTurns - count;
    p.(remainingTurns := left, isActive := p.isActive && left > 0)
  }

  /** One charge settled: the charged package, when it still exists, is debited. */
  function Settle(ps: seq<UserPackage>, c: Charge): seq<UserPackage> {
    match PackageIndex(ps, c.packageId)
    case None => ps
    case Some(k) => ps[k := Debited(ps[k], c.count)]
  }

  /** The packages after a batch of charges, settled in order. */
  function SettleAll(ps: seq<UserPackage>, cs: seq<Charge>): seq<UserPackage> {
    if cs == [] then ps else Settle(SettleAll(ps, cs[..|cs| - 1]), cs[|cs| - 1])
  }

  /** The turns a batch charges to one package. */
  function Charged(cs: seq<Charge>, id: nat): nat {
    if cs == [] then 0
    else Charged(cs[..|cs| - 1], id) + (if cs[|cs| - 1].packageId == id then cs[|cs| - 1].count else 0)
  }

  /** Whether a batch charges a package at all (an order without items still looks its package up). */
  predicate Touched(cs: seq<Charge>, id: nat) {
    exists c | c in cs :: c.packageId == id
  }

  /**
   * The effect of a batch on every package: it loses exactly the turns charged to it, and it
   * ends active exactly when it was active and, if the batch touched it, still has turns left.
   * Nothing else about any package changes.
   */
  lemma {:induction false} SettleAllEffect(ps: seq<UserPackage>, cs: seq<Charge>)
    requires DistinctPackageIds(ps)
    ensures |SettleAll(ps, cs)| == |ps|
    ensures forall j | 0 <= j < |ps| ::
      SettleAll(ps, cs)[j] == ps[j].(remainingTurns := ps[j].remainingTurns - Charged(cs, ps[j].id),
                                     isActive := ps[j].isActive && (Touched(cs, ps[j].id) ==> ps[j].remainingTurns - Charged(cs, ps[j].id) > 0))
  {
    if cs != [] {
      var init, c := cs[..|cs| - 1], cs[|cs| - 1];
      SettleAllEffect(ps, init);
      var before := SettleAll(ps, init);
      assert cs == init + [c];
      forall j | 0 <= j < |ps|
        ensures SettleAll(ps, cs)[j] == ps[j].(remainingTurns := ps[j].remainingTurns - Charged(cs, ps[j].id),
                                              isActive := ps[j].isActive && (Touched(cs, ps[j].id) ==> ps[j].remainingTurns - Charged(cs, ps[j].id) > 0))
      {
        SettleStep(ps, init, c, j);
      }
    }
  }

  lemma SettleStep(ps: seq<UserPackage>, init: seq<Charge>, c: Charge, j: nat)
    requires DistinctPackageIds(ps) && j < |ps|
    requires |SettleAll(ps, init)| == |ps|
    requires forall i | 0 <= i < |ps| ::
      SettleAll(ps, init)[i] == ps[i].(remainingTurns := ps[i].remainingTurns - Charged(init, ps[i].id),
                                       isActive := ps[i].isActive && (Touched(init, ps[i].id) ==> ps[i].remainingTurns - Charged(init, ps[i].id) > 0))
    ensures SettleAll(ps, init + [c])[j] == ps[j].(remainingTurns := ps[j].remainingTurns - Charged(init + [c], ps[j].id),
                                                  isActive := ps[j].isActive && (Touched(init + [c], ps[j].id) ==> ps[j].remainingTurns - Charged(init + [c], ps[j].id) > 0))
  {
    var cs := init + [c];
    assert cs[..|cs| - 1] == init;
    var before := SettleAll(ps, init);
    assert Touched(cs, ps[j].id) <==> Touched(init, ps[j].id) || c.packageId == ps[j].id by {
      if Touched(cs, ps[j].id) && c.packageId != ps[j].id {
        var d :| d in cs && d.packageId == ps[j].id;
        assert d in init;
      }
      if Touched(init, ps[j].id) {
        var d :| d in init && d.packageId == ps[j].id;
        assert d in cs;
      }
    }
    match PackageIndex(before, c.packageId)
    case None =>
      assert before[j] in before;
    case Some(k) =>
      if k != j {
        assert before[k].id == ps[k].id;
      }
  }

  // ---------------------------------------------------------------- the orders

  /** The orders with the given ids marked confirmed; positions and everything else kept. */
  function MarkConfirmed(os: seq<Order>, ids: set<nat>): (r: seq<Order>)
    ensures |r| == |os|
    ensures forall j | 0 <= j < |os| :: r[j] == if os[j].id in ids then os[j].(isConfirmed := true) else os[j]
  {
    seq(|os|, j requires 0 <= j < |os| => if os[j].id in ids then os[j].(isConfirmed := true) else os[j])
  }

  /** The orders once every order of the menu is confirmed. */
  function ConfirmedFor(os: seq<Order>, menuId: nat): (r: seq<Order>)
    ensures |r| == |os|
    ensures forall j | 0 <= j < |os| ::
      r[j] == if os[j].dailyMenuId == menuId then os[j].(isConfirmed := true) else os[j]
  {
    seq(|os|, j requires 0 <= j < |os| => if os[j].dailyMenuId == menuId then os[j].(isConfirmed := true) else os[j])
  }

  function IdsOf(os: seq<Order>): set<nat> {
    set o | o in os :: o.id
  }

  /** Confirming the pending orders one by one confirms every order of the menu. */
  lemma MarkPendingIsConfirmedFor(os: seq<Order>, menuId: nat)
    requires DistinctOrderIds(os)
    ensures MarkConfirmed(os, IdsOf(PendingOf(os, menuId))) == ConfirmedFor(os, menuId)
  {
    var pending := PendingOf(os, menuId);
    forall j | 0 <= j < |os|
      ensures MarkConfirmed(os, IdsOf(pending))[j] == ConfirmedFor(os, menuId)[j]
    {
      if os[j].id in IdsOf(pending) {
        var o :| o in pending && o.id == os[j].id;
        var i :| 0 <= i < |os| && os[i] == o;
        assert i == j;
      } else if os[j].dailyMenuId == menuId && !os[j].isConfirmed {
        assert os[j] in pending;
      }
    }
  }

  /** After a confirmation the menu has no pending order left: a second run has nothing to do. */
  lemma NothingPendingAfter(os: seq<Order>, menuId: nat)
    ensures PendingOf(ConfirmedFor(os, menuId), menuId) == []
  {
    var done := ConfirmedFor(os, menuId);
    forall o | o in done ensures o.dailyMenuId != menuId || o.isConfirmed {
      var j :| 0 <= j < |done| && done[j] == o;
    }
    Seqs.FilterNone(done, (o: Order) => o.dailyMenuId == menuId && !o.isConfirmed);
  }

  /** A second confirmation of the same menu finds nothing to do: no order, no item, no change. */
  lemma SecondRunIsNoOp(os: seq<Order>, ps: seq<UserPackage>, items: seq<OrderItem>, menuId: nat)
    ensures PendingOf(ConfirmedFor(os, menuId), menuId) == []
    ensures Total(Charges(PendingOf(ConfirmedFor(os, menuId), menuId), items)) == 0
    ensures SettleAll(ps, Charges(PendingOf(ConfirmedFor(os, menuId), menuId), items)) == ps
    ensures ConfirmedFor(ConfirmedFor(os, menuId), menuId) == ConfirmedFor(os, menuId)
  {
    NothingPendingAfter(os, menuId);
    assert Charges([], items) == [];
  }

  // ---------------------------------------------------------------- the batch

  /** The response data of `confirmAllOrders`. */
  datatype Confirmed = Confirmed(confirmedCount: nat, totalItems: nat)

  /** `DailyMenu.findById`: the position of the menu with that id. */
  function MenuIndex(menus: seq<DailyMenu>, id: nat): (r: Option<nat>)
    ensures r.Some? ==> r.value < |menus| && menus[r.value].id == id
    ensures r.None? <==> forall m | m in menus :: m.id != id
  {
    Seqs.FindFirst(menus, (m: DailyMenu) => m.id == id)
  }

  /** `Order.findById` on the orders as the batch has left them. */
  function OrderIndex(os: seq<Order>, id: nat): (r: Option<nat>)
    ensures r.Some? ==> r.value < |os| && os[r.value].id == id
    ensures r.None? <==> forall o | o in os :: o.id != id
  {
    Seqs.FindFirst(os, (o: Order) => o.id == id)
  }

  /**
   * `confirmAllOrders` with the correction of the exhausted-package check (a package driven
   * below 0 is deactivated like one at 0, and the batch goes on): MENU_NOT_FOUND for an
   * unknown menu, changing nothing; otherwise every order of the menu ends confirmed, the
   * packages are settled charge by charge in the order of the pending orders, the menu is
   * locked, and the response counts the orders that were pending and their items.
   */
  method ConfirmAllOrders(db: Store.Db, menuId: nat) returns (r: Result<Confirmed>)
    requires db.Valid()
    modifies db`orders, db`userPackages, db`menus
    ensures db.Valid()
    ensures MenuIndex(old(db.menus), menuId).None? ==>
      r == Fail("MENU_NOT_FOUND", "Không tìm thấy menu", 404) && unchanged(db)
    ensures MenuIndex(old(db.menus), menuId).Some? ==>
      var k := MenuIndex(old(db.menus), menuId).value;
      var pending := PendingOf(old(db.orders), menuId);
      && r == Ok(Confirmed(|pending|, Total(Charges(pending, old(db.orderItems)))))
      && db.orders == ConfirmedFor(old(db.orders), menuId)
      && db.userPackages == SettleAll(old(db.userPackages), Charges(pending, old(db.orderItems)))
      && db.menus == old(db.menus)[k := old(db.menus)[k].(isLocked := true)]
  {
    var found := MenuIndex(db.menus, menuId);
    if found.None? {
      return Fail("MENU_NOT_FOUND", "Không tìm thấy menu", 404);
    }
    var pending := PendingOf(db.orders, menuId);
    var total := ConfirmEach(db, menuId, pending);
    var k := found.value;
    db.ReplaceMenu(k, db.menus[k].(isLocked := true));
    r := Ok(Confirmed(|pending|, total));
  }

  /** The loop over the pending orders. */
  method ConfirmEach(db: Store.Db, menuId: nat, pending: seq<Order>) returns (total: nat)
    requires db.Valid()
    requires pending == PendingOf(db.orders, menuId)
    modifies db`orders, db`userPackages
    ensures db.Valid()
    ensures total == Total(Charges(pending, db.orderItems))
    ensures db.orders == ConfirmedFor(old(db.orders), menuId)
    ensures db.userPackages == SettleAll(old(db.userPackages), Charges(pending, db.orderItems))
  {
    ghost var os := db.orders;
    total := ConfirmPending(db, pending, os, db.userPackages, Charges(pending, db.orderItems));
    MarkPendingIsConfirmedFor(os, menuId);
  }

  /** The loop itself, over pending orders taken from `os`, the orders before the batch. */
  method ConfirmPending(db: Store.Db, pending: seq<Order>,
                        ghost os: seq<Order>, ghost ps: seq<UserPackage>, ghost cs: seq<Charge>)
    returns (total: nat)
    requires db.Valid() && db.orders == os && db.userPackages == ps
    requires (forall o | o in pending :: o in os) && DistinctOrderIds(os)
    requires cs == Charges(pending, db.orderItems)
    modifies db`orders, db`userPackages
    ensures db.Valid()
    ensures total == Total(cs)
    ensures db.orders == MarkConfirmed(os, IdsOf(pending))
    ensures db.userPackages == SettleAll(ps, cs)
  {
    total := 0;
    for i := 0 to |pending|
      invariant db.Valid() && cs == Charges(pending, db.orderItems)
      invariant total == Total(cs[..i])
      invariant db.orders == MarkConfirmed(os, IdsOf(pending[..i]))
      invariant db.userPackages == SettleAll(ps, cs[..i])
    {
      total := ConfirmTurn(db, pending, i, total, os, ps, cs);
    }
    assert pending[..|pending|] == pending && cs[..|cs|] == cs;
  }

  /** One turn of the loop keeps its invariants. */
  method ConfirmTurn(db: Store.Db, pending: seq<Order>, i: nat, total: nat,
                     ghost os: seq<Order>, ghost ps: seq<UserPackage>, ghost cs: seq<Charge>)
    returns (total': nat)
    requires db.Valid() && i < |pending|
    requires (forall o | o in pending :: o in os) && DistinctOrderIds(os)
    requires cs == Charges(pending, db.orderItems)
    requires total == Total(cs[..i])
    requires db.orders == MarkConfirmed(os, IdsOf(pending[..i]))
    requires db.userPackages == SettleAll(ps, cs[..i])
    modifies db`orders, db`userPackages
    ensures db.Valid()
    ensures total' == Total(cs[..i + 1])
    ensures db.orders == MarkConfirmed(os, IdsOf(pending[..i + 1]))
    ensures db.userPackages == SettleAll(ps, cs[..i + 1])
  {
    BatchStep(ps, pending, cs, i);
    var count := ConfirmOne(db, pending[i], os, IdsOf(pending[..i]));
    total' := total;
    if count > 0 {
      total' := total + count;
    }
  }

  /** One more turn of the loop adds one order's id, its charge to the total, and settles its charge. */
  lemma BatchStep(ps: seq<UserPackage>, pending: seq<Order>, cs: seq<Charge>, i: nat)
    requires i < |pending| == |cs|
    ensures IdsOf(pending[..i + 1]) == IdsOf(pending[..i]) + {pending[i].id}
    ensures Total(cs[..i + 1]) == Total(cs[..i]) + cs[i].count
    ensures SettleAll(ps, cs[..i + 1]) == Settle(SettleAll(ps, cs[..i]), cs[i])
    ensures pending[i] in pending
  {
    assert pending[..i + 1] == pending[..i] + [pending[i]];
    assert cs[..i + 1][..i] == cs[..i];
  }

  /**
   * One turn of the loop: debit the package (when the order has items), save the order as
   * confirmed, then deactivate the package when it has no turn left. `os` and `done` name
   * the orders before the batch and the ids it has confirmed so far.
   */
  method ConfirmOne(db: Store.Db, o: Order, ghost os: seq<Order>, ghost done: set<nat>) returns (count: nat)
    requires db.Valid()
    requires o in os && DistinctOrderIds(os) && db.orders == MarkConfirmed(os, done)
    modifies db`orders, db`userPackages
    ensures db.Valid()
    ensures count == ChargeOf(o, db.orderItems).count
    ensures db.orders == MarkConfirmed(os, done + {o.id})
    ensures db.userPackages == Settle(old(db.userPackages), ChargeOf(o, db.orderItems))
  {
    ghost var ps := db.userPackages;
    count := |ItemsOfOrder(db.orderItems, o.id)|;
    var k := DebitPackage(db, Charge(o.userPackageId, count));
    ghost var debited := db.userPackages;
    ConfirmOrder(db, o, os, done);
    DeactivateIfExhausted(db, k);
    SettleTurn(ps, Charge(o.userPackageId, count), k, debited, db.userPackages);
  }

  /** `findByIdAndUpdate(id, { $inc: { remainingTurns: -count } })`, skipped for an order without items. */
  method DebitPackage(db: Store.Db, c: Charge) returns (k: Option<nat>)
    requires db.Valid()
    modifies db`userPackages
    ensures db.Valid()
    ensures k == PackageIndex(old(db.userPackages), c.packageId)
    ensures db.userPackages ==
      if c.count > 0 && k.Some?
      then old(db.userPackages)[k.value := old(db.userPackages)[k.value].(remainingTurns := old(db.userPackages)[k.value].remainingTurns - c.count)]
      else old(db.userPackages)
  {
    k := PackageIndex(db.userPackages, c.packageId);
    if c.count > 0 && k.Some? {
      var p := db.userPackages[k.value];
      db.ReplaceUserPackage(k.value, p.(remainingTurns := p.remainingTurns - c.count));
    }
  }

  /** The package found again by id is deactivated when it has no turn left. */
  method DeactivateIfExhausted(db: Store.Db, k: Option<nat>)
    requires db.Valid() && (k.Some? ==> k.value < |db.userPackages|)
    modifies db`userPackages
    ensures db.Valid()
    ensures db.userPackages ==
      if k.Some? && old(db.userPackages)[k.value].remainingTurns <= 0
      then old(db.userPackages)[k.value := old(db.userPackages)[k.value].(isActive := false)]
      else old(db.userPackages)
  {
    if k.Some? && db.userPackages[k.value].remainingTurns <= 0 {
      db.ReplaceUserPackage(k.value, db.userPackages[k.value].(isActive := false));
    }
  }

  /** The debit and the exhaustion check together settle the charge. */
  lemma SettleTurn(ps: seq<UserPackage>, c: Charge, k: Option<nat>, debited: seq<UserPackage>, after: seq<UserPackage>)
    requires k == PackageIndex(ps, c.packageId)
    requires debited == if c.count > 0 && k.Some? then ps[k.value := ps[k.value].(remainingTurns := ps[k.value].remainingTurns - c.count)] else ps
    requires after == if k.Some? && debited[k.value].remainingTurns <= 0 then debited[k.value := debited[k.value].(isActive := false)] else debited
    ensures after == Settle(ps, c)
  {
  }

  /** `order.isConfirmed = true; await order.save()`. */
  method ConfirmOrder(db: Store.Db, o: Order, ghost os: seq<Order>, ghost done: set<nat>)
    requires db.Valid()
    requires o in os && DistinctOrderIds(os) && db.orders == MarkConfirmed(os, done)
    modifies db`orders
    ensures db.Valid()
    ensures db.orders == MarkConfirmed(os, done + {o.id})
  {
    FoundAfterMarks(os, done, o);
    var j := OrderIndex(db.orders, o.id).value;
    MarkStep(os, done, j);
    db.ReplaceOrder(j, db.orders[j].(isConfirmed := true));
  }

  lemma FoundAfterMarks(os: seq<Order>, done: set<nat>, o: Order)
    requires o in os
    ensures OrderIndex(MarkConfirmed(os, done), o.id).Some?
  {
    var j :| 0 <= j < |os| && os[j] == o;
    assert MarkConfirmed(os, done)[j] in MarkConfirmed(os, done);
  }

  lemma MarkStep(os: seq<Order>, done: set<nat>, j: nat)
    requires DistinctOrderIds(os) && j < |os|
    ensures MarkConfirmed(os, done)[j := MarkConfirmed(os, done)[j].(isConfirmed := true)] == MarkConfirmed(os, done + {os[j].id})
  {
  }

  // ---------------------------------------------------------------- confirmAllOrders as written

  /** The `ValidationError` of saving a package whose `remainingTurns` went below the schema's minimum. */
  const Overdrawn: Thrown := Invalid("UserPackage", [PathFailure("remainingTurns", "Số lượt còn lại không được âm")])

  /** Where the batch as written stands: the orders, the packages, the total so far, and what it threw. */
  datatype Outcome = Outcome(orders: seq<Order>, packages: seq<UserPackage>, total: nat, failure: Option<Thrown>)

  /**
   * The loop as `confirmAllOrders` is written: the debit is an unvalidated `$inc`, but deactivating
   * the package is a `save()` that validates `remainingTurns`, so a package driven below 0
   * throws there, after the order was confirmed, and the rest of the batch never runs.
   */
  function ConfirmAsWritten(os: seq<Order>, ps: seq<UserPackage>, pending: seq<Order>, items: seq<OrderItem>): (r: Outcome)
    decreases |pending|
  {
    if pending == [] then Outcome(os, ps, 0, None)
    else
      var o := pending[0];
      var c := ChargeOf(o, items);
      var k := PackageIndex(ps, c.packageId);
      var debited := if c.count > 0 && k.Some? then ps[k.value := ps[k.value].(remainingTurns := ps[k.value].remainingTurns - c.count)] else ps;
      var confirmed := MarkConfirmed(os, {o.id});
      if k.Some? && debited[k.value].remainingTurns < 0 then
        Outcome(confirmed, debited, c.count, Some(Overdrawn))
      else
        var settled := if k.Some? && debited[k.value].remainingTurns <= 0 then debited[k.value := debited[k.value].(isActive := false)] else debited;
        var rest := ConfirmAsWritten(confirmed, settled, pending[1..], items);
        Outcome(rest.orders, rest.packages, c.count + rest.total, rest.failure)
  }

  /**
   * A package charged for more turns than it has left stops the batch as written: for
   * instance a package whose last turn went to another menu's order, confirmed earlier,
   * charged again for an order with one item. The program throws after confirming that
   * order; no later order of the batch is confirmed and no later package is debited.
   */
  lemma OverdrawStopsBatch(os: seq<Order>, ps: seq<UserPackage>, pending: seq<Order>, items: seq<OrderItem>)
    requires pending != []
    requires PackageIndex(ps, pending[0].userPackageId).Some?
    requires ps[PackageIndex(ps, pending[0].userPackageId).value].remainingTurns < |ItemsOfOrder(items, pending[0].id)|
    ensures ConfirmAsWritten(os, ps, pending, items).failure == Some(Overdrawn)
    ensures ConfirmAsWritten(os, ps, pending, items).orders == MarkConfirmed(os, {pending[0].id})
    ensures ConfirmAsWritten(os, ps, pending, items).total == |ItemsOfOrder(items, pending[0].id)|
  {
  }
}
