/**
 * Placing an order (`createOrder`): an ordered chain of refusals, the choice of the package
 * that will be charged (the soonest-expiring eligible one), a turn pre-check that debits
 * nothing, and an upsert that keeps one order per user and menu and replaces its item set.
 */
module Orders {
  import opened Wrappers
  import opened Types
  import opened Errors
  import opened Records
  import Seqs
  import Text
  import DailyMenus
  import Store

  /** One element of the request's `items`: a menu item id and an optional note. */
  datatype ItemInput = ItemInput(menuItemId: nat, note: Option<string>)

  /** `items?.length || 0`. */
  function ItemCount(items: Option<seq<ItemInput>>): (n: nat)
    ensures items.None? ==> n == 0
    ensures items.Some? ==> n == |items.value|
  {
    if items.Some? then |items.value| else 0
  }

  // ---------------------------------------------------------------- the charged package

  /**
   * The filter of the package lookup: the user's own package of the ordered type, active,
   * with turns left and not yet expired.
   */
  predicate Eligible(p: UserPackage, userId: nat, t: PackageType, now: int) {
    p.userId == userId && p.packageType == t && p.isActive && p.remainingTurns > 0 && p.expiresAt > now
  }

  /**
   * `UserPackage.findOne(filter).sort({ expiresAt: 1 })`: the position of an eligible package
   * with the earliest expiry, the first in natural order among equally early ones.
   */
  function SoonestExpiring(ps: seq<UserPackage>, userId: nat, t: PackageType, now: int): (r: Option<nat>)
    ensures r.Some? ==> r.value < |ps| && Eligible(ps[r.value], userId, t, now)
    ensures r.Some? ==> forall j | 0 <= j < |ps| && Eligible(ps[j], userId, t, now) :: ps[r.value].expiresAt <= ps[j].expiresAt
    ensures r.Some? ==> forall j | 0 <= j < r.value && Eligible(ps[j], userId, t, now) :: ps[r.value].expiresAt < ps[j].expiresAt
    ensures r.None? <==> forall p | p in ps :: !Eligible(p, userId, t, now)
  {
    if ps == [] then None
    else
      var init, last := ps[..|ps| - 1], ps[|ps| - 1];
      var best := SoonestExpiring(init, userId, t, now);
      assert forall j | 0 <= j < |init| :: init[j] == ps[j];
      assert forall p | p in init :: p in ps;
      assert ps == init + [last];
      if Eligible(last, userId, t, now) && (best.None? || last.expiresAt < init[best.value].expiresAt) then
        Some(|ps| - 1)
      else
        best
  }

  // ---------------------------------------------------------------- admission

  /** What an admitted request is placed with. */
  datatype Admission = Admission(orderType: PackageType, menu: DailyMenu, package: UserPackage)

  /** The MENU_LOCKED message: the lock is named before the window. */
  function LockedMessage(m: DailyMenu): string {
    if m.isLocked then "Menu đã bị khóa, không thể đặt cơm"
    else "Ngoài thời gian đặt cơm (" + m.beginAt + " - " + m.endAt + ")"
  }

  function PackageLabel(t: PackageType): string {
    match t
    case Normal => "bình thường (có cơm)"
    case NoRice => "không cơm"
  }

  /** Today's menu is there, unlocked, and the UTC+7 clock lies in its window. */
  predicate MenuOpen(menus: seq<DailyMenu>, now: int, hostOffset: int) {
    var m := DailyMenus.MenuOfDay(menus, now, hostOffset);
    m.Some? && DailyMenus.CanOrder(m.value, now, hostOffset)
  }

  /**
   * The menu checks of `createOrder`: MENU_NOT_FOUND when no menu is dated today, MENU_LOCKED
   * when today's (first) menu is locked or the UTC+7 clock is outside its window.
   */
  function OpenMenu(menus: seq<DailyMenu>, now: int, hostOffset: int): (r: Result<DailyMenu>)
    ensures DailyMenus.MenuOfDay(menus, now, hostOffset).None? ==> r == Fail("MENU_NOT_FOUND", "Chưa có menu hôm nay", 404)
    ensures DailyMenus.MenuOfDay(menus, now, hostOffset).Some? && !DailyMenus.CanOrder(DailyMenus.MenuOfDay(menus, now, hostOffset).value, now, hostOffset) ==>
      r == Fail("MENU_LOCKED", LockedMessage(DailyMenus.MenuOfDay(menus, now, hostOffset).value), 400)
    ensures r.Ok? <==> MenuOpen(menus, now, hostOffset)
    ensures r.Ok? ==> Some(r.value) == DailyMenus.MenuOfDay(menus, now, hostOffset)
  {
    var menu := DailyMenus.MenuOfDay(menus, now, hostOffset);
    if menu.None? then Fail("MENU_NOT_FOUND", "Chưa có menu hôm nay", 404)
    else if !DailyMenus.CanOrder(menu.value, now, hostOffset) then Fail("MENU_LOCKED", LockedMessage(menu.value), 400)
    else Ok(menu.value)
  }

  /**
   * The checks of `createOrder`, in their order: the order type ("normal" when absent),
   * today's menu, its lock and window, and then the package. The first failing check
   * decides the error; an admitted request carries today's menu and the charged package.
   */
  function Admit(menus: seq<DailyMenu>, packages: seq<UserPackage>, userId: nat, orderType: Option<string>,
                 itemCount: nat, now: int, hostOffset: int): (r: Result<Admission>)
    ensures ParsePackageType(orderType.GetOr("normal")).None? ==>
      r == Fail("INVALID_ORDER_TYPE", "Loại đặt cơm không hợp lệ", 400)
    ensures ParsePackageType(orderType.GetOr("normal")).Some? && !MenuOpen(menus, now, hostOffset) ==>
      r == Err(OpenMenu(menus, now, hostOffset).thrown)
    ensures ParsePackageType(orderType.GetOr("normal")).Some? && MenuOpen(menus, now, hostOffset)
            && ChargedPackage(packages, userId, ParsePackageType(orderType.GetOr("normal")).value, itemCount, now).Err? ==>
      r == Err(ChargedPackage(packages, userId, ParsePackageType(orderType.GetOr("normal")).value, itemCount, now).thrown)
    ensures r.Ok? ==>
      && Some(r.value.orderType) == ParsePackageType(orderType.GetOr("normal"))
      && Some(r.value.menu) == DailyMenus.MenuOfDay(menus, now, hostOffset)
      && DailyMenus.CanOrder(r.value.menu, now, hostOffset)
      && Ok(r.value.package) == ChargedPackage(packages, userId, r.value.orderType, itemCount, now)
  {
    var t := ParsePackageType(orderType.GetOr("normal"));
    if t.None? then Fail("INVALID_ORDER_TYPE", "Loại đặt cơm không hợp lệ", 400)
    else
      match OpenMenu(menus, now, hostOffset)
      case Err(e) => Err(e)
      case Ok(menu) =>
        match ChargedPackage(packages, userId, t.value, itemCount, now)
        case Ok(p) => Ok(Admission(t.value, menu, p))
        case Err(e) => Err(e)
  }

  /** The NOT_ENOUGH_TURNS message. */
  function TurnsMessage(p: UserPackage, itemCount: nat): string
    requires p.remainingTurns >= 0
  {
    "Bạn chỉ còn " + Text.NatToString(p.remainingTurns as nat) + " lượt, không đủ để đặt " + Text.NatToString(itemCount) + " món"
  }

  /**
   * The package lookup and the turn pre-check: NO_MATCHING_PACKAGE when the user has no
   * eligible package of the type, NOT_ENOUGH_TURNS when the soonest-expiring one has fewer
   * turns than there are items. Nothing is debited.
   */
  function ChargedPackage(packages: seq<UserPackage>, userId: nat, t: PackageType, itemCount: nat, now: int)
    : (r: Result<UserPackage>)
    ensures (forall p | p in packages :: !Eligible(p, userId, t, now)) ==>
      r == Fail("NO_MATCHING_PACKAGE", "Bạn chưa có gói đặt cơm " + PackageLabel(t) + " khả dụng. Vui lòng mua gói trước!", 400)
    ensures r.Err? && (exists p | p in packages :: Eligible(p, userId, t, now)) ==>
      exists p | p in packages && Eligible(p, userId, t, now) ::
        itemCount > p.remainingTurns && r == Fail("NOT_ENOUGH_TURNS", TurnsMessage(p, itemCount), 400)
    ensures r.Ok? ==>
      && r.value in packages
      && Eligible(r.value, userId, t, now)
      && (forall p | p in packages && Eligible(p, userId, t, now) :: r.value.expiresAt <= p.expiresAt)
      && itemCount <= r.value.remainingTurns
    ensures var k := SoonestExpiring(packages, userId, t, now);
      k.Some? && itemCount > packages[k.value].remainingTurns ==>
        r == Fail("NOT_ENOUGH_TURNS", TurnsMessage(packages[k.value], itemCount), 400)
    ensures var k := SoonestExpiring(packages, userId, t, now);
      k.Some? && itemCount <= packages[k.value].remainingTurns ==> r == Ok(packages[k.value])
  {
    var k := SoonestExpiring(packages, userId, t, now);
    if k.None? then
      Fail("NO_MATCHING_PACKAGE", "Bạn chưa có gói đặt cơm " + PackageLabel(t) + " khả dụng. Vui lòng mua gói trước!", 400)
    else
      var p := packages[k.value];
      if itemCount > p.remainingTurns then
        Fail("NOT_ENOUGH_TURNS", TurnsMessage(p, itemCount), 400)
      else
        assert forall q | q in packages && Eligible(q, userId, t, now) :: p.expiresAt <= q.expiresAt by {
          forall q | q in packages && Eligible(q, userId, t, now) ensures p.expiresAt <= q.expiresAt {
            var j :| 0 <= j < |packages| && packages[j] == q;
          }
        }
        Ok(p)
  }

  /** An order is accepted only while the menu's `canOrder` flag would show true. */
  lemma AdmittedWhileOpen(menus: seq<DailyMenu>, packages: seq<UserPackage>, userId: nat, orderType: Option<string>,
                          itemCount: nat, now: int, hostOffset: int)
    ensures Admit(menus, packages, userId, orderType, itemCount, now, hostOffset).Ok? ==>
      exists m | m in menus :: DailyMenus.OnLocalDay(m.menuDate, now, hostOffset) && DailyMenus.CanOrder(m, now, hostOffset)
  {
    var r := Admit(menus, packages, userId, orderType, itemCount, now, hostOffset);
    if r.Ok? {
      assert r.value.menu in menus;
    }
  }

  // ---------------------------------------------------------------- the stored items

  /** `item.note || ""`. */
  function NoteOf(i: ItemInput): string {
    i.note.GetOr(DefaultNote)
  }

  /** Every note passes the schema's 200-character limit. */
  predicate NotesFit(inputs: seq<ItemInput>) {
    forall i | i in inputs :: Text.Utf16Length(NoteOf(i)) <= 200
  }

  /** The `ValidationError` of `insertMany`: the first document whose note is too long. */
  function NoteRejection(inputs: seq<ItemInput>): (t: Thrown)
    requires !NotesFit(inputs)
    ensures t.Other? && t.name == "ValidationError"
  {
    var k := Seqs.FindFirst(inputs, (i: ItemInput) => Text.Utf16Length(NoteOf(i)) > 200);
    Invalid("OrderItem", NoteFailures(NoteOf(inputs[k.value])))
  }

  /** The documents `insertMany` stores: one per input, in order, quantity 1, note defaulted. */
  function NewOrderItems(orderId: nat, inputs: seq<ItemInput>, firstId: nat): (r: seq<OrderItem>)
    ensures |r| == |inputs|
    ensures forall i :: 0 <= i < |r| ==>
      r[i].id == firstId + i && r[i].orderId == orderId && r[i].menuItemId == inputs[i].menuItemId
      && r[i].quantity == 1 && r[i].note == inputs[i].note.GetOr("")
  {
    seq(|inputs|, i requires 0 <= i < |inputs| => OrderItem(firstId + i, orderId, inputs[i].menuItemId, DefaultQuantity, NoteOf(inputs[i])))
  }

  /** Items whose notes fit are storable with the ids they are given. */
  lemma NewItemsStorable(orderId: nat, inputs: seq<ItemInput>, first: nat)
    requires NotesFit(inputs)
    ensures forall x | x in NewOrderItems(orderId, inputs, first) ::
      first <= x.id < first + |inputs| && x.orderId == orderId && ValidOrderItem(x)
  {
    var added := NewOrderItems(orderId, inputs, first);
    forall x | x in added ensures first <= x.id < first + |inputs| && x.orderId == orderId && ValidOrderItem(x) {
      var i :| 0 <= i < |added| && added[i] == x;
      assert inputs[i] in inputs;
    }
  }

  /** Appending items of an order that had none makes them exactly that order's items. */
  lemma ItemsOfFreshOrder(before: seq<OrderItem>, orderId: nat, added: seq<OrderItem>)
    requires forall x | x in before :: x.orderId != orderId
    requires forall x | x in added :: x.orderId == orderId
    ensures ItemsOfOrder(before + added, orderId) == added
  {
    var p := (x: OrderItem) => x.orderId == orderId;
    Seqs.FilterAppend(before, added, p);
    Seqs.FilterNone(before, p);
    Seqs.FilterAll(added, p);
  }

  /**
   * `OrderItem.insertMany` of the request's items under `orderId`, which has no items yet
   * (skipped when there are none). An over-long note refuses the whole batch before anything
   * is stored. `before` and `first` name the item table and the id counter on entry.
   */
  method StoreItems(db: Store.Db, orderId: nat, inputs: seq<ItemInput>, ghost before: seq<OrderItem>, ghost first: nat)
    returns (refused: Option<Thrown>)
    requires db.Valid() && orderId < db.nextId
    requires before == db.orderItems && first == db.nextId
    requires forall x | x in db.orderItems :: x.orderId != orderId
    modifies db`orderItems, db`nextId
    ensures db.Valid()
    ensures NotesFit(inputs) ==> refused.None? && db.orderItems == before + NewOrderItems(orderId, inputs, first)
    ensures NotesFit(inputs) ==> ItemsOfOrder(db.orderItems, orderId) == NewOrderItems(orderId, inputs, first)
    ensures !NotesFit(inputs) ==> refused == Some(NoteRejection(inputs)) && db.orderItems == before
  {
    if !NotesFit(inputs) {
      return Some(NoteRejection(inputs));
    }
    refused := None;
    if |inputs| > 0 {
      var f := db.NewIds(|inputs|);
      var added := NewOrderItems(orderId, inputs, f);
      NewItemsStorable(orderId, inputs, f);
      ItemsOfFreshOrder(db.orderItems, orderId, added);
      db.AppendOrderItems(added);
    } else {
      assert NewOrderItems(orderId, inputs, first) == [];
      assert before + [] == before;
      ItemsOfFreshOrder(before, orderId, []);
    }
  }

  // ---------------------------------------------------------------- placing the order

  /** The response of `createOrder`: the order with its items, and whether it is new (201) or updated. */
  datatype Placed = Placed(order: Order, items: seq<OrderItem>, created: bool)

  /** `Order.findOne({ userId, dailyMenuId })`: the position of the user's order on that menu. */
  function OrderOf(orders: seq<Order>, userId: nat, menuId: nat): (r: Option<nat>)
    ensures r.Some? ==> r.value < |orders| && orders[r.value].userId == userId && orders[r.value].dailyMenuId == menuId
    ensures r.None? <==> forall o | o in orders :: o.userId != userId || o.dailyMenuId != menuId
  {
    Seqs.FindFirst(orders, (o: Order) => o.userId == userId && o.dailyMenuId == menuId)
  }

  /** A resubmission overwrites the type and the charged package only. */
  function Resubmitted(o: Order, a: Admission): Order {
    o.(orderType := a.orderType, userPackageId := a.package.id)
  }

  /**
   * `createOrder` for the signed-in `userId`. A refused request changes nothing. An admitted
   * one keeps a single order per (user, menu): an existing order gets the new type and
   * package (its confirmation and its `orderedAt` stay), a new one is stored unconfirmed;
   * either way the order's items become exactly the requested ones. No package is debited:
   * the user packages are outside what this method may change.
   */
  method CreateOrder(db: Store.Db, userId: nat, orderType: Option<string>, items: Option<seq<ItemInput>>,
                     now: int, hostOffset: int) returns (r: Result<Placed>)
    requires db.Valid()
    modifies db`orders, db`orderItems, db`nextId
    ensures db.Valid()
    ensures Admit(old(db.menus), old(db.userPackages), userId, orderType, ItemCount(items), now, hostOffset).Err? ==>
      r == Err(Admit(old(db.menus), old(db.userPackages), userId, orderType, ItemCount(items), now, hostOffset).thrown)
      && unchanged(db)
    ensures Admit(old(db.menus), old(db.userPackages), userId, orderType, ItemCount(items), now, hostOffset).Ok? ==>
      var a := Admit(old(db.menus), old(db.userPackages), userId, orderType, ItemCount(items), now, hostOffset).value;
      var inputs := items.GetOr([]);
      match OrderOf(old(db.orders), userId, a.menu.id)
      case Some(k) =>
        var o := Resubmitted(old(db.orders)[k], a);
        && db.orders == old(db.orders)[k := o]
        && (NotesFit(inputs) ==>
              r == Ok(Placed(o, NewOrderItems(o.id, inputs, old(db.nextId)), false))
              && db.orderItems == ItemsNotOfOrder(old(db.orderItems), o.id) + r.value.items
              && ItemsOfOrder(db.orderItems, o.id) == r.value.items)
        && (!NotesFit(inputs) ==>
              r == Err(NoteRejection(inputs)) && db.orderItems == ItemsNotOfOrder(old(db.orderItems), o.id))
      case None =>
        var o := Order(old(db.nextId), userId, a.menu.id, a.package.id, a.orderType, false, now);
        && db.orders == old(db.orders) + [o]
        && (NotesFit(inputs) ==>
              r == Ok(Placed(o, NewOrderItems(o.id, inputs, old(db.nextId) + 1), true))
              && db.orderItems == old(db.orderItems) + r.value.items
              && ItemsOfOrder(db.orderItems, o.id) == r.value.items)
        && (!NotesFit(inputs) ==> r == Err(NoteRejection(inputs)) && db.orderItems == old(db.orderItems))
  {
    var admitted := Admit(db.menus, db.userPackages, userId, orderType, ItemCount(items), now, hostOffset);
    if admitted.Err? {
      return Err(admitted.thrown);
    }
    var inputs := items.GetOr([]);
    var existing := OrderOf(db.orders, userId, admitted.value.menu.id);
    if existing.Some? {
      r := Resubmit(db, existing.value, admitted.value, inputs);
    } else {
      r := Submit(db, userId, admitted.value, inputs, now);
    }
  }

  /** The update branch: save the order, `deleteMany` its items, `insertMany` the new ones. */
  method Resubmit(db: Store.Db, k: nat, a: Admission, inputs: seq<ItemInput>) returns (r: Result<Placed>)
    requires db.Valid() && k < |db.orders|
    modifies db`orders, db`orderItems, db`nextId
    ensures db.Valid()
    ensures db.orders == old(db.orders)[k := Resubmitted(old(db.orders)[k], a)]
    ensures NotesFit(inputs) ==>
      r == Ok(Placed(Resubmitted(old(db.orders)[k], a), NewOrderItems(old(db.orders)[k].id, inputs, old(db.nextId)), false))
      && db.orderItems == ItemsNotOfOrder(old(db.orderItems), old(db.orders)[k].id) + r.value.items
      && ItemsOfOrder(db.orderItems, old(db.orders)[k].id) == r.value.items
    ensures !NotesFit(inputs) ==>
      r == Err(NoteRejection(inputs)) && db.orderItems == ItemsNotOfOrder(old(db.orderItems), old(db.orders)[k].id)
  {
    var first := db.nextId;
    var o := Resubmitted(db.orders[k], a);
    db.ReplaceOrder(k, o);
    db.DeleteOrderItemsOf(o.id);
    var refused := StoreItems(db, o.id, inputs, ItemsNotOfOrder(old(db.orderItems), o.id), old(db.nextId));
    if refused.Some? {
      return Err(refused.value);
    }
    r := Ok(Placed(o, NewOrderItems(o.id, inputs, first), false));
  }

  /** The create branch: `new Order(...).save()`, then `insertMany` of the items. */
  method Submit(db: Store.Db, userId: nat, a: Admission, inputs: seq<ItemInput>, now: int) returns (r: Result<Placed>)
    requires db.Valid()
    requires forall o | o in db.orders :: o.userId != userId || o.dailyMenuId != a.menu.id
    modifies db`orders, db`orderItems, db`nextId
    ensures db.Valid()
    ensures db.orders == old(db.orders) + [Order(old(db.nextId), userId, a.menu.id, a.package.id, a.orderType, false, now)]
    ensures NotesFit(inputs) ==>
      r == Ok(Placed(Order(old(db.nextId), userId, a.menu.id, a.package.id, a.orderType, false, now),
                     NewOrderItems(old(db.nextId), inputs, old(db.nextId) + 1), true))
      && db.orderItems == old(db.orderItems) + r.value.items
      && ItemsOfOrder(db.orderItems, old(db.nextId)) == r.value.items
    ensures !NotesFit(inputs) ==> r == Err(NoteRejection(inputs)) && db.orderItems == old(db.orderItems)
  {
    assert forall x | x in db.orderItems :: x.orderId < db.nextId;
    assert forall x | x in db.orders :: x.id < db.nextId;
    var id := db.NewId();
    var o := Order(id, userId, a.menu.id, a.package.id, a.orderType, false, now);
    db.AddOrder(o);
    var refused := StoreItems(db, id, inputs, old(db.orderItems), old(db.nextId) + 1);
    if refused.Some? {
      return Err(refused.value);
    }
    r := Ok(Placed(o, NewOrderItems(id, inputs, id + 1), true));
  }
}
