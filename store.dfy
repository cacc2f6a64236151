/**
 * The database: one collection per model, each a sequence of records in natural
 * (insertion) order, and the allocator of fresh `_id`s. Controllers read and write the
 * collections directly; `Valid` holds what the schemas and unique indexes guarantee of the
 * stored data, together with what the controllers themselves keep true.
 */
module Store {
  import opened Types
  import opened Records

  class Db {
    var users: seq<User>
    var mealPackages: seq<MealPackage>
    var userPackages: seq<UserPackage>
    var requests: seq<PurchaseRequest>
    var menus: seq<DailyMenu>
    var menuItems: seq<MenuItem>
    var orders: seq<Order>
    var orderItems: seq<OrderItem>
    /** Every id handed out so far is below this one. */
    var nextId: nat

    ghost predicate Valid()
      reads this
    {
      ValidAt(nextId)
    }

    /** Every table is valid when the ids below `n` are the ones handed out. */
    ghost predicate ValidAt(n: nat)
      reads this
    {
      && UsersValid(users, n)
      && MealPackagesValid(mealPackages, n)
      && UserPackagesValid(userPackages, n)
      && RequestsValid(requests, n)
      && MenusValid(menus, n)
      && MenuItemsValid(menuItems, n)
      && OrdersValid(orders, n)
      && OrderItemsValid(orderItems, n)
    }

    /** An empty database. */
    constructor ()
      ensures Valid()
      ensures users == [] && mealPackages == [] && userPackages == [] && requests == []
      ensures menus == [] && menuItems == [] && orders == [] && orderItems == []
    {
      users, mealPackages, userPackages, requests := [], [], [], [];
      menus, menuItems, orders, orderItems := [], [], [], [];
      nextId := 0;
    }

    /** A fresh `_id`, different from every id in the database. */
    method NewId() returns (id: nat)
      requires Valid()
      modifies this`nextId
      ensures id == old(nextId) && nextId == id + 1
      ensures Valid()
    {
      id := nextId;
      nextId := nextId + 1;
      Grow(id, nextId);
    }

    /** `n` fresh consecutive `_id`s starting at `first`, as `insertMany` assigns them. */
    method NewIds(n: nat) returns (first: nat)
      requires Valid()
      modifies this`nextId
      ensures first == old(nextId) && nextId == first + n
      ensures Valid()
    {
      first := nextId;
      nextId := nextId + n;
      Grow(first, nextId);
    }

    /** `DailyMenu.create`: a menu with a fresh id is appended. */
    method AddMenu(m: DailyMenu)
      requires Valid() && m.id < nextId && ValidMenu(m)
      requires forall x | x in menus :: x.id != m.id
      modifies this`menus
      ensures Valid()
      ensures menus == old(menus) + [m]
    {
      menus := menus + [m];
    }

    /** A menu is saved back at its position with its id unchanged. */
    method ReplaceMenu(k: nat, m: DailyMenu)
      requires Valid() && k < |menus| && m.id == menus[k].id && ValidMenu(m)
      modifies this`menus
      ensures Valid()
      ensures menus == old(menus)[k := m]
    {
      MenusUpdate(menus, k, m, nextId);
      menus := menus[k := m];
    }

    /** `MenuItem.insertMany`: items with ids already handed out are appended. */
    method AppendMenuItems(added: seq<MenuItem>)
      requires Valid()
      requires forall x | x in added :: x.id < nextId && x.dailyMenuId < nextId && ValidMenuItem(x)
      modifies this`menuItems
      ensures Valid()
      ensures menuItems == old(menuItems) + added
    {
      menuItems := menuItems + added;
    }

    /** `MenuItem.deleteMany({ dailyMenu })`: the items of one menu are removed. */
    method DeleteMenuItemsOf(menuId: nat)
      requires Valid()
      modifies this`menuItems
      ensures Valid()
      ensures menuItems == ItemsNotOfMenu(old(menuItems), menuId)
    {
      menuItems := ItemsNotOfMenu(menuItems, menuId);
    }

    /** `new Order(...).save()`: an order with a fresh id for a (user, menu) pair without one. */
    method AddOrder(o: Order)
      requires Valid() && o.id < nextId
      requires forall x | x in orders :: x.id != o.id
      requires forall x | x in orders :: x.userId != o.userId || x.dailyMenuId != o.dailyMenuId
      modifies this`orders
      ensures Valid()
      ensures orders == old(orders) + [o]
    {
      OrdersAppend(orders, o, nextId);
      orders := orders + [o];
    }

    /** An order is saved back at its position; its id, user and menu are unchanged. */
    method ReplaceOrder(k: nat, o: Order)
      requires Valid() && k < |orders|
      requires o.id == orders[k].id && o.userId == orders[k].userId && o.dailyMenuId == orders[k].dailyMenuId
      modifies this`orders
      ensures Valid()
      ensures orders == old(orders)[k := o]
    {
      OrdersUpdate(orders, k, o, nextId);
      orders := orders[k := o];
    }

    /** `OrderItem.deleteMany({ orderId })`. */
    method DeleteOrderItemsOf(orderId: nat)
      requires Valid()
      modifies this`orderItems
      ensures Valid()
      ensures orderItems == ItemsNotOfOrder(old(orderItems), orderId)
    {
      orderItems := ItemsNotOfOrder(orderItems, orderId);
    }

    /** `OrderItem.insertMany`: valid items with ids already handed out are appended. */
    method AppendOrderItems(added: seq<OrderItem>)
      requires Valid()
      requires forall x | x in added :: x.id < nextId && x.orderId < nextId && ValidOrderItem(x)
      modifies this`orderItems
      ensures Valid()
      ensures orderItems == old(orderItems) + added
    {
      orderItems := orderItems + added;
    }

    /** A purchased package is saved back at its position with its id unchanged. */
    method ReplaceUserPackage(k: nat, p: UserPackage)
      requires Valid() && k < |userPackages| && p.id == userPackages[k].id
      modifies this`userPackages
      ensures Valid()
      ensures userPackages == old(userPackages)[k := p]
    {
      UserPackagesUpdate(userPackages, k, p, nextId);
      userPackages := userPackages[k := p];
    }

    /** `new User(...).save()`: a valid user with a fresh id and an email no one has. */
    method AddUser(u: User)
      requires Valid() && u.id < nextId && ValidUser(u)
      requires forall x | x in users :: x.id != u.id && x.email != u.email
      modifies this`users
      ensures Valid()
      ensures users == old(users) + [u]
    {
      UsersAppend(users, u, nextId);
      users := users + [u];
    }

    /** A user is saved back at its position; its id and email are unchanged and it stays valid. */
    method ReplaceUser(k: nat, u: User)
      requires Valid() && k < |users| && u.id == users[k].id && u.email == users[k].email && ValidUser(u)
      modifies this`users
      ensures Valid()
      ensures users == old(users)[k := u]
    {
      users := users[k := u];
    }

    /** `new MealPackage(...).save()`: a valid template with a fresh id. */
    method AddMealPackage(p: MealPackage)
      requires Valid() && p.id < nextId && ValidMealPackage(p)
      requires forall x | x in mealPackages :: x.id != p.id
      modifies this`mealPackages
      ensures Valid()
      ensures mealPackages == old(mealPackages) + [p]
    {
      MealPackagesAppend(mealPackages, p, nextId);
      mealPackages := mealPackages + [p];
    }

    /** A template is saved back at its position with its id unchanged. */
    method ReplaceMealPackage(k: nat, p: MealPackage)
      requires Valid() && k < |mealPackages| && p.id == mealPackages[k].id && ValidMealPackage(p)
      modifies this`mealPackages
      ensures Valid()
      ensures mealPackages == old(mealPackages)[k := p]
    {
      mealPackages := mealPackages[k := p];
    }

    /** `findByIdAndDelete`: the template at position `k` is removed. */
    method DeleteMealPackage(k: nat)
      requires Valid() && k < |mealPackages|
      modifies this`mealPackages
      ensures Valid()
      ensures mealPackages == old(mealPackages)[..k] + old(mealPackages)[k + 1..]
    {
      MealPackagesRemove(mealPackages, k, nextId);
      mealPackages := mealPackages[..k] + mealPackages[k + 1..];
    }

    /** `new UserPackage(...).save()`: a purchased package with a fresh id. */
    method AddUserPackage(p: UserPackage)
      requires Valid() && p.id < nextId
      requires forall x | x in userPackages :: x.id != p.id
      modifies this`userPackages
      ensures Valid()
      ensures userPackages == old(userPackages) + [p]
    {
      UserPackagesAppend(userPackages, p, nextId);
      userPackages := userPackages + [p];
    }

    /** `new PackagePurchaseRequest(...).save()`: a request with a fresh id. */
    method AddRequest(q: PurchaseRequest)
      requires Valid() && q.id < nextId && ConsistentRequest(q)
      requires forall x | x in requests :: x.id != q.id
      modifies this`requests
      ensures Valid()
      ensures requests == old(requests) + [q]
    {
      RequestsAppend(requests, q, nextId);
      requests := requests + [q];
    }

    /** A request is saved back at its position with its id unchanged. */
    method ReplaceRequest(k: nat, q: PurchaseRequest)
      requires Valid() && k < |requests| && q.id == requests[k].id && ConsistentRequest(q)
      modifies this`requests
      ensures Valid()
      ensures requests == old(requests)[k := q]
    {
      requests := requests[k := q];
    }

    /** Handing out more ids keeps every table valid. */
    lemma Grow(n: nat, n': nat)
      requires n <= n'
      requires ValidAt(n)
      ensures ValidAt(n')
    {
    }
  }

  /** Stored users are valid, have fresh and distinct ids, and distinct emails (the unique index). */
  ghost predicate UsersValid(users: seq<User>, nextId: nat) {
    && (forall i | 0 <= i < |users| :: users[i].id < nextId && ValidUser(users[i]))
    && (forall i, j | 0 <= i < j < |users| :: users[i].id != users[j].id && users[i].email != users[j].email)
  }

  ghost predicate MealPackagesValid(ps: seq<MealPackage>, nextId: nat) {
    && (forall i | 0 <= i < |ps| :: ps[i].id < nextId && ValidMealPackage(ps[i]))
    && (forall i, j | 0 <= i < j < |ps| :: ps[i].id != ps[j].id)
  }

  /** No bound on `remainingTurns`: the debit of a confirmation bypasses the schema's minimum. */
  ghost predicate UserPackagesValid(ps: seq<UserPackage>, nextId: nat) {
    && (forall i | 0 <= i < |ps| :: ps[i].id < nextId)
    && DistinctPackageIds(ps)
  }

  ghost predicate RequestsValid(rs: seq<PurchaseRequest>, nextId: nat) {
    && (forall i | 0 <= i < |rs| :: rs[i].id < nextId && ConsistentRequest(rs[i]))
    && (forall i, j | 0 <= i < j < |rs| :: rs[i].id != rs[j].id)
  }

  ghost predicate MenusValid(ms: seq<DailyMenu>, nextId: nat) {
    && (forall i | 0 <= i < |ms| :: ms[i].id < nextId && ValidMenu(ms[i]))
    && (forall i, j | 0 <= i < j < |ms| :: ms[i].id != ms[j].id)
  }

  /** Menu items are valid and both their own id and their menu's id were handed out already. */
  ghost predicate MenuItemsValid(ms: seq<MenuItem>, nextId: nat) {
    forall x | x in ms :: x.id < nextId && x.dailyMenuId < nextId && ValidMenuItem(x)
  }

  /** Fresh, distinct ids and at most one order per user and menu. */
  ghost predicate OrdersValid(os: seq<Order>, nextId: nat) {
    && (forall i | 0 <= i < |os| :: os[i].id < nextId)
    && DistinctOrderIds(os)
    && OrdersUnique(os)
  }

  /** Order items are valid and both their own id and their order's id were handed out already. */
  ghost predicate OrderItemsValid(items: seq<OrderItem>, nextId: nat) {
    forall x | x in items :: x.id < nextId && x.orderId < nextId && ValidOrderItem(x)
  }

  /** Replacing a menu by one with the same id that is still valid keeps the table valid. */
  lemma MenusUpdate(ms: seq<DailyMenu>, k: nat, m: DailyMenu, nextId: nat)
    requires MenusValid(ms, nextId) && k < |ms|
    requires m.id == ms[k].id && ValidMenu(m)
    ensures MenusValid(ms[k := m], nextId)
  {
  }

  lemma OrdersAppend(os: seq<Order>, o: Order, nextId: nat)
    requires OrdersValid(os, nextId) && o.id < nextId
    requires forall x | x in os :: x.id != o.id
    requires forall x | x in os :: x.userId != o.userId || x.dailyMenuId != o.dailyMenuId
    ensures OrdersValid(os + [o], nextId)
  {
    var os' := os + [o];
    forall i, j | 0 <= i < j < |os'|
      ensures os'[i].id != os'[j].id
      ensures os'[i].userId != os'[j].userId || os'[i].dailyMenuId != os'[j].dailyMenuId
    {
      if j == |os| { assert os'[i] in os; }
    }
  }

  lemma OrdersUpdate(os: seq<Order>, k: nat, o: Order, nextId: nat)
    requires OrdersValid(os, nextId) && k < |os|
    requires o.id == os[k].id && o.userId == os[k].userId && o.dailyMenuId == os[k].dailyMenuId
    ensures OrdersValid(os[k := o], nextId)
  {
  }

  lemma UsersAppend(us: seq<User>, u: User, nextId: nat)
    requires UsersValid(us, nextId) && u.id < nextId && ValidUser(u)
    requires forall x | x in us :: x.id != u.id && x.email != u.email
    ensures UsersValid(us + [u], nextId)
  {
    var us' := us + [u];
    forall i, j | 0 <= i < j < |us'| ensures us'[i].id != us'[j].id && us'[i].email != us'[j].email {
      if j == |us| { assert us'[i] in us; }
    }
  }

  lemma MealPackagesAppend(ps: seq<MealPackage>, p: MealPackage, nextId: nat)
    requires MealPackagesValid(ps, nextId) && p.id < nextId && ValidMealPackage(p)
    requires forall x | x in ps :: x.id != p.id
    ensures MealPackagesValid(ps + [p], nextId)
  {
    var ps' := ps + [p];
    forall i, j | 0 <= i < j < |ps'| ensures ps'[i].id != ps'[j].id {
      if j == |ps| { assert ps'[i] in ps; }
    }
  }

  lemma MealPackagesRemove(ps: seq<MealPackage>, k: nat, nextId: nat)
    requires MealPackagesValid(ps, nextId) && k < |ps|
    ensures MealPackagesValid(ps[..k] + ps[k + 1..], nextId)
  {
    var ps' := ps[..k] + ps[k + 1..];
    forall i | 0 <= i < |ps'| ensures ps'[i] == ps[if i < k then i else i + 1] {
    }
  }

  lemma UserPackagesAppend(ps: seq<UserPackage>, p: UserPackage, nextId: nat)
    requires UserPackagesValid(ps, nextId) && p.id < nextId
    requires forall x | x in ps :: x.id != p.id
    ensures UserPackagesValid(ps + [p], nextId)
  {
    var ps' := ps + [p];
    forall i, j | 0 <= i < j < |ps'| ensures ps'[i].id != ps'[j].id {
      if j == |ps| { assert ps'[i] in ps; }
    }
  }

  lemma RequestsAppend(rs: seq<PurchaseRequest>, q: PurchaseRequest, nextId: nat)
    requires RequestsValid(rs, nextId) && q.id < nextId && ConsistentRequest(q)
    requires forall x | x in rs :: x.id != q.id
    ensures RequestsValid(rs + [q], nextId)
  {
    var rs' := rs + [q];
    forall i, j | 0 <= i < j < |rs'| ensures rs'[i].id != rs'[j].id {
      if j == |rs| { assert rs'[i] in rs; }
    }
  }

  lemma UserPackagesUpdate(ps: seq<UserPackage>, k: nat, p: UserPackage, nextId: nat)
    requires UserPackagesValid(ps, nextId) && k < |ps| && p.id == ps[k].id
    ensures UserPackagesValid(ps[k := p], nextId)
  {
  }
}
