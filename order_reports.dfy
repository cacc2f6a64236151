/**
 * The administrator's order reports of one menu: `getOrdersByDate` (the menu of a day, its
 * orders and the per-dish summary sorted by count) and `getCopyText` (the text an
 * administrator pastes to the kitchen: the meal totals, then one paragraph per order with
 * items, grouped into the rice and no-rice sections, and the unsorted per-dish summary).
 * Both walk the menu's orders and their populated items; a populated `menuItemId` is null
 * once the menu item it named has been deleted (a menu update rebuilds the menu's items).
 */
module OrderReports {
  import opened Wrappers
  import opened Types
  import opened Errors
  import opened Records
  import Seqs
  import Text
  import Tally
  import DailyMenus
  import ErrorHandler
  import Store

  // ---------------------------------------------------------------- what both reports read

  /** `Order.find({ dailyMenuId })`: the menu's orders, in natural order. */
  function OrdersOfMenu(orders: seq<Order>, menuId: nat): (r: seq<Order>)
    ensures forall o | o in r :: o in orders && o.dailyMenuId == menuId
    ensures forall o | o in orders && o.dailyMenuId == menuId :: o in r
  {
    Seqs.Filter(orders, (o: Order) => o.dailyMenuId == menuId)
  }

  /** The populated `menuItemId`: the menu item it names, or null once that item is gone. */
  function MenuItemOf(menuItems: seq<MenuItem>, id: nat): (r: Option<MenuItem>)
    ensures r.Some? ==> r.value in menuItems && r.value.id == id
    ensures r.None? <==> forall m | m in menuItems :: m.id != id
  {
    match Seqs.FindFirst(menuItems, (m: MenuItem) => m.id == id)
    case None => None
    case Some(k) => Some(menuItems[k])
  }

  /** The populated `orderItems` of some orders, order after order. */
  function ItemsOfOrders(orders: seq<Order>, orderItems: seq<OrderItem>): seq<OrderItem> {
    if orders == [] then []
    else ItemsOfOrders(orders[..|orders| - 1], orderItems) + ItemsOfOrder(orderItems, orders[|orders| - 1].id)
  }

  /** The summary line of one order item, when its menu item still exists. */
  function LineOf(x: OrderItem, menuItems: seq<MenuItem>): seq<Tally.Line> {
    match MenuItemOf(menuItems, x.menuItemId)
    case None => []
    case Some(m) => [Tally.Line(m.id, m.name, x.quantity)]
  }

  /** The summary lines of some order items: the items whose menu item is gone are skipped. */
  function Resolved(items: seq<OrderItem>, menuItems: seq<MenuItem>): seq<Tally.Line> {
    if items == [] then []
    else Resolved(items[..|items| - 1], menuItems) + LineOf(items[|items| - 1], menuItems)
  }

  /** Each line names an existing menu item, and there is at most one line per item. */
  lemma {:induction false} ResolvedLines(items: seq<OrderItem>, menuItems: seq<MenuItem>)
    ensures |Resolved(items, menuItems)| <= |items|
    ensures forall l | l in Resolved(items, menuItems) :: exists m | m in menuItems :: m.id == l.itemId && m.name == l.name
  {
    if items != [] {
      ResolvedLines(items[..|items| - 1], menuItems);
    }
  }

  /** When every menu item still exists, the lines are the items, one for one and in order. */
  lemma {:induction false} ResolvedComplete(items: seq<OrderItem>, menuItems: seq<MenuItem>)
    requires forall i | 0 <= i < |items| :: MenuItemOf(menuItems, items[i].menuItemId).Some?
    ensures |Resolved(items, menuItems)| == |items|
    ensures forall i | 0 <= i < |items| :: Resolved(items, menuItems)[i] == Completed(items[i], menuItems)
  {
    if items != [] {
      var init, x := items[..|items| - 1], items[|items| - 1];
      ResolvedComplete(init, menuItems);
      assert LineOf(x, menuItems) == [Completed(x, menuItems)];
      var r, ri := Resolved(items, menuItems), Resolved(init, menuItems);
      forall i | 0 <= i < |items| ensures r[i] == Completed(items[i], menuItems) {
        if i < |init| {
          assert r[i] == ri[i] && items[i] == init[i];
        }
      }
    }
  }

  /** The line of an item whose menu item exists. */
  function Completed(x: OrderItem, menuItems: seq<MenuItem>): Tally.Line
    requires MenuItemOf(menuItems, x.menuItemId).Some?
  {
    Tally.Line(x.menuItemId, MenuItemOf(menuItems, x.menuItemId).value.name, x.quantity)
  }

  lemma ResolvedSnoc(seen: seq<OrderItem>, x: OrderItem, menuItems: seq<MenuItem>)
    ensures Resolved(seen + [x], menuItems) == Resolved(seen, menuItems) + LineOf(x, menuItems)
  {
    assert (seen + [x])[..|seen|] == seen;
  }

  lemma {:induction false} ResolvedAppend(a: seq<OrderItem>, b: seq<OrderItem>, menuItems: seq<MenuItem>)
    ensures Resolved(a + b, menuItems) == Resolved(a, menuItems) + Resolved(b, menuItems)
    decreases |b|
  {
    if b == [] {
      assert a + b == a;
    } else {
      var init, x := b[..|b| - 1], b[|b| - 1];
      ResolvedAppend(a, init, menuItems);
      ResolvedSnoc(a + init, x, menuItems);
      ResolvedSnoc(init, x, menuItems);
      assert init + [x] == b;
      Seqs.AppendAssoc(a, init, [x]);
      Seqs.AppendAssoc(Resolved(a, menuItems), Resolved(init, menuItems), LineOf(x, menuItems));
    }
  }

  /** The per-dish summary both reports build from the items of the menu's orders. */
  function SummaryOf(orders: seq<Order>, orderItems: seq<OrderItem>, menuItems: seq<MenuItem>): seq<Tally.Entry> {
    Tally.TallyOf(Resolved(ItemsOfOrders(orders, orderItems), menuItems))
  }

  /** One item added to the summary: the loop body both reports share. */
  method CountItem(summary: seq<Tally.Entry>, x: OrderItem, menuItems: seq<MenuItem>, ghost seen: seq<OrderItem>)
    returns (summary': seq<Tally.Entry>)
    requires summary == Tally.TallyOf(Resolved(seen, menuItems))
    ensures summary' == Tally.TallyOf(Resolved(seen + [x], menuItems))
  {
    ResolvedSnoc(seen, x, menuItems);
    var m := MenuItemOf(menuItems, x.menuItemId);
    if m.None? {
      assert Resolved(seen + [x], menuItems) == Resolved(seen, menuItems) + [];
      assert Resolved(seen, menuItems) + [] == Resolved(seen, menuItems);
      summary' := summary;
    } else {
      var l := Tally.Line(m.value.id, m.value.name, x.quantity);
      assert LineOf(x, menuItems) == [l];
      summary' := Tally.Count(summary, l);
      TallySnoc(Resolved(seen, menuItems), l);
      assert Resolved(seen + [x], menuItems) == Resolved(seen, menuItems) + [l];
    }
  }

  lemma TallySnoc(lines: seq<Tally.Line>, l: Tally.Line)
    ensures Tally.TallyOf(lines + [l]) == Tally.Add(Tally.TallyOf(lines), l)
  {
    assert (lines + [l])[..|lines|] == lines;
  }

  // ---------------------------------------------------------------- getOrdersByDate

  /** The response data of `getOrdersByDate`. */
  datatype Report = Report(menu: Option<DailyMenu>, orders: seq<Order>, summary: seq<Tally.Entry>)

  /**
   * `getOrdersByDate` for the instant `date` the path's `YYYY-MM-DD` denotes: the first menu
   * of that local day, none meaning an empty report; otherwise the menu's orders and the
   * per-dish summary sorted by count, the items whose menu item is gone being skipped.
   */
  method OrdersByDate(db: Store.Db, date: int, hostOffset: int) returns (r: Report)
    ensures r.menu == DailyMenus.MenuOfDay(db.menus, date, hostOffset)
    ensures r.menu.None? ==> r.orders == [] && r.summary == []
    ensures r.menu.Some? ==>
      && r.orders == OrdersOfMenu(db.orders, r.menu.value.id)
      && r.summary == Tally.ByCountDesc(SummaryOf(r.orders, db.orderItems, db.menuItems))
  {
    var menu := DailyMenus.MenuOfDay(db.menus, date, hostOffset);
    if menu.None? {
      return Report(None, [], []);
    }
    var orders := OrdersOfMenu(db.orders, menu.value.id);
    var summary := Summarize(orders, db.orderItems, db.menuItems);
    r := Report(menu, orders, Tally.ByCountDesc(summary));
  }

  /** The nested loop over the orders and their items that fills `itemSummary`. */
  method Summarize(orders: seq<Order>, orderItems: seq<OrderItem>, menuItems: seq<MenuItem>) returns (summary: seq<Tally.Entry>)
    ensures summary == SummaryOf(orders, orderItems, menuItems)
  {
    summary := [];
    for i := 0 to |orders|
      invariant summary == SummaryOf(orders[..i], orderItems, menuItems)
    {
      assert orders[..i + 1][..i] == orders[..i];
      summary := SummarizeOrder(summary, ItemsOfOrder(orderItems, orders[i].id), menuItems, ItemsOfOrders(orders[..i], orderItems));
    }
    assert orders[..|orders|] == orders;
  }

  /** The inner loop: the items of one order. */
  method SummarizeOrder(summary: seq<Tally.Entry>, items: seq<OrderItem>, menuItems: seq<MenuItem>, ghost seen: seq<OrderItem>)
    returns (summary': seq<Tally.Entry>)
    requires summary == Tally.TallyOf(Resolved(seen, menuItems))
    ensures summary' == Tally.TallyOf(Resolved(seen + items, menuItems))
  {
    summary' := summary;
    assert seen + items[..0] == seen;
    for j := 0 to |items|
      invariant summary' == Tally.TallyOf(Resolved(seen + items[..j], menuItems))
    {
      PrefixStep(seen, items, j);
      summary' := CountItem(summary', items[j], menuItems, seen + items[..j]);
    }
    assert items[..|items|] == items;
  }

  lemma PrefixStep<T>(seen: seq<T>, items: seq<T>, j: nat)
    requires j < |items|
    ensures seen + items[..j] + [items[j]] == seen + items[..j + 1]
  {
    assert items[..j + 1] == items[..j] + [items[j]];
  }

  /**
   * The summary of a report: one entry per dish that has a line, with the sum of its lines'
   * quantities, sorted by count, non-increasing.
   */
  lemma ReportSummary(orders: seq<Order>, orderItems: seq<OrderItem>, menuItems: seq<MenuItem>)
    ensures var lines := Resolved(ItemsOfOrders(orders, orderItems), menuItems);
      var s := Tally.ByCountDesc(SummaryOf(orders, orderItems, menuItems));
      && (forall i, j | 0 <= i < j < |s| :: s[i].count >= s[j].count)
      && (forall e | e in s :: e.count == Tally.Total(lines, e.itemId))
      && (set e | e in s :: e.itemId) == Tally.ItemIds(lines)
  {
    Tally.Ranked(Resolved(ItemsOfOrders(orders, orderItems), menuItems));
  }

  // ---------------------------------------------------------------- the report as written

  /** What reading `_id` of a null populated menu item throws. */
  const NullMenuItem: Thrown := Other("TypeError", "Cannot read properties of null (reading '_id')")

  /** The summary lines as `getOrdersByDate` is written to read them: the first missing menu item throws. */
  function LinesAsWritten(items: seq<OrderItem>, menuItems: seq<MenuItem>): (r: Result<seq<Tally.Line>>)
  {
    if items == [] then Ok([])
    else
      match MenuItemOf(menuItems, items[0].menuItemId)
      case None => Err(NullMenuItem)
      case Some(m) =>
        match LinesAsWritten(items[1..], menuItems)
        case Err(t) => Err(t)
        case Ok(rest) => Ok([Tally.Line(m.id, m.name, items[0].quantity)] + rest)
  }

  /**
   * The loop as written agrees with the corrected one exactly when every ordered menu item
   * still exists; one deleted menu item makes the whole report a 500 response.
   */
  lemma {:induction false} LinesAsWrittenAgree(items: seq<OrderItem>, menuItems: seq<MenuItem>)
    ensures LinesAsWritten(items, menuItems).Ok? <==> forall x | x in items :: MenuItemOf(menuItems, x.menuItemId).Some?
    ensures LinesAsWritten(items, menuItems).Ok? ==> LinesAsWritten(items, menuItems).value == Resolved(items, menuItems)
    ensures LinesAsWritten(items, menuItems).Err? ==>
      LinesAsWritten(items, menuItems).thrown == NullMenuItem && ErrorHandler.Handle(NullMenuItem).status == 500
  {
    if items != [] {
      LinesAsWrittenAgree(items[1..], menuItems);
      ResolvedCons(items, menuItems);
      assert (forall x | x in items :: MenuItemOf(menuItems, x.menuItemId).Some?) <==>
        MenuItemOf(menuItems, items[0].menuItemId).Some? && forall x | x in items[1..] :: MenuItemOf(menuItems, x.menuItemId).Some?
      by {
        assert forall x | x in items :: x == items[0] || x in items[1..];
      }
    }
  }

  /** The lines of a non-empty list of items: the first item's line, then the others'. */
  lemma ResolvedCons(items: seq<OrderItem>, menuItems: seq<MenuItem>)
    requires items != []
    ensures Resolved(items, menuItems) == LineOf(items[0], menuItems) + Resolved(items[1..], menuItems)
  {
    assert items == [items[0]] + items[1..];
    ResolvedAppend([items[0]], items[1..], menuItems);
    ResolvedSingle(items[0], menuItems);
  }

  lemma ResolvedSingle(x: OrderItem, menuItems: seq<MenuItem>)
    ensures Resolved([x], menuItems) == LineOf(x, menuItems)
  {
    assert [x][..0] == [];
    assert Resolved([x], menuItems) == [] + LineOf(x, menuItems);
  }

  /**
   * The menu is updated after an order was placed: its items are rebuilt with new ids, so
   * the stored order item names a menu item that no longer exists. The report as written
   * then throws, while skipping the item (as `getCopyText` does) reports the other dishes.
   */
  lemma RebuiltMenuBreaksReport()
    ensures var o := Order(1, 2, 3, 4, Normal, false, 0);
      var items := [OrderItem(5, 1, 6, 1, ""), OrderItem(7, 1, 8, 1, "")];
      var menuItems := [MenuItem(8, 3, "Canh chua", Daily)];
      && LinesAsWritten(ItemsOfOrders([o], items), menuItems) == Err(NullMenuItem)
      && Resolved(ItemsOfOrders([o], items), menuItems) == [Tally.Line(8, "Canh chua", 1)]
  {
    var o := Order(1, 2, 3, 4, Normal, false, 0);
    var items := [OrderItem(5, 1, 6, 1, ""), OrderItem(7, 1, 8, 1, "")];
    var menuItems := [MenuItem(8, 3, "Canh chua", Daily)];
    assert [o][..0] == [];
    assert ItemsOfOrder(items, 1) == items by {
      Seqs.FilterAll(items, (x: OrderItem) => x.orderId == 1);
    }
    assert ItemsOfOrders([o], items) == items;
    assert MenuItemOf(menuItems, 6).None?;
    assert MenuItemOf(menuItems, 8) == Some(menuItems[0]);
    RebuiltMenuLines(items, menuItems);
  }

  /** The two items of the example: the first names a dish gone with the rebuild, the second one kept. */
  lemma RebuiltMenuLines(items: seq<OrderItem>, menuItems: seq<MenuItem>)
    requires |items| == 2 && items[1].quantity == 1
    requires MenuItemOf(menuItems, items[0].menuItemId).None?
    requires MenuItemOf(menuItems, items[1].menuItemId) == Some(MenuItem(8, 3, "Canh chua", Daily))
    ensures LinesAsWritten(items, menuItems) == Err(NullMenuItem)
    ensures Resolved(items, menuItems) == [Tally.Line(8, "Canh chua", 1)]
  {
    assert items[..1] == [items[0]] && [items[0]][..0] == [];
    ResolvedSingle(items[0], menuItems);
    assert Resolved(items, menuItems) == Resolved([items[0]], menuItems) + LineOf(items[1], menuItems);
    assert LineOf(items[1], menuItems) == [Tally.Line(8, "Canh chua", 1)];
  }

  // ---------------------------------------------------------------- getCopyText

  /** `user?.name || "Khách"`: the populated user's name, or "Khách" when there is none. */
  function CustomerName(users: seq<User>, userId: nat): (r: string)
    ensures r != []
  {
    match Seqs.FindFirst(users, (u: User) => u.id == userId)
    case None => "Khách"
    case Some(k) => if users[k].name == [] then "Khách" else users[k].name
  }

  /** One detail line: `  - <dish>`, followed by ` (<note>)` when the trimmed note is not empty. */
  function ItemText(name: string, note: string): string {
    "  - " + name + (if Text.Trim(note) != [] then " (" + Text.Trim(note) + ")" else [])
  }

  /** The detail lines of an order's items; an item whose menu item is gone is skipped. */
  function ItemLines(items: seq<OrderItem>, menuItems: seq<MenuItem>): seq<string> {
    if items == [] then []
    else
      var x := items[|items| - 1];
      ItemLines(items[..|items| - 1], menuItems)
      + match MenuItemOf(menuItems, x.menuItemId)
        case None => []
        case Some(m) => [ItemText(m.name, x.note)]
  }

  /** The paragraph of one order: the customer, then one line per dish. */
  function OrderText(o: Order, users: seq<User>, orderItems: seq<OrderItem>, menuItems: seq<MenuItem>): string {
    Paragraph(CustomerName(users, o.userId), ItemLines(ItemsOfOrder(orderItems, o.id), menuItems))
  }

  function Paragraph(customer: string, lines: seq<string>): string {
    "📍 " + customer + ":\n" + Text.Join(lines, '\n')
  }

  /** The orders a section lists: those of its type that have items. */
  predicate Listed(o: Order, t: PackageType, orderItems: seq<OrderItem>) {
    o.orderType == t && ItemsOfOrder(orderItems, o.id) != []
  }

  /** The paragraphs of one section, in the order of the orders. */
  function Details(orders: seq<Order>, t: PackageType, users: seq<User>, orderItems: seq<OrderItem>, menuItems: seq<MenuItem>): seq<string> {
    if orders == [] then []
    else
      var o := orders[|orders| - 1];
      Details(orders[..|orders| - 1], t, users, orderItems, menuItems)
      + (if Listed(o, t, orderItems) then [OrderText(o, users, orderItems, menuItems)] else [])
  }

  /** A section holds exactly the paragraphs of the orders it lists. */
  lemma {:induction false} DetailsListed(orders: seq<Order>, t: PackageType, users: seq<User>, orderItems: seq<OrderItem>, menuItems: seq<MenuItem>)
    ensures forall s :: s in Details(orders, t, users, orderItems, menuItems) <==>
      exists o | o in orders :: Listed(o, t, orderItems) && s == OrderText(o, users, orderItems, menuItems)
  {
    if orders != [] {
      var init := orders[..|orders| - 1];
      DetailsListed(init, t, users, orderItems, menuItems);
      assert orders == init + [orders[|orders| - 1]];
    }
  }

  /** The orders of one type. */
  function OfType(orders: seq<Order>, t: PackageType): seq<Order> {
    Seqs.Filter(orders, (o: Order) => o.orderType == t)
  }

  /** The meals of one type: one per item of an order of that type. */
  function Meals(orders: seq<Order>, t: PackageType, orderItems: seq<OrderItem>): nat {
    |ItemsOfOrders(OfType(orders, t), orderItems)|
  }

  const NormalHeading: string := "🍚 ĐƠN CÓ CƠM:"
  const NoRiceHeading: string := "🥢 ĐƠN KHÔNG CƠM:"

  /** The first line: the meals of all orders and the number of orders. */
  function TotalsLine(meals: nat, people: nat): string {
    "📋 TỔNG HỢP: " + Text.NatToString(meals) + " phần (" + Text.NatToString(people) + " người)"
  }

  /** The four opening lines: the meal total and the number of orders, each type's meals, a blank line. */
  function Header(normalMeals: nat, noRiceMeals: nat, people: nat): (h: seq<string>)
    ensures |h| == 4 && h[3] == []
    ensures h[0] == TotalsLine(normalMeals + noRiceMeals, people)
    ensures h[0] != [] && h[0][0] == '📋' && h[1] != [] && h[1][0] == ' ' && h[2] != [] && h[2][0] == ' '
  {
    [ TotalsLine(normalMeals + noRiceMeals, people),
      "   🍚 Có cơm: " + Text.NatToString(normalMeals) + " phần",
      "   🥢 Không cơm: " + Text.NatToString(noRiceMeals) + " phần",
      "" ]
  }

  /** The lines of the copied text: the totals, then each section that has a paragraph. */
  function CopyParts(normalMeals: nat, noRiceMeals: nat, people: nat, normal: seq<string>, noRice: seq<string>): seq<string> {
    Layout(Header(normalMeals, noRiceMeals, people), normal, noRice, NormalHeading, NoRiceHeading)
  }

  /** The header, then each non-empty section under its heading; the first section ends with a blank line. */
  function Layout(header: seq<string>, first: seq<string>, second: seq<string>, firstHeading: string, secondHeading: string): seq<string> {
    var withFirst := if first != [] then header + [firstHeading] + first + [""] else header;
    if second != [] then withFirst + [secondHeading] + second else withFirst
  }

  /** What the loop over the orders accumulates. */
  datatype Tallies = Tallies(normal: seq<string>, noRice: seq<string>, normalMeals: nat, noRiceMeals: nat, summary: seq<Tally.Entry>)

  function TalliesOf(orders: seq<Order>, users: seq<User>, orderItems: seq<OrderItem>, menuItems: seq<MenuItem>): Tallies {
    Tallies(
      Details(orders, Normal, users, orderItems, menuItems), Details(orders, NoRice, users, orderItems, menuItems),
      Meals(orders, Normal, orderItems), Meals(orders, NoRice, orderItems),
      SummaryOf(orders, orderItems, menuItems))
  }

  /** The lines of the text for the menu's `orders`. */
  function PartsOf(orders: seq<Order>, users: seq<User>, orderItems: seq<OrderItem>, menuItems: seq<MenuItem>): seq<string> {
    var t := TalliesOf(orders, users, orderItems, menuItems);
    CopyParts(t.normalMeals, t.noRiceMeals, |orders|, t.normal, t.noRice)
  }

  /** The response data of `getCopyText`. */
  datatype Copy = Copy(copyText: string, summary: seq<Tally.Entry>, totalMeals: nat, totalNormalMeals: nat, totalNoRiceMeals: nat, totalOrders: nat)

  /** The copy of the menu's `orders`. */
  function CopyOf(orders: seq<Order>, users: seq<User>, orderItems: seq<OrderItem>, menuItems: seq<MenuItem>): Copy {
    var t := TalliesOf(orders, users, orderItems, menuItems);
    Copy(Text.Join(PartsOf(orders, users, orderItems, menuItems), '\n'), t.summary,
         t.normalMeals + t.noRiceMeals, t.normalMeals, t.noRiceMeals, |orders|)
  }

  /** `getCopyText`: the menu id is not looked up; an unknown menu has no orders. */
  method CopyText(db: Store.Db, menuId: nat) returns (r: Copy)
    ensures r == CopyOf(OrdersOfMenu(db.orders, menuId), db.users, db.orderItems, db.menuItems)
  {
    var orders := OrdersOfMenu(db.orders, menuId);
    var t := DescribeOrders(orders, db.users, db.orderItems, db.menuItems);
    var parts := Assemble(t, |orders|);
    r := Copy(Text.Join(parts, '\n'), t.summary, t.normalMeals + t.noRiceMeals, t.normalMeals, t.noRiceMeals, |orders|);
  }

  /** `copyTextParts`: the totals, then each section that has a paragraph. */
  method Assemble(t: Tallies, people: nat) returns (parts: seq<string>)
    ensures parts == CopyParts(t.normalMeals, t.noRiceMeals, people, t.normal, t.noRice)
  {
    parts := Header(t.normalMeals, t.noRiceMeals, people);
    if |t.normal| > 0 {
      parts := parts + [NormalHeading];
      parts := parts + t.normal;
      parts := parts + [""];
    }
    if |t.noRice| > 0 {
      parts := parts + [NoRiceHeading];
      parts := parts + t.noRice;
    }
  }

  /** The loop over the orders. */
  method DescribeOrders(orders: seq<Order>, users: seq<User>, orderItems: seq<OrderItem>, menuItems: seq<MenuItem>) returns (t: Tallies)
    ensures t == TalliesOf(orders, users, orderItems, menuItems)
  {
    t := Tallies([], [], 0, 0, []);
    for i := 0 to |orders|
      invariant t == TalliesOf(orders[..i], users, orderItems, menuItems)
    {
      Seqs.TakeSnoc(orders, i);
      t := DescribeOrder(t, orders[i], users, orderItems, menuItems, orders[..i]);
    }
    assert orders[..|orders|] == orders;
  }

  /** One order: skipped without items; otherwise its meals are counted and its paragraph written. */
  method DescribeOrder(t: Tallies, o: Order, users: seq<User>, orderItems: seq<OrderItem>, menuItems: seq<MenuItem>, ghost done: seq<Order>)
    returns (t': Tallies)
    requires t == TalliesOf(done, users, orderItems, menuItems)
    ensures t' == TalliesOf(done + [o], users, orderItems, menuItems)
  {
    var items := ItemsOfOrder(orderItems, o.id);
    if |items| == 0 {
      TalliesSnoc(done, o, users, orderItems, menuItems);
      assert ItemsOfOrders(done, orderItems) + items == ItemsOfOrders(done, orderItems);
      return t;
    }
    t' := DescribeListed(t, o, items, users, orderItems, menuItems, done);
  }

  /** An order with items: its meals, its paragraph in its type's section, its dishes in the summary. */
  method DescribeListed(t: Tallies, o: Order, items: seq<OrderItem>, users: seq<User>, orderItems: seq<OrderItem>, menuItems: seq<MenuItem>, ghost done: seq<Order>)
    returns (t': Tallies)
    requires t == TalliesOf(done, users, orderItems, menuItems)
    requires items == ItemsOfOrder(orderItems, o.id) && items != []
    ensures t' == TalliesOf(done + [o], users, orderItems, menuItems)
  {
    TalliesListed(done, o, users, orderItems, menuItems);
    var summary, lines := DescribeItems(t.summary, items, menuItems, ItemsOfOrders(done, orderItems));
    var text := Paragraph(CustomerName(users, o.userId), lines);
    if o.orderType == NoRice {
      t' := Tallies(t.normal, t.noRice + [text], t.normalMeals, t.noRiceMeals + |items|, summary);
    } else {
      t' := Tallies(t.normal + [text], t.noRice, t.normalMeals + |items|, t.noRiceMeals, summary);
    }
  }

  /** One more order with items: its paragraph and meals go to its type's section, its dishes to the summary. */
  lemma TalliesListed(done: seq<Order>, o: Order, users: seq<User>, orderItems: seq<OrderItem>, menuItems: seq<MenuItem>)
    requires ItemsOfOrder(orderItems, o.id) != []
    ensures var t := TalliesOf(done, users, orderItems, menuItems);
      var items := ItemsOfOrder(orderItems, o.id);
      var text := OrderText(o, users, orderItems, menuItems);
      var summary := Tally.TallyOf(Resolved(ItemsOfOrders(done, orderItems) + items, menuItems));
      TalliesOf(done + [o], users, orderItems, menuItems)
      == if o.orderType == NoRice then Tallies(t.normal, t.noRice + [text], t.normalMeals, t.noRiceMeals + |items|, summary)
         else Tallies(t.normal + [text], t.noRice, t.normalMeals + |items|, t.noRiceMeals, summary)
  {
    TalliesSnoc(done, o, users, orderItems, menuItems);
  }

  /** The inner loop: the summary and the detail lines of one order's items. */
  method DescribeItems(summary: seq<Tally.Entry>, items: seq<OrderItem>, menuItems: seq<MenuItem>, ghost seen: seq<OrderItem>)
    returns (summary': seq<Tally.Entry>, lines: seq<string>)
    requires summary == Tally.TallyOf(Resolved(seen, menuItems))
    ensures summary' == Tally.TallyOf(Resolved(seen + items, menuItems))
    ensures lines == ItemLines(items, menuItems)
  {
    summary', lines := summary, [];
    assert seen + items[..0] == seen;
    for j := 0 to |items|
      invariant summary' == Tally.TallyOf(Resolved(seen + items[..j], menuItems))
      invariant lines == ItemLines(items[..j], menuItems)
    {
      summary', lines := DescribeItem(summary', lines, items, j, menuItems, seen);
    }
    assert items[..|items|] == items;
  }

  /** One turn of the inner loop: item `j` goes into the summary and, when its dish is known, gets a line. */
  method DescribeItem(summary: seq<Tally.Entry>, lines: seq<string>, items: seq<OrderItem>, j: nat, menuItems: seq<MenuItem>, ghost seen: seq<OrderItem>)
    returns (summary': seq<Tally.Entry>, lines': seq<string>)
    requires j < |items|
    requires summary == Tally.TallyOf(Resolved(seen + items[..j], menuItems))
    requires lines == ItemLines(items[..j], menuItems)
    ensures summary' == Tally.TallyOf(Resolved(seen + items[..j + 1], menuItems))
    ensures lines' == ItemLines(items[..j + 1], menuItems)
  {
    PrefixStep(seen, items, j);
    assert items[..j + 1][..j] == items[..j];
    var m := MenuItemOf(menuItems, items[j].menuItemId);
    summary' := CountItem(summary, items[j], menuItems, seen + items[..j]);
    lines' := lines;
    if m.Some? {
      lines' := lines + [ItemText(m.value.name, items[j].note)];
    }
  }

  /** What one more order adds to each accumulated value. */
  lemma TalliesSnoc(done: seq<Order>, o: Order, users: seq<User>, orderItems: seq<OrderItem>, menuItems: seq<MenuItem>)
    ensures var t, t' := TalliesOf(done, users, orderItems, menuItems), TalliesOf(done + [o], users, orderItems, menuItems);
      var items := ItemsOfOrder(orderItems, o.id);
      var text := OrderText(o, users, orderItems, menuItems);
      && t'.normal == t.normal + (if Listed(o, Normal, orderItems) then [text] else [])
      && t'.noRice == t.noRice + (if Listed(o, NoRice, orderItems) then [text] else [])
      && t'.normalMeals == t.normalMeals + (if o.orderType == Normal then |items| else 0)
      && t'.noRiceMeals == t.noRiceMeals + (if o.orderType == NoRice then |items| else 0)
      && t'.summary == Tally.TallyOf(Resolved(ItemsOfOrders(done, orderItems) + items, menuItems))
  {
    MealsSnoc(done, o, Normal, orderItems);
    MealsSnoc(done, o, NoRice, orderItems);
    assert (done + [o])[..|done|] == done;
  }

  lemma MealsSnoc(done: seq<Order>, o: Order, t: PackageType, orderItems: seq<OrderItem>)
    ensures Meals(done + [o], t, orderItems) == Meals(done, t, orderItems) + (if o.orderType == t then |ItemsOfOrder(orderItems, o.id)| else 0)
  {
    var p := (o: Order) => o.orderType == t;
    Seqs.FilterAppend(done, [o], p);
    assert Seqs.Filter([o], p) == if p(o) then [o] else [];
    var before := OfType(done, t);
    if p(o) {
      assert (before + [o])[..|before|] == before;
    } else {
      assert before + [] == before;
    }
  }

  /** Every item of the menu's orders is one meal, counted in the section of its order's type. */
  lemma {:induction false} MealsSplit(orders: seq<Order>, orderItems: seq<OrderItem>)
    ensures Meals(orders, Normal, orderItems) + Meals(orders, NoRice, orderItems) == |ItemsOfOrders(orders, orderItems)|
  {
    if orders == [] {
      assert OfType([], Normal) == [] && OfType([], NoRice) == [];
    } else {
      var init, o := orders[..|orders| - 1], orders[|orders| - 1];
      MealsSplit(init, orderItems);
      assert orders == init + [o];
      MealsSnoc(init, o, Normal, orderItems);
      MealsSnoc(init, o, NoRice, orderItems);
    }
  }

  /** A line that opens with a mark other than a section's is not a heading. */
  lemma NotAHeading(e: string)
    requires e == [] || e[0] == '📋' || e[0] == ' ' || e[0] == '📍'
    ensures e != NormalHeading && e != NoRiceHeading
  {
    assert NormalHeading[0] == '🍚' && NoRiceHeading[0] == '🥢';
  }

  /** A section's heading appears exactly when the section has a paragraph. */
  lemma HeadingsMarkSections(normalMeals: nat, noRiceMeals: nat, people: nat, normal: seq<string>, noRice: seq<string>)
    requires forall s | s in normal || s in noRice :: |s| > 0 && s[0] == '📍'
    ensures NormalHeading in CopyParts(normalMeals, noRiceMeals, people, normal, noRice) <==> normal != []
    ensures NoRiceHeading in CopyParts(normalMeals, noRiceMeals, people, normal, noRice) <==> noRice != []
  {
    HeaderHasNoHeading(normalMeals, noRiceMeals, people);
    ParagraphsAreNoHeadings(normal, noRice);
    HeadingsDiffer();
    LayoutMarks(Header(normalMeals, noRiceMeals, people), normal, noRice, NormalHeading, NoRiceHeading);
  }

  lemma HeadingsDiffer()
    ensures NormalHeading != NoRiceHeading && NormalHeading != [] && NoRiceHeading != []
  {
    assert NormalHeading[0] != NoRiceHeading[0];
  }

  lemma HeaderHasNoHeading(normalMeals: nat, noRiceMeals: nat, people: nat)
    ensures forall i | 0 <= i < |Header(normalMeals, noRiceMeals, people)| ::
      Header(normalMeals, noRiceMeals, people)[i] != NormalHeading && Header(normalMeals, noRiceMeals, people)[i] != NoRiceHeading
  {
    var header := Header(normalMeals, noRiceMeals, people);
    NotAHeading(header[0]);
    NotAHeading(header[1]);
    NotAHeading(header[2]);
    NotAHeading(header[3]);
  }

  lemma ParagraphsAreNoHeadings(normal: seq<string>, noRice: seq<string>)
    requires forall s | s in normal || s in noRice :: |s| > 0 && s[0] == '📍'
    ensures forall e | e in normal || e in noRice :: e != NormalHeading && e != NoRiceHeading
  {
    forall e | e in normal || e in noRice ensures e != NormalHeading && e != NoRiceHeading {
      NotAHeading(e);
    }
  }

  lemma LayoutMarks(header: seq<string>, first: seq<string>, second: seq<string>, h1: string, h2: string)
    requires h1 != h2 && h1 != [] && h2 != []
    requires forall i | 0 <= i < |header| :: header[i] != h1 && header[i] != h2
    requires forall e | e in first || e in second :: e != h1 && e != h2
    ensures h1 in Layout(header, first, second, h1, h2) <==> first != []
    ensures h2 in Layout(header, first, second, h1, h2) <==> second != []
  {
    var withFirst := if first != [] then header + [h1] + first + [""] else header;
    assert h2 !in withFirst;
    if first != [] {
      assert h1 in withFirst;
    } else {
      assert h1 !in withFirst;
    }
    if second != [] {
      assert h2 in withFirst + [h2] + second;
      assert h1 in withFirst + [h2] + second <==> h1 in withFirst;
    }
  }

  /**
   * Each section of the copied text is there exactly when some order of its type has
   * items; an order without items is in no section (but is counted in `totalOrders`).
   */
  lemma SectionsShown(orders: seq<Order>, users: seq<User>, orderItems: seq<OrderItem>, menuItems: seq<MenuItem>)
    ensures NormalHeading in PartsOf(orders, users, orderItems, menuItems) <==> exists o | o in orders :: Listed(o, Normal, orderItems)
    ensures NoRiceHeading in PartsOf(orders, users, orderItems, menuItems) <==> exists o | o in orders :: Listed(o, NoRice, orderItems)
  {
    var t := TalliesOf(orders, users, orderItems, menuItems);
    ParagraphsOpenWithPin(orders, Normal, users, orderItems, menuItems);
    ParagraphsOpenWithPin(orders, NoRice, users, orderItems, menuItems);
    HeadingsMarkSections(t.normalMeals, t.noRiceMeals, |orders|, t.normal, t.noRice);
    DetailsNonEmpty(orders, Normal, users, orderItems, menuItems);
    DetailsNonEmpty(orders, NoRice, users, orderItems, menuItems);
  }

  lemma ParagraphsOpenWithPin(orders: seq<Order>, t: PackageType, users: seq<User>, orderItems: seq<OrderItem>, menuItems: seq<MenuItem>)
    ensures forall s | s in Details(orders, t, users, orderItems, menuItems) :: |s| > 0 && s[0] == '📍'
  {
    DetailsListed(orders, t, users, orderItems, menuItems);
    forall s | s in Details(orders, t, users, orderItems, menuItems) ensures |s| > 0 && s[0] == '📍' {
      var o :| o in orders && s == OrderText(o, users, orderItems, menuItems);
    }
  }

  /** A section has a paragraph exactly when some order of its type has items. */
  lemma {:induction false} DetailsNonEmpty(orders: seq<Order>, t: PackageType, users: seq<User>, orderItems: seq<OrderItem>, menuItems: seq<MenuItem>)
    ensures Details(orders, t, users, orderItems, menuItems) != [] <==> exists o | o in orders :: Listed(o, t, orderItems)
  {
    if orders != [] {
      var init := orders[..|orders| - 1];
      DetailsNonEmpty(init, t, users, orderItems, menuItems);
      assert orders == init + [orders[|orders| - 1]];
    }
  }

  /** The copied text opens with the meal total and the number of orders, on a line of its own. */
  lemma CopyStartsWithTotals(orders: seq<Order>, users: seq<User>, orderItems: seq<OrderItem>, menuItems: seq<MenuItem>)
    ensures var c := CopyOf(orders, users, orderItems, menuItems);
      var first := TotalsLine(c.totalMeals, c.totalOrders);
      |first| < |c.copyText| && c.copyText[..|first| + 1] == first + "\n"
  {
    var t := TalliesOf(orders, users, orderItems, menuItems);
    var parts := PartsOf(orders, users, orderItems, menuItems);
    var header := Header(t.normalMeals, t.noRiceMeals, |orders|);
    assert parts == Layout(header, t.normal, t.noRice, NormalHeading, NoRiceHeading);
    LayoutOpensWithHeader(header, t.normal, t.noRice, NormalHeading, NoRiceHeading);
    JoinOpensWithFirst(parts, '\n');
    var c := CopyOf(orders, users, orderItems, menuItems);
    assert c.copyText == Text.Join(parts, '\n');
    assert parts[0] == TotalsLine(c.totalMeals, c.totalOrders);
    assert parts[0] + ['\n'] == parts[0] + "\n";
  }

  lemma LayoutOpensWithHeader(header: seq<string>, first: seq<string>, second: seq<string>, firstHeading: string, secondHeading: string)
    requires |header| > 1
    ensures var parts := Layout(header, first, second, firstHeading, secondHeading);
      |parts| > 1 && parts[0] == header[0]
  {
  }

  /** Joined parts open with the first part and the separator. */
  lemma JoinOpensWithFirst(parts: seq<string>, sep: char)
    requires |parts| > 1
    ensures |parts[0]| < |Text.Join(parts, sep)|
    ensures Text.Join(parts, sep)[..|parts[0]| + 1] == parts[0] + [sep]
  {
    var rest := Text.Join(parts[1..], sep);
    assert Text.Join(parts, sep) == parts[0] + [sep] + rest;
    assert (parts[0] + [sep] + rest)[..|parts[0]| + 1] == parts[0] + [sep];
  }
}
