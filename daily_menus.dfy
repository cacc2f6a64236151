/**
 * The daily-menu controller: listing, today's menus with their `canOrder` flag, creation
 * from raw text, partial update and the lock switch. Several menus may share a day; the
 * host-local day of an instant decides which menus are "today's".
 */
module DailyMenus {
  import opened Wrappers
  import opened Types
  import opened Errors
  import opened Records
  import Seqs
  import Sorting
  import Clock
  import MenuText
  import Text
  import Store

  /** `menuDate: { $gte: getStartOfDay(t), $lte: getEndOfDay(t) }`. */
  predicate OnLocalDay(menuDate: int, t: int, hostOffset: int) {
    Clock.StartOfDay(t, hostOffset) <= menuDate <= Clock.EndOfDay(t, hostOffset)
  }

  /** `DailyMenu.find` on the local day of `t`: exactly the menus of that day, in natural order. */
  function MenusOfDay(menus: seq<DailyMenu>, t: int, hostOffset: int): (r: seq<DailyMenu>)
    ensures forall m | m in r :: m in menus && OnLocalDay(m.menuDate, t, hostOffset)
    ensures forall m | m in menus && OnLocalDay(m.menuDate, t, hostOffset) :: m in r
  {
    Seqs.Filter(menus, (m: DailyMenu) => OnLocalDay(m.menuDate, t, hostOffset))
  }

  /** `DailyMenu.findOne` on the local day of `t`: the first of that day's menus. */
  function MenuOfDay(menus: seq<DailyMenu>, t: int, hostOffset: int): (r: Option<DailyMenu>)
    ensures r.Some? ==> r.value in menus && OnLocalDay(r.value.menuDate, t, hostOffset)
    ensures r.None? <==> forall m | m in menus :: !OnLocalDay(m.menuDate, t, hostOffset)
  {
    match Seqs.FindFirst(menus, (m: DailyMenu) => OnLocalDay(m.menuDate, t, hostOffset))
    case None => None
    case Some(i) => Some(menus[i])
  }

  /** `canOrder`: the menu is not locked and the UTC+7 clock lies in its window. */
  predicate CanOrder(m: DailyMenu, now: int, hostOffset: int) {
    !m.isLocked && Clock.IsWithinTimeRange(m.beginAt, m.endAt, now, hostOffset)
  }

  /** Whether ordering is open depends on the lock and on the UTC+7 time of day alone. */
  lemma CanOrderByClock(m: DailyMenu, now: int, hostOffset: int)
    ensures CanOrder(m, now, hostOffset) <==>
      !m.isLocked
      && Clock.ParseClock(m.beginAt).Some? && Clock.ParseClock(m.endAt).Some?
      && Clock.ClockOffset(Clock.ParseClock(m.beginAt).value) <= Clock.VietnamClock(now)
      && Clock.VietnamClock(now) <= Clock.ClockOffset(Clock.ParseClock(m.endAt).value)
  {
    Clock.WindowByVietnamClock(m.beginAt, m.endAt, now, hostOffset);
  }

  /** A menu of `getTodayMenu`, with its populated items and the computed flag. */
  datatype MenuStatus = MenuStatus(menu: DailyMenu, items: seq<MenuItem>, canOrder: bool)

  /** Each menu with its items and `canOrder`, in the order given. */
  function Statuses(menus: seq<DailyMenu>, menuItems: seq<MenuItem>, now: int, hostOffset: int): (r: seq<MenuStatus>)
    ensures |r| == |menus|
    ensures forall i | 0 <= i < |r| ::
      r[i].menu == menus[i] && r[i].items == ItemsOfMenu(menuItems, menus[i].id)
      && (r[i].canOrder <==> CanOrder(menus[i], now, hostOffset))
  {
    if menus == [] then []
    else [MenuStatus(menus[0], ItemsOfMenu(menuItems, menus[0].id), CanOrder(menus[0], now, hostOffset))]
         + Statuses(menus[1..], menuItems, now, hostOffset)
  }

  /**
   * `getTodayMenu`: `None` (data `null`) when no menu is dated today, otherwise every
   * menu of today in natural order, each with its items and `canOrder`.
   */
  function TodayMenus(db: Store.Db, now: int, hostOffset: int): (r: Option<seq<MenuStatus>>)
    reads db
    ensures r.None? <==> forall m | m in db.menus :: !OnLocalDay(m.menuDate, now, hostOffset)
    ensures r.Some? ==> |r.value| > 0 && forall i | 0 <= i < |r.value| ::
      r.value[i].menu in db.menus && OnLocalDay(r.value[i].menu.menuDate, now, hostOffset)
      && r.value[i].items == ItemsOfMenu(db.menuItems, r.value[i].menu.id)
      && (r.value[i].canOrder <==> CanOrder(r.value[i].menu, now, hostOffset))
    ensures r.Some? ==> r.value == Statuses(MenusOfDay(db.menus, now, hostOffset), db.menuItems, now, hostOffset)
  {
    var today := MenusOfDay(db.menus, now, hostOffset);
    if today == [] then
      None
    else
      assert today[0] in today;
      var r := Statuses(today, db.menuItems, now, hostOffset);
      assert forall i | 0 <= i < |r| :: r[i].menu in today by {
        forall i | 0 <= i < |r| ensures r[i].menu in today {
          assert r[i].menu == today[i];
        }
      }
      Some(r)
  }

  /** The page size of `getDailyMenus` when no `limit` is given. */
  const DefaultLimit: nat := 10

  /**
   * `getDailyMenus`: the menus by `menuDate`, newest first, at most `limit` of them (10 by
   * default); a limit of 0 is no limit at all.
   */
  function DailyMenuList(menus: seq<DailyMenu>, limit: Option<nat>): (r: seq<DailyMenu>)
    ensures forall i, j | 0 <= i < j < |r| :: r[i].menuDate >= r[j].menuDate
    ensures forall m | m in r :: m in menus
    ensures multiset(r) <= multiset(menus)
    ensures forall m | m in multiset(menus) - multiset(r) :: forall x | x in r :: m.menuDate <= x.menuDate
    ensures limit.GetOr(DefaultLimit) == 0 ==> |r| == |menus|
    ensures limit.GetOr(DefaultLimit) > 0 ==> |r| == if |menus| < limit.GetOr(DefaultLimit) then |menus| else limit.GetOr(DefaultLimit)
  {
    var sorted := Sorting.SortBy(menus, (m: DailyMenu) => -m.menuDate);
    var n := limit.GetOr(DefaultLimit);
    var r := if n == 0 then sorted else Seqs.Take(sorted, n);
    assert r == sorted[..|r|];
    forall m | m in r ensures m in menus {
      Sorting.SortKeepsElements(menus, (m: DailyMenu) => -m.menuDate, m);
    }
    NewestFirstPrefix(sorted, |r|);
    r
  }

  /** A prefix of menus sorted newest first holds some of them, and none left out is newer. */
  lemma NewestFirstPrefix(sorted: seq<DailyMenu>, n: nat)
    requires n <= |sorted|
    requires Sorting.SortedBy(sorted, (m: DailyMenu) => -m.menuDate)
    ensures multiset(sorted[..n]) <= multiset(sorted)
    ensures forall m | m in multiset(sorted) - multiset(sorted[..n]) :: forall x | x in sorted[..n] :: m.menuDate <= x.menuDate
  {
    assert sorted == sorted[..n] + sorted[n..];
    assert multiset(sorted) == multiset(sorted[..n]) + multiset(sorted[n..]);
    forall m | m in multiset(sorted) - multiset(sorted[..n])
      ensures forall x | x in sorted[..n] :: m.menuDate <= x.menuDate
    {
      assert m in sorted[n..];
      var j :| n <= j < |sorted| && sorted[j] == m;
      forall x | x in sorted[..n] ensures m.menuDate <= x.menuDate {
        var i :| 0 <= i < n && sorted[i] == x;
        assert -sorted[i].menuDate <= -sorted[j].menuDate;
      }
    }
  }

  /** The items `insertMany` stores for a menu: one per parsed item, same name, category and order. */
  function NewMenuItems(menuId: nat, parsed: seq<MenuText.ParsedItem>, firstId: nat): (r: seq<MenuItem>)
    ensures |r| == |parsed|
    ensures forall i :: 0 <= i < |r| ==>
      r[i].dailyMenuId == menuId && r[i].id == firstId + i
      && r[i].name == parsed[i].name && r[i].category == parsed[i].category
  {
    seq(|parsed|, i requires 0 <= i < |parsed| => MenuItem(firstId + i, menuId, parsed[i].name, parsed[i].category))
  }

  /** The items of a fresh menu are exactly the ones inserted for it. */
  lemma {:induction false} ItemsOfFreshMenu(old_items: seq<MenuItem>, menuId: nat, added: seq<MenuItem>)
    requires forall x | x in old_items :: x.dailyMenuId != menuId
    requires forall x | x in added :: x.dailyMenuId == menuId
    ensures ItemsOfMenu(old_items + added, menuId) == added
  {
    var p := (x: MenuItem) => x.dailyMenuId == menuId;
    Seqs.FilterAppend(old_items, added, p);
    Seqs.FilterNone(old_items, p);
    Seqs.FilterAll(added, p);
  }

  /** Every item the parser emits can be stored: its name is non-empty and trimmed. */
  lemma ParsedItemsStorable(text: string)
    ensures forall p | p in MenuText.MenuItems(text) :: p.name != [] && Text.IsTrimmed(p.name)
  {
    MenuText.MenuItemsAreFragments(text);
  }

  /**
   * The `insertMany` of both `createDailyMenu` and `updateDailyMenu`: the parsed items are
   * appended under `menuId`, which has no items yet, with fresh ids. `before` and `first`
   * name the item table and the id counter on entry.
   */
  method StoreParsedItems(db: Store.Db, menuId: nat, parsed: seq<MenuText.ParsedItem>,
                          ghost before: seq<MenuItem>, ghost first: nat)
    requires db.Valid() && menuId < db.nextId
    requires before == db.menuItems && first == db.nextId
    requires forall x | x in db.menuItems :: x.dailyMenuId != menuId
    requires forall p | p in parsed :: p.name != [] && Text.IsTrimmed(p.name)
    modifies db`menuItems, db`nextId
    ensures db.Valid()
    ensures db.menuItems == before + NewMenuItems(menuId, parsed, first)
    ensures ItemsOfMenu(db.menuItems, menuId) == NewMenuItems(menuId, parsed, first)
  {
    var f := db.NewIds(|parsed|);
    var added := NewMenuItems(menuId, parsed, f);
    NewItemsStorable(menuId, parsed, f);
    ItemsOfFreshMenu(db.menuItems, menuId, added);
    db.AppendMenuItems(added);
  }

  lemma NewItemsStorable(menuId: nat, parsed: seq<MenuText.ParsedItem>, first: nat)
    requires forall p | p in parsed :: p.name != [] && Text.IsTrimmed(p.name)
    ensures forall it | it in NewMenuItems(menuId, parsed, first) ::
      first <= it.id < first + |parsed| && it.dailyMenuId == menuId && ValidMenuItem(it)
  {
    var added := NewMenuItems(menuId, parsed, first);
    forall it | it in added
      ensures first <= it.id < first + |parsed| && it.dailyMenuId == menuId && ValidMenuItem(it)
    {
      var i :| 0 <= i < |added| && added[i] == it;
      assert parsed[i] in parsed;
    }
  }

  /** The schema's `required` on `rawContent`: present and not empty. */
  predicate HasContent(rawContent: Option<string>) {
    rawContent.Some? && rawContent.value != []
  }

  /** The message of the refused `rawContent` (missing or empty). */
  function MissingContent<T>(): (r: Result<T>)
    ensures r.Err? && r.thrown.Other? && r.thrown.name == "ValidationError"
  {
    Err(Invalid("DailyMenu", RawContentFailures("")))
  }

  /**
   * `createDailyMenu`: the menu is dated at the start of the local day of `menuDate` (or of
   * `now`), its window defaults to 10:00-10:45 and it starts unlocked; then one item per
   * parsed dish is stored under it, in the parser's order. A missing or empty `rawContent`
   * is refused by the schema before anything is stored. No check against other menus of
   * the same day.
   */
  method CreateDailyMenu(db: Store.Db, adminId: nat, rawContent: Option<string>, menuDate: Option<int>,
                         beginAt: Option<string>, endAt: Option<string>, now: int, hostOffset: int)
    returns (r: Result<DailyMenu>)
    requires db.Valid()
    modifies db`menus, db`menuItems, db`nextId
    ensures db.Valid()
    ensures !HasContent(rawContent) ==> r == MissingContent() && unchanged(db)
    ensures HasContent(rawContent) ==>
      r == Ok(DailyMenu(old(db.nextId), Clock.StartOfDay(menuDate.GetOr(now), hostOffset), rawContent.value,
                        beginAt.GetOr(DefaultBeginAt), endAt.GetOr(DefaultEndAt), false, adminId))
      && db.menus == old(db.menus) + [r.value]
      && db.menuItems == old(db.menuItems) + NewMenuItems(old(db.nextId), MenuText.MenuItems(rawContent.value), old(db.nextId) + 1)
      && ItemsOfMenu(db.menuItems, old(db.nextId)) == NewMenuItems(old(db.nextId), MenuText.MenuItems(rawContent.value), old(db.nextId) + 1)
  {
    if !HasContent(rawContent) {
      return MissingContent();
    }
    var menu := CreateWithContent(db, adminId, rawContent.value, Clock.StartOfDay(menuDate.GetOr(now), hostOffset),
                                  beginAt.GetOr(DefaultBeginAt), endAt.GetOr(DefaultEndAt));
    r := Ok(menu);
  }

  /** `createDailyMenu` once the schema accepted `text`: the menu, then its parsed items. */
  method CreateWithContent(db: Store.Db, adminId: nat, text: string, day: int, beginAt: string, endAt: string)
    returns (menu: DailyMenu)
    requires db.Valid() && text != []
    modifies db`menus, db`menuItems, db`nextId
    ensures db.Valid()
    ensures menu == DailyMenu(old(db.nextId), day, text, beginAt, endAt, false, adminId)
    ensures db.menus == old(db.menus) + [menu]
    ensures db.menuItems == old(db.menuItems) + NewMenuItems(old(db.nextId), MenuText.MenuItems(text), old(db.nextId) + 1)
    ensures ItemsOfMenu(db.menuItems, old(db.nextId)) == NewMenuItems(old(db.nextId), MenuText.MenuItems(text), old(db.nextId) + 1)
  {
    var parsed := MenuText.MenuItems(text);
    ParsedItemsStorable(text);
    var id := StoreMenu(db, adminId, text, day, beginAt, endAt, parsed);
    menu := DailyMenu(id, day, text, beginAt, endAt, false, adminId);
  }

  /**
   * The successful path of `createDailyMenu`: `DailyMenu.create` of an unlocked menu under
   * the next fresh id, then `MenuItem.insertMany` of its parsed items.
   */
  method StoreMenu(db: Store.Db, adminId: nat, text: string, day: int, beginAt: string, endAt: string,
                   parsed: seq<MenuText.ParsedItem>) returns (id: nat)
    requires db.Valid() && text != []
    requires forall p | p in parsed :: p.name != [] && Text.IsTrimmed(p.name)
    modifies db`menus, db`menuItems, db`nextId
    ensures db.Valid()
    ensures id == old(db.nextId)
    ensures db.menus == old(db.menus) + [DailyMenu(old(db.nextId), day, text, beginAt, endAt, false, adminId)]
    ensures db.menuItems == old(db.menuItems) + NewMenuItems(old(db.nextId), parsed, old(db.nextId) + 1)
    ensures ItemsOfMenu(db.menuItems, old(db.nextId)) == NewMenuItems(old(db.nextId), parsed, old(db.nextId) + 1)
  {
    id := db.NewId();
    db.AddMenu(DailyMenu(id, day, text, beginAt, endAt, false, adminId));
    StoreParsedItems(db, id, parsed, old(db.menuItems), old(db.nextId) + 1);
  }

  /** The menu after `updateDailyMenu` set the supplied, truthy window ends and the supplied lock. */
  function Revised(m: DailyMenu, beginAt: Option<string>, endAt: Option<string>, isLocked: Option<bool>): DailyMenu {
    m.(beginAt := if beginAt.Some? && beginAt.value != [] then beginAt.value else m.beginAt,
       endAt := if endAt.Some? && endAt.value != [] then endAt.value else m.endAt,
       isLocked := isLocked.GetOr(m.isLocked))
  }

  /** `rawContent && rawContent !== menu.rawContent`: the item set is rebuilt only then. */
  predicate ReplacesItems(m: DailyMenu, rawContent: Option<string>) {
    rawContent.Some? && rawContent.value != [] && rawContent.value != m.rawContent
  }

  /**
   * `updateDailyMenu`: MENU_NOT_FOUND for an unknown id. Otherwise the window ends change
   * only when supplied and non-empty and the lock only when supplied; when a different,
   * non-empty `rawContent` is supplied the menu's items are deleted and rebuilt from it,
   * and otherwise the item set is left exactly as it was.
   */
  method UpdateDailyMenu(db: Store.Db, id: nat, rawContent: Option<string>, beginAt: Option<string>,
                         endAt: Option<string>, isLocked: Option<bool>)
    returns (r: Result<DailyMenu>)
    requires db.Valid()
    modifies db`menus, db`menuItems, db`nextId
    ensures db.Valid()
    ensures Seqs.FindFirst(old(db.menus), (m: DailyMenu) => m.id == id).None? ==>
      r == Fail("MENU_NOT_FOUND", "Không tìm thấy menu", 404)
      && db.menus == old(db.menus) && db.menuItems == old(db.menuItems)
    ensures Seqs.FindFirst(old(db.menus), (m: DailyMenu) => m.id == id).Some? ==>
      var k := Seqs.FindFirst(old(db.menus), (m: DailyMenu) => m.id == id).value;
      var m := old(db.menus)[k];
      var revised := Revised(m, beginAt, endAt, isLocked);
      && r.Ok?
      && (!ReplacesItems(m, rawContent) ==>
            r.value == revised && db.menus == old(db.menus)[k := revised] && db.menuItems == old(db.menuItems))
      && (ReplacesItems(m, rawContent) ==>
            r.value == revised.(rawContent := rawContent.value)
            && db.menus == old(db.menus)[k := r.value]
            && db.menuItems == ItemsNotOfMenu(old(db.menuItems), id)
                               + NewMenuItems(id, MenuText.MenuItems(rawContent.value), old(db.nextId))
            && ItemsOfMenu(db.menuItems, id) == NewMenuItems(id, MenuText.MenuItems(rawContent.value), old(db.nextId)))
  {
    var found := Seqs.FindFirst(db.menus, (m: DailyMenu) => m.id == id);
    if found.None? {
      return Fail("MENU_NOT_FOUND", "Không tìm thấy menu", 404);
    }
    var k := found.value;
    var menu := Revised(db.menus[k], beginAt, endAt, isLocked);
    if ReplacesItems(db.menus[k], rawContent) {
      menu := menu.(rawContent := rawContent.value);
      var parsed := MenuText.MenuItems(rawContent.value);
      ParsedItemsStorable(rawContent.value);
      ReplaceItems(db, id, parsed);
    }
    db.ReplaceMenu(k, menu);
    r := Ok(menu);
  }

  /** The item rebuild of `updateDailyMenu`: `deleteMany` of the menu's items, then `insertMany`. */
  method ReplaceItems(db: Store.Db, menuId: nat, parsed: seq<MenuText.ParsedItem>)
    requires db.Valid()
    requires forall p | p in parsed :: p.name != [] && Text.IsTrimmed(p.name)
    requires menuId < db.nextId
    modifies db`menuItems, db`nextId
    ensures db.Valid()
    ensures db.menuItems == ItemsNotOfMenu(old(db.menuItems), menuId) + NewMenuItems(menuId, parsed, old(db.nextId))
    ensures ItemsOfMenu(db.menuItems, menuId) == NewMenuItems(menuId, parsed, old(db.nextId))
  {
    db.DeleteMenuItemsOf(menuId);
    StoreParsedItems(db, menuId, parsed, ItemsNotOfMenu(old(db.menuItems), menuId), old(db.nextId));
  }

  /**
   * `lockMenu` (`locked` true) and `unlockMenu` (`locked` false): MENU_NOT_FOUND for an
   * unknown id; otherwise only that menu's lock changes, and setting the value it already
   * has changes nothing.
   */
  method SetLocked(db: Store.Db, id: nat, locked: bool) returns (r: Result<DailyMenu>)
    requires db.Valid()
    modifies db`menus
    ensures db.Valid()
    ensures Seqs.FindFirst(old(db.menus), (m: DailyMenu) => m.id == id).None? ==>
      r == Fail("MENU_NOT_FOUND", "Không tìm thấy menu", 404) && db.menus == old(db.menus)
    ensures Seqs.FindFirst(old(db.menus), (m: DailyMenu) => m.id == id).Some? ==>
      var k := Seqs.FindFirst(old(db.menus), (m: DailyMenu) => m.id == id).value;
      r == Ok(old(db.menus)[k].(isLocked := locked))
      && db.menus == old(db.menus)[k := r.value]
    ensures (forall m | m in old(db.menus) && m.id == id :: m.isLocked == locked) ==> db.menus == old(db.menus)
  {
    var found := Seqs.FindFirst(db.menus, (m: DailyMenu) => m.id == id);
    if found.None? {
      return Fail("MENU_NOT_FOUND", "Không tìm thấy menu", 404);
    }
    var k := found.value;
    var menu := db.menus[k].(isLocked := locked);
    db.ReplaceMenu(k, menu);
    r := Ok(menu);
  }
}
