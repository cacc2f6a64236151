# rice-be in Dafny

A verified model of the rice-be backend, a service for pre-ordering office lunches.

Users buy meal packages, which are bundles of turns, through purchase requests. An administrator approves or rejects each request; an approved one becomes a purchased package. An administrator publishes a daily menu by pasting its text, and the text is split into dishes.

Users order dishes while the menu's ordering window is open in Vietnam time (UTC+7). An order is charged to the user's soonest-expiring eligible package. The administrator then confirms all orders of a menu: each confirmed order debits one turn per dish, and the menu is locked.

Around these sit:
- statistics: revenue per period, the most-ordered dishes, and a dashboard;
- registration with an emailed one-time code (OTP), and login;
- blocking users;
- a catalog of package templates;
- a bearer-token guard and a JSON error handler.

The database is an in-memory store, the class `Store.Db`. It has one sequence per collection and a counter that hands out fresh ids.

The Mongoose operations become the following:
- a query becomes a function over those sequences: `findOne` is the first match, `find` a filter in natural order, `sort` a stable sort;
- a write becomes a method that reassigns exactly the sequences it names.

Each request handler is either a function returning `Result<T>` or a method on the store. Its `Err` carries what the handler throws: a `ServiceError`, a validation error, or a null-reference error. Three handlers are the exception, listed under "## Findings": `confirmAllOrders` can throw a ValidationError halfway through its batch, `getOrdersByDate` a TypeError, and `getRevenue` closes its month and year ranges at 23:59:59.000. The members for those handlers model the corrected behaviour, and their rows say so. A separate member models each as-written behaviour. Clocks, random codes, password hashing, token signing and e-mail are parameters.

Modules:
- `Types`: the shared enumerations.
- `Errors`: `ServiceError` and the `Errors` table.
- `ErrorHandler`: the error-to-response step.
- `AuthGuard`: the `auth` and `adminOnly` middlewares.
- `Records`: the schemas and their validators.
- `Store`: the database.
- `Clock`: the date and time helpers.
- `MenuText`: the menu-text parser.
- `DailyMenus`, `Orders`, `Confirmation`, `OrderReports`, `Purchases`, `UserPackages`, `MealPackages`, `Auth`, `Users` and `Statistics`: the controllers.
- `Tally`: the per-dish counting that three reports share.
- `Calendar`, `Text`, `Seqs` and `Sorting`: support.

## Model

| member | source | states |
|---|---|---|
| Types.ParseRole | src/types/index.ts:9 | a role name is read back exactly for "admin" and "user" |
| Types.RoleName | src/types/index.ts:9 | every role's name parses back to that role |
| Types.ParsePackageType | src/types/index.ts:43 | a package type is read back exactly for "normal" and "no-rice" |
| Types.PackageTypeName | src/types/index.ts:43 | every package type's name parses back to it |
| Types.ParseStatus | src/types/index.ts:72 | a purchase status is read back exactly for "pending", "approved" and "rejected" |
| Types.StatusName | src/types/index.ts:72 | every status's name parses back to it |
| Types.ParseCategory | src/types/index.ts:91 | a menu category is read back exactly for "new", "daily" and "special" |
| Types.CategoryName | src/types/index.ts:91 | every category's name parses back to it |
| Errors.NewServiceError | src/middlewares/errors.ts:2-11 | a service error keeps its code and message; its status is 400 unless one is given |
| Errors.KeyStatus | src/middlewares/errors.ts:14-103 | a table entry is 401 exactly for credential and token errors, 403 exactly for account-state and role errors, 404 exactly for failed lookups, and 400 otherwise |
| Errors.Raise | src/middlewares/errors.ts:14-103 | a raised table entry is a thrown service error whose code is the entry's key |
| Errors.Invalid | src/modules/auth/user.model.ts:12-65 | a refused document throws an error named ValidationError |
| Errors.UpdateInvalid | src/modules/mealPackages/mealPackages.controller.ts:107-111 | an update validator throws an error named ValidationError whose message ("Validation failed: …") is never a document error's message for any model |
| ErrorHandler.Handle | src/middlewares/errorHandler.ts:6-58 | a service error answers with its own status, code and message; then a validation error answers 400 VALIDATION_ERROR; then a cast error answers 400 INVALID_ID; anything else, and only that, answers 500 |
| ErrorHandler.TableErrorResponse | src/middlewares/errorHandler.ts:15-24 | every table error reaches the client with its key as code and its kind's status, never 500 |
| AuthGuard.BearerToken | src/middlewares/auth.ts:31 | the token taken from a bearer header holds no space |
| AuthGuard.HasSecondSegment | src/middlewares/auth.ts:26-31 | a header starting with "Bearer " has a second space-separated segment |
| AuthGuard.BearerTokenOfHeader | src/middlewares/auth.ts:26-31 | `"Bearer " + token` yields the token back when it holds no space |
| AuthGuard.Authenticate | src/middlewares/auth.ts:21-55 | NO_TOKEN exactly when the header is missing or lacks the "Bearer " prefix; success exactly when the token verifies, with the decoded payload attached; every failure is a 401 |
| AuthGuard.AdminOnly | src/middlewares/auth.ts:61-80 | passes exactly for an attached admin; NO_TOKEN without a user, ADMIN_ONLY for any other role |
| AuthGuard.AdminRouteAdmits | src/middlewares/auth.ts:21-80 | behind both guards, a well-formed header goes through exactly for an admin token |
| Records.NormalizeEmail | src/modules/auth/user.model.ts:20-27 | the stored email is the trimmed email, character for character, with every letter A to Z lowered and everything else kept, so no upper-case ASCII letter is left (see Left out: Records.NormalizeEmail) |
| Records.NormalizeEmailIdempotent | src/modules/auth/user.model.ts:24-25 | normalizing an email twice is normalizing it once |
| Records.UserFailures | src/modules/auth/user.model.ts:14-33 | a user is refused exactly when the name is empty or over 100 units, the email is empty or malformed, or the password is under 6 units |
| Records.PackageNameFailures | src/modules/mealPackages/mealPackage.model.ts:11-16 | a template name is refused exactly when empty or over 100 units |
| Records.TurnsFailures | src/modules/mealPackages/mealPackage.model.ts:17-21 | turns are refused exactly when missing or below 1 |
| Records.PriceFailures | src/modules/mealPackages/mealPackage.model.ts:22-26 | a price is refused exactly when missing or negative |
| Records.ValidDaysFailures | src/modules/mealPackages/mealPackage.model.ts:27-32 | validity is refused exactly when below 1 day |
| Records.RawContentFailures | src/modules/dailyMenus/dailyMenu.model.ts:15-18 | menu text is refused exactly when empty |
| Records.NoteFailures | src/modules/orders/orderItem.model.ts:26-30 | a note is refused exactly when over 200 units |
| Records.ItemsOfOrder | src/modules/orders/order.model.ts:49-54 | an order's items are exactly the items naming it |
| Records.ItemsNotOfOrder | src/modules/orders/orderItem.model.ts:11-15 | deleting an order's items keeps exactly the other items |
| Records.ItemsOfMenu | src/modules/dailyMenus/dailyMenu.model.ts:46-51 | a menu's items are exactly the items naming it |
| Records.ItemsNotOfMenu | src/modules/menuItems/menuItem.model.ts:11-15 | deleting a menu's items keeps exactly the other items |
| Records.FindUser | src/modules/auth/user.model.ts:12-65 | finds a user with the id, and nothing exactly when no user has it |
| Records.FindByEmail | src/modules/auth/user.model.ts:20-27 | finds a user whose email is the normalized query, and nothing exactly when none has it |
| Records.FindTemplate | src/modules/mealPackages/mealPackage.model.ts:9-50 | finds a template with the id, and nothing exactly when none has it |
| Records.FindRequest | src/modules/packagePurchases/packagePurchaseRequest.model.ts:10-45 | finds a request with the id, and nothing exactly when none has it |
| Store.Db.NewId | src/modules/orders/order.model.ts:56 | a fresh id differs from every stored id; all tables stay valid, including one order per user and menu and unique emails |
| Store.Db.AddOrder | src/modules/orders/order.model.ts:9-56 | an order is stored only for a user and menu without one, keeping the unique index |
| Store.Db.AddUser | src/modules/auth/user.model.ts:20-27 | a user is stored only with an email no one has |
| Store.Db.AppendOrderItems | src/modules/orders/orderItem.model.ts:9-30 | only valid items (quantity at least 1, note within 200) are stored |
| Store.Db.DeleteMealPackage | src/modules/mealPackages/mealPackages.controller.ts:141-149 | exactly the template at the position is removed |
| Store.OrdersAppend | src/modules/orders/order.model.ts:56 | appending an order for a fresh (user, menu) pair keeps the table valid |
| Store.UsersAppend | src/modules/auth/user.model.ts:20-27 | appending a valid user with a fresh id and unused email keeps the table valid |
| Clock.StartOfDay | src/utils/helpers.ts:52-56 | the start of day is at or before the instant, less than a day earlier, and falls on a host-local midnight |
| Clock.EndOfDay | src/utils/helpers.ts:61-65 | the end of day is the last millisecond of the same local day, at or after the instant |
| Clock.SameLocalDay | src/utils/helpers.ts:52-65 | every instant of a local day has the same start and end of day |
| Clock.VietnamTime | src/utils/helpers.ts:83-89 | the instant's host-local reading is the UTC+7 civil time, whatever the host offset |
| Clock.ParseClock | src/utils/helpers.ts:70-78 | a clock string parses exactly when both of its first two `:`-separated fields are decimal digit runs, white space around them allowed (see Left out: Clock.ParseClock) |
| Clock.SetClock | src/utils/helpers.ts:94-102 | the result exists exactly when the string parses, and lies a whole number of minutes after midnight |
| Clock.SetClockKeepsDay | src/utils/helpers.ts:94-102 | a well-formed time keeps the base instant's day and reads back as the hours and minutes set |
| Clock.VietnamClock | src/utils/helpers.ts:83-89 | the UTC+7 time of day lies in [0, one day) |
| Clock.WindowByVietnamClock | src/utils/helpers.ts:108-125 | the window test holds exactly when both ends parse and the UTC+7 time of day lies between them, ends included, whatever the host offset |
| Clock.InvertedWindowIsEmpty | src/utils/helpers.ts:108-125 | a window whose begin is after its end admits no instant |
| Clock.OtpExpiry | src/utils/helpers.ts:14-16 | a positive validity puts the expiry after the issue time |
| Clock.OtpValidFor | src/utils/helpers.ts:14-23 | a code is valid exactly while less than its minutes have passed, the expiry instant excluded |
| MenuText.ParseMenuText | src/utils/helpers.ts:131-186 | the loop computes exactly the items of the parser's specification function |
| MenuText.ParseLine | src/utils/helpers.ts:140-182 | one pass of the line loop is exactly one step of the specification |
| MenuText.PushDishes | src/utils/helpers.ts:169-182 | the dish loop appends exactly the accepted cleaned dishes, in order |
| MenuText.LineOutcome | src/utils/helpers.ts:141-161 | a heading line sets its category and adds nothing; any other line adds its kept dishes under the current category |
| MenuText.CleanLine | src/utils/helpers.ts:156-159 | the cleaned line is trimmed |
| MenuText.CleanLineIsInfix | src/utils/helpers.ts:156-159 | the cleaned line occurs in the trimmed line |
| MenuText.Dishes | src/utils/helpers.ts:164-167 | every dish is non-empty and trimmed |
| MenuText.DishesAreInfixes | src/utils/helpers.ts:164-167 | every dish is comma-free and occurs in the cleaned line |
| MenuText.CleanDish | src/utils/helpers.ts:171-174 | a cleaned dish is trimmed |
| MenuText.CleanDishIsInfix | src/utils/helpers.ts:171-174 | a cleaned dish occurs in the dish |
| MenuText.Kept | src/utils/helpers.ts:176-181 | the kept items are accepted cleaned dishes under the current category, no more than the dishes |
| MenuText.LineItemsAreFragments | src/utils/helpers.ts:156-182 | every item a line adds is a trimmed, comma-free piece of the line, longer than one unit and not starting with an "X/Y" code |
| MenuText.RunItemsAreFragments | src/utils/helpers.ts:140-183 | every item is such a piece of one of the lines |
| MenuText.MenuItemsAreFragments | src/utils/helpers.ts:131-186 | every item the parser emits is such a piece of one of the text's lines |
| MenuText.MarkerLineSwitchesCategory | src/utils/helpers.ts:144-153 | a heading line emits nothing and sets the category for the following lines |
| MenuText.ItemsKeepOrder | src/utils/helpers.ts:134-185 | items are only appended: the items of a prefix of the text come first, in order |
| MenuText.NoMarkersAllDaily | src/utils/helpers.ts:135 | without headings every item is filed under "daily" |
| DailyMenus.MenusOfDay | src/modules/dailyMenus/dailyMenus.controller.ts:49-52 | exactly the menus dated on the local day |
| DailyMenus.MenuOfDay | src/modules/orders/orders.controller.ts:109-118 | a menu of the local day, and none exactly when that day has no menu |
| DailyMenus.CanOrderByClock | src/modules/dailyMenus/dailyMenus.controller.ts:66-69 | ordering is open exactly when the menu is unlocked and the UTC+7 time of day lies in its window |
| DailyMenus.Statuses | src/modules/dailyMenus/dailyMenus.controller.ts:58-69 | each menu with exactly its items and its `canOrder` flag, in order |
| DailyMenus.TodayMenus | src/modules/dailyMenus/dailyMenus.controller.ts:43-78 | nothing exactly when no menu is dated today, otherwise exactly the menus of today (`DailyMenus.MenusOfDay`), in stored order, each with its items and flag (`DailyMenus.Statuses`) |
| DailyMenus.DailyMenuList | src/modules/dailyMenus/dailyMenus.controller.ts:17-37 | the newest stored menus, newest first, as many as the limit allows (10 by default, 0 meaning all): a sub-multiset of the stored menus, and no menu left out is newer than one listed |
| DailyMenus.NewMenuItems | src/modules/dailyMenus/dailyMenus.controller.ts:163-170 | one stored item per parsed item, with the same name, category and order, under the menu |
| DailyMenus.ItemsOfFreshMenu | src/modules/dailyMenus/dailyMenus.controller.ts:163-170 | after the insert, the new menu's items are exactly the inserted ones |
| DailyMenus.ParsedItemsStorable | src/modules/menuItems/menuItem.model.ts:16-20 | every parsed item has the non-empty trimmed name the schema needs |
| DailyMenus.MissingContent | src/modules/dailyMenus/dailyMenu.model.ts:15-18 | missing menu text is a validation error |
| DailyMenus.CreateDailyMenu | src/modules/dailyMenus/dailyMenus.controller.ts:134-183 | missing text changes nothing; otherwise an unlocked menu dated at the start of its day, with the window defaulting to 10:00-10:45, and exactly its parsed items |
| DailyMenus.StoreMenu | src/modules/dailyMenus/dailyMenus.controller.ts:152-170 | the menu is stored under a fresh id and its items are exactly the parsed ones |
| DailyMenus.UpdateDailyMenu | src/modules/dailyMenus/dailyMenus.controller.ts:189-240 | MENU_NOT_FOUND changes nothing; the window ends change only when supplied and non-empty, the lock only when supplied; the items are rebuilt only for new, different text |
| DailyMenus.ReplaceItems | src/modules/dailyMenus/dailyMenus.controller.ts:212-224 | the menu's old items are gone and its items are exactly the reparsed ones; other menus' items are kept |
| DailyMenus.SetLocked | src/modules/dailyMenus/dailyMenus.controller.ts:246-300 | MENU_NOT_FOUND changes nothing; otherwise only that menu's lock changes, and setting the lock it already has changes nothing |
| Orders.ItemCount | src/modules/orders/orders.controller.ts:151 | absent items count 0, otherwise their number |
| Orders.SoonestExpiring | src/modules/orders/orders.controller.ts:132-138 | the chosen package is the user's active, unexpired package of the type with turns left and the earliest expiry (first among ties); none exactly when there is no such package |
| Orders.OpenMenu | src/modules/orders/orders.controller.ts:108-129 | MENU_NOT_FOUND without today's menu, MENU_LOCKED when it is locked or out of its window, otherwise today's menu |
| Orders.ChargedPackage | src/modules/orders/orders.controller.ts:131-158 | NO_MATCHING_PACKAGE without an eligible package; NOT_ENOUGH_TURNS with that package's message exactly when the soonest-expiring eligible package (`Orders.SoonestExpiring`, first among ties) has fewer turns than items; otherwise `Ok` of exactly that package |
| Orders.Admit | src/modules/orders/orders.controller.ts:96-158 | the first failing check decides: INVALID_ORDER_TYPE ("normal" when absent), then the menu checks, then the package checks |
| Orders.AdmittedWhileOpen | src/modules/dailyMenus/dailyMenus.controller.ts:66-69 | an admitted order is placed while the menu's `canOrder` flag would show true |
| Orders.NoteRejection | src/modules/orders/orderItem.model.ts:26-30 | an over-long note makes the insert throw a validation error |
| Orders.NewOrderItems | src/modules/orders/orders.controller.ts:176-183 | one item per input, in order, with quantity 1 and the note defaulting to "" |
| Orders.NewItemsStorable | src/modules/orders/orderItem.model.ts:21-30 | items whose notes fit pass the schema |
| Orders.ItemsOfFreshOrder | src/modules/orders/orders.controller.ts:172-184 | after the insert, the order's items are exactly the new ones |
| Orders.StoreItems | src/modules/orders/orders.controller.ts:212-221 | fitting notes store exactly the new items; one over-long note stores nothing and throws |
| Orders.OrderOf | src/modules/orders/orders.controller.ts:161-164 | finds the user's order on the menu, and nothing exactly when there is none |
| Orders.CreateOrder | src/modules/orders/orders.controller.ts:89-236 | a refused order changes nothing; an admitted one keeps one order per user and menu and never touches a package |
| Orders.Resubmit | src/modules/orders/orders.controller.ts:166-184 | only the order's type and package change (confirmation and time kept) and its items are replaced by exactly the new list |
| Orders.Submit | src/modules/orders/orders.controller.ts:200-221 | a new unconfirmed order stamped now, then exactly its items |
| Confirmation.PendingOf | src/modules/orders/orders.controller.ts:328-331 | exactly the menu's unconfirmed orders |
| Confirmation.Charges | src/modules/orders/orders.controller.ts:336-348 | each order is charged its own item count to its own package |
| Confirmation.Debited | src/modules/orders/orders.controller.ts:343-358 | a package loses exactly the count and ends active exactly when it was and still has turns |
| Confirmation.SettleAllEffect | src/modules/orders/orders.controller.ts:336-360 | after the batch every package has lost exactly the turns charged to it, is active exactly when it was and has turns left if touched, and is otherwise unchanged |
| Confirmation.MarkConfirmed | src/modules/orders/orders.controller.ts:351-352 | the named orders are confirmed; everything else is kept |
| Confirmation.ConfirmedFor | src/modules/orders/orders.controller.ts:336-360 | every order of the menu is confirmed, other orders are kept |
| Confirmation.MarkPendingIsConfirmedFor | src/modules/orders/orders.controller.ts:328-360 | confirming the pending orders one by one confirms every order of the menu |
| Confirmation.NothingPendingAfter | src/modules/orders/orders.controller.ts:328-331 | after a confirmation the menu has no pending order |
| Confirmation.SecondRunIsNoOp | src/modules/orders/orders.controller.ts:328-371 | a second confirmation finds no order and no item and changes no package or order |
| Confirmation.ConfirmAllOrders | src/modules/orders/orders.controller.ts:314-377 | MENU_NOT_FOUND changes nothing; otherwise every pending order is confirmed, packages are settled as above, the menu ends locked, and the result counts the pending orders and their items (corrected; as written: Confirmation.OverdrawStopsBatch) |
| Confirmation.ConfirmEach | src/modules/orders/orders.controller.ts:336-360 | the loop confirms every pending order, settles their charges and totals their items |
| Confirmation.ConfirmOne | src/modules/orders/orders.controller.ts:337-359 | one turn debits, confirms and settles exactly one order |
| Confirmation.DebitPackage | src/modules/orders/orders.controller.ts:341-348 | the charged package loses the count; an order without items touches nothing |
| Confirmation.DeactivateIfExhausted | src/modules/orders/orders.controller.ts:355-359 | the package is deactivated exactly when it has no turn left, without the validated `save()` that throws below 0 (corrected; as written: Confirmation.OverdrawStopsBatch) |
| Confirmation.ConfirmOrder | src/modules/orders/orders.controller.ts:351-352 | the order is saved as confirmed and nothing else changes |
| Confirmation.OverdrawStopsBatch | src/modules/orders/orders.controller.ts:355-359 | as written, a first pending order with more items than its package's turns stops the batch after that order, with only it confirmed |
| OrderReports.OrdersOfMenu | src/modules/orders/orders.controller.ts:271-276 | exactly the menu's orders, in order |
| OrderReports.MenuItemOf | src/modules/orders/orders.controller.ts:274-276 | the populated menu item, or nothing once it is deleted |
| OrderReports.OrdersByDate | src/modules/orders/orders.controller.ts:242-308 | no menu on the day gives an empty report; otherwise the first menu of the day, its orders and the ranked per-dish summary, skipping items whose menu item is gone (corrected; as written: OrderReports.RebuiltMenuBreaksReport) |
| OrderReports.Summarize | src/modules/orders/orders.controller.ts:279-291 | the nested loop computes exactly the tally of the orders' resolved item lines (corrected; as written: OrderReports.LinesAsWritten, see OrderReports.RebuiltMenuBreaksReport) |
| OrderReports.ReportSummary | src/modules/orders/orders.controller.ts:279-295 | one entry per ordered dish with the sum of its quantities, sorted by count non-increasing |
| OrderReports.ResolvedLines | src/modules/orders/orders.controller.ts:283-289 | each line names an existing menu item |
| OrderReports.ResolvedComplete | src/modules/orders/orders.controller.ts:283-289 | when every menu item exists, the lines are the items one for one |
| OrderReports.LinesAsWrittenAgree | src/modules/orders/orders.controller.ts:283-289 | the loop as written agrees with the corrected one exactly when every ordered menu item exists, and otherwise throws |
| OrderReports.RebuiltMenuBreaksReport | src/modules/orders/orders.controller.ts:284-285 | an order placed before its menu's text was changed makes the report as written throw |
| OrderReports.CustomerName | src/modules/orders/orders.controller.ts:441 | the customer shown is never empty ("Khách" stands in for a missing user or name) |
| OrderReports.CopyText | src/modules/orders/orders.controller.ts:383-486 | the loops and the assembly produce exactly the copy of the menu's orders (text, summary, meal totals, number of orders); an unknown menu has no orders |
| OrderReports.Assemble | src/modules/orders/orders.controller.ts:451-470 | the totals lines, then each section that has a paragraph |
| OrderReports.DescribeOrders | src/modules/orders/orders.controller.ts:407-448 | the loop accumulates exactly the meals, paragraphs and summary of the orders |
| OrderReports.MealsSplit | src/modules/orders/orders.controller.ts:412-419 | every item of the menu's orders is one meal, in the section of its order's type |
| OrderReports.DetailsListed | src/modules/orders/orders.controller.ts:443-447 | a section holds exactly the paragraphs of the orders of its type that have items |
| OrderReports.DetailsNonEmpty | src/modules/orders/orders.controller.ts:412-447 | a section has a paragraph exactly when some order of its type has items |
| OrderReports.SectionsShown | src/modules/orders/orders.controller.ts:459-468 | each section's heading appears exactly when some order of its type has items |
| OrderReports.HeadingsMarkSections | src/modules/orders/orders.controller.ts:459-468 | a heading appears exactly when its section has a paragraph |
| OrderReports.CopyStartsWithTotals | src/modules/orders/orders.controller.ts:452-456 | the text opens with the meal total and the number of orders |
| OrderReports.Header | src/modules/orders/orders.controller.ts:452-457 | four opening lines: the meal total with the number of people, one indented line per type, then a blank line |
| Tally.Summarize | src/modules/statistics/statistics.controller.ts:139-148 | the counting loop computes exactly the tally of its lines |
| Tally.Count | src/modules/statistics/statistics.controller.ts:143-147 | one turn adds the quantity to the dish's entry, starting a new entry at 0 |
| Tally.TallyKeys | src/modules/statistics/statistics.controller.ts:137-148 | one entry per dish that has a line, and no other |
| Tally.TallySums | src/modules/statistics/statistics.controller.ts:137-148 | each entry counts the sum of its dish's quantities |
| Tally.TallyConserves | src/modules/statistics/statistics.controller.ts:137-148 | the counts add up to the sum of all quantities |
| Tally.ByCountDesc | src/modules/statistics/statistics.controller.ts:150-152 | sorted by count non-increasing, same entries |
| Tally.Ranked | src/modules/statistics/statistics.controller.ts:139-152 | the ranked summary is sorted by count, has one entry per dish and counts its quantities |
| Purchases.CreatePurchaseRequest | src/modules/packagePurchases/packagePurchases.controller.ts:68-121 | PACKAGE_NOT_FOUND for a missing or inactive template and REQUEST_ALREADY_EXISTS for a second pending request of the same user and template, both changing nothing; otherwise exactly one new pending request stamped now |
| Purchases.CreateKeepsOnePending | src/modules/packagePurchases/packagePurchases.controller.ts:88-108 | storing a request keeps at most one pending request per user and template |
| Purchases.PendingRequest | src/modules/packagePurchases/packagePurchases.controller.ts:137-151 | REQUEST_NOT_FOUND exactly for an unknown id, REQUEST_ALREADY_PROCESSED exactly for a processed one, otherwise the pending request |
| Purchases.ProcessedIsFinal | src/modules/packagePurchases/packagePurchases.controller.ts:145-151 | a processed request is refused from then on: approved and rejected are final |
| Purchases.ProcessKeepsOnePending | src/modules/packagePurchases/packagePurchases.controller.ts:174-177 | processing never adds a pending request |
| Purchases.MintedIsChargeable | src/modules/packagePurchases/packagePurchases.controller.ts:157-169 | the minted package can be charged by orders of its type from approval until it expires, at least a day later |
| Purchases.FirstApprovalDesignates | src/modules/packagePurchases/packagePurchases.controller.ts:180-184 | only the first approval sets the user's active package |
| Purchases.ApprovalParties | src/modules/packagePurchases/packagePurchases.controller.ts:133-158 | the request checks first, then a deleted user or template throws on the field read |
| Purchases.ApprovePurchaseRequest | src/modules/packagePurchases/packagePurchases.controller.ts:127-204 | a refused approval changes nothing; otherwise exactly one minted package, the request approved by the admin at now, and the package designated if the user had none |
| Purchases.Approve | src/modules/packagePurchases/packagePurchases.controller.ts:157-184 | the minted package has the template's turns and type, is active and expires `validDays` days later; only those three records change |
| Purchases.RejectPurchaseRequest | src/modules/packagePurchases/packagePurchases.controller.ts:210-247 | the request checks; then only that request changes, to rejected by the admin at now, and no package is created |
| UserPackages.OwnedBy | src/modules/userPackages/userPackages.controller.ts:17-19 | exactly the user's packages |
| UserPackages.NewestFirst | src/modules/userPackages/userPackages.controller.ts:17-19 | sorted by purchase time, newest first, same packages |
| UserPackages.MyPackages | src/modules/userPackages/userPackages.controller.ts:17-19 | exactly the caller's packages, newest first |
| UserPackages.MyActivePackages | src/modules/userPackages/userPackages.controller.ts:40-49 | exactly the caller's active, unexpired packages with turns left, newest first, each as often as it is stored (same multiset) |
| UserPackages.ActiveAmongMine | src/modules/userPackages/userPackages.controller.ts:17-49 | the active listing holds exactly the caller's listed packages that are usable now |
| UserPackages.AvailableOrExpiringNow | src/modules/userPackages/userPackages.controller.ts:85-95 | the set-active test also accepts a package expiring at this very instant, which the listing filters exclude |
| UserPackages.FindOwned | src/modules/userPackages/userPackages.controller.ts:70-81 | finds a package with the id owned by the caller, and nothing exactly when there is none |
| UserPackages.DesignateOnlyPoints | src/modules/userPackages/userPackages.controller.ts:98-100 | only the caller's active package changes |
| UserPackages.SetActivePackage | src/modules/userPackages/userPackages.controller.ts:64-110 | PACKAGE_NOT_FOUND, then PACKAGE_UNAVAILABLE, both changing nothing; otherwise only the caller's active package changes and no package record is touched |
| MealPackages.GetMealPackages | src/modules/mealPackages/mealPackages.controller.ts:16-23 | exactly the templates the filter selects ("true" active, any other value inactive, none all), sorted by turns ascending |
| MealPackages.NoFilterListsAll | src/modules/mealPackages/mealPackages.controller.ts:16-23 | without a filter every template is listed |
| MealPackages.GetMealPackageById | src/modules/mealPackages/mealPackages.controller.ts:44-52 | the template with the id, PACKAGE_NOT_FOUND exactly when there is none |
| MealPackages.CreatedIsNormal | src/modules/mealPackages/mealPackages.controller.ts:73-83 | a created template is valid, normal and active whatever type or state the body names |
| MealPackages.CreateMealPackage | src/modules/mealPackages/mealPackages.controller.ts:73-83 | a refused template changes nothing; otherwise exactly one new template |
| MealPackages.UpdatedStaysValid | src/modules/mealPackages/mealPackages.controller.ts:105-110 | an update whose fields pass the validators keeps the template valid and its type |
| MealPackages.EmptyUpdateKeeps | src/modules/mealPackages/mealPackages.controller.ts:105-110 | an update naming no field keeps the template |
| MealPackages.UpdateMealPackage | src/modules/mealPackages/mealPackages.controller.ts:105-119 | refused fields throw the update validators' ValidationError ("Validation failed: path: message", `Errors.UpdateInvalid`) before the id is looked up, and PACKAGE_NOT_FOUND follows for an unknown id; both change nothing; otherwise only that template changes, to exactly the updated one |
| MealPackages.DeleteMealPackage | src/modules/mealPackages/mealPackages.controller.ts:141-149 | PACKAGE_NOT_FOUND changes nothing; otherwise the template is gone and the others are kept |
| MealPackages.RemovalLeavesNoTwin | src/modules/mealPackages/mealPackages.controller.ts:141-149 | once the template is removed no template has its id |
| Auth.Register | src/modules/auth/auth.controller.ts:28-72 | EMAIL_EXISTS for a taken email and a validation error for bad fields, both changing nothing; otherwise exactly one new unverified user |
| Auth.AddRegistered | src/modules/auth/auth.controller.ts:47-56 | the new user has the trimmed name, the normalized email, role user, and an OTP expiring 10 minutes later |
| Auth.RegisteredIsValid | src/modules/auth/user.model.ts:14-59 | a registered user passes the schema |
| Auth.CheckOtp | src/modules/auth/auth.controller.ts:93-100 | accepted exactly when the stored code equals the given non-empty code and has not expired; otherwise INVALID_OTP |
| Auth.VerifyOtp | src/modules/auth/auth.controller.ts:78-127 | USER_NOT_FOUND and INVALID_OTP change nothing; otherwise the user becomes verified, the code is cleared and the token payload is returned |
| Auth.ResendOtp | src/modules/auth/auth.controller.ts:133-172 | USER_NOT_FOUND changes nothing; a verified user is left alone; otherwise both OTP fields are replaced |
| Auth.FreshCodeVerifies | src/modules/auth/auth.controller.ts:141-160 | a reissued code verifies exactly when given back non-empty within 10 minutes |
| Auth.RegisteredCodeIsFresh | src/modules/auth/auth.controller.ts:47-56 | the code sent at registration verifies exactly within its 10 minutes |
| Auth.ReplayFails | src/modules/auth/auth.controller.ts:102-106 | after a successful verification the same code is refused |
| Auth.Login | src/modules/auth/auth.controller.ts:178-227 | INVALID_CREDENTIALS, USER_BLOCKED, USER_NOT_VERIFIED, INVALID_CREDENTIALS in that order; success exactly for an unblocked, verified user with a matching password, with the payload carrying the user's id, normalized email and role |
| Auth.StateBeforePassword | src/modules/auth/auth.controller.ts:187-200 | a blocked or unverified account is refused whatever password is given |
| Auth.RegisteredCannotLogIn | src/modules/auth/auth.controller.ts:47-56 | a freshly registered user cannot log in until verified |
| Auth.VerifiedLogsIn | src/modules/auth/auth.controller.ts:178-227 | after verification, an unblocked user with the right password logs in |
| Users.Listed | src/modules/users/users.controller.ts:17-33 | exactly the users the query selects, newest first |
| Users.GetUsers | src/modules/users/users.controller.ts:17-33 | the listed users' public fields, in order |
| Users.EmptyQueryListsAll | src/modules/users/users.controller.ts:17-33 | an empty query lists every user |
| Users.OtherBlockedValueMeansUnblocked | src/modules/users/users.controller.ts:20-23 | any `isBlocked` value other than "true" selects unblocked users |
| Users.SearchIgnoresCase | src/modules/users/users.controller.ts:24-28 | the search ignores ASCII case |
| Users.PopulatePackage | src/modules/users/users.controller.ts:54-69 | the active package, or nothing when it is not stored |
| Users.GetUserById | src/modules/users/users.controller.ts:54-69 | USER_NOT_FOUND exactly for an unknown id; otherwise the user with exactly their packages, newest first, each as often as it is stored (same multiset) |
| Users.BlockUser | src/modules/users/users.controller.ts:93-113 | USER_NOT_FOUND and CANNOT_BLOCK_ADMIN change nothing; otherwise only that user becomes blocked |
| Users.UnblockUser | src/modules/users/users.controller.ts:135-146 | USER_NOT_FOUND changes nothing; otherwise only that user becomes unblocked, with no role check |
| Users.UnblockIsIdempotent | src/modules/users/users.controller.ts:135-146 | unblocking an unblocked user changes nothing |
| Users.BlockUnblockRestores | src/modules/users/users.controller.ts:93-146 | blocking then unblocking an unblocked user restores it |
| Users.BlockedCannotLogIn | src/modules/users/users.controller.ts:93-113 | a blocked user is refused at login with USER_BLOCKED |
| Statistics.PeriodOf | src/modules/statistics/statistics.controller.ts:21-44 | the period defaults to day; "day" and "month" are recognized and anything else is a year |
| Statistics.PeriodRange | src/modules/statistics/statistics.controller.ts:27-44 | the range starts at a local midnight and ends at the last millisecond of a local day (corrected; as written: Statistics.PeriodRangeAsWritten, see Statistics.LastSecondOfJanuary) |
| Statistics.PeriodCovers | src/modules/statistics/statistics.controller.ts:27-44 | the corrected range holds the base instant and spans its day, its month or its year (as written, the month and year ranges miss their last 999 ms: Statistics.LastSecondOfJanuary) |
| Statistics.MonthOfDate | src/modules/statistics/statistics.controller.ts:31-39 | the month range runs from the 1st to the end of the month's last day (corrected; as written it ends at 23:59:59.000: Statistics.AsWrittenEndsEarly) |
| Statistics.YearOfDate | src/modules/statistics/statistics.controller.ts:42-43 | the year range runs from January 1st to the end of December 31st (corrected; as written it ends at 23:59:59.000: Statistics.AsWrittenEndsEarly) |
| Statistics.ApprovedRequests | src/modules/statistics/statistics.controller.ts:47-50 | exactly the approved requests processed within the range |
| Statistics.RevenueAddsUp | src/modules/statistics/statistics.controller.ts:58-70 | the breakdown's revenues add up to the total, and its counts to the requests whose template exists, at most all requests |
| Statistics.RevenueEntries | src/modules/statistics/statistics.controller.ts:58-70 | one entry per template sold, with its name, number of requests and revenue at its price |
| Statistics.SumRevenue | src/modules/statistics/statistics.controller.ts:53-70 | the loop computes exactly the revenue specification |
| Statistics.ConfirmedAmongOrders | src/modules/statistics/statistics.controller.ts:73-80 | the confirmed orders are among the orders of the menus |
| Statistics.GetRevenue | src/modules/statistics/statistics.controller.ts:15-97 | the period as given ("day" by default), the range, the revenue of the approved requests of the period, their number, and the confirmed orders on its menus; the range and the echoed `startDate`/`endDate` are the corrected ones (as written: Statistics.LastSecondOfJanuary) |
| Statistics.CountItems | src/modules/statistics/statistics.controller.ts:137-148 | the loop computes exactly the per-dish tally |
| Statistics.GetMenuItemStats | src/modules/statistics/statistics.controller.ts:103-166 | the range runs from the start of the first day to the end of the last; every order on its menus counts, confirmed or not; the dishes are ranked by count |
| Statistics.PackagesInUse | src/modules/statistics/statistics.controller.ts:187-191 | exactly the active, unexpired packages with turns left |
| Statistics.PendingRequests | src/modules/statistics/statistics.controller.ts:208-210 | exactly the pending requests |
| Statistics.TopItems | src/modules/statistics/statistics.controller.ts:247-249 | at most five entries, sorted by count non-increasing |
| Statistics.TopItemsBeatTheRest | src/modules/statistics/statistics.controller.ts:247-249 | only a full top five leaves dishes out, and none left out was ordered more than one kept |
| Statistics.GetDashboard | src/modules/statistics/statistics.controller.ts:172-266 | the counts of users, packages in use, today's menus and orders and pending requests; the month's revenue; the top five dishes of the month |
| Statistics.SumPrices | src/modules/statistics/statistics.controller.ts:218-222 | the sum of the prices of the requests whose template still exists |
| Statistics.AsWrittenEndsEarly | src/modules/statistics/statistics.controller.ts:32-43 | as written, the month and year ranges stop 999 ms before the end of their last day |
| Statistics.LastSecondOfJanuary | src/modules/statistics/statistics.controller.ts:32-39 | an instant in the last second of January is outside its own month's range as written |
| Calendar.DateRoundTrip | src/modules/statistics/statistics.controller.ts:31-43 | a valid calendar date and its day number convert into each other |
| Calendar.MonthSpan | src/modules/statistics/statistics.controller.ts:32-39 | `new Date(y, m - 1, 1)` is the 1st of the month, and the next month's 1st lies exactly the month's length later |
| Calendar.YearSpan | src/modules/statistics/statistics.controller.ts:42-43 | `new Date(y, 0, 1)` is January 1st, and December 31st ends the year's length of days later |

## Left out

- I/O is not modelled: HTTP, JSON bodies, the database connection, routes, bootstrap and scripts. A handler's result is its `Result` value or the new store.
- Who may call a handler is not modelled. The admin-only routes are modelled by `AuthGuard.AdminOnly` alone; the handlers take the caller's id as a parameter.
- The time, random codes and hashing are parameters:
  - `new Date()` is a `now` parameter, one per handler, although the program reads the clock several times;
  - the OTP generator (`Math.random`) is a code parameter;
  - the bcrypt hash of a new password is a parameter;
  - the password check at login is a comparison function parameter.
- The host time zone is a fixed offset parameter; daylight-saving changes are not modelled.
- Token signing and verification (`jwt.sign`, `jwt.verify`) are outside the model. `Auth.TokenPayload` stands for the signed payload, and verification is a function parameter of `AuthGuard.Authenticate`.
- The pre-save rehash of a modified password is not modelled. The store keeps the hash it is given, and no modelled handler changes a password.
- E-mail sending is not modelled: registration, resending and approval ignore the send's outcome, as the program does.
- Date strings in query parameters and bodies are not parsed; handlers take the instant they denote. An unparsable string is not modelled.
- Ids are natural numbers, so a malformed id, which the program answers with CastError / INVALID_ID, cannot occur.
- Body fields are `Option` values:
  - a present field of the wrong JSON type is not modelled;
  - `null` is not told apart from a missing field;
  - query values are plain strings, not arrays.
- The store is one sequence per collection, so sort ties are broken by insertion order; MongoDB does not promise this order.
- Records.NormalizeEmail: only the ASCII letters A to Z are lowered. The program's `lowercase` setter is `toLowerCase()`, which lowers every Unicode capital and can change the length ("İ" becomes two UTF-16 units). An email such as "ÉLAN@x.co" is stored as "Élan@x.co" in the model and "élan@x.co" by the program, so `Auth.Login` and `Auth.VerifyOtp` with "élan@x.co" find the account in the program but not in the model. Unicode case mapping has no definition to build on here.
- Users.SearchHit: the `$regex` search is a case-insensitive substring test. Regular-expression metacharacters in the search string are not modelled. Case folding covers ASCII letters only.
- MealPackages.UpdateMealPackage: a field missing from the body leaves the stored field unchanged. This assumes the update drops keys that are `undefined`.
- Statistics.PeriodCovers: excludes the years 0 to 99, which the `Date` constructor reads as 1900 to 1999.
- Text.ToNumber: reads `Number(s)` only for a run of decimal digits, with white space around it allowed; the empty string reads as 0. JavaScript's `Number` also accepts a sign, a fraction, an exponent, `0x`/`0o`/`0b` prefixes and `Infinity`. The model reads all of those as NaN.
- Clock.ParseClock: because of `Text.ToNumber`, fields such as `"+9:00"`, `"9.0:30"` and `"0x0A:00"` read as NaN. The program would set those hours and open a window, and `"-1:30"` would roll back to the previous day. The schema does not check the format of `beginAt` and `endAt`. For such a menu, `DailyMenus.CanOrder` is false and `createOrder` answers MENU_LOCKED, while the program might accept the order.
- DailyMenus.DailyMenuList: `limit` is an already-converted `Option<nat>`. The program's `Number(limit)` of a query value such as `"abc"` (NaN), `"-5"` or `"2.5"` is not modelled.
- Prices, turns and quantities are integers; JavaScript numbers are doubles, and fractional or huge values are not modelled.
- Concurrency is not modelled. Every handler is atomic and runs alone; the races between ordering and confirmation, and between two inserts on a unique index, are left out.
- `getMe` (src/modules/auth/auth.controller.ts:233-259) is not modelled: it reads one user and projects fields.
- `getDailyMenuById` and `previewMenu` (src/modules/dailyMenus/dailyMenus.controller.ts:84-128) are not modelled: they look up one menu, or call the parser on the body text.
- `getPurchaseRequests` and `getMyPurchaseRequests` (src/modules/packagePurchases/packagePurchases.controller.ts:14-62) are not modelled: they are plain filtered listings.
- `getMyOrders` and `getMyTodayOrder` (src/modules/orders/orders.controller.ts:1-84) are not modelled: they are plain listings.
- Populating `mealPackageId` in the user-package listings is not modelled.
- Mail formatting is not modelled (src/services/emailService.ts).

## Findings

| source | as written | input that shows it | evidently intended | confidence | as-written member | corrected member |
|---|---|---|---|---|---|---|
| src/modules/orders/orders.controller.ts:343-358 | The debit is an unvalidated `$inc`. Deactivating the package is then a validated `save()`, so a package driven below 0 turns throws a ValidationError. The batch stops midway: later orders stay unconfirmed and the menu unlocked. | The first pending order of the batch has more items than its package has turns left. For example, another menu's confirmation took the package's last turn after this order was placed. | A package at or below 0 is deactivated, and the batch goes on. | not executed | Confirmation.OverdrawStopsBatch | Confirmation.ConfirmAllOrders |
| src/modules/orders/orders.controller.ts:284-285 | `menuItem._id` is read without a null check. An order item whose menu item was deleted makes the whole report a 500 response. | An order placed, then the menu's text changed: `updateDailyMenu` rebuilds the items with new ids. | Skip items whose menu item is gone, as `getCopyText` and the statistics do. | not executed | OrderReports.RebuiltMenuBreaksReport | OrderReports.Summarize |
| src/modules/statistics/statistics.controller.ts:32-43 | The month and year ranges end at 23:59:59.000. An approval in the last second of a month, after that instant, is in no monthly report (nor, on December 31st, in any yearly report); the day report and the dashboard's month-to-date revenue, which close with `getEndOfDay`, still include it. | `period=month` for 2025-01-31 23:59:59.500 in UTC+7. | Close the range at the last millisecond of the day, as `getEndOfDay` does. | not executed | Statistics.LastSecondOfJanuary | Statistics.PeriodRange |
