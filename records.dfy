/**
 * The stored records and their schema rules. Every record carries its `_id` as a `nat`;
 * references to other records are ids too. A schema's setters (`trim`, `lowercase`) are
 * applied by the code that builds a record; its validators are the `*Failures` functions,
 * which list the refused paths in schema order with the schema's own messages (the first
 * refused rule of each path only), and the `Valid*` predicates say what a stored record
 * that passed them looks like.
 */
module Records {
  import opened Wrappers
  import opened Types
  import opened Errors
  import Text
  import Seqs

  datatype User = User(
    id: nat,
    name: string,
    email: string,
    password: string,         // the bcrypt hash, never the plain password
    role: UserRole,
    isVerified: bool,
    isBlocked: bool,
    otpCode: Option<string>,
    otpExpiry: Option<int>,
    activePackageId: Option<nat>,
    createdAt: int)

  /** A catalog template an administrator sells. */
  datatype MealPackage = MealPackage(
    id: nat,
    name: string,
    turns: int,
    price: int,
    validDays: int,
    qrCodeImage: string,
    packageType: PackageType,
    isActive: bool)

  /** A purchased package: the turn ledger entry orders are charged against. */
  datatype UserPackage = UserPackage(
    id: nat,
    userId: nat,
    mealPackageId: nat,
    remainingTurns: int,
    purchasedAt: int,
    expiresAt: int,
    packageType: PackageType,
    isActive: bool)

  datatype PurchaseRequest = PurchaseRequest(
    id: nat,
    userId: nat,
    mealPackageId: nat,
    status: PurchaseStatus,
    requestedAt: int,
    processedAt: Option<int>,
    processedBy: Option<nat>)

  datatype DailyMenu = DailyMenu(
    id: nat,
    menuDate: int,
    rawContent: string,
    beginAt: string,
    endAt: string,
    isLocked: bool,
    createdBy: nat)

  datatype MenuItem = MenuItem(id: nat, dailyMenuId: nat, name: string, category: MenuCategory)

  datatype Order = Order(
    id: nat,
    userId: nat,
    dailyMenuId: nat,
    userPackageId: nat,
    orderType: PackageType,
    isConfirmed: bool,
    orderedAt: int)

  datatype OrderItem = OrderItem(id: nat, orderId: nat, menuItemId: nat, quantity: int, note: string)

  /** Schema defaults. */
  const DefaultBeginAt: string := "10:00"
  const DefaultEndAt: string := "10:45"
  const DefaultValidDays: int := 30
  const DefaultQuantity: int := 1
  const DefaultNote: string := ""

  // ---------------------------------------------------------------- users

  /**
   * The `lowercase` and `trim` setters of `email`: the trimmed email, position by position,
   * with every upper-case letter lowered and every other character kept. Only the letters
   * A to Z are folded.
   */
  function NormalizeEmail(email: string): (r: string)
    ensures Text.IsTrimmed(r)
    ensures |r| <= |email|
    ensures |r| == |Text.Trim(email)|
    ensures forall i | 0 <= i < |r| :: !('A' <= r[i] <= 'Z')
    ensures forall i | 0 <= i < |r| ::
      r[i] == Text.Trim(email)[i] || ('A' <= Text.Trim(email)[i] <= 'Z' && r[i] == Text.Trim(email)[i] - 'A' + 'a')
  {
    Text.LowerAscii(Text.Trim(email))
  }

  /** Normalizing a normalized email changes nothing, so stored emails are their own normal form. */
  lemma NormalizeEmailIdempotent(email: string)
    ensures NormalizeEmail(NormalizeEmail(email)) == NormalizeEmail(email)
  {
    var r := NormalizeEmail(email);
    Text.TrimOfTrimmed(r);
    assert forall i | 0 <= i < |r| :: !('A' <= r[i] <= 'Z');
  }

  /** `/^\S+@\S+\.\S+$/`: no white space, and an `@` and a later `.` with something around both. */
  predicate EmailShape(s: string) {
    Text.HasNoSpace(s) && exists i, j | 0 < i < j < |s| - 1 :: i + 1 < j && s[i] == '@' && s[j] == '.'
  }

  /** The user validators, given the values after the setters ran. */
  function UserFailures(name: string, email: string, password: string): (f: seq<PathFailure>)
    ensures f == [] <==>
      name != [] && Text.Utf16Length(name) <= 100
      && email != [] && EmailShape(email)
      && password != [] && Text.Utf16Length(password) >= 6
  {
    (if name == [] then [PathFailure("name", "Tên là bắt buộc")]
     else if Text.Utf16Length(name) > 100 then [PathFailure("name", "Tên không được quá 100 ký tự")]
     else [])
    + (if email == [] then [PathFailure("email", "Email là bắt buộc")]
       else if !EmailShape(email) then [PathFailure("email", "Email không hợp lệ")]
       else [])
    + (if password == [] then [PathFailure("password", "Mật khẩu là bắt buộc")]
       else if Text.Utf16Length(password) < 6 then [PathFailure("password", "Mật khẩu phải có ít nhất 6 ký tự")]
       else [])
  }

  /** A stored user: a trimmed name within bounds and a normalized, well-formed email. */
  predicate ValidUser(u: User) {
    u.name != [] && Text.IsTrimmed(u.name) && Text.Utf16Length(u.name) <= 100
    && EmailShape(u.email) && u.email == NormalizeEmail(u.email)
  }

  // ---------------------------------------------------------------- meal packages

  function PackageNameFailures(name: string): (f: seq<PathFailure>)
    ensures f == [] <==> name != [] && Text.Utf16Length(name) <= 100
  {
    if name == [] then [PathFailure("name", "Tên gói là bắt buộc")]
    else if Text.Utf16Length(name) > 100 then [PathFailure("name", "Tên gói không được quá 100 ký tự")]
    else []
  }

  function TurnsFailures(turns: Option<int>): (f: seq<PathFailure>)
    ensures f == [] <==> turns.Some? && turns.value >= 1
  {
    if turns.None? then [PathFailure("turns", "Số lượt là bắt buộc")]
    else if turns.value < 1 then [PathFailure("turns", "Số lượt phải lớn hơn 0")]
    else []
  }

  function PriceFailures(price: Option<int>): (f: seq<PathFailure>)
    ensures f == [] <==> price.Some? && price.value >= 0
  {
    if price.None? then [PathFailure("price", "Giá là bắt buộc")]
    else if price.value < 0 then [PathFailure("price", "Giá không được âm")]
    else []
  }

  function ValidDaysFailures(validDays: int): (f: seq<PathFailure>)
    ensures f == [] <==> validDays >= 1
  {
    if validDays < 1 then [PathFailure("validDays", "Số ngày hiệu lực phải lớn hơn 0")] else []
  }

  predicate ValidMealPackage(p: MealPackage) {
    p.name != [] && Text.IsTrimmed(p.name) && Text.Utf16Length(p.name) <= 100
    && p.turns >= 1 && p.price >= 0 && p.validDays >= 1
  }

  // ---------------------------------------------------------------- menus and orders

  function RawContentFailures(rawContent: string): (f: seq<PathFailure>)
    ensures f == [] <==> rawContent != []
  {
    if rawContent == [] then [PathFailure("rawContent", "Nội dung menu là bắt buộc")] else []
  }

  predicate ValidMenu(m: DailyMenu) {
    m.rawContent != []
  }

  predicate ValidMenuItem(m: MenuItem) {
    m.name != [] && Text.IsTrimmed(m.name)
  }

  function NoteFailures(note: string): (f: seq<PathFailure>)
    ensures f == [] <==> Text.Utf16Length(note) <= 200
  {
    if Text.Utf16Length(note) > 200 then [PathFailure("note", "Ghi chú tối đa 200 ký tự")] else []
  }

  predicate ValidOrderItem(i: OrderItem) {
    i.quantity >= 1 && Text.Utf16Length(i.note) <= 200
  }

  /** Orders are looked up by `_id`: no two share one. */
  predicate DistinctOrderIds(os: seq<Order>) {
    forall i, j | 0 <= i < j < |os| :: os[i].id != os[j].id
  }

  /** Purchased packages are looked up by `_id`: no two share one. */
  predicate DistinctPackageIds(ps: seq<UserPackage>) {
    forall i, j | 0 <= i < j < |ps| :: ps[i].id != ps[j].id
  }

  /** The unique index on `(userId, dailyMenuId)`: at most one order per user and menu. */
  predicate OrdersUnique(orders: seq<Order>) {
    forall i, j | 0 <= i < j < |orders| ::
      orders[i].userId != orders[j].userId || orders[i].dailyMenuId != orders[j].dailyMenuId
  }

  /** The virtual `orderItems` of an order: exactly the items whose `orderId` is its id, in order. */
  function ItemsOfOrder(items: seq<OrderItem>, orderId: nat): (r: seq<OrderItem>)
    ensures forall x | x in r :: x in items && x.orderId == orderId
    ensures forall x | x in items && x.orderId == orderId :: x in r
  {
    Seqs.Filter(items, (x: OrderItem) => x.orderId == orderId)
  }

  /** What `OrderItem.deleteMany({ orderId })` leaves: the items of every other order, in order. */
  function ItemsNotOfOrder(items: seq<OrderItem>, orderId: nat): (r: seq<OrderItem>)
    ensures forall x | x in r :: x in items && x.orderId != orderId
    ensures forall x | x in items && x.orderId != orderId :: x in r
  {
    Seqs.Filter(items, (x: OrderItem) => x.orderId != orderId)
  }

  /** The virtual `menuItems` of a menu: exactly the items whose `dailyMenuId` is its id, in order. */
  function ItemsOfMenu(items: seq<MenuItem>, menuId: nat): (r: seq<MenuItem>)
    ensures forall x | x in r :: x in items && x.dailyMenuId == menuId
    ensures forall x | x in items && x.dailyMenuId == menuId :: x in r
  {
    Seqs.Filter(items, (x: MenuItem) => x.dailyMenuId == menuId)
  }

  /** What `MenuItem.deleteMany({ dailyMenu })` leaves: the items of every other menu, in order. */
  function ItemsNotOfMenu(items: seq<MenuItem>, menuId: nat): (r: seq<MenuItem>)
    ensures forall x | x in r :: x in items && x.dailyMenuId != menuId
    ensures forall x | x in items && x.dailyMenuId != menuId :: x in r
  {
    Seqs.Filter(items, (x: MenuItem) => x.dailyMenuId != menuId)
  }

  // ---------------------------------------------------------------- lookups by id

  /** `User.findById(id)`: the position of the user with that id. */
  function FindUser(users: seq<User>, id: nat): (r: Option<nat>)
    ensures r.Some? ==> r.value < |users| && users[r.value].id == id
    ensures r.None? <==> forall u | u in users :: u.id != id
  {
    Seqs.FindFirst(users, (u: User) => u.id == id)
  }

  /**
   * `User.findOne({ email })`: the query runs the `lowercase` and `trim` setters on `email`
   * too, so it finds the user whose stored email is the normalized one.
   */
  function FindByEmail(users: seq<User>, email: string): (r: Option<nat>)
    ensures r.Some? ==> r.value < |users| && users[r.value].email == NormalizeEmail(email)
    ensures r.None? <==> forall u | u in users :: u.email != NormalizeEmail(email)
  {
    Seqs.FindFirst(users, (u: User) => u.email == NormalizeEmail(email))
  }

  /** `MealPackage.findById(id)`: the position of the template with that id. */
  function FindTemplate(mealPackages: seq<MealPackage>, id: nat): (r: Option<nat>)
    ensures r.Some? ==> r.value < |mealPackages| && mealPackages[r.value].id == id
    ensures r.None? <==> forall p | p in mealPackages :: p.id != id
  {
    Seqs.FindFirst(mealPackages, (p: MealPackage) => p.id == id)
  }

  /** `PackagePurchaseRequest.findById(id)`: the position of the request with that id. */
  function FindRequest(requests: seq<PurchaseRequest>, id: nat): (r: Option<nat>)
    ensures r.Some? ==> r.value < |requests| && requests[r.value].id == id
    ensures r.None? <==> forall q | q in requests :: q.id != id
  {
    Seqs.FindFirst(requests, (q: PurchaseRequest) => q.id == id)
  }

  // ---------------------------------------------------------------- purchased packages

  /** `isActive: true, remainingTurns: { $gt: 0 }, expiresAt: { $gt: now }`: a package that can still be spent. */
  predicate Usable(p: UserPackage, now: int) {
    p.isActive && p.remainingTurns > 0 && p.expiresAt > now
  }

  // ---------------------------------------------------------------- purchase requests

  /** A request is processed exactly when it has left `pending`, and then both stamps are set. */
  predicate ConsistentRequest(r: PurchaseRequest) {
    if r.status == Pending then r.processedAt.None? && r.processedBy.None?
    else r.processedAt.Some? && r.processedBy.Some?
  }
}
