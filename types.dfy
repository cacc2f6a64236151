/**
 * The shared enumerations and the token payload. Every enumeration is stored and sent as
 * its lower-case name; `Parse*` reads a name back and refuses every other string.
 */
module Types {
  import opened Wrappers

  datatype UserRole = Admin | User

  function RoleName(r: UserRole): (s: string)
    ensures ParseRole(s) == Some(r)
  {
    match r
    case Admin => "admin"
    case User => "user"
  }

  function ParseRole(s: string): (r: Option<UserRole>)
    ensures r.Some? <==> (s == "admin" || s == "user")
  {
    if s == "admin" then Some(Admin) else if s == "user" then Some(User) else None
  }

  /** One package type is shared by catalog templates, purchased packages and orders. */
  datatype PackageType = Normal | NoRice

  function PackageTypeName(t: PackageType): (s: string)
    ensures ParsePackageType(s) == Some(t)
  {
    match t
    case Normal => "normal"
    case NoRice => "no-rice"
  }

  function ParsePackageType(s: string): (t: Option<PackageType>)
    ensures t.Some? <==> (s == "normal" || s == "no-rice")
  {
    if s == "normal" then Some(Normal) else if s == "no-rice" then Some(NoRice) else None
  }

  datatype PurchaseStatus = Pending | Approved | Rejected

  function StatusName(st: PurchaseStatus): (s: string)
    ensures ParseStatus(s) == Some(st)
  {
    match st
    case Pending => "pending"
    case Approved => "approved"
    case Rejected => "rejected"
  }

  function ParseStatus(s: string): (st: Option<PurchaseStatus>)
    ensures st.Some? <==> (s == "pending" || s == "approved" || s == "rejected")
  {
    if s == "pending" then Some(Pending)
    else if s == "approved" then Some(Approved)
    else if s == "rejected" then Some(Rejected)
    else None
  }

  datatype MenuCategory = New | Daily | Special

  function CategoryName(c: MenuCategory): (s: string)
    ensures ParseCategory(s) == Some(c)
  {
    match c
    case New => "new"
    case Daily => "daily"
    case Special => "special"
  }

  function ParseCategory(s: string): (c: Option<MenuCategory>)
    ensures c.Some? <==> (s == "new" || s == "daily" || s == "special")
  {
    if s == "new" then Some(New)
    else if s == "daily" then Some(Daily)
    else if s == "special" then Some(Special)
    else None
  }

  /** What a signed token carries: the user's id, email and role, nothing else. */
  datatype JwtPayload = JwtPayload(userId: nat, email: string, role: UserRole)
}
