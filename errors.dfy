/**
 * The closed error taxonomy: a `ServiceError` is a (code, message, HTTP status) triple and
 * `ErrorTable` holds the named, reusable ones. Anything else a handler can throw (a
 * Mongoose validation failure, a duplicate key, a property read on `null`) is `Other`,
 * identified by its `name` as the error handler sees it.
 */
module Errors {
  import opened Wrappers

  datatype ServiceError = ServiceError(code: string, message: string, statusCode: int)

  /** `new ServiceError(code, message, statusCode?)`: the status defaults to 400. */
  function NewServiceError(code: string, message: string, statusCode: Option<int>): (e: ServiceError)
    ensures e.code == code && e.message == message
    ensures statusCode.None? ==> e.statusCode == 400
    ensures statusCode.Some? ==> e.statusCode == statusCode.value
  {
    ServiceError(code, message, statusCode.GetOr(400))
  }

  /** What a request handler throws. */
  datatype Thrown =
    | Service(error: ServiceError)
    | Other(name: string, message: string)

  /** The outcome of a handler: its response data, or what it threw. */
  datatype Result<+T> = Ok(value: T) | Err(thrown: Thrown) {
    /** The code of a thrown `ServiceError`, or "" for any other outcome. */
    function Code(): string {
      if Err? && thrown.Service? then thrown.error.code else ""
    }
  }

  function Fail<T>(code: string, message: string, statusCode: int): Result<T> {
    Err(Service(ServiceError(code, message, statusCode)))
  }

  /** One schema path a validator refused, with the message its schema declares. */
  datatype PathFailure = PathFailure(path: string, message: string)

  /** `"path: message"` entries joined by `", "`, as a validation error lists them. */
  function JoinFailures(failures: seq<PathFailure>): string {
    if failures == [] then ""
    else
      var head := failures[0].path + ": " + failures[0].message;
      if |failures| == 1 then head else head + ", " + JoinFailures(failures[1..])
  }

  /**
   * A schema validator refused a document of `model`: the error named ValidationError whose
   * message lists every refused path in schema order.
   */
  function Invalid(model: string, failures: seq<PathFailure>): (t: Thrown)
    requires failures != []
    ensures t.Other? && t.name == "ValidationError"
  {
    Other("ValidationError", model + " validation failed: " + JoinFailures(failures))
  }

  /**
   * An update validator (`runValidators` on a `findByIdAndUpdate`) refused a field: the same
   * ValidationError, but built without a document, so its message opens with the bare
   * "Validation failed" and names no model.
   */
  function UpdateInvalid(failures: seq<PathFailure>): (t: Thrown)
    requires failures != []
    ensures t.Other? && t.name == "ValidationError"
    ensures forall model :: t != Invalid(model, failures)
  {
    var t := Other("ValidationError", "Validation failed: " + JoinFailures(failures));
    forall model ensures t != Invalid(model, failures) {
      NoModelInMessage(model, JoinFailures(failures));
    }
    t
  }

  /** No model name, not even the empty one, turns a document error's message into an update's. */
  lemma NoModelInMessage(model: string, listed: string)
    ensures "Validation failed: " + listed != model + " validation failed: " + listed
  {
    if model == [] {
      assert (model + " validation failed: " + listed)[0] == ' ';
    }
  }

  /** A property was read on a populated reference whose target no longer exists. */
  const NullReference: Thrown := Other("TypeError", "Cannot read properties of null")

  /** The keys of the `Errors` table. */
  datatype ErrorKey =
    | InvalidCredentials
    | UserNotFound
    | UserBlocked
    | UserNotVerified
    | EmailExists
    | InvalidOtp
    | NoToken
    | InvalidToken
    | AdminOnly
    | PackageNotFound
    | NoActivePackage
    | PackageExpired
    | NoTurnsLeft
    | RequestAlreadyExists
    | MenuNotFound
    | MenuLocked
    | OutsideOrderTime
    | OrderNotFound
    | AlreadyOrdered

  /** The name each entry is filed under in the `Errors` table, which is also its code. */
  function KeyName(k: ErrorKey): string {
    match k
    case InvalidCredentials => "INVALID_CREDENTIALS"
    case UserNotFound => "USER_NOT_FOUND"
    case UserBlocked => "USER_BLOCKED"
    case UserNotVerified => "USER_NOT_VERIFIED"
    case EmailExists => "EMAIL_EXISTS"
    case InvalidOtp => "INVALID_OTP"
    case NoToken => "NO_TOKEN"
    case InvalidToken => "INVALID_TOKEN"
    case AdminOnly => "ADMIN_ONLY"
    case PackageNotFound => "PACKAGE_NOT_FOUND"
    case NoActivePackage => "NO_ACTIVE_PACKAGE"
    case PackageExpired => "PACKAGE_EXPIRED"
    case NoTurnsLeft => "NO_TURNS_LEFT"
    case RequestAlreadyExists => "REQUEST_ALREADY_EXISTS"
    case MenuNotFound => "MENU_NOT_FOUND"
    case MenuLocked => "MENU_LOCKED"
    case OutsideOrderTime => "OUTSIDE_ORDER_TIME"
    case OrderNotFound => "ORDER_NOT_FOUND"
    case AlreadyOrdered => "ALREADY_ORDERED"
  }

  /** The Vietnamese message of each entry. */
  function KeyMessage(k: ErrorKey): string {
    match k
    case InvalidCredentials => "Email hoặc mật khẩu không đúng"
    case UserNotFound => "Không tìm thấy người dùng"
    case UserBlocked => "Tài khoản đã bị khóa"
    case UserNotVerified => "Tài khoản chưa được xác thực"
    case EmailExists => "Email đã được sử dụng"
    case InvalidOtp => "Mã OTP không đúng hoặc đã hết hạn"
    case NoToken => "Không có token xác thực"
    case InvalidToken => "Token không hợp lệ"
    case AdminOnly => "Chỉ admin mới có quyền thực hiện"
    case PackageNotFound => "Không tìm thấy gói đặt cơm"
    case NoActivePackage => "Bạn chưa có gói đặt cơm nào khả dụng"
    case PackageExpired => "Gói đặt cơm đã hết hạn"
    case NoTurnsLeft => "Gói đặt cơm đã hết lượt"
    case RequestAlreadyExists => "Bạn đã có yêu cầu mua gói đang chờ xử lý"
    case MenuNotFound => "Không tìm thấy menu"
    case MenuLocked => "Menu đã bị khóa, không thể đặt cơm"
    case OutsideOrderTime => "Ngoài thời gian đặt cơm (10:00 - 10:45)"
    case OrderNotFound => "Không tìm thấy đơn hàng"
    case AlreadyOrdered => "Bạn đã đặt cơm hôm nay rồi"
  }

  /**
   * The HTTP status of each entry follows from its kind: 401 for credentials and tokens, 403
   * for account state and role, 404 for failed lookups, 400 for every business rule.
   */
  function KeyStatus(k: ErrorKey): (status: int)
    ensures status == 401 <==> IsUnauthenticated(k)
    ensures status == 403 <==> IsForbidden(k)
    ensures status == 404 <==> IsNotFound(k)
    ensures status in {400, 401, 403, 404}
  {
    match k
    case InvalidCredentials => 401
    case UserNotFound => 404
    case UserBlocked => 403
    case UserNotVerified => 403
    case EmailExists => 400
    case InvalidOtp => 400
    case NoToken => 401
    case InvalidToken => 401
    case AdminOnly => 403
    case PackageNotFound => 404
    case NoActivePackage => 400
    case PackageExpired => 400
    case NoTurnsLeft => 400
    case RequestAlreadyExists => 400
    case MenuNotFound => 404
    case MenuLocked => 400
    case OutsideOrderTime => 400
    case OrderNotFound => 404
    case AlreadyOrdered => 400
  }

  /** The `Errors` table: code, message and HTTP status of each entry. */
  function ErrorTable(k: ErrorKey): ServiceError {
    ServiceError(KeyName(k), KeyMessage(k), KeyStatus(k))
  }

  /** A table error thrown by a handler. */
  function Raise<T>(k: ErrorKey): (r: Result<T>)
    ensures r.Err? && r.thrown.Service? && r.Code() == KeyName(k)
  {
    Err(Service(ErrorTable(k)))
  }

  /** Credential and token errors. */
  predicate IsUnauthenticated(k: ErrorKey) {
    k == InvalidCredentials || k == NoToken || k == InvalidToken
  }

  /** Account-state and role errors. */
  predicate IsForbidden(k: ErrorKey) {
    k == UserBlocked || k == UserNotVerified || k == AdminOnly
  }

  /** Lookups of a user, package, menu or order that found nothing. */
  predicate IsNotFound(k: ErrorKey) {
    k == UserNotFound || k == PackageNotFound || k == MenuNotFound || k == OrderNotFound
  }
}
