/**
 * The authentication middlewares: `auth` reads a bearer token from the `Authorization`
 * header and attaches its decoded payload as the request user; `adminOnly`, which runs
 * after it, lets only administrators through. Token verification is the `verify`
 * parameter: the decoded payload, or `None` for a bad signature, a malformed or an
 * expired token.
 */
module AuthGuard {
  import opened Wrappers
  import opened Types
  import opened Errors
  import Text

  const BearerPrefix: string := "Bearer "

  predicate StartsWith(s: string, prefix: string) {
    |prefix| <= |s| && s[..|prefix|] == prefix
  }

  /** `authHeader.split(" ")[1]`: the second space-separated segment of a bearer header. */
  function BearerToken(header: string): (token: string)
    requires StartsWith(header, BearerPrefix)
    ensures ' ' !in token
  {
    var parts := Text.Split(header, ' ');
    HasSecondSegment(header);
    parts[1]
  }

  lemma HasSecondSegment(header: string)
    requires StartsWith(header, BearerPrefix)
    ensures |Text.Split(header, ' ')| >= 2
  {
    var k := Text.IndexOf(header, ' ');
    assert header[6] == ' ';
    assert header[..6] == "Bearer";
    assert ' ' !in header[..6];
    assert k == 6;
  }

  /** A header built as `"Bearer " + token` yields that token back, provided it holds no space. */
  lemma BearerTokenOfHeader(token: string)
    requires ' ' !in token
    ensures StartsWith(BearerPrefix + token, BearerPrefix)
    ensures BearerToken(BearerPrefix + token) == token
  {
    var parts := ["Bearer", token];
    assert Text.Join(parts, ' ') == BearerPrefix + token;
    assert ' ' !in parts[0];
    Text.SplitJoin(parts, ' ');
  }

  /** The two ways `auth` turns a request away. */
  function NoToken<T>(): Result<T> {
    Fail("NO_TOKEN", "Không có token xác thực", 401)
  }

  function InvalidToken<T>(): Result<T> {
    Fail("INVALID_TOKEN", "Token không hợp lệ hoặc đã hết hạn", 401)
  }

  /**
   * `auth`: NO_TOKEN when the header is missing or does not start with `"Bearer "`;
   * otherwise the token is verified, and any verification failure is INVALID_TOKEN. On
   * success the request user is exactly the decoded payload.
   */
  function Authenticate(header: Option<string>, verify: string -> Option<JwtPayload>): (r: Result<JwtPayload>)
    ensures (header.None? || !StartsWith(header.value, BearerPrefix)) <==> r.Code() == "NO_TOKEN"
    ensures r.Ok? <==>
      header.Some? && StartsWith(header.value, BearerPrefix) && verify(BearerToken(header.value)).Some?
    ensures r.Ok? ==> r.value == verify(BearerToken(header.value)).value
    ensures r.Err? ==> r.thrown.Service? && r.thrown.error.statusCode == 401
  {
    if header.None? || !StartsWith(header.value, BearerPrefix) then NoToken()
    else
      match verify(BearerToken(header.value))
      case None => InvalidToken()
      case Some(payload) => Ok(payload)
  }

  /**
   * `adminOnly`: NO_TOKEN when no user is attached, ADMIN_ONLY (403) for any role other
   * than admin; an administrator passes.
   */
  function AdminOnly(user: Option<JwtPayload>): (r: Result<()>)
    ensures r.Ok? <==> user.Some? && user.value.role == Admin
    ensures user.None? ==> r.Code() == "NO_TOKEN"
    ensures user.Some? && user.value.role != Admin ==>
      r.Err? && r.thrown == Service(ServiceError("ADMIN_ONLY", "Chỉ admin mới có quyền thực hiện", 403))
  {
    if user.None? then NoToken()
    else if user.value.role != Admin then Fail("ADMIN_ONLY", "Chỉ admin mới có quyền thực hiện", 403)
    else Ok(())
  }

  /** Behind both guards, a request with a well-formed header goes through exactly for an admin token. */
  lemma AdminRouteAdmits(token: string, verify: string -> Option<JwtPayload>)
    requires ' ' !in token
    ensures var user := Authenticate(Some(BearerPrefix + token), verify);
      user.Ok? && AdminOnly(Some(user.value)).Ok? <==>
      verify(token).Some? && verify(token).value.role == Admin
  {
    BearerTokenOfHeader(token);
  }
}
