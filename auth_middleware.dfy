/**
 * The authentication and authorization middleware
 * (backend/internal/middleware/auth.go): the `Authorization: Bearer <token>`
 * header check, the claims read from a verified token, and the role-level
 * comparison of `RequireMinRole`. JWT verification is a parameter.
 */
module AuthMiddleware {
  import opened Wrappers

  // ── The Authorization header ─────────────────────────────────────────

  /** The index of the first `c` in `s`, if any. */
  function IndexOf(s: string, c: char): (k: Option<nat>)
    ensures k.Some? ==> k.value < |s| && s[k.value] == c && c !in s[..k.value]
    ensures k.None? ==> c !in s
    decreases |s|
  {
    if s == [] then None
    else if s[0] == c then Some(0)
    else
      var rest := IndexOf(s[1..], c);
      if rest.None? then None
      else
        assert s[..rest.value + 1] == [s[0]] + s[1..][..rest.value];
        Some(rest.value + 1)
  }

  /** `strings.SplitN(s, " ", 2)`: the text before the first space and all that follows it. */
  function SplitAtSpace(s: string): (parts: seq<string>)
    ensures 1 <= |parts| <= 2
    ensures |parts| == 1 <==> ' ' !in s
    ensures |parts| == 1 ==> parts[0] == s
    ensures |parts| == 2 ==> parts[0] + " " + parts[1] == s && ' ' !in parts[0]
  {
    var k := IndexOf(s, ' ');
    if k.None? then [s]
    else
      assert s == s[..k.value] + " " + s[k.value + 1..];
      [s[..k.value], s[k.value + 1..]]
  }

  /** The token a well-formed header carries: two parts, the first exactly `Bearer`. */
  function BearerToken(header: string): (token: Option<string>)
    ensures token.Some? ==> header == "Bearer " + token.value
  {
    var parts := SplitAtSpace(header);
    if |parts| != 2 || parts[0] != "Bearer" then None else Some(parts[1])
  }

  /** Every `Bearer ` header is accepted, and its token is all the rest, spaces and empty text included. */
  lemma BearerTokenIsRest(token: string)
    ensures BearerToken("Bearer " + token) == Some(token)
  {
    var h := "Bearer " + token;
    assert h[6] == ' ' && ' ' !in h[..6];
    assert h[..6] == "Bearer" && h[7..] == token;
  }

  // ── Claims ───────────────────────────────────────────────────────────

  /** A claim value of a decoded token: a JSON string, or any other JSON value. */
  datatype ClaimValue = Text(s: string) | OtherValue

  type Claims = map<string, ClaimValue>

  /** `claims[key].(string)` with the ok flag discarded: "" unless the claim is a string. */
  function StringClaim(claims: Claims, key: string): (v: string)
    ensures key in claims && claims[key].Text? ==> v == claims[key].s
    ensures !(key in claims && claims[key].Text?) ==> v == ""
  {
    if key in claims && claims[key].Text? then claims[key].s else ""
  }

  /** The outcome of the `Auth` middleware. */
  datatype AuthResult = Unauthorized(message: string) | Identity(userId: string, role: string)

  /**
   * The `Auth` middleware. `verify` stands for `jwt.Parse` with the HMAC
   * secret: the claims of a valid, unexpired token, or None.
   */
  function Authenticate(header: string, verify: string -> Option<Claims>): (r: AuthResult)
    ensures header == "" ==> r == Unauthorized("Authorization header required")
    ensures header != "" && BearerToken(header).None? ==>
      r == Unauthorized("Invalid authorization format. Use: Bearer <token>")
    ensures r.Identity? <==>
      BearerToken(header).Some? && verify(BearerToken(header).value).Some? &&
      StringClaim(verify(BearerToken(header).value).value, "userId") != ""
    ensures r.Identity? ==> r.userId != "" && header == "Bearer " + BearerToken(header).value
    ensures BearerToken(header).Some? && verify(BearerToken(header).value).None? ==>
      r == Unauthorized("Invalid or expired token")
    ensures r.Identity? ==>
      var claims := verify(BearerToken(header).value).value;
      r.userId == StringClaim(claims, "userId") && r.role == StringClaim(claims, "role")
  {
    if header == "" then Unauthorized("Authorization header required")
    else
      var token := BearerToken(header);
      if token.None? then Unauthorized("Invalid authorization format. Use: Bearer <token>")
      else
        var claims := verify(token.value);
        if claims.None? then Unauthorized("Invalid or expired token")
        else
          var userId := StringClaim(claims.value, "userId");
          if userId == "" then Unauthorized("Invalid token: missing user ID")
          else Identity(userId, StringClaim(claims.value, "role"))
  }

  /** A verified token whose `userId` is missing, empty or not a string is refused. */
  lemma MissingUserIdRejected(token: string, verify: string -> Option<Claims>)
    requires verify(token).Some? && StringClaim(verify(token).value, "userId") == ""
    ensures Authenticate("Bearer " + token, verify) == Unauthorized("Invalid token: missing user ID")
  {
    BearerTokenIsRest(token);
  }

  // ── Roles ────────────────────────────────────────────────────────────

  /** `roleLevel`. */
  const RoleLevels: map<string, nat> := map["viewer" := 1, "admin" := 2]

  /** A role's level; a role not in the table has level 0 (Go's zero value). */
  function RoleLevel(role: string): (level: nat)
    ensures role in RoleLevels ==> level == RoleLevels[role]
    ensures role !in RoleLevels ==> level == 0
  {
    if role in RoleLevels then RoleLevels[role] else 0
  }

  /** `RequireMinRole(minRole)` lets a request through exactly when its role's level reaches the minimum's. */
  function Permits(minRole: string, userRole: string): (ok: bool)
    ensures ok <==> RoleLevel(userRole) >= RoleLevel(minRole)
  {
    !(RoleLevel(userRole) < RoleLevel(minRole))
  }

  /** The outcome of `RequireMinRole`: through, or 403 "Insufficient permissions". */
  function RequireMinRole(minRole: string, userRole: string): (denial: Option<string>)
    ensures denial.None? <==> Permits(minRole, userRole)
    ensures denial.Some? ==> denial.value == "Insufficient permissions"
  {
    if RoleLevel(userRole) < RoleLevel(minRole) then Some("Insufficient permissions") else None
  }

  /** Admin passes every minimum, viewer passes `viewer` but not `admin`. */
  lemma RoleHierarchy(minRole: string)
    ensures Permits(minRole, "admin")
    ensures Permits("viewer", "viewer") && !Permits("admin", "viewer")
  {
  }

  /** A role of a higher level passes whatever a role of a lower level passes. */
  lemma PermitsMonotone(minRole: string, lower: string, higher: string)
    requires RoleLevel(lower) <= RoleLevel(higher) && Permits(minRole, lower)
    ensures Permits(minRole, higher)
  {
  }

  /** A minimum role missing from the table has level 0, so every role passes, unknown or empty ones included. */
  lemma UnknownMinimumAdmitsAll(minRole: string, userRole: string)
    requires minRole !in RoleLevels
    ensures Permits(minRole, userRole)
  {
  }

  /** An unknown or empty role is refused by any known minimum. */
  lemma UnknownRoleRefused(minRole: string, userRole: string)
    requires minRole in RoleLevels && userRole !in RoleLevels
    ensures !Permits(minRole, userRole)
  {
  }
}
