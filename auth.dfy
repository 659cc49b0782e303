/** The demo login endpoint and the profile endpoint. */
module Auth {
  import opened Wrappers
  import opened Strings
  import opened ValueTypes
  import opened RbacConstants
  import opened Claims

  // ---------------------------------------------------------------------------------------
  // Login
  // ---------------------------------------------------------------------------------------

  /** A login request body; a missing or null field reads as `None`. */
  datatype LoginRequest = LoginRequest(username: Option<string>, password: Option<string>)

  datatype LoginResponse = LoginResponse(token: string, username: string, roles: seq<string>, expiresAt: DateTime)

  datatype LoginResult = BadRequest(message: string) | Unauthorized | Ok(response: LoginResponse)

  /** How long an issued token is said to live. */
  const TokenLifetimeMinutes: int := 60

  /** The demo account of each role: lower-case user name and password. */
  function DemoAccount(r: Role): (string, string) {
    match r
    case Admin => ("admin", "admin123")
    case Manager => ("manager", "manager123")
    case Employee => ("employee", "employee123")
    case ReadOnly => ("readonly", "readonly123")
  }

  /** The roles granted to a lower-cased user name and a password: the credential switch. */
  function CredentialRoles(lowerUsername: string, password: string): (roles: seq<Role>)
    ensures |roles| <= 1
    ensures forall role :: roles == [role] ==> (lowerUsername, password) == DemoAccount(role)
  {
    if lowerUsername == "admin" && password == "admin123" then [Admin]
    else if lowerUsername == "manager" && password == "manager123" then [Manager]
    else if lowerUsername == "employee" && password == "employee123" then [Employee]
    else if lowerUsername == "readonly" && password == "readonly123" then [ReadOnly]
    else []
  }

  /** The four demo user names differ pairwise (they already differ in length or in their first letter). */
  lemma DemoUsersDistinct(a: Role, b: Role)
    ensures DemoAccount(a).0 == DemoAccount(b).0 ==> a == b
  {
    if DemoAccount(a).0 == DemoAccount(b).0 {
      assert DemoAccount(a).0[0] == DemoAccount(b).0[0];
    }
  }

  /** The switch grants `role`, alone, exactly for that role's demo account; every other
      combination, a known user name with a wrong password included, gets no role. */
  lemma {:induction false} CredentialRolesIff(lowerUsername: string, password: string)
    ensures |CredentialRoles(lowerUsername, password)| <= 1
    ensures forall role :: CredentialRoles(lowerUsername, password) == [role] <==> (lowerUsername, password) == DemoAccount(role)
    ensures CredentialRoles(lowerUsername, password) == [] <==> forall role :: (lowerUsername, password) != DemoAccount(role)
  {
    forall role | (lowerUsername, password) == DemoAccount(role)
      ensures CredentialRoles(lowerUsername, password) == [role]
    {
      forall other: Role | other != role ensures DemoAccount(other).0 != lowerUsername {
        DemoUsersDistinct(other, role);
      }
      match role
      case Admin =>
      case Manager => assert DemoAccount(Admin).0 != lowerUsername;
      case Employee =>
        assert DemoAccount(Admin).0 != lowerUsername && DemoAccount(Manager).0 != lowerUsername;
      case ReadOnly =>
        assert DemoAccount(Admin).0 != lowerUsername && DemoAccount(Manager).0 != lowerUsername;
        assert DemoAccount(Employee).0 != lowerUsername;
    }
    if CredentialRoles(lowerUsername, password) != [] {
      var role := CredentialRoles(lowerUsername, password)[0];
      assert (lowerUsername, password) == DemoAccount(role);
    }
  }

  /** The login endpoint. `generateToken` is the token service and `now` the clock. */
  function Login(request: LoginRequest, generateToken: (string, seq<string>) -> string, now: DateTime): (r: LoginResult)
    ensures r.BadRequest? <==> IsNullOrEmpty(request.username) || IsNullOrEmpty(request.password)
    ensures r.Ok? ==>
      && request.username.Some?
      && r.response.username == request.username.value
      && |r.response.roles| == 1
      && r.response.token == generateToken(request.username.value, r.response.roles)
      && r.response.expiresAt.ticks == now.ticks + TokenLifetimeMinutes * TicksPerMinute
  {
    if IsNullOrEmpty(request.username) || IsNullOrEmpty(request.password) then
      BadRequest("Username and password are required")
    else
      var username, password := request.username.value, request.password.value;
      var roles := Sequences.Map(CredentialRoles(ToLower(username), password), RoleName);
      if |roles| == 0 then Unauthorized
      else
        CredentialRolesIff(ToLower(username), password);
        Ok(LoginResponse(
          token := generateToken(username, roles),
          username := username,
          roles := roles,
          expiresAt := AddMinutes(now, TokenLifetimeMinutes)))
  }

  /** A login with both fields present succeeds with exactly the role whose demo account
      matches the lower-cased user name and the password, and is refused otherwise. */
  lemma {:induction false} LoginDecision(username: string, password: string, generateToken: (string, seq<string>) -> string, now: DateTime)
    requires username != "" && password != ""
    ensures var r := Login(LoginRequest(Some(username), Some(password)), generateToken, now);
      && (forall role :: r.Ok? && r.response.roles == [RoleName(role)] <==> (ToLower(username), password) == DemoAccount(role))
      && (r.Unauthorized? <==> forall role :: (ToLower(username), password) != DemoAccount(role))
  {
    var r := Login(LoginRequest(Some(username), Some(password)), generateToken, now);
    CredentialRolesIff(ToLower(username), password);
    forall role ensures r.Ok? && r.response.roles == [RoleName(role)] <==> (ToLower(username), password) == DemoAccount(role) {
      if r.Ok? && r.response.roles == [RoleName(role)] {
        var granted := CredentialRoles(ToLower(username), password)[0];
        assert RoleName(granted) == RoleName(role);
        RoleNameInjective(granted, role);
      }
    }
  }

  /** The user name is matched without regard to ASCII case and echoed back as typed;
      the password is matched exactly. */
  lemma LoginExamples(generateToken: (string, seq<string>) -> string, now: DateTime)
    ensures var r := Login(LoginRequest(Some("ADMIN"), Some("admin123")), generateToken, now);
      r.Ok? && r.response.roles == ["Admin"] && r.response.username == "ADMIN"
    ensures Login(LoginRequest(Some("admin"), Some("Admin123")), generateToken, now).Unauthorized?
    ensures Login(LoginRequest(Some("manager"), Some("admin123")), generateToken, now).Unauthorized?
    ensures Login(LoginRequest(Some("admin"), None), generateToken, now).BadRequest?
  {
    assert ToLower("ADMIN") == "admin";
    assert ToLower("admin") == "admin";
    assert ToLower("manager") == "manager";
  }

  // ---------------------------------------------------------------------------------------
  // Profile
  // ---------------------------------------------------------------------------------------

  datatype Identity = Identity(isAuthenticated: bool, name: Option<string>)

  /** The caller as the bearer handler presents it: an identity, if any, and its claims. */
  datatype Principal = Principal(identity: Option<Identity>, claims: seq<Claim>)

  datatype ProfileResponse = ProfileResponse(username: Option<string>, roles: seq<string>, claims: seq<Claim>)

  datatype ProfileResult = ProfileUnauthorized | ProfileOk(profile: ProfileResponse)

  predicate IsAuthenticated(user: Principal) {
    user.identity.Some? && user.identity.value.isAuthenticated
  }

  /** The profile endpoint: who the caller is, which roles its claims carry, and all its claims. */
  function Profile(user: Principal): (r: ProfileResult)
    ensures r.ProfileUnauthorized? <==> !IsAuthenticated(user)
    ensures r.ProfileOk? ==>
      && r.profile.username == user.identity.value.name
      && r.profile.claims == user.claims
      && (forall v :: v in r.profile.roles <==> exists c :: c in user.claims && IsRoleClaim(c) && c.value == v)
  {
    if !IsAuthenticated(user) then ProfileUnauthorized
    else ProfileOk(ProfileResponse(user.identity.value.name, RoleClaimValues(user.claims), user.claims))
  }

  /** The profile lists the caller's role claims in the order the claims come. */
  lemma ProfileRolesInClaimOrder(identity: Identity, before: seq<Claim>, after: seq<Claim>)
    requires identity.isAuthenticated
    ensures Profile(Principal(Some(identity), before + after)).profile.roles
         == RoleClaimValues(before) + RoleClaimValues(after)
  {
    RoleClaimValuesAppend(before, after);
  }
}
