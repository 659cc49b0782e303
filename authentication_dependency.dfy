/** Start-up configuration of JWT bearer authentication and of the role-based authorization
    policies. */
module AuthenticationDependency {
  import opened Wrappers
  import opened Strings
  import opened RbacConstants

  // ---------------------------------------------------------------------------------------
  // Token validation settings
  // ---------------------------------------------------------------------------------------

  /** The `JwtSettings` configuration section; an absent key reads as `None`. */
  datatype JwtSettings = JwtSettings(secretKey: Option<string>, issuer: Option<string>, audience: Option<string>)

  /** The token validation parameters the bearer handler is configured with. The signing
      key is kept as the configured text; its UTF-8 encoding is not modelled. */
  datatype TokenValidationParameters = TokenValidationParameters(
    validateIssuerSigningKey: bool,
    issuerSigningKey: string,
    validateIssuer: bool,
    validIssuer: Option<string>,
    validateAudience: bool,
    validAudience: Option<string>,
    validateLifetime: bool,
    clockSkewTicks: int)

  /** A missing secret key stops start-up; an empty one is refused when the signing key is
      built from it, since a symmetric key of length zero is invalid. */
  datatype ConfigurationError = SecretKeyNotConfigured | EmptySigningKey

  /** The validation parameters built from the settings, or the configuration error. */
  function TokenValidation(settings: JwtSettings): (r: Result<TokenValidationParameters, ConfigurationError>)
    ensures r.Failure? <==> settings.secretKey.None? || settings.secretKey == Some("")
    ensures r.Failure? ==> r.error == (if settings.secretKey.None? then SecretKeyNotConfigured else EmptySigningKey)
    ensures r.Success? ==>
      && r.value.validateIssuerSigningKey && r.value.issuerSigningKey == settings.secretKey.value
      && (r.value.validateIssuer <==> !IsNullOrEmpty(settings.issuer))
      && (r.value.validateAudience <==> !IsNullOrEmpty(settings.audience))
      && r.value.validIssuer == settings.issuer && r.value.validAudience == settings.audience
      && r.value.validateLifetime && r.value.clockSkewTicks == 0
  {
    match settings.secretKey
    case None => Failure(SecretKeyNotConfigured)
    case Some("") => Failure(EmptySigningKey)
    case Some(key) =>
      Success(TokenValidationParameters(
        validateIssuerSigningKey := true,
        issuerSigningKey := key,
        validateIssuer := !IsNullOrEmpty(settings.issuer),
        validIssuer := settings.issuer,
        validateAudience := !IsNullOrEmpty(settings.audience),
        validAudience := settings.audience,
        validateLifetime := true,
        clockSkewTicks := 0))
  }

  // ---------------------------------------------------------------------------------------
  // Authorization policies
  // ---------------------------------------------------------------------------------------

  /** The roles each policy is registered with (`RequireRole`), in registration order. */
  function RequiredRoles(p: Policy): (roles: seq<Role>)
    ensures Admin in roles && ReadOnly !in roles
  {
    match p
    case AdminOnly => [Admin]
    case ManagerOnly => [Manager, Admin]
    case ReadEmployees => [Admin, Manager, Employee]
    case CreateEmployees => [Admin, Manager]
    case UpdateEmployees => [Admin, Manager]
    case DeleteEmployees => [Admin]
  }

  function AllowedRoles(p: Policy): set<Role> {
    set r | r in RequiredRoles(p)
  }

  /** A caller whose role claims have the values `callerRoles` satisfies `p` when it holds
      at least one of the policy's roles. */
  predicate Grants(callerRoles: set<string>, p: Policy)
    ensures Grants(callerRoles, p) <==> exists r :: r in AllowedRoles(p) && RoleName(r) in callerRoles
  {
    exists i :: 0 <= i < |RequiredRoles(p)| && RoleName(RequiredRoles(p)[i]) in callerRoles
  }

  /** The table, policy by policy. */
  lemma PolicyTable()
    ensures AllowedRoles(AdminOnly) == {Admin}
    ensures AllowedRoles(DeleteEmployees) == {Admin}
    ensures AllowedRoles(ManagerOnly) == {Manager, Admin}
    ensures AllowedRoles(CreateEmployees) == {Manager, Admin}
    ensures AllowedRoles(UpdateEmployees) == {Manager, Admin}
    ensures AllowedRoles(ReadEmployees) == {Admin, Manager, Employee}
  {
    assert Admin in AllowedRoles(AdminOnly);
    assert Manager in AllowedRoles(ManagerOnly) && Admin in AllowedRoles(ManagerOnly);
    assert Manager in AllowedRoles(CreateEmployees) && Admin in AllowedRoles(CreateEmployees);
    assert Manager in AllowedRoles(UpdateEmployees) && Admin in AllowedRoles(UpdateEmployees);
    assert Admin in AllowedRoles(ReadEmployees) && Manager in AllowedRoles(ReadEmployees);
    assert Employee in AllowedRoles(ReadEmployees) && Admin in AllowedRoles(DeleteEmployees);
  }

  /** A caller holding the single role `r` satisfies `p` exactly when `p` allows `r`. */
  lemma {:induction false} GrantsSingleRole(r: Role, p: Policy)
    ensures Grants({RoleName(r)}, p) <==> r in AllowedRoles(p)
  {
    forall q | q in AllowedRoles(p) && RoleName(q) in {RoleName(r)} ensures q == r {
      RoleNameInjective(q, r);
    }
  }

  /** Adding roles to a caller never turns a grant into a denial. */
  lemma GrantsMonotonic(fewer: set<string>, more: set<string>, p: Policy)
    requires fewer <= more
    ensures Grants(fewer, p) ==> Grants(more, p)
  {
  }

  /** Admin satisfies every policy; ReadOnly satisfies none. */
  lemma AdminAndReadOnly(p: Policy)
    ensures Grants({RoleName(Admin)}, p)
    ensures !Grants({RoleName(ReadOnly)}, p)
  {
    GrantsSingleRole(Admin, p);
    GrantsSingleRole(ReadOnly, p);
    PolicyTable();
  }

  /** A caller holding only Employee is denied a policy that requires Admin or Manager. */
  lemma EmployeeCannotCreate()
    ensures !Grants({RoleName(Employee)}, CreateEmployees)
    ensures Grants({RoleName(Employee)}, ReadEmployees)
  {
    GrantsSingleRole(Employee, CreateEmployees);
    GrantsSingleRole(Employee, ReadEmployees);
  }

  /** The policies are nested: whoever may delete may create or update, whoever may create
      may read, and AdminOnly implies ManagerOnly. */
  lemma {:induction false} PoliciesNested(callerRoles: set<string>)
    ensures Grants(callerRoles, AdminOnly) <==> Grants(callerRoles, DeleteEmployees)
    ensures Grants(callerRoles, AdminOnly) ==> Grants(callerRoles, ManagerOnly)
    ensures Grants(callerRoles, ManagerOnly) <==> Grants(callerRoles, CreateEmployees)
    ensures Grants(callerRoles, CreateEmployees) <==> Grants(callerRoles, UpdateEmployees)
    ensures Grants(callerRoles, CreateEmployees) ==> Grants(callerRoles, ReadEmployees)
  {
    PolicyTable();
  }
}
