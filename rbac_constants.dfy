/** The closed sets of role and policy names used for role-based access control. */
module RbacConstants {
  import opened Wrappers

  datatype Role = Admin | Manager | Employee | ReadOnly

  datatype Policy =
    | ReadEmployees | CreateEmployees | UpdateEmployees | DeleteEmployees
    | AdminOnly | ManagerOnly

  /** The role-claim value that stands for each role. */
  function RoleName(r: Role): (name: string)
    ensures 5 <= |name| <= 8 && 'A' <= name[0] <= 'Z'
  {
    match r
    case Admin => "Admin"
    case Manager => "Manager"
    case Employee => "Employee"
    case ReadOnly => "ReadOnly"
  }

  /** The name each policy is registered under. */
  function PolicyName(p: Policy): (name: string)
    ensures |name| >= 16 && name[..7] == "Require"
  {
    match p
    case ReadEmployees => "RequireReadEmployeesPermission"
    case CreateEmployees => "RequireCreateEmployeesPermission"
    case UpdateEmployees => "RequireUpdateEmployeesPermission"
    case DeleteEmployees => "RequireDeleteEmployeesPermission"
    case AdminOnly => "RequireAdminRole"
    case ManagerOnly => "RequireManagerRole"
  }

  /** The employee policies, as opposed to the two role policies. */
  predicate IsEmployeePolicy(p: Policy) {
    p in {ReadEmployees, CreateEmployees, UpdateEmployees, DeleteEmployees}
  }

  /** The inverse of RoleName: which role, if any, a claim value names. */
  function RoleNamed(s: string): (r: Option<Role>)
    ensures r.Some? ==> RoleName(r.value) == s
  {
    if s == "Admin" then Some(Admin)
    else if s == "Manager" then Some(Manager)
    else if s == "Employee" then Some(Employee)
    else if s == "ReadOnly" then Some(ReadOnly)
    else None
  }

  /** Every role name is read back as its role, so no two roles share a name. */
  lemma RoleNameRoundTrip(r: Role)
    ensures RoleNamed(RoleName(r)) == Some(r)
  {
    match r
    case Admin =>
    case Manager => assert "Manager"[0] != "Admin"[0];
    case Employee =>
      assert "Employee"[0] != "Admin"[0] && "Employee"[0] != "Manager"[0];
    case ReadOnly =>
      assert "ReadOnly"[0] !in {"Admin"[0], "Manager"[0], "Employee"[0]};
  }

  lemma RoleNameInjective(a: Role, b: Role)
    ensures RoleName(a) == RoleName(b) <==> a == b
  {
    RoleNameRoundTrip(a);
    RoleNameRoundTrip(b);
  }

  /** The role names are exactly these four strings. */
  lemma RoleNames()
    ensures (set r: Role | true :: RoleName(r)) == {"Admin", "Manager", "Employee", "ReadOnly"}
  {
    var names := set r: Role | true :: RoleName(r);
    assert RoleName(Admin) in names && RoleName(Manager) in names;
    assert RoleName(Employee) in names && RoleName(ReadOnly) in names;
  }

  /** Every policy name starts with "Require"; the employee policies end in "Permission"
      and the two others in "Role". */
  lemma PolicyNameShape(p: Policy)
    ensures |PolicyName(p)| >= 16 && PolicyName(p)[..7] == "Require"
    ensures IsEmployeePolicy(p) ==> PolicyName(p)[|PolicyName(p)| - 10..] == "Permission"
    ensures !IsEmployeePolicy(p) ==> PolicyName(p)[|PolicyName(p)| - 4..] == "Role"
  {
  }

  /** The six policy names are pairwise distinct. */
  lemma PolicyNameInjective(a: Policy, b: Policy)
    ensures PolicyName(a) == PolicyName(b) <==> a == b
  {
    if PolicyName(a) == PolicyName(b) {
      assert PolicyName(a)[7..9] == PolicyName(b)[7..9];
    }
  }

  /** No policy name is a role name: every policy name is longer than every role name. */
  lemma PolicyNameIsNoRoleName(p: Policy, r: Role)
    ensures PolicyName(p) != RoleName(r)
  {
    PolicyNameShape(p);
  }
}
