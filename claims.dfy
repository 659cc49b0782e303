/** The claims a JWT bearer token puts on the caller, and which of them carry roles. */
module Claims {
  import opened Sequences

  datatype Claim = Claim(claimType: string, value: string)

  /** The claim type under which roles are carried (`ClaimTypes.Role`). */
  const RoleClaimType: string := "http://schemas.microsoft.com/ws/2008/06/identity/claims/role"

  predicate IsRoleClaim(c: Claim) {
    c.claimType == RoleClaimType
  }

  function ClaimValue(c: Claim): string {
    c.value
  }

  /** The values of the caller's role claims, in claim order. */
  function RoleClaimValues(claims: seq<Claim>): (r: seq<string>)
    ensures |r| <= |claims|
    ensures forall v :: v in r <==> exists c :: c in claims && IsRoleClaim(c) && c.value == v
  {
    var roles := Filter(claims, IsRoleClaim);
    var r := Map(roles, ClaimValue);
    assert forall v :: v in r ==> exists c :: c in roles && c.value == v by {
      forall v | v in r ensures exists c :: c in roles && c.value == v {
        var i :| 0 <= i < |r| && r[i] == v;
        assert roles[i] in roles;
      }
    }
    assert forall c :: c in roles ==> c.value in r by {
      forall c | c in roles ensures c.value in r {
        var i :| 0 <= i < |roles| && roles[i] == c;
        assert r[i] == c.value;
      }
    }
    r
  }

  /** The role values of a concatenation of claim lists are those of each list, in order. */
  lemma RoleClaimValuesAppend(a: seq<Claim>, b: seq<Claim>)
    ensures RoleClaimValues(a + b) == RoleClaimValues(a) + RoleClaimValues(b)
  {
    FilterAppend(a, b, IsRoleClaim);
    var fa, fb := Filter(a, IsRoleClaim), Filter(b, IsRoleClaim);
    assert Map(fa + fb, ClaimValue) == Map(fa, ClaimValue) + Map(fb, ClaimValue);
  }
}
