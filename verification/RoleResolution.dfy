/** Which OMS role a token's role claim stands for (internal/auth/jwt.go:324-348). */
module RoleResolution {
  import opened Wrappers

  datatype Role = RoleCustomer | RoleAdmin | RoleSystem

  datatype RoleError = NoRole | MultipleRoles

  datatype Config = Config(customerValue: string, adminValue: string, systemValue: string)

  function ConfiguredValue(cfg: Config, role: Role): string {
    match role
    case RoleCustomer => cfg.customerValue
    case RoleAdmin => cfg.adminValue
    case RoleSystem => cfg.systemValue
  }

  /** The first matching case of the switch. */
  function RoleOf(cfg: Config, value: string): Option<Role> {
    if value == cfg.customerValue then Some(RoleCustomer)
    else if value == cfg.adminValue then Some(RoleAdmin)
    else if value == cfg.systemValue then Some(RoleSystem)
    else None
  }

  /** The OMS roles that occur in the claim list. */
  ghost predicate Names(cfg: Config, values: seq<string>, role: Role) {
    exists i :: 0 <= i < |values| && RoleOf(cfg, values[i]) == Some(role)
  }

  /** The roles named are exactly this one. */
  ghost predicate NamesOnly(cfg: Config, values: seq<string>, role: Role) {
    Names(cfg, values, role) && forall other :: Names(cfg, values, other) ==> other == role
  }

  method ResolveRole(values: seq<string>, cfg: Config) returns (r: Result<Role, RoleError>)
    ensures forall role :: r == Ok(role) <==> NamesOnly(cfg, values, role)
    ensures r == Err(NoRole) <==> forall role :: !Names(cfg, values, role)
    ensures r == Err(MultipleRoles) <==> exists a, b :: a != b && Names(cfg, values, a) && Names(cfg, values, b)
  {
    var matched: Option<Role> := None;
    for i := 0 to |values|
      invariant matched.None? ==> forall role :: !Names(cfg, values[..i], role)
      invariant matched.Some? ==> NamesOnly(cfg, values[..i], matched.value)
      invariant forall role :: Names(cfg, values[..i], role) ==> Names(cfg, values, role)
    {
      NamesOneMore(cfg, values, i);
      var role := RoleOf(cfg, values[i]);
      if role.None? {
        continue;
      }
      if matched.Some? && matched != role {
        assert Names(cfg, values, matched.value) && Names(cfg, values, role.value);
        return Err(MultipleRoles);
      }
      matched := role;
    }
    assert values[..|values|] == values;
    if matched.None? {
      return Err(NoRole);
    }
    r := Ok(matched.value);
  }

  lemma NamesOneMore(cfg: Config, values: seq<string>, i: nat)
    requires i < |values|
    ensures forall role :: Names(cfg, values[..i + 1], role) <==>
                           Names(cfg, values[..i], role) || RoleOf(cfg, values[i]) == Some(role)
    ensures forall role :: RoleOf(cfg, values[i]) == Some(role) ==> Names(cfg, values, role)
  {
    var before, upTo := values[..i], values[..i + 1];
    forall role ensures Names(cfg, upTo, role) <==> Names(cfg, before, role) || RoleOf(cfg, values[i]) == Some(role) {
      assert upTo[i] == values[i];
      if Names(cfg, before, role) {
        var j :| 0 <= j < |before| && RoleOf(cfg, before[j]) == Some(role);
        assert upTo[j] == before[j];
      }
      if Names(cfg, upTo, role) {
        var j :| 0 <= j < |upTo| && RoleOf(cfg, upTo[j]) == Some(role);
        assert j < i ==> before[j] == upTo[j];
      }
    }
  }

  predicate Distinct(cfg: Config) {
    && cfg.customerValue != cfg.adminValue
    && cfg.customerValue != cfg.systemValue
    && cfg.adminValue != cfg.systemValue
  }

  /** The start-up check that the three configured values differ is exactly what makes "the role is named"
      mean "its configured value is in the list". */
  lemma NamingIsMembershipIffDistinct(cfg: Config)
    ensures Distinct(cfg) <==>
            forall values: seq<string>, role :: Names(cfg, values, role) <==> ConfiguredValue(cfg, role) in values
  {
    if Distinct(cfg) {
      forall values: seq<string>, role ensures Names(cfg, values, role) <==> ConfiguredValue(cfg, role) in values {
        DistinctNaming(cfg, values, role);
      }
    } else {
      var hidden := if cfg.customerValue == cfg.adminValue then RoleAdmin else RoleSystem;
      var values := [ConfiguredValue(cfg, hidden)];
      assert ConfiguredValue(cfg, hidden) in values;
      assert !Names(cfg, values, hidden);
    }
  }

  lemma DistinctNaming(cfg: Config, values: seq<string>, role: Role)
    requires Distinct(cfg)
    ensures Names(cfg, values, role) <==> ConfiguredValue(cfg, role) in values
  {
    if ConfiguredValue(cfg, role) in values {
      var i :| 0 <= i < |values| && values[i] == ConfiguredValue(cfg, role);
      assert RoleOf(cfg, values[i]) == Some(role);
    }
  }

  /** Only the mapped values of the list matter, neither their order nor their number: reordering and
      repeating values, and adding values that map to nothing, changes no role named. */
  lemma OnlyMappedValuesMatter(cfg: Config, a: seq<string>, b: seq<string>, role: Role)
    requires forall value :: RoleOf(cfg, value).Some? ==> (value in a <==> value in b)
    ensures Names(cfg, a, role) <==> Names(cfg, b, role)
    ensures NamesOnly(cfg, a, role) <==> NamesOnly(cfg, b, role)
  {
    forall r ensures Names(cfg, a, r) <==> Names(cfg, b, r) {
      if Names(cfg, a, r) {
        var i :| 0 <= i < |a| && RoleOf(cfg, a[i]) == Some(r);
        assert a[i] in b;
      }
      if Names(cfg, b, r) {
        var i :| 0 <= i < |b| && RoleOf(cfg, b[i]) == Some(r);
        assert b[i] in a;
      }
    }
  }
}
