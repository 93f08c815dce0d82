/** The lottery run for the user who claimed a gift: find or create the
    Christmas role, then either "already elected", a win of the role, or a
    consolation fun fact. The random sample is a parameter. */
module Lottery {
  import opened Wrappers

  type RoleId = int

  datatype Role = Role(id: RoleId, name: string)

  /** The name of the role the lottery hands out. */
  const ChristmasRoleName: string := "\U{1F385} Elfe de No\U{EB}l"

  /** The three replies of the lottery: the user already holds the role,
      the user won it, or the user lost and gets a fun fact (whose text comes
      from a module that is not part of this model). */
  datatype Outcome = AlreadyElected | Won | FunFact

  datatype RoleLookup = RoleLookup(role: Role, roles: seq<Role>, created: bool)

  datatype Draw = Draw(outcome: Outcome, role: Role, guildRoles: seq<Role>, userRoles: set<RoleId>)

  function Ids(roles: seq<Role>): set<RoleId> {
    set i | 0 <= i < |roles| :: roles[i].id
  }

  /** Index of the first role named `name`, or `|roles|` when there is none
      (what a first-match search over the guild's role list finds). */
  function FirstNamed(roles: seq<Role>, name: string): (k: nat)
    ensures k <= |roles|
    ensures k < |roles| ==> roles[k].name == name
    ensures forall j :: 0 <= j < k ==> roles[j].name != name
    decreases |roles|
  {
    if roles == [] then 0
    else if roles[0].name == name then 0
    else 1 + FirstNamed(roles[1..], name)
  }

  /** Searching a concatenation finds the first match of the left part, or
      else the first match of the right part shifted past the left part. */
  lemma {:induction false} FirstNamedAppend(a: seq<Role>, b: seq<Role>, name: string)
    ensures FirstNamed(a + b, name)
            == if FirstNamed(a, name) < |a| then FirstNamed(a, name) else |a| + FirstNamed(b, name)
    decreases |a|
  {
    if a != [] {
      assert (a + b)[1..] == a[1..] + b;
      FirstNamedAppend(a[1..], b, name);
    } else {
      assert a + b == b;
    }
  }

  /** The first role with that name, if any. */
  function FindRole(roles: seq<Role>, name: string): (r: Option<Role>)
    ensures r.Some? ==> r.value in roles && r.value.name == name
    ensures r.Some? ==>
              exists k :: 0 <= k < |roles| && roles[k] == r.value
                          && forall j :: 0 <= j < k ==> roles[j].name != name
    ensures r.None? <==> forall j :: 0 <= j < |roles| ==> roles[j].name != name
  {
    var k := FirstNamed(roles, name);
    if k < |roles| then Some(roles[k]) else None
  }

  /** `get_or_create_role`: an existing Christmas role is returned as is;
      otherwise exactly one role is created, with the id `newId` the platform
      hands out. The new role is placed at the end of the list; the platform
      orders roles by position, which no lookup by name depends on. */
  function GetOrCreateRole(roles: seq<Role>, newId: RoleId): (r: RoleLookup)
    requires newId !in Ids(roles)
    ensures r.role.name == ChristmasRoleName && r.role in r.roles
    ensures FindRole(r.roles, ChristmasRoleName) == Some(r.role)
    ensures r.created <==> FindRole(roles, ChristmasRoleName).None?
    ensures !r.created ==> r.roles == roles
    ensures r.created ==> r.roles == roles + [Role(newId, ChristmasRoleName)] && r.role.id == newId
    ensures Ids(roles) <= Ids(r.roles) && r.role.id in Ids(r.roles)
  {
    match FindRole(roles, ChristmasRoleName)
    case Some(role) => RoleLookup(role, roles, false)
    case None =>
      var role := Role(newId, ChristmasRoleName);
      var roles' := roles + [role];
      FirstNamedAppend(roles, [role], ChristmasRoleName);
      assert roles'[|roles|] == role;
      assert forall i :: 0 <= i < |roles| ==> roles'[i] == roles[i];
      RoleLookup(role, roles', true)
  }

  /** Two lookups in a row create at most one role, and the second finds
      the role the first returned. */
  lemma GetOrCreateTwiceCreatesAtMostOne(roles: seq<Role>, newId1: RoleId, newId2: RoleId)
    requires newId1 !in Ids(roles)
    requires newId2 !in Ids(GetOrCreateRole(roles, newId1).roles)
    ensures var first := GetOrCreateRole(roles, newId1);
      var second := GetOrCreateRole(first.roles, newId2);
      && !second.created
      && second.role == first.role
      && second.roles == first.roles
      && |second.roles| <= |roles| + 1
  {
  }

  /** `run_lottery`. A user who already holds the role gets "already elected"
      with no draw; otherwise they win iff `sample < threshold`, and a win
      adds the role to theirs. */
  function RunLottery(guildRoles: seq<Role>, newId: RoleId, userRoles: set<RoleId>,
                      threshold: real, sample: real): (d: Draw)
    requires newId !in Ids(guildRoles)
    requires 0.0 <= sample < 1.0
    ensures d.role == GetOrCreateRole(guildRoles, newId).role
    ensures d.guildRoles == GetOrCreateRole(guildRoles, newId).roles
    ensures d.outcome == AlreadyElected <==> d.role.id in userRoles
    ensures d.outcome == Won <==> d.role.id !in userRoles && sample < threshold
    ensures d.outcome == Won ==> d.userRoles == userRoles + {d.role.id}
    ensures d.outcome != Won ==> d.userRoles == userRoles
  {
    var found := GetOrCreateRole(guildRoles, newId);
    if found.role.id in userRoles then
      Draw(AlreadyElected, found.role, found.roles, userRoles)
    else if sample < threshold then
      Draw(Won, found.role, found.roles, userRoles + {found.role.id})
    else
      Draw(FunFact, found.role, found.roles, userRoles)
  }

  /** A role created by this very run is held by nobody yet: when the user
      holds only roles of the guild and the guild has no Christmas role, the
      run is a real draw. */
  lemma CreatedRoleIsDrawn(guildRoles: seq<Role>, newId: RoleId, userRoles: set<RoleId>,
                           threshold: real, sample: real)
    requires newId !in Ids(guildRoles)
    requires 0.0 <= sample < 1.0
    requires userRoles <= Ids(guildRoles)
    requires FindRole(guildRoles, ChristmasRoleName).None?
    ensures var d := RunLottery(guildRoles, newId, userRoles, threshold, sample);
      && d.outcome != AlreadyElected
      && (d.outcome == Won <==> sample < threshold)
  {
  }

  /** A holder of the role draws nothing: the sample is irrelevant and no
      role is created or granted. */
  lemma HolderIsNotDrawn(guildRoles: seq<Role>, newId: RoleId, userRoles: set<RoleId>,
                         threshold: real, s1: real, s2: real)
    requires newId !in Ids(guildRoles)
    requires 0.0 <= s1 < 1.0 && 0.0 <= s2 < 1.0
    requires var r := FindRole(guildRoles, ChristmasRoleName); r.Some? && r.value.id in userRoles
    ensures var d := RunLottery(guildRoles, newId, userRoles, threshold, s1);
      && d == RunLottery(guildRoles, newId, userRoles, threshold, s2)
      && d.outcome == AlreadyElected
      && d.guildRoles == guildRoles && d.userRoles == userRoles
  {
  }

  /** With a sample in [0,1), probability 0 never wins and probability 1
      always wins (for a user who does not hold the role yet). */
  lemma ExtremeProbabilities(guildRoles: seq<Role>, newId: RoleId, userRoles: set<RoleId>,
                             sample: real)
    requires newId !in Ids(guildRoles)
    requires 0.0 <= sample < 1.0
    ensures RunLottery(guildRoles, newId, userRoles, 0.0, sample).outcome != Won
    ensures var d := RunLottery(guildRoles, newId, userRoles, 1.0, sample);
      d.role.id !in userRoles ==> d.outcome == Won
  {
  }
}
