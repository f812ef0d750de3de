/**
  The parts of a Discord guild the bot reads: its list of roles, each with a
  numeric id and a name, and the role lookups `discord.utils.get(roles,
  id=…)`, `discord.utils.get(roles, name=…)` and `guild.get_role(id)`.
  Role objects compare by id, so a member's roles are a set of ids.
 */
module GuildRoles {

  type RoleId = nat

  /** The role granted on successful verification. */
  const VerifiedRoleId: RoleId := 1232674785981628426

  /** The role every moderation command demands of its author. */
  const BotHelperRoleId: RoleId := 1232694582114783232

  /** The mute command looks its role up by this name. */
  const MutedRoleName: string := "Muted"

  datatype Option<T> = None | Some(value: T)

  datatype Role = Role(id: RoleId, name: string)

  datatype Guild = Guild(roles: seq<Role>)

  /** The ids of the roles the guild defines. */
  function RoleIds(g: Guild): set<RoleId> {
    set r | r in g.roles :: r.id
  }

  /** Members only ever hold roles that their guild defines. */
  predicate HoldsGuildRoles(g: Guild, held: set<RoleId>) {
    held <= RoleIds(g)
  }

  /** Index of the first role in `rs` with the given name, as
      `discord.utils.get(roles, name=…)` scans the list; None when none has it. */
  function FirstNamed(rs: seq<Role>, name: string): (r: Option<nat>)
    ensures r.Some? ==> r.value < |rs| && rs[r.value].name == name
    ensures r.Some? ==> forall i :: 0 <= i < r.value ==> rs[i].name != name
    ensures r.None? <==> forall i :: 0 <= i < |rs| ==> rs[i].name != name
  {
    if |rs| == 0 then None
    else if rs[0].name == name then Some(0)
    else
      match FirstNamed(rs[1..], name)
      case None => None
      case Some(k) => Some(k + 1)
  }

  /** `discord.utils.get(roles, id=id)` and `guild.get_role(id)`: a role
      carrying the id, or None. Discord gives every role its own id, so
      which of several such roles is returned is never observed. */
  function FindById(rs: seq<Role>, id: RoleId): (r: Option<Role>)
    ensures r.Some? ==> r.value in rs && r.value.id == id
    ensures r.None? <==> forall i :: 0 <= i < |rs| ==> rs[i].id != id
  {
    if |rs| == 0 then None
    else if rs[0].id == id then Some(rs[0])
    else FindById(rs[1..], id)
  }

  /** A lookup by id succeeds exactly for the ids the guild defines. */
  lemma {:induction false} FindByIdDefined(g: Guild, id: RoleId)
    ensures FindById(g.roles, id).Some? <==> id in RoleIds(g)
  {
  }
}
