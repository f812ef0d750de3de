/**
  The role-changing moderation commands and the check every command runs
  first. Each is written as a pure transform of the guild's roles and the
  target member's role set; replies and operator-channel messages are
  reduced to a small reply type.
 */
module Moderation {
  import opened GuildRoles
  import opened Verification

  /** The command check: the guild's bot-helper role, looked up by id, is
      among the author's roles. A guild without that role lets nobody in. */
  function HasBotHelperRole(g: Guild, author: set<RoleId>): (ok: bool)
    ensures ok <==> BotHelperRoleId in RoleIds(g) && BotHelperRoleId in author
  {
    FindByIdDefined(g, BotHelperRoleId);
    match FindById(g.roles, BotHelperRoleId)
    case None => false
    case Some(role) => role.id in author
  }

  /** For an author whose roles all belong to the guild, the check is plain
      membership of the helper role. */
  lemma {:induction false} HelperCheckIsMembership(g: Guild, author: set<RoleId>)
    requires HoldsGuildRoles(g, author)
    ensures HasBotHelperRole(g, author) <==> BotHelperRoleId in author
  {
  }

  datatype UnverifyReply = Unverified | NotVerified

  datatype UnverifyResult = UnverifyResult(reply: UnverifyReply, roles: set<RoleId>)

  /** `chief unverify @member`: remove the verified role when the member
      holds it; otherwise only say so. */
  function Unverify(g: Guild, roles: set<RoleId>): (r: UnverifyResult)
    ensures r.reply == Unverified <==> VerifiedRoleId in RoleIds(g) && VerifiedRoleId in roles
    ensures r.roles <= roles && roles - r.roles <= {VerifiedRoleId}
    ensures VerifiedRoleId in RoleIds(g) ==> VerifiedRoleId !in r.roles
    ensures HoldsGuildRoles(g, roles) ==> VerifiedRoleId !in r.roles
    ensures r.reply == NotVerified ==> r.roles == roles
  {
    FindByIdDefined(g, VerifiedRoleId);
    match FindById(g.roles, VerifiedRoleId)
    case Some(role) =>
      if role.id in roles then UnverifyResult(Unverified, roles - {role.id})
      else UnverifyResult(NotVerified, roles)
    case None => UnverifyResult(NotVerified, roles)
  }

  /** Unverifying twice leaves the same roles as unverifying once, and the
      second time reports that the role is not held. */
  lemma {:induction false} UnverifyIdempotent(g: Guild, roles: set<RoleId>)
    ensures Unverify(g, Unverify(g, roles).roles).roles == Unverify(g, roles).roles
    ensures Unverify(g, Unverify(g, roles).roles).reply == NotVerified
  {
  }

  /** Unverify undoes a grant: a member who did not hold the verified role,
      was granted it by the Verify button, and is then unverified, holds
      exactly the roles they started with. */
  lemma {:induction false} UnverifyUndoesGrant(m: Member, g: Guild, roster: Roster)
    requires VerifiedRoleId !in m.roles
    requires Verify(m, g, roster).outcome == Granted
    ensures Unverify(g, Verify(m, g, roster).roles) == UnverifyResult(Unverified, m.roles)
  {
    assert m.roles + {VerifiedRoleId} - {VerifiedRoleId} == m.roles;
  }

  /** The role effect of `chief mute @member <minutes>`: the guild (with a
      Muted role created when it had none), the role used, the member's
      roles while muted and after the timer. */
  datatype MuteResult = MuteResult(guild: Guild, muteRole: RoleId, whileMuted: set<RoleId>, after: set<RoleId>)

  /** `chief mute`: reuse the first role named Muted or create one (the id
      of a new role is chosen by the platform, which never reuses an id, and
      is given as `newId`), add it, and remove it again when the timer ends.
      The roles are those held when the command starts; nothing else changes
      them while the timer runs. */
  function Mute(g: Guild, roles: set<RoleId>, newId: RoleId): (r: MuteResult)
    requires newId !in RoleIds(g)
    // The role used is a role of the resulting guild named Muted.
    ensures Role(r.muteRole, MutedRoleName) in r.guild.roles
    // An existing Muted role is reused and the guild is left as it was.
    ensures FirstNamed(g.roles, MutedRoleName).Some? ==>
      r.guild == g && r.muteRole == g.roles[FirstNamed(g.roles, MutedRoleName).value].id
    // Otherwise exactly one role is created.
    ensures FirstNamed(g.roles, MutedRoleName).None? ==>
      r.guild.roles == g.roles + [Role(newId, MutedRoleName)] && r.muteRole == newId
    // While the timer runs the member holds the role in addition to the rest.
    ensures r.muteRole in r.whileMuted && r.whileMuted - {r.muteRole} == roles - {r.muteRole}
    // Afterwards the role is gone and every other role is as before.
    ensures r.muteRole !in r.after
    ensures forall id :: id != r.muteRole ==> (id in r.after <==> id in roles)
  {
    var (guild, muteRole) :=
      match FirstNamed(g.roles, MutedRoleName)
      case Some(i) => (g, g.roles[i].id)
      case None => (Guild(g.roles + [Role(newId, MutedRoleName)]), newId);
    var whileMuted := roles + {muteRole};
    MuteResult(guild, muteRole, whileMuted, whileMuted - {muteRole})
  }

  /** A mute that starts after an earlier mute's role is in the guild's role
      list finds that role: run one after another, mutes add at most one
      Muted role to the guild. */
  lemma {:induction false} MuteCreatesAtMostOnce(g: Guild, roles: set<RoleId>, roles': set<RoleId>, newId: RoleId, newId': RoleId)
    requires newId !in RoleIds(g)
    requires newId' !in RoleIds(Mute(g, roles, newId).guild)
    ensures Mute(Mute(g, roles, newId).guild, roles', newId').guild == Mute(g, roles, newId).guild
    ensures Mute(Mute(g, roles, newId).guild, roles', newId').muteRole == Mute(g, roles, newId).muteRole
  {
    var g1 := Mute(g, roles, newId).guild;
    if FirstNamed(g.roles, MutedRoleName).None? {
      assert g1.roles[|g.roles|].name == MutedRoleName;
      assert forall i :: 0 <= i < |g.roles| ==> g1.roles[i] == g.roles[i];
    } else {
      assert g1 == g;
    }
  }

  /** Mute then unmute is a round trip for a member who did not already hold
      the Muted role: they end with exactly their old roles. */
  lemma {:induction false} MuteRoundTrip(g: Guild, roles: set<RoleId>, newId: RoleId)
    requires newId !in RoleIds(g)
    requires Mute(g, roles, newId).muteRole !in roles
    ensures Mute(g, roles, newId).after == roles
  {
    var r := Mute(g, roles, newId);
    assert forall id :: id in r.after <==> id in roles;
  }

  /** What a moderation command asks for. Only the two commands that change
      roles are modelled; the rest are one-shot platform calls. */
  datatype Command = UnverifyCommand | MuteCommand(minutes: int)

  datatype CommandResult =
    | CheckFailed
    | UnverifyDone(unverify: UnverifyResult)
    | MuteDone(mute: MuteResult)

  /** A command runs only when its author passes the helper check. */
  function RunCommand(g: Guild, author: set<RoleId>, target: set<RoleId>, c: Command, newId: RoleId): (r: CommandResult)
    requires newId !in RoleIds(g)
    ensures r.CheckFailed? <==> !(BotHelperRoleId in RoleIds(g) && BotHelperRoleId in author)
    ensures r.UnverifyDone? <==> !r.CheckFailed? && c.UnverifyCommand?
    ensures r.MuteDone? <==> !r.CheckFailed? && c.MuteCommand?
    ensures r.UnverifyDone? ==> r.unverify == Unverify(g, target)
    ensures r.MuteDone? ==> r.mute == Mute(g, target, newId)
  {
    if !HasBotHelperRole(g, author) then CheckFailed
    else
      match c
      case UnverifyCommand => UnverifyDone(Unverify(g, target))
      case MuteCommand(_) => MuteDone(Mute(g, target, newId))
  }
}
