/**
  The Verify button's decision. A member presses the button; the bot checks
  the member's display name against the format, reads column 27 (AA) of the
  roster worksheet, and grants the verified role when the whole display name
  is one of that column's values. Its effects are reduced to the member's
  new role set and the entries appended to `unverified_attempts.log`.
 */
module Verification {
  import opened DisplayNameFormat
  import opened GuildRoles

  /** The branch the handler ends in; each sends one ephemeral reply. */
  datatype Outcome =
    | FormatRejected    // the display name does not match RA_<digits>_<rest>
    | Offline           // the roster worksheet was never opened
    | Granted           // found in the roster, verified role added
    | GrantRoleMissing  // found in the roster, but the guild has no verified role
    | Denied            // not found in the roster
    | Errored           // a library call raised inside the roster lookup

  /** The member pressing the button: account name, display name, roles. */
  datatype Member = Member(name: string, displayName: string, roles: set<RoleId>)

  /** What one press of the button does: its outcome, the reply the member
      sees, the member's roles afterwards, and the entries appended to the
      unverified-attempts log. */
  datatype Step = Step(outcome: Outcome, reply: string, roles: set<RoleId>, appended: seq<string>)

  /** The worksheet handle: None when it could not be opened at start-up,
      otherwise the values of its column 27 in sheet order. */
  type Roster = Option<seq<string>>

  /** The number of characters in each outcome's reply. */
  function ReplyLengthOf(o: Outcome): nat {
    match o
    case FormatRejected => 99
    case Offline => 65
    case Granted => 60
    case GrantRoleMissing => 74
    case Denied => 71
    case Errored => 19
  }

  /** No two outcomes have replies of the same length. */
  lemma ReplyLengthOfInjective(o: Outcome, o': Outcome)
    ensures ReplyLengthOf(o) == ReplyLengthOf(o') ==> o == o'
  {
  }

  /** The handler's reply texts, one per outcome. */
  const FormatRejectedReply: string :=
    "You have not renamed in proper format. If you think I made a mistake, refer to manual verification."
  const OfflineReply: string := "Verification system is currently offline. Please try again later."
  const GrantedReply: string := "You have been verified and granted access to other channels."
  const GrantRoleMissingReply: string := "Verification successful, but unable to grant role. Please contact support."
  const DeniedReply: string := "I couldn't verify your identity. Please contact support for human help."
  /** On Errored the reply goes on with the exception's text, which is not
      modelled. */
  const ErroredReplyStart: string := "An error occurred: "

  /** The reply the member sees for each outcome, of the length listed for
      it. */
  function Reply(o: Outcome): (s: string)
    ensures |s| == ReplyLengthOf(o)
  {
    match o
    case FormatRejected => FormatRejectedReply
    case Offline => OfflineReply
    case Granted => GrantedReply
    case GrantRoleMissing => GrantRoleMissingReply
    case Denied => DeniedReply
    case Errored => ErroredReplyStart
  }

  /** The member can tell every outcome from the reply alone: no two
      outcomes share a reply. */
  lemma {:induction false} RepliesDistinct(o: Outcome, o': Outcome)
    ensures Reply(o) == Reply(o') <==> o == o'
  {
    if Reply(o) == Reply(o') {
      ReplyLengthOfInjective(o, o');
    }
  }

  const FormatFailureReason: string := " - Failed format check\n"
  const NotFoundReason: string := " - Application ID not found\n"

  /** The log entry written when the format check fails: the account name,
      the display name in parentheses, then the reason line. */
  function FormatFailureEntry(m: Member): (e: string)
    ensures |e| == |m.name| + |m.displayName| + 3 + |FormatFailureReason|
    ensures e[..|m.name|] == m.name
    ensures e[|m.name|..|m.name| + 2] == " (" && e[|m.name| + 2 + |m.displayName|] == ')'
    ensures e[|m.name| + 2..|m.name| + 2 + |m.displayName|] == m.displayName
    ensures e[|e| - |FormatFailureReason|..] == FormatFailureReason
  {
    m.name + " (" + m.displayName + ")" + FormatFailureReason
  }

  /** The log entry written when the name is not in the roster, laid out the
      same way with its own reason line. */
  function NotFoundEntry(m: Member): (e: string)
    ensures |e| == |m.name| + |m.displayName| + 3 + |NotFoundReason|
    ensures e[..|m.name|] == m.name
    ensures e[|m.name|..|m.name| + 2] == " (" && e[|m.name| + 2 + |m.displayName|] == ')'
    ensures e[|m.name| + 2..|m.name| + 2 + |m.displayName|] == m.displayName
    ensures e[|e| - |NotFoundReason|..] == NotFoundReason
  {
    m.name + " (" + m.displayName + ")" + NotFoundReason
  }

  /** The two kinds of log entry can never be confused: they end differently. */
  lemma {:induction false} EntriesDistinct(m: Member, m': Member)
    ensures FormatFailureEntry(m) != NotFoundEntry(m')
  {
    var a, b := FormatFailureEntry(m), NotFoundEntry(m');
    assert a[|a| - 2] == FormatFailureReason[|FormatFailureReason| - 2] == 'k';
    assert b[|b| - 2] == NotFoundReason[|NotFoundReason| - 2] == 'd';
  }

  /** One press of the Verify button. */
  function Verify(m: Member, g: Guild, roster: Roster): (r: Step)
    // The member sees the reply of the outcome, and no press ends in an error.
    ensures r.reply == Reply(r.outcome) && r.outcome != Errored
    // Format rejection: no role change, exactly one entry.
    ensures r.outcome == FormatRejected <==> !Matches(m.displayName)
    ensures r.outcome == FormatRejected ==>
      r.roles == m.roles && r.appended == [FormatFailureEntry(m)]
    // Offline: no role change, nothing logged.
    ensures r.outcome == Offline <==> Matches(m.displayName) && roster.None?
    ensures r.outcome == Offline ==> r.roles == m.roles && r.appended == []
    // Found: the key is the whole display name.
    ensures r.outcome in {Granted, GrantRoleMissing} <==>
      Matches(m.displayName) && roster.Some? && m.displayName in roster.value
    ensures r.outcome == Granted <==>
      r.outcome in {Granted, GrantRoleMissing} && VerifiedRoleId in RoleIds(g)
    ensures r.outcome == Granted ==>
      r.roles == m.roles + {VerifiedRoleId} && r.appended == []
    ensures r.outcome == GrantRoleMissing ==> r.roles == m.roles && r.appended == []
    // Not found: no role change, exactly one entry.
    ensures r.outcome == Denied ==>
      r.roles == m.roles && r.appended == [NotFoundEntry(m)]
  {
    if !Matches(m.displayName) then
      Step(FormatRejected, Reply(FormatRejected), m.roles, [FormatFailureEntry(m)])
    else if roster.None? then
      Step(Offline, Reply(Offline), m.roles, [])
    else
      var applicationId := m.displayName;
      if applicationId in roster.value then
        match FindById(g.roles, VerifiedRoleId)
        case Some(role) =>
          Step(Granted, Reply(Granted), m.roles + {role.id}, [])
        case None =>
          FindByIdDefined(g, VerifiedRoleId);
          Step(GrantRoleMissing, Reply(GrantRoleMissing), m.roles, [])
      else
        Step(Denied, Reply(Denied), m.roles, [NotFoundEntry(m)])
  }

  /** Discord refuses a message whose text is longer than this. */
  const MessageLimit: nat := 2000

  /** The operator-channel message sent after the column is read starts with
      this text and goes on with Python's `str` of the whole column. */
  const DumpPrefix: string := "Retrieved sheet data for verification: "

  function SumLengths(col: seq<string>): nat {
    if |col| == 0 then 0 else |col[0]| + SumLengths(col[1..])
  }

  /** A lower bound on the length of Python's `str(col)`: two brackets, two
      quotes around every item and ", " between items. Escapes inside an
      item only make it longer. */
  function ListReprMinLength(col: seq<string>): nat {
    if |col| == 0 then 2 else SumLengths(col) + 4 * |col|
  }

  /** An upper bound on the length of Python's `str(col)`: each character
      prints as at most ten (the longest escape is `\U0010ffff`), plus the
      same brackets, quotes and separators. */
  function ListReprMaxLength(col: seq<string>): nat {
    if |col| == 0 then 2 else 10 * SumLengths(col) + 4 * |col|
  }

  /** A column whose items all have at least k characters sums to at least
      k characters per item. */
  lemma {:induction false} SumLengthsAtLeast(col: seq<string>, k: nat)
    requires forall i :: 0 <= i < |col| ==> |col[i]| >= k
    ensures SumLengths(col) >= k * |col|
  {
    if |col| > 0 {
      SumLengthsAtLeast(col[1..], k);
      assert k * |col| == k + k * |col[1..]|;
    }
  }

  /** One press as the handler is written. Between reading the column and
      testing membership it sends the whole column to the operator channel
      (when that channel exists). A message of `dumpLength` characters over
      the limit makes the send raise; the inner handler then replies with
      the error text, grants nothing and logs nothing. */
  function VerifyAsWritten(m: Member, g: Guild, roster: Roster, logChannel: bool, dumpLength: nat): (r: Step)
    requires roster.Some? ==> |DumpPrefix| + ListReprMinLength(roster.value) <= dumpLength
    requires roster.Some? ==> dumpLength <= |DumpPrefix| + ListReprMaxLength(roster.value)
    // Either the intended decision, or an error that changes nothing.
    ensures r == Verify(m, g, roster) ||
      (r.outcome == Errored && r.reply == Reply(Errored) && r.roles == m.roles && r.appended == [])
    // A rejected name, an unopened worksheet or a missing operator channel
    // never reach the send.
    ensures !Matches(m.displayName) || roster.None? || !logChannel ==> r == Verify(m, g, roster)
    // A column whose shortest possible dump is over the limit always errs.
    ensures (Matches(m.displayName) && logChannel && roster.Some? &&
             |DumpPrefix| + ListReprMinLength(roster.value) > MessageLimit) ==>
      r.outcome == Errored && r.reply == Reply(Errored) && r.roles == m.roles && r.appended == []
    // A column whose longest possible dump fits always decides as intended.
    ensures roster.Some? && |DumpPrefix| + ListReprMaxLength(roster.value) <= MessageLimit ==>
      r == Verify(m, g, roster)
  {
    if Matches(m.displayName) && roster.Some? && logChannel && dumpLength > MessageLimit then
      Step(Errored, Reply(Errored), m.roles, [])
    else
      Verify(m, g, roster)
  }

  /** Once column 27 holds 116 application ids of at least 13 characters
      (the length of RA_42_janedoe), a listed, well-formed member is no
      longer verified as written, though the intended decision grants the
      role. */
  lemma {:induction false} LargeRosterDefeatsGrant(m: Member, g: Guild, col: seq<string>, dumpLength: nat)
    requires Matches(m.displayName) && m.displayName in col && VerifiedRoleId in RoleIds(g)
    requires |col| >= 116 && forall i :: 0 <= i < |col| ==> |col[i]| >= 13
    requires |DumpPrefix| + ListReprMinLength(col) <= dumpLength <= |DumpPrefix| + ListReprMaxLength(col)
    ensures Verify(m, g, Some(col)).outcome == Granted
    ensures VerifyAsWritten(m, g, Some(col), true, dumpLength).outcome == Errored
    ensures VerifyAsWritten(m, g, Some(col), true, dumpLength).roles == m.roles
  {
    SumLengthsAtLeast(col, 13);
    assert |DumpPrefix| == 39;
  }

  /** A rejected name never reaches the roster or the guild's roles: the step
      is the same whatever the worksheet holds and whatever roles exist. */
  lemma {:induction false} FormatRejectionIgnoresRoster(m: Member, g: Guild, g': Guild, roster: Roster, roster': Roster)
    requires !Matches(m.displayName)
    ensures Verify(m, g, roster) == Verify(m, g', roster')
    ensures Verify(m, g, roster)
         == Step(FormatRejected, Reply(FormatRejected), m.roles, [FormatFailureEntry(m)])
  {
  }

  /** The roster is consulted only as "is the whole display name one of the
      column's values": two columns that agree on that give the same step,
      whatever else they contain or in whatever order. */
  lemma {:induction false} LookupKeyIsWholeName(m: Member, g: Guild, col: seq<string>, col': seq<string>)
    requires m.displayName in col <==> m.displayName in col'
    ensures Verify(m, g, Some(col)) == Verify(m, g, Some(col'))
  {
  }

  /** Verification changes roles only by adding the verified role, and only
      on the Granted outcome. */
  lemma {:induction false} RolesOnlyGrow(m: Member, g: Guild, roster: Roster)
    ensures m.roles <= Verify(m, g, roster).roles <= m.roles + {VerifiedRoleId}
    ensures Verify(m, g, roster).roles != m.roles ==> Verify(m, g, roster).outcome == Granted
  {
  }

  /** The log grows by at most one entry, and by one exactly on the two
      failure outcomes that are the member's to fix. */
  lemma {:induction false} LoggedExactlyOnFailure(m: Member, g: Guild, roster: Roster)
    ensures |Verify(m, g, roster).appended| <= 1
    ensures |Verify(m, g, roster).appended| == 1 <==>
      Verify(m, g, roster).outcome in {FormatRejected, Denied}
  {
  }

  /** Pressing the button again after a grant changes nothing: the grant is
      idempotent and the second press logs nothing. */
  lemma {:induction false} GrantIdempotent(m: Member, g: Guild, roster: Roster)
    requires Verify(m, g, roster).outcome == Granted
    ensures Verify(m.(roles := Verify(m, g, roster).roles), g, roster)
         == Verify(m, g, roster)
  {
    assert m.roles + {VerifiedRoleId} + {VerifiedRoleId} == m.roles + {VerifiedRoleId};
  }

  /** The member holds the verified role afterwards exactly when they held it
      before or this press granted it. */
  lemma {:induction false} VerifiedAfterward(m: Member, g: Guild, roster: Roster)
    ensures VerifiedRoleId in Verify(m, g, roster).roles <==>
      VerifiedRoleId in m.roles || Verify(m, g, roster).outcome == Granted
  {
  }

  /** The name must be listed verbatim: a roster listing only an accepted
      application id denies a member whose display name is that id with
      extra text after it, although the format check accepts the longer
      name. */
  lemma {:induction false} ParsedIdNotEnough(m: Member, g: Guild, id: string, extra: string)
    requires Matches(id) && |extra| > 0 && m.displayName == id + extra
    ensures Matches(m.displayName)
    ensures Verify(m, g, Some([id])).outcome == Denied
  {
    TrailingTextAccepted(id, extra);
    assert m.displayName !in [id] by {
      assert |m.displayName| != |id|;
    }
    DeniedWhenUnlisted(m, g, [id]);
  }

  /** A member named RA_42_janedoe, listed in the roster, is granted the role
      and nothing is logged. */
  lemma ScenarioGranted()
    ensures
      var m := Member("jane", "RA_42_janedoe", {});
      var r := Verify(m, Guild([Role(VerifiedRoleId, "Verified")]), Some(["RA_1_x", "RA_42_janedoe"]));
      r.outcome == Granted && r.roles == {VerifiedRoleId} && r.appended == []
  {
    var m := Member("jane", "RA_42_janedoe", {});
    var g := Guild([Role(VerifiedRoleId, "Verified")]);
    var col := ["RA_1_x", "RA_42_janedoe"];
    assert Matches(m.displayName) by {
      AcceptedExamples();
    }
    assert m.displayName in col by {
      assert col[1] == m.displayName;
    }
    assert VerifiedRoleId in RoleIds(g) by {
      assert g.roles[0] in g.roles;
    }
    GrantedWhenListed(m, g, col);
    assert {} + {VerifiedRoleId} == {VerifiedRoleId};
  }

  /** A well-formed listed name is granted the verified role when the guild
      defines it. */
  lemma {:induction false} GrantedWhenListed(m: Member, g: Guild, col: seq<string>)
    requires Matches(m.displayName) && m.displayName in col
    requires VerifiedRoleId in RoleIds(g)
    ensures Verify(m, g, Some(col)) == Step(Granted, Reply(Granted), m.roles + {VerifiedRoleId}, [])
  {
  }

  /** A member who has not renamed is rejected with one log entry. */
  lemma ScenarioFormatRejected()
    ensures
      var m := Member("jane", "janedoe", {});
      var r := Verify(m, Guild([Role(VerifiedRoleId, "Verified")]), Some(["janedoe"]));
      r.outcome == FormatRejected && r.roles == {}
      && r.appended == ["jane (janedoe) - Failed format check\n"]
  {
    var m := Member("jane", "janedoe", {});
    var g := Guild([Role(VerifiedRoleId, "Verified")]);
    assert !Matches(m.displayName) by {
      assert m.displayName[..3][0] != Prefix[0];
    }
    FormatRejectionIgnoresRoster(m, g, g, Some(["janedoe"]), None);
    EntryText(m);
  }

  /** The entry written for the account "jane" shown as "janedoe". */
  lemma EntryText(m: Member)
    requires m.name == "jane" && m.displayName == "janedoe"
    ensures FormatFailureEntry(m) == "jane (janedoe) - Failed format check\n"
  {
    assert m.name + " (" + m.displayName + ")" == "jane (janedoe)";
    assert "jane (janedoe)" + FormatFailureReason == "jane (janedoe) - Failed format check\n";
  }

  /** A well-formed name missing from the roster is denied with one log
      entry and no role. */
  lemma ScenarioDenied()
    ensures
      var m := Member("bob", "RA_7_bob", {});
      var r := Verify(m, Guild([Role(VerifiedRoleId, "Verified")]), Some(["RA_42_janedoe"]));
      r.outcome == Denied && VerifiedRoleId !in r.roles && r.appended == [NotFoundEntry(m)]
  {
    var m := Member("bob", "RA_7_bob", {});
    var col := ["RA_42_janedoe"];
    assert m.displayName !in col by {
      assert |m.displayName| != |col[0]|;
    }
    assert Matches(m.displayName) by {
      AcceptedExamples();
    }
    DeniedWhenUnlisted(m, Guild([Role(VerifiedRoleId, "Verified")]), col);
  }

  /** A well-formed name that the column does not list is denied. */
  lemma {:induction false} DeniedWhenUnlisted(m: Member, g: Guild, col: seq<string>)
    requires Matches(m.displayName) && m.displayName !in col
    ensures Verify(m, g, Some(col)) == Step(Denied, Reply(Denied), m.roles, [NotFoundEntry(m)])
  {
  }
}
