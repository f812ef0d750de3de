# Verification gate of the chief-minion Discord bot, in Dafny

The bot guards a Discord server for applicants. An applicant renames
themselves to their application id (`RA_<number>_<name>`) and presses the
**Verify** button. The bot then does three things:

- it checks the display name against the pattern `RA_\d+_.+`;
- it reads column 27 (AA) of the "Form Responses 1" worksheet;
- it grants the Verified Applicant role when the whole display name is one
  of that column's values.

Failed attempts are appended to `unverified_attempts.log`. Members who hold
the bot-helper role can also run moderation commands. Two of those change
roles: `unverify`, which removes the verified role, and `mute`, which adds a
Muted role and removes it again when a timer ends.

The model is functional. All Discord, Google Sheets and file effects reduce
to three things: the member's role set, the guild's role list, and a sequence
of appended log entries.

- `format.dfy` (module `DisplayNameFormat`): the display-name pattern. It has
  a declarative reading (`Conforms`) and an executable greedy scan
  (`Matches`), and the two are proved equal.
- `guild.dfy` (module `GuildRoles`): role ids, the bot's role constants, and
  the role lookups by id and by name (the first match, for a name).
- `verification.dfy` (module `Verification`): one press of the Verify button,
  as a function from the member, the guild and the worksheet handle to an
  outcome, a role set and the log entries appended.
- `moderation.dfy` (module `Moderation`): the bot-helper check, `unverify`,
  the role effect of `mute`, and the check that gates every command.

Decisions about the data:

- Roles are identified by their numeric id, because Discord role objects
  compare by id.
- A worksheet that was never opened (`sheet is None`) is a roster of `None`.
  An opened worksheet is `Some(column)`, where `column` holds the column-27
  values in sheet order.
- Each log entry is the exact string one `write` call appends, trailing
  newline included. A display name that passes the format check may still
  contain a newline after its first suffix character. In that case one entry
  spans two lines of the file.

Facts about the handler that the model keeps:

- The lookup key is the whole display name, not an id parsed out of it
  (chief.py:102, :106).
- A success writes nothing to the log. Only a format failure and a roster
  miss append an entry (chief.py:94, :106-116, :125).
- The verified role is added without first checking whether it is held
  (chief.py:110). Adding to a set is idempotent anyway, which
  `GrantIdempotent` states.
- A worksheet that could not be opened gives an "offline" reply and no log
  entry (chief.py:97-100).

## Model

| member | source | states |
|---|---|---|
| DisplayNameFormat.Matches | chief.py:87-88 | accepts exactly the names that are `RA_`, then one or more ASCII digits, then `_`, then a non-newline character, then anything; proved equal to the declarative reading of the pattern |
| DisplayNameFormat.DigitRunEnd | chief.py:87 | the greedy `\d+` scan: every character it passes is a digit, and it stops at the end of the name or at the first non-digit |
| DisplayNameFormat.TrailingTextAccepted | chief.py:87 | the match is anchored at the start only, so appending any text to an accepted name keeps it accepted |
| DisplayNameFormat.ShapeAccepted | chief.py:87 | every name of the shape `RA_` + digits + `_` + non-newline character + anything is accepted |
| DisplayNameFormat.AcceptedHasShape | chief.py:87 | every accepted name splits into that shape, the converse of `ShapeAccepted` |
| DisplayNameFormat.RejectedExamples | chief.py:87 | `RA_12_`, `ra_1_x`, `RA__x`, `RA_x_y`, the empty name, `RA_1_` followed by a newline, and `janedoe` are rejected |
| DisplayNameFormat.AcceptedExamples | chief.py:87 | `RA_42_janedoe`, `RA_7_bob`, a name with a newline after its first suffix character, and a name with spaces in its suffix are accepted |
| GuildRoles.FirstNamed | chief.py:213 | finds the first role with the given name, as `discord.utils.get(roles, name=…)` does, and finds nothing exactly when no role has that name |
| GuildRoles.FindById | chief.py:108 | `guild.get_role(id)`: the role found carries the id, and nothing is found exactly when no role carries it |
| GuildRoles.FindByIdDefined | chief.py:177 | a lookup by id succeeds exactly for the ids the guild defines |
| Verification.Verify | chief.py:81-125 | the reply shown is the one of the outcome, and no press ends in an error. The five outcomes and when each happens. Format failure: roles unchanged, one "Failed format check" entry. Offline: roles unchanged, no entry. Found with the role present: the verified role is added, no entry. Found without the role: roles unchanged, no entry. Not found: roles unchanged, one "Application ID not found" entry |
| Verification.Reply | chief.py:89-127 | each outcome's reply is the handler's own text (:90, :98, :111, :118, :121), and Errored's is the fixed start `An error occurred: ` of :127; the six texts are 99, 65, 60, 74, 71 and 19 characters long |
| Verification.RepliesDistinct | chief.py:89-121 | the five replies of the handler (and the error reply's fixed start) are pairwise different, so the member can tell every outcome from the reply alone |
| Verification.FormatFailureEntry | chief.py:94 | the format-failure entry is the account name, then " (", the display name, ")", then " - Failed format check" and a newline |
| Verification.NotFoundEntry | chief.py:125 | the not-found entry has the same layout (account name, " (", display name, ")") with " - Application ID not found" as its reason |
| Verification.EntriesDistinct | chief.py:94 | a format-failure entry can never equal a not-found entry, whatever the names |
| Verification.FormatRejectionIgnoresRoster | chief.py:87-95 | a rejected name never reaches the roster or the guild: the step is the same for every worksheet and every guild |
| Verification.LookupKeyIsWholeName | chief.py:102-106 | the roster matters only through whether the whole display name is one of the column's values |
| Verification.RolesOnlyGrow | chief.py:106-125 | the new role set lies between the old set and the old set plus the verified role, and it differs from the old set only on Granted |
| Verification.LoggedExactlyOnFailure | chief.py:88-125 | at most one entry is appended, and exactly one on FormatRejected or Denied |
| Verification.GrantIdempotent | chief.py:108-111 | pressing again after a grant gives the same step: same outcome, same roles, nothing logged |
| Verification.VerifiedAfterward | chief.py:106-119 | the member holds the verified role afterwards exactly when they held it before or this press granted it |
| Verification.ParsedIdNotEnough | chief.py:102-106 | a roster listing only an accepted id denies a display name made of that id plus any extra text, even though the longer name passes the format check |
| Verification.ScenarioGranted | chief.py:106-116 | `RA_42_janedoe`, when listed, is Granted, gets the verified role and logs nothing |
| Verification.ScenarioFormatRejected | chief.py:87-95 | `janedoe` is FormatRejected with exactly the entry `jane (janedoe) - Failed format check` |
| Verification.ScenarioDenied | chief.py:120-125 | `RA_7_bob`, when not listed, is Denied, gets no verified role and logs exactly its one "Application ID not found" entry |
| Verification.GrantedWhenListed | chief.py:106-116 | every well-formed listed name is Granted when the guild defines the verified role: the role is added, the success reply is sent and nothing is logged |
| Verification.VerifyAsWritten | chief.py:102-128 | the handler as written, with the dump's length bounded by the column: at least the column's characters plus brackets, quotes and separators, at most ten printed characters per character. A press either decides as `Verify` or ends in the error reply with no role change and no entry. A rejected name, an unopened worksheet or a missing operator channel always decide as `Verify`. A well-formed press errs whenever even the shortest dump of the column is over Discord's 2000-character limit, and decides as `Verify` whenever even the longest dump fits |
| Verification.LargeRosterDefeatsGrant | chief.py:104-110 | with 116 or more ids of at least 13 characters in the column, while the operator channel exists, a listed member whom `Verify` grants ends in an error as written, with their roles unchanged |
| Verification.DeniedWhenUnlisted | chief.py:120-125 | every well-formed name missing from the column is Denied with its roles unchanged and exactly its not-found entry logged |
| Moderation.HasBotHelperRole | chief.py:175-179 | the check holds exactly when the guild defines the bot-helper role and the author holds it |
| Moderation.HelperCheckIsMembership | chief.py:176-178 | for an author who holds only guild roles, the check is plain membership of the bot-helper role |
| Moderation.Unverify | chief.py:199-207 | reports "unverified" exactly when the guild defines the verified role and the member holds it. Only that role is ever removed, it is absent afterwards whenever the guild defines it or the member holds only guild roles, and on the "does not have" reply nothing changes |
| Moderation.UnverifyIdempotent | chief.py:199-207 | unverifying twice leaves the same roles as once, and the second run reports the role not held |
| Moderation.UnverifyUndoesGrant | chief.py:201-202 | unverify is the inverse of a grant: a member granted by the Verify button and then unverified holds exactly their original roles |
| Moderation.Mute | chief.py:213-222 | reuses the first role named Muted or creates exactly one. While muted, the member holds that role plus their other roles. Afterwards the Muted role is absent and every other role is as before |
| Moderation.MuteCreatesAtMostOnce | chief.py:213-217 | a mute that starts after an earlier mute's role is in the guild's role list reuses that role, so mutes run one after another add at most one Muted role |
| Moderation.MuteRoundTrip | chief.py:218-222 | mute followed by its timed unmute returns a member who did not hold the Muted role to exactly their old roles |
| Moderation.RunCommand | chief.py:175-179 | a moderation command runs exactly when its author passes the bot-helper check, and then it runs exactly `Unverify` or `Mute` on the target as asked; otherwise it fails the check and changes nothing |

## Left out

- Discord interactions, ephemeral replies, the welcome-channel message and
  `log_to_channel`: these are network I/O. Replies are reduced to the
  `Outcome` value and the `Reply` texts.
- gspread and OAuth setup (`initialize_google_sheets`, `creds_dict`): these
  are foreign library calls. The roster is an input.
- Writing to `unverified_attempts.log`: this is file I/O. It is modelled as
  the sequence of entries appended.
- The exception handlers of the Verify callback, which reply with raw error
  text (chief.py:126-131): what they do depends on library faults and on
  whether a reply was already sent. The one fault the roster itself decides,
  the oversized operator message, is modelled by `VerifyAsWritten`; the
  error reply is reduced to its fixed start.
- `SupportButton.callback`: it only sends two messages and has no state.
- `keep_alive`, the message purge in `on_ready`, and the `asyncio.sleep` in
  `mute`: these are process and timing plumbing. The model gives the role
  set while muted and after the timer, not the time in between.
- Channel permission overwrites set when the Muted role is created: these
  are platform calls with no bearing on role sets.
- ban, kick, warn, clear, lock, unlock and userinfo: these are one-shot
  platform calls with no logic to state.
- DisplayNameFormat.Matches: digits are the ASCII digits `'0'..'9'`. Python's
  `\d` also matches other Unicode decimal digits, so the model rejects some
  names that Python would accept.
- Moderation.Mute: the id of a newly created role is supplied by the
  platform, so it is a parameter, required not to be an existing role id.
- Moderation.Mute: overlapping invocations are not modelled. Each command
  runs in its own task; two mutes whose lookups both precede the platform's
  role-created event each create a Muted role, and when two mutes of one
  member overlap the shorter timer removes the role early.
- Moderation.Mute: the roles after the timer are computed from the roles
  held when the command started. The source removes the Muted role from the
  roles held when the timer ends, so a role gained during the mute (the
  verified role, say) is kept there but is not in the model's result.
- Verification.Verify: the Granted, GrantRoleMissing and Denied outcomes
  assume the operator-channel message of chief.py:105 is accepted; see
  "## Findings" and `VerifyAsWritten` for what happens when it is not.

## Findings

| source | as written | input that shows it | evidently intended | confidence | as-written member | corrected member |
|---|---|---|---|---|---|---|
| chief.py:105 | the whole of column 27 is sent to the operator channel before the membership test; Discord refuses messages over 2000 characters, the send raises, and the handler at :126-128 replies with the error, grants nothing and logs nothing | a listed, well-formed member while column 27 holds 116 or more ids of at least 13 characters each and the operator channel exists (chief.py:67 skips the send when it does not) | the outcome depends only on whether the display name is listed, whatever the size of the roster | medium, not executed | Verification.VerifyAsWritten, shown by Verification.LargeRosterDefeatsGrant | Verification.Verify, with Verification.LookupKeyIsWholeName and Verification.GrantedWhenListed |
