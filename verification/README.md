# Invite bot: the invite-request flow and its quota store

A Dafny model of the part of the Telegram invite bot that has real logic. In a group, `/invite` posts a deep link to the bot. That link carries the group's chat id to `/start`, which runs in the private chat with the bot. `/start` parses the id and checks the requester's quota of outstanding invites. It then asks the platform for a single-use invite link that expires after a configured number of hours, and records the link in the `invites` table.

Modules:

- `Wrappers`: `Option` and `Result`.
- `PyInt`: Python's base-10 `int(str)` and `str(int)`. These are the conversions the chat id makes through the deep link.
- `Database`: the `invites` table as a sequence of rows in insertion order. It holds the `Invite` constructor, the insert under the unique constraint on `link`, and the filter and count of `query_invites_for_user`.
- `Bot`: `start_command` and `invite_command`.

Parameters replace what the model cannot see:

- the configuration values `OWNER_ID`, `MAX_INVITES_PER_USER` and `EXPIRY_HOURS` (`Config`);
- the application clock `datetime.utcnow()` and the database clock `now()` used inside the quota query. These are two separate fields, with no relation assumed between them;
- the platform call `create_chat_invite_link`, which is a function from the request to either a link with its confirmed expiry or an error message.

Timestamps are integers that count microseconds since the Unix epoch, in UTC.

Facts about the code that shape the model:

- The code does not check that the requester is a member of the target chat, so neither does the model.
- Invites are created only by `/start` in a private chat with a first argument, which is normally the deep-link payload. Nothing checks where the argument came from, so a typed `/start <id>` creates an invite too. `/invite` is refused in a private chat.
- The membership listener is a stub that only prints, so nothing ever resolves an invite.
- The code does not catch the integrity error that a duplicate link raises, so `Outcome` has a `DuplicateLinkRaised` case: the handler raises, nothing is written and nothing is replied.
- `MAX_INVITES_PER_USER` and `EXPIRY_HOURS` are imported but never defined in the configuration module. They are parameters here and have no defaults.

## Model

| member | source | states |
|---|---|---|
| PyInt.ParseInt | invitebot/bot.py:74-78 | `int()` of the first argument, the conversion that can raise `ValueError` (`None`). A result exists only when the text, stripped of surrounding white space, ends in a digit. A negative result requires a leading minus sign. |
| PyInt.IntToString | invitebot/bot.py:152 | `str(chat_id)` is a minus sign exactly for negative ids, followed by digits with no leading zero; for a non-negative id every character is a digit, and only zero prints as `0`. |
| PyInt.ParseIntOfIntToString | invitebot/bot.py:75 | Round trip: `int(str(n)) == n` for every integer. |
| PyInt.ParseIntOfCanonical | invitebot/bot.py:75 | Converse round trip: every text in the form `str()` prints (optional minus, digits without a leading zero, never `-0`) is accepted by `int()`, and `str()` of the value gives the text back. |
| PyInt.ParseIntIgnoresSurroundingSpace | invitebot/bot.py:75 | `int()` of a text equals `int()` of the text with its surrounding white space stripped. |
| Database.NewInvite | invitebot/database.py:39-45 | A freshly constructed invite carries the given requester columns and is pending. Its invitee id, invitee name and join time are all unset. |
| Database.Insert | invitebot/database.py:28-30 | The insert fails exactly when the link is already stored, and then the table is unchanged. Otherwise it appends exactly one row and keeps every earlier row. The new row gets a key above every existing key, and its link is held by no other row. Well-formedness (increasing keys, unique links) is preserved. |
| Database.ActiveInvites | invitebot/database.py:51-59 | A row is in the query result exactly when it is in the table and all four conditions hold: same chat, same requester, expiry strictly after now, and no invitee. On a well-formed table the result is in ascending `invite_id` order. |
| Database.ActiveForOnePairUntilExpiry | invitebot/database.py:53-58 | An active row counts for exactly one (chat, user) pair, is pending, stays active at every instant from now up to its expiry, and is no longer active at its expiry instant. |
| Database.Count | invitebot/database.py:51-59 | The `.count()` of the quota query is at most the number of rows, and it is zero exactly when no row of the table is active for the pair at that time. |
| Database.CountIsNumberOfActivePositions | invitebot/database.py:51-58 | The quota count equals the number of table positions whose row meets the four conditions. |
| Database.CountIgnoresOtherPairs | invitebot/database.py:54-55 | Appending rows for other chats or other requesters leaves a (chat, user) count unchanged. |
| Database.ExpiredNeverCounted | invitebot/database.py:56 | A row whose expiry is at or before now never counts, wherever it sits in the table, even when it is unresolved. |
| Database.CountFallsAsTimePasses | invitebot/database.py:56 | A later database clock never gives a larger count. |
| Database.InsertNewInviteCount | invitebot/database.py:39-58 | Inserting a new invite with a fresh link succeeds. It raises the requester's count for that chat by one if the invite expires after now, and leaves the count unchanged otherwise. |
| Bot.TruncateToSecond | invitebot/bot.py:91 | The creation time is the start of the whole second that contains the current UTC time. |
| Bot.TargetChat | invitebot/bot.py:62-78 | A target chat exists only for a private chat with at least one argument. It is the integer parsed from the first argument. |
| Bot.QuotaBlocks | invitebot/bot.py:81 | The owner is never blocked. A blocked requester already holds at least `MAX_INVITES_PER_USER` active invites for the chat. |
| Bot.LinkRequestFor | invitebot/bot.py:91-99 | The request targets the parsed chat with a member limit of 1. Its expiry is exactly `EXPIRY_HOURS` hours after the truncated creation time, so it is a whole second. |
| Bot.StartCommand | invitebot/bot.py:60-115 | The outcome is `Welcome` exactly when there are no arguments or the chat is not private. It is `BadInput` exactly when the first argument does not parse, and `LimitExceeded(max)` exactly when the quota blocks; the owner never gets `LimitExceeded`. A link is requested exactly when none of these three applies. A platform error ends the flow with the platform's message, and a duplicate link ends it with that link. Only `Created` writes, and it appends exactly one row whose invitee id, invitee name and join time are all unset. That row has the parsed chat, the requester, the truncated creation time, and the platform's link and confirmed expiry. Table well-formedness is preserved. |
| Bot.InviteCommand | invitebot/bot.py:135-155 | Refused exactly in a private chat. Otherwise the deep-link payload contains only digits and `-`, and `int()` of it gives back the chat id. |
| Bot.DeepLinkTargetsGroup | invitebot/bot.py:147-152 | `/start` with the payload from `/invite` passes the welcome and parse steps. It requests and records the invite for the group where the button was posted. |
| Bot.StartKeepsQuota | invitebot/bot.py:80-115 | For anyone but the owner, holding at most the maximum of active invites for a chat stays true after `/start`, then and at every later database time. |
| Bot.QuotaBoundary | invitebot/bot.py:80-89 | A non-owner at exactly the maximum is refused, with no request and no write. A non-owner one below the maximum whose invite is created, with an expiry after the database clock, ends at the maximum. |

## Left out

- Telegram SDK plumbing is left out because it is I/O: the updater, handler registration, polling, sending replies, Markdown reply texts, inline keyboards, the share URL and the URL form of the deep link. The outcome carries the data a reply would show, such as the limit and the platform's error message.
- SQLAlchemy mechanics are left out because they are foreign library calls: the engine, the session, `commit`, table creation and the server-side default of `create_date`. The code always passes `create_date`, so that default never applies.
- The session stays in a failed state after the uncaught integrity error, and every later query would then fail until a rollback. That session state is not modelled: each call starts from a usable session with no rollback pending.
- The quota comparison is modelled as a strict comparison of instants. On the default SQLite database, `now()` is rendered as `CURRENT_TIMESTAMP`, which is text of the form `YYYY-MM-DD HH:MM:SS`. `expire_date` is stored as `YYYY-MM-DD HH:MM:SS.ffffff`, and the two are compared as text. In the program, a pending invite therefore keeps counting for up to one second after its expiry. In the model it stops counting at the expiry instant, so `Database.ExpiredNeverCounted` and `Database.ActiveForOnePairUntilExpiry` describe the instant comparison and not that backend.
- The `None` expiry that the platform's link object allows would break the NOT NULL constraint on `expire_date`. The platform result always carries an expiry here.
- `new_chat_member`, `help_command`, `my_invites_command` and `check_invite_command` are stubs with no behaviour, so the model has no membership listener and no invitee-resolution step.
- `invitebot/__init__.py` (environment loading, logging, the interpreter version check) is configuration I/O. `invitebot/models.py` is an alternate table that nothing imports. `invitebot.utils` is not part of this model.
- PyInt.ParseInt: the values of texts outside the form `str()` prints (a `+` sign, leading zeros, underscores between digits) are given by its definition and not by a separate lemma. It does not accept non-ASCII decimal digits, which Python's `int()` accepts. It also does not model the interpreter's limit on the number of digits in a conversion.
- Database.Insert: keys are assigned as one more than the largest key, which is SQLite's default without deletions. The 64-bit key ceiling is not modelled, and neither are the 64-bit widths of the integer columns.
- Bot.StartCommand: does not model the 64-bit width of SQLite integers. For a payload such as `99999999999999999999`, binding the chat id in the quota query raises `OverflowError` before any link is requested, and no reply is sent; the model goes on to the quota check and the platform call instead.
- Bot.LinkRequestFor: `EXPIRY_HOURS` is taken as a whole number of hours. A fractional value and the `datetime` range overflow are not modelled.
