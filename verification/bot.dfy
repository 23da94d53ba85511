/**
  The invite-request flow of the bot: `/invite` in a group hands out a
  deep link to the bot, and `/start <chat id>` in the private chat with the
  bot checks the requester's quota, asks the platform for a single-use,
  expiring invite link and records it.

  The platform's `create_chat_invite_link` call is the parameter
  `createLink`; the application clock (`datetime.utcnow()`) and the
  database clock (`now()` inside the quota query) are fields of the request.
 */
module Bot {
  import opened Wrappers
  import PyInt
  import opened Database

  /** `OWNER_ID`, `MAX_INVITES_PER_USER` and `EXPIRY_HOURS`. */
  datatype Config = Config(ownerId: int, maxInvitesPerUser: int, expiryHours: int)

  datatype ChatType = Private | Group | Supergroup | Channel

  /** The sender of the command: its id and its display name (`full_name`). */
  datatype User = User(id: int, fullName: string)

  /**
    One `/start` update: the type of the chat it was sent in, the words after
    the command, the sender, and the two clocks read while handling it.
   */
  datatype StartRequest = StartRequest(
    chatType: ChatType,
    args: seq<string>,
    user: User,
    utcNow: int,
    dbNow: int)

  /** The arguments of `create_chat_invite_link`. */
  datatype LinkRequest = LinkRequest(chatId: int, expireDate: int, memberLimit: int)

  /** The platform's answer: the link and the expiry it confirmed, or a `TelegramError` message. */
  datatype LinkResult = LinkOk(link: string, expireDate: int) | LinkErr(message: string)

  /** How a `/start` update ends. */
  datatype Outcome =
    | Welcome                       // no payload, or not a private chat: greeting only
    | BadInput                      // the payload is not an integer
    | LimitExceeded(limit: int)     // quota reached by someone other than the owner
    | PlatformError(message: string)  // the platform refused to create the link
    | Created(row: Row)             // the link was created and recorded
    | DuplicateLinkRaised(link: string)  // the insert broke the unique constraint; the handler raises

  /** The outcome, the link request sent to the platform (if any), and the table afterwards. */
  datatype StartResult = StartResult(outcome: Outcome, request: Option<LinkRequest>, store: Store)

  const MicrosPerSecond: int := 1_000_000
  const MicrosPerHour: int := 3_600_000_000

  /** `replace(microsecond=0)`: the start of the second that contains `t`. */
  function TruncateToSecond(t: int): (r: int)
    ensures r % MicrosPerSecond == 0
    ensures r <= t < r + MicrosPerSecond
  {
    t - t % MicrosPerSecond
  }

  /** The chat a `/start` update asks an invite for, or `None` when the flow stops before the quota check. */
  function TargetChat(req: StartRequest): (r: Option<int>)
    ensures r.Some? ==> req.chatType == Private && |req.args| > 0
    ensures r.Some? ==> PyInt.ParseInt(req.args[0]) == r
  {
    if |req.args| == 0 || req.chatType != Private then None
    else PyInt.ParseInt(req.args[0])
  }

  /** The quota check: the requester already holds the maximum of active invites for the chat. */
  predicate QuotaBlocks(cfg: Config, store: Store, chatId: int, user: User, dbNow: int)
    ensures user.id == cfg.ownerId ==> !QuotaBlocks(cfg, store, chatId, user, dbNow)
    ensures QuotaBlocks(cfg, store, chatId, user, dbNow) ==> Count(store, chatId, user.id, dbNow) >= cfg.maxInvitesPerUser
  {
    Count(store, chatId, user.id, dbNow) >= cfg.maxInvitesPerUser && user.id != cfg.ownerId
  }

  /** The request sent to the platform: one member, expiring `EXPIRY_HOURS` after the truncated creation time. */
  function LinkRequestFor(cfg: Config, chatId: int, utcNow: int): (lr: LinkRequest)
    ensures lr.chatId == chatId && lr.memberLimit == 1
    ensures lr.expireDate - TruncateToSecond(utcNow) == cfg.expiryHours * MicrosPerHour
    ensures lr.expireDate % MicrosPerSecond == 0
  {
    LinkRequest(chatId, TruncateToSecond(utcNow) + cfg.expiryHours * MicrosPerHour, 1)
  }

  /** `start_command`. */
  function StartCommand(cfg: Config, req: StartRequest, store: Store, createLink: LinkRequest -> LinkResult): (r: StartResult)
    // the early exits, in order, and that none of them touches the platform or the table
    ensures r.outcome.Welcome? <==> |req.args| == 0 || req.chatType != Private
    ensures r.outcome.BadInput? <==> |req.args| > 0 && req.chatType == Private && PyInt.ParseInt(req.args[0]).None?
    ensures r.outcome.LimitExceeded? <==> TargetChat(req).Some? && QuotaBlocks(cfg, store, TargetChat(req).value, req.user, req.dbNow)
    ensures r.outcome.LimitExceeded? ==> r.outcome.limit == cfg.maxInvitesPerUser
    ensures req.user.id == cfg.ownerId ==> !r.outcome.LimitExceeded?
    ensures r.request.None? <==> r.outcome.Welcome? || r.outcome.BadInput? || r.outcome.LimitExceeded?
    // the platform is asked for a one-member link to the parsed chat
    ensures r.request.Some? ==> r.request.value == LinkRequestFor(cfg, TargetChat(req).value, req.utcNow)
    ensures r.outcome.PlatformError? <==> r.request.Some? && createLink(r.request.value).LinkErr?
    ensures r.outcome.PlatformError? ==> r.outcome.message == createLink(r.request.value).message
    // only a created invite writes, and it writes exactly one row
    ensures !r.outcome.Created? ==> r.store == store
    ensures r.outcome.DuplicateLinkRaised? <==> r.request.Some? && createLink(r.request.value).LinkOk? && LinkTaken(store, createLink(r.request.value).link)
    ensures r.outcome.Created? ==> r.request.Some? && createLink(r.request.value).LinkOk?
    ensures r.outcome.Created? ==> r.store == store + [r.outcome.row]
    ensures r.outcome.Created? ==>
      var inv := r.outcome.row.invite;
      && inv.chatId == TargetChat(req).value
      && inv.link == createLink(r.request.value).link
      && inv.expireDate == createLink(r.request.value).expireDate
      && inv.fromId == req.user.id
      && inv.fromName == req.user.fullName
      && inv.createDate == TruncateToSecond(req.utcNow)
      && Pending(inv) && inv.inviteeName.None? && inv.joinedAt.None?
    ensures r.outcome.DuplicateLinkRaised? ==> r.outcome.link == createLink(r.request.value).link
    ensures WellFormed(store) ==> WellFormed(r.store)
  {
    match TargetChat(req)
    case None =>
      if |req.args| == 0 || req.chatType != Private then StartResult(Welcome, None, store)
      else StartResult(BadInput, None, store)
    case Some(chatId) =>
      if QuotaBlocks(cfg, store, chatId, req.user, req.dbNow) then
        StartResult(LimitExceeded(cfg.maxInvitesPerUser), None, store)
      else
        var createDate := TruncateToSecond(req.utcNow);
        var linkRequest := LinkRequestFor(cfg, chatId, req.utcNow);
        match createLink(linkRequest)
        case LinkErr(message) => StartResult(PlatformError(message), Some(linkRequest), store)
        case LinkOk(link, confirmedExpiry) =>
          var inv := NewInvite(chatId, link, req.user.id, req.user.fullName, createDate, confirmedExpiry);
          match Insert(store, inv)
          case Failure(_) => StartResult(DuplicateLinkRaised(link), Some(linkRequest), store)
          case Success(stored) =>
            assert stored == store + [stored[|store|]];
            StartResult(Created(stored[|store|]), Some(linkRequest), stored)
  }

  /** How `/invite` answers: a refusal, or a button whose deep link carries `payload` to `/start`. */
  datatype InviteReply = NotHere | DeepLink(payload: string)

  /** `invite_command`: refused in a private chat; in a group the payload is the chat id as text. */
  function InviteCommand(chatType: ChatType, chatId: int): (r: InviteReply)
    ensures r.NotHere? <==> chatType == Private
    ensures r.DeepLink? ==> PyInt.ParseInt(r.payload) == Some(chatId)
    ensures r.DeepLink? ==> forall i :: 0 <= i < |r.payload| ==> PyInt.IsDigit(r.payload[i]) || r.payload[i] == '-'
  {
    if chatType == Private then NotHere
    else
      PyInt.ParseIntOfIntToString(chatId);
      DeepLink(PyInt.IntToString(chatId))
  }

  /**
    Following the deep link `/invite` hands out in a group leads `/start`,
    in the private chat, past the welcome and the parse to the same chat:
    the invite is requested for the group the button was posted in.
   */
  lemma DeepLinkTargetsGroup(cfg: Config, groupType: ChatType, groupId: int, user: User, rest: seq<string>, utcNow: int, dbNow: int, store: Store, createLink: LinkRequest -> LinkResult)
    requires groupType != Private
    ensures InviteCommand(groupType, groupId).DeepLink?
    ensures
      var req := StartRequest(Private, [InviteCommand(groupType, groupId).payload] + rest, user, utcNow, dbNow);
      var r := StartCommand(cfg, req, store, createLink);
      && TargetChat(req) == Some(groupId)
      && !r.outcome.Welcome? && !r.outcome.BadInput?
      && (r.request.Some? ==> r.request.value.chatId == groupId)
      && (r.outcome.Created? ==> r.outcome.row.invite.chatId == groupId)
  {
  }

  /**
    The quota is an invariant for everyone but the owner: if a user holds at
    most `MAX_INVITES_PER_USER` active invites for a chat, a `/start` of that
    user keeps it so, now and at every later moment.
   */
  lemma StartKeepsQuota(cfg: Config, req: StartRequest, store: Store, createLink: LinkRequest -> LinkResult, chatId: int, later: int)
    requires req.user.id != cfg.ownerId
    requires Count(store, chatId, req.user.id, req.dbNow) <= cfg.maxInvitesPerUser
    requires req.dbNow <= later
    ensures Count(StartCommand(cfg, req, store, createLink).store, chatId, req.user.id, later) <= cfg.maxInvitesPerUser
  {
    var r := StartCommand(cfg, req, store, createLink);
    if r.outcome.Created? {
      CountAppend(store, r.outcome.row, chatId, req.user.id, req.dbNow);
      if r.outcome.row.invite.chatId == chatId {
        assert !QuotaBlocks(cfg, store, chatId, req.user, req.dbNow);
      }
    }
    CountFallsAsTimePasses(r.store, chatId, req.user.id, req.dbNow, later);
  }

  /**
    The quota boundary: a user other than the owner who holds exactly the
    maximum is refused with nothing written; one below the maximum whose
    link is created ends at the maximum, when the confirmed expiry lies
    after the database clock.
   */
  lemma QuotaBoundary(cfg: Config, req: StartRequest, store: Store, createLink: LinkRequest -> LinkResult, chatId: int)
    requires req.user.id != cfg.ownerId
    requires TargetChat(req) == Some(chatId)
    ensures Count(store, chatId, req.user.id, req.dbNow) == cfg.maxInvitesPerUser ==>
      var r := StartCommand(cfg, req, store, createLink);
      r.outcome == LimitExceeded(cfg.maxInvitesPerUser) && r.request.None? && r.store == store
    ensures
      var r := StartCommand(cfg, req, store, createLink);
      Count(store, chatId, req.user.id, req.dbNow) == cfg.maxInvitesPerUser - 1 && r.outcome.Created?
        && r.outcome.row.invite.expireDate > req.dbNow
      ==> Count(r.store, chatId, req.user.id, req.dbNow) == cfg.maxInvitesPerUser
  {
    var r := StartCommand(cfg, req, store, createLink);
    if r.outcome.Created? {
      CountAppend(store, r.outcome.row, chatId, req.user.id, req.dbNow);
    }
  }
}
