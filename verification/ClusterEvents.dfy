/** The cluster event log: how an event is stored as a row and read back. */
module ClusterEvents {
  import opened Common

  // ---------------------------------------------------------------- events and rows

  datatype RoomKind =
    | Sync | Created | Joined | Left | Prep | GameStarted | StateChanged | Spectators
    | Presence(seat: int, connected: bool)
    | Deleted

  datatype Format = ClassicConstructed | SilverAge

  datatype PoolMode = Future | Open

  datatype Event =
    | Room(code: string, kind: RoomKind, version: int)
    | QueueChanged
    | QueueWaiting(userId: int, format: Format)
    | SessionRevoked(tokenHash: string)
    | UserSessionsRevoked(userId: int)
    | MatchReady(userId: int, code: string, created: bool)
    | MatchHandoff(userId: int, code: string, sourceCode: string)
    | MatchTimeout(userId: int, code: string)
    | BackgroundStatusChanged(userId: int)
    | BotPracticeReady(userId: int, code: string)
    | Emote(code: string, seat: int, message: string)
    | SocialRefresh(userId: int)
    | SocialPresence(userId: int)
    | LeagueUpdated(userId: int)
    | ChatMessage(userId: int, messageId: string)
    | FriendGameInvite(userId: int, inviteId: string, fromUsername: string, code: string, format: Format,
                       cardPoolMode: Option<PoolMode>, sentAt: int)
    | FriendGameInviteDismiss(userId: int, inviteId: string)

  datatype Json = JNull | JBool(b: bool) | JNumber(n: int) | JString(s: string)

  /** The text of the event_type column; `TOther` is any text no event uses. */
  datatype EventType =
    | TRoom | TQueueChanged | TQueueWaiting | TSessionRevoked | TUserSessionsRevoked | TMatchReady
    | TMatchHandoff | TMatchTimeout | TBackgroundStatusChanged | TBotPracticeReady | TEmote | TSocialRefresh
    | TSocialPresence | TLeagueUpdated | TChatMessage | TFriendGameInvite | TFriendGameInviteDismiss | TOther

  /** A stored row; a payload that is not an object reads as None. */
  datatype Row = Row(id: int, eventType: EventType, roomCode: Option<string>, roomVersion: Option<int>,
                     subjectUserId: Option<int>, payload: Option<map<string, Json>>)

  const MAX_SAFE_INTEGER: int := 9007199254740991

  predicate Safe(n: int) { -MAX_SAFE_INTEGER <= n <= MAX_SAFE_INTEGER }

  /** `safeInteger` of a column: SQL NULL converts to 0, as Number(null) does. */
  function ColumnInteger(v: Option<int>): Option<int> {
    var n := if v.Some? then v.value else 0;
    if Safe(n) then Some(n) else None
  }

  /** `safeInteger` of a payload field. */
  function FieldInteger(payload: Option<map<string, Json>>, field: string): Option<int> {
    match Field(payload, field)
    case Some(JNumber(n)) => if Safe(n) then Some(n) else None
    case Some(JNull) => Some(0)
    case Some(JBool(b)) => Some(if b then 1 else 0)
    case _ => None
  }

  function Field(payload: Option<map<string, Json>>, field: string): Option<Json> {
    if payload.Some? && field in payload.value then Some(payload.value[field]) else None
  }

  predicate Upper(c: char) { 'A' <= c <= 'Z' }
  predicate Lower(c: char) { 'a' <= c <= 'z' }
  predicate Digit(c: char) { '0' <= c <= '9' }

  predicate RoomCode(s: string) { |s| == 6 && forall i | 0 <= i < |s| :: Upper(s[i]) || Digit(s[i]) }
  predicate Username(s: string) {
    3 <= |s| <= 20 && forall i | 0 <= i < |s| :: Upper(s[i]) || Lower(s[i]) || Digit(s[i]) || s[i] == '_'
  }
  predicate TokenHash(s: string) { |s| == 64 && forall i | 0 <= i < |s| :: Digit(s[i]) || 'a' <= s[i] <= 'f' }
  predicate MessageId(s: string) {
    1 <= |s| <= 20 && s[0] != '0' && forall i | 0 <= i < |s| :: Digit(s[i])
  }
  predicate InviteId(s: string) {
    && 8 <= |s| <= 64
    && forall i | 0 <= i < |s| :: Upper(s[i]) || Lower(s[i]) || Digit(s[i]) || s[i] == '_' || s[i] == '-'
  }
  predicate UserId(n: int) { 0 < n <= MAX_SAFE_INTEGER }

  const EMOTES: set<string> := {
    "Hello!", "Good luck, have fun!", "Good game!", "Thanks!", "Sorry!", "No problem!", "Nice play!", "Thinking...", "Oops!"
  }

  function KindName(kind: RoomKind): string {
    match kind
    case Sync => "sync" case Created => "created" case Joined => "joined" case Left => "left"
    case Prep => "prep" case GameStarted => "game-started" case StateChanged => "state"
    case Spectators => "spectators" case Presence(_, _) => "presence" case Deleted => "deleted"
  }

  /** The room kinds that carry nothing beside their name. */
  function PlainKind(name: string): Option<RoomKind> {
    if name == "sync" then Some(Sync) else if name == "created" then Some(Created)
    else if name == "joined" then Some(Joined) else if name == "left" then Some(Left)
    else if name == "prep" then Some(Prep) else if name == "game-started" then Some(GameStarted)
    else if name == "state" then Some(StateChanged) else if name == "spectators" then Some(Spectators)
    else if name == "deleted" then Some(Deleted) else None
  }

  function FormatName(f: Format): string { if f.ClassicConstructed? then "cc" else "silver-age" }

  function FormatField(payload: Option<map<string, Json>>): Option<Format> {
    var f := Field(payload, "format");
    if f == Some(JString("cc")) then Some(ClassicConstructed)
    else if f == Some(JString("silver-age")) then Some(SilverAge) else None
  }

  function PoolModeName(m: PoolMode): string { if m.Future? then "future" else "open" }

  // ---------------------------------------------------------------- appendClusterEvent and decodeRow

  /** The row `appendClusterEvent` inserts; the database assigns `id`. */
  method Append(event: Event, id: int) returns (row: Row)
    ensures row == Encode(event, id)
  {
    var eventType := TypeOf(event);
    var code: Option<string>, version: Option<int>, userId: Option<int> := None, None, None;
    var payload: map<string, Json> := map[];
    match event {
      case Room(c, kind, v) =>
        code, version := Some(c), Some(v);
        payload := if kind.Presence?
                   then map["kind" := JString("presence"), "seat" := JNumber(kind.seat), "connected" := JBool(kind.connected)]
                   else map["kind" := JString(KindName(kind))];
      case QueueChanged =>
      case SessionRevoked(hash) => payload := map["tokenHash" := JString(hash)];
      case UserSessionsRevoked(u) => userId := Some(u);
      case QueueWaiting(u, f) => userId := Some(u); payload := map["format" := JString(FormatName(f))];
      case MatchReady(u, c, created) =>
        userId, code := Some(u), Some(c); payload := map["created" := JBool(created)];
      case MatchHandoff(u, c, source) =>
        userId, code := Some(u), Some(c); payload := map["sourceCode" := JString(source)];
      case MatchTimeout(u, c) => userId, code := Some(u), Some(c);
      case BackgroundStatusChanged(u) => userId := Some(u);
      case BotPracticeReady(u, c) => userId, code := Some(u), Some(c);
      case Emote(c, seat, message) =>
        code := Some(c); payload := map["seat" := JNumber(seat), "message" := JString(message)];
      case SocialRefresh(u) => userId := Some(u);
      case SocialPresence(u) => userId := Some(u);
      case LeagueUpdated(u) => userId := Some(u);
      case ChatMessage(u, m) => userId := Some(u); payload := map["messageId" := JString(m)];
      case FriendGameInvite(u, invite, from, c, f, mode, sentAt) =>
        userId, code := Some(u), Some(c);
        payload := map["inviteId" := JString(invite), "fromUsername" := JString(from),
                       "format" := JString(FormatName(f)), "sentAt" := JNumber(sentAt)];
        if mode.Some? { payload := payload["cardPoolMode" := JString(PoolModeName(mode.value))]; }
      case FriendGameInviteDismiss(u, invite) => userId := Some(u); payload := map["inviteId" := JString(invite)];
    }
    row := Row(id, eventType, code, version, userId, Some(payload));
  }

  function TypeOf(event: Event): EventType {
    match event
    case Room(_, _, _) => TRoom case QueueChanged => TQueueChanged case QueueWaiting(_, _) => TQueueWaiting
    case SessionRevoked(_) => TSessionRevoked case UserSessionsRevoked(_) => TUserSessionsRevoked
    case MatchReady(_, _, _) => TMatchReady case MatchHandoff(_, _, _) => TMatchHandoff
    case MatchTimeout(_, _) => TMatchTimeout case BackgroundStatusChanged(_) => TBackgroundStatusChanged
    case BotPracticeReady(_, _) => TBotPracticeReady case Emote(_, _, _) => TEmote
    case SocialRefresh(_) => TSocialRefresh case SocialPresence(_) => TSocialPresence
    case LeagueUpdated(_) => TLeagueUpdated case ChatMessage(_, _) => TChatMessage
    case FriendGameInvite(_, _, _, _, _, _, _) => TFriendGameInvite
    case FriendGameInviteDismiss(_, _) => TFriendGameInviteDismiss
  }

  /** The stored form of an event, column by column. */
  function Encode(event: Event, id: int): Row {
    Row(id, TypeOf(event), EncodedCode(event),
        if event.Room? then Some(event.version) else None, EncodedUser(event), Some(EncodedPayload(event)))
  }

  function EncodedCode(event: Event): Option<string> {
    if event.Room? || event.MatchReady? || event.MatchHandoff? || event.MatchTimeout?
       || event.BotPracticeReady? || event.Emote? || event.FriendGameInvite?
    then Some(event.code) else None
  }

  function EncodedUser(event: Event): Option<int> {
    if event.Room? || event.QueueChanged? || event.SessionRevoked? || event.Emote? then None else Some(event.userId)
  }

  function EncodedPayload(event: Event): map<string, Json> {
    match event
    case Room(_, Presence(seat, connected), _) =>
      map["kind" := JString("presence"), "seat" := JNumber(seat), "connected" := JBool(connected)]
    case Room(_, kind, _) => map["kind" := JString(KindName(kind))]
    case SessionRevoked(hash) => map["tokenHash" := JString(hash)]
    case QueueWaiting(_, f) => map["format" := JString(FormatName(f))]
    case MatchReady(_, _, created) => map["created" := JBool(created)]
    case MatchHandoff(_, _, source) => map["sourceCode" := JString(source)]
    case Emote(_, seat, message) => map["seat" := JNumber(seat), "message" := JString(message)]
    case ChatMessage(_, m) => map["messageId" := JString(m)]
    case FriendGameInvite(_, invite, from, _, f, mode, sentAt) =>
      var base := map["inviteId" := JString(invite), "fromUsername" := JString(from),
                      "format" := JString(FormatName(f)), "sentAt" := JNumber(sentAt)];
      if mode.Some? then base["cardPoolMode" := JString(PoolModeName(mode.value))] else base
    case FriendGameInviteDismiss(_, invite) => map["inviteId" := JString(invite)]
    case _ => map[]
  }

  /** `decodeRow`: None for a row that is not a well-formed event. */
  function Decode(row: Row): Option<Event> {
    var code := if row.roomCode.Some? && RoomCode(row.roomCode.value) then row.roomCode else None;
    var user := ColumnInteger(row.subjectUserId);
    var hasUser := user.Some? && user.value > 0;
    if !Safe(row.id) || row.id < 1 then None
    else if row.eventType == TRoom then DecodeRoom(row, code)
    else if row.eventType == TQueueChanged then Some(QueueChanged)
    else if row.eventType == TQueueWaiting then
      var f := FormatField(row.payload);
      if hasUser && f.Some? then Some(QueueWaiting(user.value, f.value)) else None
    else if row.eventType == TSessionRevoked then
      match Field(row.payload, "tokenHash")
      case Some(JString(hash)) => if TokenHash(hash) then Some(SessionRevoked(hash)) else None
      case _ => None
    else if row.eventType == TMatchReady then
      match Field(row.payload, "created")
      case Some(JBool(created)) =>
        if hasUser && code.Some? then Some(MatchReady(user.value, code.value, created)) else None
      case _ => None
    else if row.eventType == TMatchHandoff then
      match Field(row.payload, "sourceCode")
      case Some(JString(source)) =>
        if hasUser && code.Some? && RoomCode(source) then Some(MatchHandoff(user.value, code.value, source)) else None
      case _ => None
    else if row.eventType == TMatchTimeout then
      if hasUser && code.Some? then Some(MatchTimeout(user.value, code.value)) else None
    else if row.eventType == TBotPracticeReady then
      if hasUser && code.Some? then Some(BotPracticeReady(user.value, code.value)) else None
    else if row.eventType == TEmote then
      var seat := FieldInteger(row.payload, "seat");
      match Field(row.payload, "message")
      case Some(JString(message)) =>
        if code.Some? && (seat == Some(0) || seat == Some(1)) && message in EMOTES
        then Some(Emote(code.value, seat.value, message)) else None
      case _ => None
    else if row.eventType == TChatMessage then
      match Field(row.payload, "messageId")
      case Some(JString(m)) => if hasUser && MessageId(m) then Some(ChatMessage(user.value, m)) else None
      case _ => None
    else if row.eventType == TFriendGameInvite then DecodeInvite(row, code, user)
    else if row.eventType == TFriendGameInviteDismiss then
      match Field(row.payload, "inviteId")
      case Some(JString(invite)) =>
        if hasUser && InviteId(invite) then Some(FriendGameInviteDismiss(user.value, invite)) else None
      case _ => None
    else if !hasUser then None
    else if row.eventType == TUserSessionsRevoked then Some(UserSessionsRevoked(user.value))
    else if row.eventType == TBackgroundStatusChanged then Some(BackgroundStatusChanged(user.value))
    else if row.eventType == TSocialRefresh then Some(SocialRefresh(user.value))
    else if row.eventType == TSocialPresence then Some(SocialPresence(user.value))
    else if row.eventType == TLeagueUpdated then Some(LeagueUpdated(user.value))
    else None
  }

  function DecodeRoom(row: Row, code: Option<string>): Option<Event> {
    var version := ColumnInteger(row.roomVersion);
    if code.None? || version.None? || version.value < 0 then None
    else
      match Field(row.payload, "kind")
      case Some(JString(name)) =>
        if name == "presence" then
          var seat := FieldInteger(row.payload, "seat");
          match Field(row.payload, "connected")
          case Some(JBool(connected)) =>
            if seat == Some(0) || seat == Some(1)
            then Some(Room(code.value, Presence(seat.value, connected), version.value)) else None
          case _ => None
        else
          var kind := PlainKind(name);
          if kind.Some? then Some(Room(code.value, kind.value, version.value)) else None
      case _ => None
  }

  function DecodeInvite(row: Row, code: Option<string>, user: Option<int>): Option<Event> {
    var sentAt := FieldInteger(row.payload, "sentAt");
    var f := FormatField(row.payload);
    var modeField := Field(row.payload, "cardPoolMode");
    if user.None? || user.value < 1 || code.None? || sentAt.None? || sentAt.value < 0 || f.None?
       || !(modeField == None || modeField == Some(JString("future")) || modeField == Some(JString("open"))) then None
    else
      match (Field(row.payload, "inviteId"), Field(row.payload, "fromUsername"))
      case (Some(JString(invite)), Some(JString(from))) =>
        var mode := if modeField.None? then None
                    else if modeField == Some(JString("future")) then Some(Future) else Some(Open);
        if InviteId(invite) && Username(from)
        then Some(FriendGameInvite(user.value, invite, from, code.value, f.value, mode, sentAt.value)) else None
      case (_, _) => None
  }

  /** The events the rest of the server is allowed to raise. */
  predicate WellFormed(event: Event) {
    match event
    case Room(code, kind, version) =>
      && RoomCode(code) && 0 <= version <= MAX_SAFE_INTEGER
      && (kind.Presence? ==> kind.seat == 0 || kind.seat == 1)
    case QueueChanged => true
    case QueueWaiting(u, _) => UserId(u)
    case SessionRevoked(hash) => TokenHash(hash)
    case MatchReady(u, code, _) => UserId(u) && RoomCode(code)
    case MatchHandoff(u, code, source) => UserId(u) && RoomCode(code) && RoomCode(source)
    case MatchTimeout(u, code) => UserId(u) && RoomCode(code)
    case BotPracticeReady(u, code) => UserId(u) && RoomCode(code)
    case Emote(code, seat, message) => RoomCode(code) && (seat == 0 || seat == 1) && message in EMOTES
    case ChatMessage(u, m) => UserId(u) && MessageId(m)
    case FriendGameInvite(u, invite, from, code, _, _, sentAt) =>
      UserId(u) && InviteId(invite) && Username(from) && RoomCode(code) && 0 <= sentAt <= MAX_SAFE_INTEGER
    case FriendGameInviteDismiss(u, invite) => UserId(u) && InviteId(invite)
    case UserSessionsRevoked(u) => UserId(u)
    case BackgroundStatusChanged(u) => UserId(u)
    case SocialRefresh(u) => UserId(u)
    case SocialPresence(u) => UserId(u)
    case LeagueUpdated(u) => UserId(u)
  }

  lemma DecodeEncodeRoom(event: Event, id: int)
    requires event.Room? && 1 <= id <= MAX_SAFE_INTEGER
    ensures Decode(Encode(event, id)) == if WellFormed(event) then Some(event) else None
  {
    var payload := Some(EncodedPayload(event));
    assert Field(payload, "kind") == Some(JString(KindName(event.kind)));
    if event.kind.Presence? {
      assert FieldInteger(payload, "seat") == if Safe(event.kind.seat) then Some(event.kind.seat) else None;
    } else {
      assert PlainKind(KindName(event.kind)) == Some(event.kind);
    }
  }

  lemma DecodeEncodeInvite(event: Event, id: int)
    requires event.FriendGameInvite? && 1 <= id <= MAX_SAFE_INTEGER
    ensures Decode(Encode(event, id)) == if WellFormed(event) then Some(event) else None
  {
    var payload := Some(EncodedPayload(event));
    assert Field(payload, "inviteId") == Some(JString(event.inviteId));
    assert Field(payload, "fromUsername") == Some(JString(event.fromUsername));
    assert FormatField(payload) == Some(event.format);
    assert Field(payload, "cardPoolMode") ==
           if event.cardPoolMode.Some? then Some(JString(PoolModeName(event.cardPoolMode.value))) else None;
    assert FieldInteger(payload, "sentAt") == if Safe(event.sentAt) then Some(event.sentAt) else None;
  }

  /** Storing an event and reading its row gives the event back when it is well formed, and
      nothing at all otherwise. */
  lemma DecodeEncode(event: Event, id: int)
    requires 1 <= id <= MAX_SAFE_INTEGER
    ensures Decode(Encode(event, id)) == if WellFormed(event) then Some(event) else None
  {
    match event {
      case Room(_, _, _) => DecodeEncodeRoom(event, id);
      case FriendGameInvite(_, _, _, _, _, _, _) => DecodeEncodeInvite(event, id);
      case _ => DecodeEncodeOther(event, id);
    }
  }

  lemma DecodeEncodeOther(event: Event, id: int)
    requires !event.Room? && !event.FriendGameInvite? && 1 <= id <= MAX_SAFE_INTEGER
    ensures Decode(Encode(event, id)) == if WellFormed(event) then Some(event) else None
  {
  }
}
