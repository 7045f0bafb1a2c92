/** The chat session handler (server/api/messages/websocket.ts): one peer's
    connection, from the handshake in `open`, through each `message` frame,
    to `close`. The JWT library, the conversation table, the clock, the KV
    store and the pub/sub rooms are inputs or state of the model. */
module ChatSocket {
  import opened Wrappers
  import opened Encrypt

  /** JavaScript truthiness of a `string | undefined`. */
  predicate Truthy(o: Option<string>) {
    o.Some? && o.value != ""
  }

  /** The two query parameters of the upgrade URL (`undefined` when absent). */
  datatype Query = Query(conversationId: Option<string>, token: Option<string>)

  /** What the handshake consults.
      `verifyToken`: `verify(token, secret)` and `payload.userId`; `None` when
      it yields nothing or throws.
      `conversations`: `getConversationById`, keyed by the decoded id; the
      value is the `participants` column, `None` when it is null.
      `lenientDecode`: what `decodeId` makes of a text that is not the base64
      encoding of a well-formed UTF-8 string. */
  datatype Services = Services(
    verifyToken: string -> Option<string>,
    conversations: map<string, Option<seq<string>>>,
    lenientDecode: string -> string)

  /** The `MessageData` record that is stored and published. */
  datatype MessageData = MessageData(senderId: string, receiverId: string, content: string, timestamp: string)

  /** `peer.ctx`; each field is absent until the handshake sets it. */
  datatype Ctx = Ctx(userId: Option<string>, conversationId: Option<string>, room: Option<string>, receiverId: Option<string>)

  const EmptyCtx: Ctx := Ctx(None, None, None, None)

  /** One observable action of the handler, in the order it happens. */
  datatype Event =
    | Subscribed(room: string)
    | Unsubscribed(room: string)
    | Published(room: string, data: MessageData)
    | Sent(frame: string)
    | Stored(key: string, data: MessageData, ttl: int)

  /** A KV entry: the value and the time to live it was written with. */
  datatype Entry = Entry(data: MessageData, ttl: int)

  /** Messages expire after three days (in seconds). */
  const MessageTtl: int := 259200

  const ServerSender: string := "server"
  const JoinText: string := "User joined the chat"
  const LeaveText: string := "User left the chat"
  const ErrorFrame: string := "{\"error\":\"An error occurred while processing your message.\"}"

  /** The index of the first participant that is not `user`, or the length
      of the list when there is none. */
  function FirstOtherIndex(participants: seq<string>, user: string): (i: nat)
    ensures i <= |participants|
    ensures forall k :: 0 <= k < i ==> participants[k] == user
    ensures i < |participants| ==> participants[i] != user
  {
    if participants == [] || participants[0] != user then 0
    else 1 + FirstOtherIndex(participants[1..], user)
  }

  /** `participants.find(id => id !== user)`. */
  function FindOther(participants: seq<string>, user: string): (r: Option<string>)
    ensures r.None? <==> forall k :: 0 <= k < |participants| ==> participants[k] == user
    ensures r.Some? ==> r.value in participants && r.value != user
    ensures r.Some? ==> exists i :: 0 <= i < |participants| && participants[i] == r.value
                                    && forall k :: 0 <= k < i ==> participants[k] == user
  {
    var i := FirstOtherIndex(participants, user);
    if i < |participants| then Some(participants[i]) else None
  }

  /** The outcome of `open`: a rejection with the status and message of the
      error thrown (and whether `peer.ctx` had already been initialised when
      it was thrown), or the four context fields to set. */
  datatype HandshakeResult =
    | Rejected(statusCode: int, message: string, ctxInitialised: bool)
    | Accepted(userId: string, conversationId: string, room: string, receiverId: string)

  /** Does the conversation stored under `id` list `user` among its participants? */
  predicate IsParticipant(sv: Services, id: string, user: string) {
    id in sv.conversations && sv.conversations[id].Some? && user in sv.conversations[id].value
  }

  /** The decisions of `open`, in the order the source takes them. */
  function Handshake(q: Query, sv: Services): (r: HandshakeResult)
    ensures r.Rejected? && r.statusCode == 400 <==> !Truthy(q.conversationId) || !Truthy(q.token)
    ensures Truthy(q.conversationId) && Truthy(q.token) ==>
      (r.Rejected? && r.statusCode == 401 <==> sv.verifyToken(q.token.value).None?)
    ensures var verified := Truthy(q.conversationId) && Truthy(q.token) && sv.verifyToken(q.token.value).Some?;
      var conversation := if verified then DecodeIdAt(sv.lenientDecode, q.conversationId.value) else "";
      var user := if verified then DecodeIdAt(sv.lenientDecode, sv.verifyToken(q.token.value).value) else "";
      && (r == Rejected(404, "Conversation not found", false) <==> verified && !IsParticipant(sv, conversation, user))
      && (r.Rejected? && r.ctxInitialised <==>
            verified && IsParticipant(sv, conversation, user) &&
            var other := FindOther(sv.conversations[conversation].value, user); other.None? || other.value == "")
      && (r.Accepted? <==>
            verified && IsParticipant(sv, conversation, user) &&
            var other := FindOther(sv.conversations[conversation].value, user); other.Some? && other.value != "")
    ensures r.Rejected? ==> r.statusCode in {400, 401, 404}
    ensures r.Rejected? && r.ctxInitialised ==> r.statusCode == 404
    ensures r.Accepted? ==>
      && q.conversationId == Some(r.conversationId)
      && r.room == "chat:" + r.conversationId
      && sv.verifyToken(q.token.value) == Some(r.userId)
      && r.receiverId != ""
  {
    if !Truthy(q.conversationId) || !Truthy(q.token) then
      Rejected(400, "Missing conversationId", false)
    else
      var conversationId := q.conversationId.value;
      var decodedConversationId := DecodeIdAt(sv.lenientDecode, conversationId);
      match sv.verifyToken(q.token.value)
      case None => Rejected(401, "Invalid token", false)
      case Some(userId) =>
        var decodedUserId := DecodeIdAt(sv.lenientDecode, userId);
        if !IsParticipant(sv, decodedConversationId, decodedUserId) then
          Rejected(404, "Conversation not found", false)
        else
          var other := FindOther(sv.conversations[decodedConversationId].value, decodedUserId);
          if other.None? || other.value == "" then
            Rejected(404, "Other participant not found in conversation", true)
          else
            Accepted(userId, conversationId, "chat:" + conversationId, EncodeId(other.value))
  }

  /** On success the receiver recorded in the context is the public id of the
      first participant other than the user. */
  lemma ReceiverIsOtherParticipant(q: Query, sv: Services)
    requires Handshake(q, sv).Accepted?
    ensures var r := Handshake(q, sv);
      var participants := sv.conversations[DecodeIdAt(sv.lenientDecode, q.conversationId.value)].value;
      var user := DecodeIdAt(sv.lenientDecode, r.userId);
      && DecodeId(r.receiverId).Some?
      && DecodeId(r.receiverId).value in participants
      && DecodeId(r.receiverId).value != user
      && FindOther(participants, user) == DecodeId(r.receiverId)
  {
    var participants := sv.conversations[DecodeIdAt(sv.lenientDecode, q.conversationId.value)].value;
    var user := DecodeIdAt(sv.lenientDecode, Handshake(q, sv).userId);
    DecodeEncodeId(FindOther(participants, user).value);
  }

  /** A conversation whose participants are all the user (`[u, u]`) never
      opens a session. */
  lemma NoSessionWithOneself(q: Query, sv: Services, user: string)
    requires Truthy(q.conversationId) && Truthy(q.token)
    requires sv.verifyToken(q.token.value).Some?
    requires DecodeIdAt(sv.lenientDecode, sv.verifyToken(q.token.value).value) == user
    requires var id := DecodeIdAt(sv.lenientDecode, q.conversationId.value);
      id in sv.conversations && sv.conversations[id].Some? &&
      (forall k :: 0 <= k < |sv.conversations[id].value| ==> sv.conversations[id].value[k] == user)
    ensures Handshake(q, sv) == Rejected(404, "Other participant not found in conversation", true) ||
            Handshake(q, sv) == Rejected(404, "Conversation not found", false)
  {
  }

  /** The record a valid frame is turned into. */
  function MessageOf(c: Ctx, content: string, timestamp: string): MessageData
    requires c.userId.Some? && c.receiverId.Some?
  {
    MessageData(c.userId.value, c.receiverId.value, content, timestamp)
  }

  /** The KV key of a message: `messages:{conversationId}:{timestamp}`. */
  function MessageKey(conversationId: string, timestamp: string): (r: string)
    ensures |r| == |"messages:"| + |conversationId| + 1 + |timestamp|
    ensures r[..9] == "messages:" && r[9..9 + |conversationId|] == conversationId
    ensures r[9 + |conversationId|] == ':' && r[10 + |conversationId|..] == timestamp
  {
    "messages:" + conversationId + ":" + timestamp
  }

  /** Are all four fields `message` reads truthy? */
  predicate Ready(ctx: Option<Ctx>) {
    ctx.Some? && Truthy(ctx.value.room) && Truthy(ctx.value.userId) &&
    Truthy(ctx.value.conversationId) && Truthy(ctx.value.receiverId)
  }

  /** What one `message` frame does: the KV write it makes, the publish that
      follows, and the frame sent back to the sender alone. `kvAccepts` says
      whether `hubKV().set` resolves. */
  datatype FrameEffect = FrameEffect(stored: Option<(string, MessageData)>, published: Option<(string, MessageData)>, reply: Option<string>)

  function OnFrame(ctx: Option<Ctx>, content: string, timestamp: string, kvAccepts: bool): (r: FrameEffect)
    ensures r.published.Some? <==> Ready(ctx) && kvAccepts
    ensures r.stored.Some? <==> Ready(ctx) && kvAccepts
    ensures r.reply.Some? <==> r.published.None?
    ensures r.reply.Some? ==> r.reply.value == ErrorFrame
    ensures r.published.Some? ==>
      && r.published.value.0 == ctx.value.room.value
      && r.stored.value.1 == r.published.value.1
      && r.stored.value.0 == MessageKey(ctx.value.conversationId.value, timestamp)
      && r.published.value.1 == MessageData(ctx.value.userId.value, ctx.value.receiverId.value, content, timestamp)
  {
    if !Ready(ctx) then FrameEffect(None, None, Some(ErrorFrame))
    else
      var c := ctx.value;
      var data := MessageOf(c, content, timestamp);
      if kvAccepts then
        FrameEffect(Some((MessageKey(c.conversationId.value, timestamp), data)), Some((c.room.value, data)), None)
      else
        FrameEffect(None, None, Some(ErrorFrame))
  }

  /** The leave notice `close` publishes, if any. */
  function OnClose(ctx: Ctx, timestamp: string): (r: Option<(string, MessageData)>)
    requires ctx.room.Some? && ctx.room.value != "" ==> ctx.receiverId.Some?
    ensures r.Some? <==> Truthy(ctx.room)
    ensures r.Some? ==>
      r.value.0 == ctx.room.value && r.value.1 == MessageData(ServerSender, ctx.receiverId.value, LeaveText, timestamp)
  {
    if Truthy(ctx.room) then Some((ctx.room.value, MessageData(ServerSender, ctx.receiverId.value, LeaveText, timestamp)))
    else None
  }

  /** The first index at or after `i` where `s` holds `ch`, or `|s|`. */
  function IndexFrom(s: string, ch: char, i: nat): (j: nat)
    requires i <= |s|
    ensures i <= j <= |s| && (j < |s| ==> s[j] == ch)
    ensures forall k :: i <= k < j ==> s[k] != ch
    decreases |s| - i
  {
    if i == |s| then i else if s[i] == ch then i else IndexFrom(s, ch, i + 1)
  }

  lemma {:induction false} ColonAfterConversation(c: string, t: string, i: nat)
    requires ':' !in c
    requires |"messages:"| <= i <= |"messages:"| + |c|
    ensures IndexFrom(MessageKey(c, t), ':', i) == |"messages:"| + |c|
    decreases |"messages:"| + |c| - i
  {
    var key := MessageKey(c, t);
    var p := |"messages:"|;
    if i < p + |c| {
      assert key[i] == c[i - p];
      ColonAfterConversation(c, t, i + 1);
    } else {
      assert key[i] == ':';
    }
  }

  /** A colon cannot occur in a public id, so a message key names its
      conversation and its timestamp unambiguously. */
  lemma MessageKeyInjective(c1: string, t1: string, c2: string, t2: string)
    requires ':' !in c1 && ':' !in c2
    ensures MessageKey(c1, t1) == MessageKey(c2, t2) <==> c1 == c2 && t1 == t2
  {
    if MessageKey(c1, t1) == MessageKey(c2, t2) {
      var k1, k2 := MessageKey(c1, t1), MessageKey(c2, t2);
      var p := |"messages:"|;
      ColonAfterConversation(c1, t1, p);
      ColonAfterConversation(c2, t2, p);
      assert c1 == k1[p..p + |c1|] == k2[p..p + |c2|] == c2;
      assert t1 == k1[p + |c1| + 1..] == k2[p + |c2| + 1..] == t2;
    }
  }

  lemma NoColonInPublicId(id: string)
    ensures ':' !in EncodeId(id)
  {
  }

  /** The stage of a connection's life; the model's own bookkeeping. */
  datatype Stage = Connecting | Refused | Joined | Closed

  /** One peer's connection: its `ctx`, the rooms it is subscribed to, the
      KV store and everything it has done so far. */
  class ChatPeer {
    var ctx: Option<Ctx>
    var subscriptions: set<string>
    var kv: map<string, Entry>
    var events: seq<Event>
    ghost var stage: Stage

    /** After a successful handshake: all four fields set, the room named
        after the raw conversation id, and a receiver. */
    static predicate JoinedCtx(c: Ctx) {
      && c.userId.Some? && c.conversationId.Some? && c.room.Some? && c.receiverId.Some?
      && c.room.value == "chat:" + c.conversationId.value
      && c.conversationId.value != "" && c.receiverId.value != ""
    }

    ghost predicate Valid()
      reads this
    {
      && (stage == Connecting ==> ctx.None? && subscriptions == {})
      && (stage == Refused ==> (ctx.None? || ctx == Some(EmptyCtx)) && subscriptions == {})
      && (stage == Joined ==> ctx.Some? && JoinedCtx(ctx.value) && subscriptions == {ctx.value.room.value})
      && (stage == Closed ==> subscriptions == {} && (ctx.None? || ctx == Some(EmptyCtx) || JoinedCtx(ctx.value)))
    }

    /** A new connection, before `open`: no context and no subscription. */
    constructor (store: map<string, Entry>)
      ensures Valid() && stage == Connecting
      ensures ctx == None && subscriptions == {} && kv == store && events == []
    {
      ctx := None;
      subscriptions := {};
      kv := store;
      events := [];
      stage := Connecting;
    }

    /** `open`: the handshake; on success the context is filled in, the peer
        subscribes to its room and then announces itself there. */
    method Open(q: Query, sv: Services, now: string) returns (h: HandshakeResult)
      requires Valid() && stage == Connecting
      modifies this
      ensures Valid() && kv == old(kv)
      ensures h == Handshake(q, sv)
      ensures h.Rejected? ==>
        && stage == Refused
        && subscriptions == {} && events == old(events)
        && ctx == (if h.ctxInitialised then Some(EmptyCtx) else None)
      ensures h.Accepted? ==>
        && stage == Joined
        && ctx == Some(Ctx(Some(h.userId), Some(h.conversationId), Some(h.room), Some(h.receiverId)))
        && subscriptions == {h.room}
        && events == old(events) + [Subscribed(h.room),
             Published(h.room, MessageData(ServerSender, h.receiverId, JoinText, now))]
    {
      h := Handshake(q, sv);
      if h.Rejected? {
        if h.ctxInitialised && ctx.None? {
          ctx := Some(EmptyCtx);
        }
        stage := Refused;
        return;
      }
      if ctx.None? {
        ctx := Some(EmptyCtx);
      }
      ctx := Some(ctx.value.(userId := Some(h.userId)));
      ctx := Some(ctx.value.(conversationId := Some(h.conversationId)));
      ctx := Some(ctx.value.(room := Some(h.room)));
      ctx := Some(ctx.value.(receiverId := Some(h.receiverId)));
      subscriptions := subscriptions + {h.room};
      events := events + [Subscribed(h.room)];
      events := events + [Published(h.room, MessageData(ServerSender, h.receiverId, JoinText, now))];
      stage := Joined;
    }

    /** `message`: persist the frame under its key with the three-day TTL and
        only then publish it to the room; any failure sends the error frame
        to the sender alone. */
    method Message(content: string, now: string, kvAccepts: bool)
      requires Valid()
      modifies this
      ensures Valid()
      ensures ctx == old(ctx) && subscriptions == old(subscriptions) && stage == old(stage)
      ensures var e := OnFrame(old(ctx), content, now, kvAccepts);
        && kv == (if e.stored.Some? then old(kv)[e.stored.value.0 := Entry(e.stored.value.1, MessageTtl)] else old(kv))
        && events == old(events) +
             (if e.stored.Some? then [Stored(e.stored.value.0, e.stored.value.1, MessageTtl)] else []) +
             (if e.published.Some? then [Published(e.published.value.0, e.published.value.1)] else []) +
             (if e.reply.Some? then [Sent(e.reply.value)] else [])
    {
      var e := OnFrame(ctx, content, now, kvAccepts);
      if !Ready(ctx) {
        events := events + [Sent(ErrorFrame)];
        return;
      }
      var c := ctx.value;
      var data := MessageOf(c, content, now);
      var key := MessageKey(c.conversationId.value, now);
      if !kvAccepts {
        events := events + [Sent(ErrorFrame)];
        return;
      }
      kv := kv[key := Entry(data, MessageTtl)];
      events := events + [Stored(key, data, MessageTtl)];
      events := events + [Published(c.room.value, data)];
    }

    /** `close`: with a room, announce the departure and then leave exactly
        that room; without one, do nothing (and when `ctx` was never created,
        reading `peer.ctx.room` throws before anything is done). */
    method Close(now: string)
      requires Valid()
      modifies this
      ensures Valid() && stage == Closed
      ensures ctx == old(ctx) && kv == old(kv)
      ensures old(ctx).None? || !Truthy(old(ctx).value.room) ==>
        events == old(events) && subscriptions == old(subscriptions)
      ensures old(ctx).Some? && Truthy(old(ctx).value.room) ==>
        var room := old(ctx).value.room.value;
        && subscriptions == old(subscriptions) - {room}
        && events == old(events) + [Published(room, OnClose(old(ctx).value, now).value.1), Unsubscribed(room)]
    {
      if ctx.None? {
        stage := Closed;
        return;
      }
      var c := ctx.value;
      if Truthy(c.room) {
        var notice := OnClose(c, now).value;
        events := events + [Published(notice.0, notice.1)];
        subscriptions := subscriptions - {c.room.value};
        events := events + [Unsubscribed(c.room.value)];
      }
      stage := Closed;
    }
  }

  /** A refused handshake leaves nothing for `close` to undo or announce. */
  method RefusedSession(q: Query, sv: Services, now: string, store: map<string, Entry>)
    returns (events: seq<Event>, subscriptions: set<string>, kv: map<string, Entry>)
    requires Handshake(q, sv).Rejected?
    ensures events == [] && subscriptions == {} && kv == store
  {
    var p := new ChatPeer(store);
    var h := p.Open(q, sv, now);
    p.Close(now);
    events, subscriptions, kv := p.events, p.subscriptions, p.kv;
  }

  /** A whole session with one message the store accepts: subscribe, announce
      the arrival, persist the message, publish it, announce the departure,
      leave the room. */
  method JoinedSession(q: Query, sv: Services, joinedAt: string, content: string, sentAt: string,
                       leftAt: string, store: map<string, Entry>)
    returns (events: seq<Event>, subscriptions: set<string>, kv: map<string, Entry>)
    requires Handshake(q, sv).Accepted? && Handshake(q, sv).userId != ""
    ensures var h := Handshake(q, sv);
      var data := MessageData(h.userId, h.receiverId, content, sentAt);
      var key := MessageKey(h.conversationId, sentAt);
      && events == [Subscribed(h.room),
                    Published(h.room, MessageData(ServerSender, h.receiverId, JoinText, joinedAt)),
                    Stored(key, data, MessageTtl),
                    Published(h.room, data),
                    Published(h.room, MessageData(ServerSender, h.receiverId, LeaveText, leftAt)),
                    Unsubscribed(h.room)]
      && subscriptions == {}
      && kv == store[key := Entry(data, MessageTtl)]
  {
    var p := new ChatPeer(store);
    var h := p.Open(q, sv, joinedAt);
    p.Message(content, sentAt, true);
    p.Close(leftAt);
    events, subscriptions, kv := p.events, p.subscriptions, p.kv;
  }
}
