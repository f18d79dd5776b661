/** The state of one live chat session and the pure transition function
    that applies events to it (`src/stores/ChatStore.js`): the reducer
    `update`, the sender snapshot `member`, and `storeHandler`, which first
    rewrites the local intents "visitor sends a message/file" into canonical
    transcript events. The clock is an explicit parameter. */
module ChatStore {
  import opened JsValues
  import opened Identity
  import opened Transcript

  /** The session state. `visitor` and each agent are plain objects; the
      top-level scalars hold whatever the event carried. */
  datatype State = State(
    connection: Value,
    accountStatus: Value,
    departments: Value,
    visitor: Record,
    agents: map<string, Record>,
    chats: Log,
    isChatting: bool,
    lastNonVisitorMsgTs: Value)

  /** `DEFAULT_STATE`: closed, offline, nobody known, empty transcript. */
  const DefaultState: State := State(
    Str("closed"), Str("offline"), Arr([]), map[], map[], [], false, Num(0))

  /** The nested transcript-event kinds whose handling tests the sender's
      nick with `startsWith`. */
  const NickTestedKinds: set<Value> := {
    Str("chat.memberjoin"), Str("chat.memberleave"), Str("chat.file"),
    Str("chat.wait_queue"), Str("chat.request.rating"), Str("chat.msg")}

  /** The nested kinds appended to the transcript with a sender snapshot. */
  const MessageKinds: set<Value> := {
    Str("chat.file"), Str("chat.wait_queue"), Str("chat.request.rating"), Str("chat.msg")}

  /** Exactly the events on which the reducer throws a TypeError: an agent
      update without a payload, a chat event without a payload, a
      join/leave/message-like chat event whose `nick` is not a string, and an
      agent update or typing event whose `nick` cannot become a property
      key. */
  ghost predicate Throws(action: Record) {
    var kind := Field(action, "type");
    var detail := Field(action, "detail");
    || (kind == Str("agent_update") && detail.IsNullish())
    || (kind == Str("agent_update") && !Keyable(Lookup(detail, "nick")))
    || (kind == Str("chat") && detail.IsNullish())
    || (kind == Str("chat") && Lookup(detail, "type") in NickTestedKinds && !Lookup(detail, "nick").Str?)
    || (kind == Str("chat") && Lookup(detail, "type") == Str("typing") && !Keyable(Lookup(detail, "nick")))
  }

  /** `record` is `base` with `member_type` set to `tag` and nothing else
      changed. */
  ghost predicate Tagged(record: Record, base: Record, tag: string) {
    && record.Keys == base.Keys + {"member_type"}
    && record["member_type"] == Str(tag)
    && forall f :: f in base && f != "member_type" ==> record[f] == base[f]
  }

  /** `member(state, detail)`: a snapshot of the sender of `detail`. For an
      agent nick, the agent's record (or a stub carrying the event's nick and
      display name and an empty avatar when the agent is unknown); for any
      other nick, the current visitor. */
  function Member(state: State, detail: Value): (r: Result<Record>)
    ensures r.Failure? <==> !Lookup(detail, "nick").Str?
    ensures r.Success? && IsAgent(Lookup(detail, "nick")) == Success(true) ==>
      var nick := Lookup(detail, "nick").s;
      && (nick in state.agents ==> Tagged(r.value, state.agents[nick], "agent"))
      && (nick !in state.agents ==>
            && r.value.Keys == {"nick", "display_name", "avatar_path", "member_type"}
            && r.value["nick"] == Str(nick)
            && r.value["display_name"] == Lookup(detail, "display_name")
            && r.value["avatar_path"] == Str("")
            && r.value["member_type"] == Str("agent"))
    ensures r.Success? && IsAgent(Lookup(detail, "nick")) == Success(false) ==>
      Tagged(r.value, state.visitor, "visitor")
  {
    var nick :- Prop(detail, "nick");
    var displayName := Lookup(detail, "display_name");
    var agent :- IsAgent(nick);
    if agent then
      // An agent nick is a string, so it is its own property key.
      var key := nick.s;
      var stub := map["nick" := nick, "display_name" := displayName, "avatar_path" := Str("")];
      Success((if key in state.agents then state.agents[key] else stub)["member_type" := Str("agent")])
    else
      Success(state.visitor["member_type" := Str("visitor")])
  }

  /** `update(state, action)`, with `now` the clock reading `Date.now()`
      takes while appending to the transcript. */
  function Update(state: State, action: Record, now: int): (r: Result<State>)
    ensures r.Failure? <==> Throws(action)
    ensures r.Success? ==> forall k :: k != now ==> Find(r.value.chats, k) == Find(state.chats, k)
    ensures r.Success? ==> KeySet(state.chats) <= KeySet(r.value.chats) <= KeySet(state.chats) + {now}
    ensures r.Success? && Field(action, "type") != Str("chat") ==>
      && r.value.chats == state.chats
      && r.value.isChatting == state.isChatting
      && r.value.lastNonVisitorMsgTs == state.lastNonVisitorMsgTs
  {
    var kind := Field(action, "type");
    var detail := Field(action, "detail");
    if kind == Str("connection_update") then
      Success(state.(connection := detail))
    else if kind == Str("account_status") then
      Success(state.(accountStatus := detail))
    else if kind == Str("department_update") then
      Success(state.(departments := detail))
    else if kind == Str("visitor_update") then
      Success(state.(visitor := state.visitor + Spread(detail)))
    else if kind == Str("agent_update") then
      var nick :- Prop(detail, "nick");
      var key :- ToKey(nick);
      var typing := if key in state.agents then Field(state.agents[key], "typing") else Bool(false);
      var agent := Spread(detail)["nick" := nick]["typing" := typing];
      Success(state.(agents := state.agents[key := agent]))
    else if kind == Str("chat") then
      UpdateChat(state, detail, now)
    else
      Success(state)
  }

  /** The `chat` case of `update`: dispatch on the nested kind. */
  function UpdateChat(state: State, detail: Value, now: int): (r: Result<State>)
    ensures r.Failure? <==>
      || detail.IsNullish()
      || (Lookup(detail, "type") in NickTestedKinds && !Lookup(detail, "nick").Str?)
      || (Lookup(detail, "type") == Str("typing") && !Keyable(Lookup(detail, "nick")))
    ensures r.Success? ==> forall k :: k != now ==> Find(r.value.chats, k) == Find(state.chats, k)
    ensures r.Success? ==> KeySet(state.chats) <= KeySet(r.value.chats) <= KeySet(state.chats) + {now}
  {
    var kind :- Prop(detail, "type");
    var nick := Lookup(detail, "nick");
    if kind == Str("chat.memberjoin") then
      var agent :- IsAgent(nick);
      var joined :=
        if agent then
          var key := nick.s;
          var known := if key in state.agents then state.agents[key] else map[];
          state.(agents := state.agents[key := known["nick" := nick]])
        else
          state.(visitor := state.visitor["nick" := nick]);
      Success(joined.(
        isChatting := if agent then state.isChatting else true,
        chats := Insert(state.chats, now, Spread(detail))))
    else if kind == Str("chat.memberleave") then
      var agent :- IsAgent(nick);
      Success(state.(
        isChatting := if agent then state.isChatting else false,
        chats := Insert(state.chats, now, Spread(detail))))
    else if kind in MessageKinds then
      var snapshot :- Member(state, detail);
      // `member` has already tested this nick, so `isVisitor` cannot throw.
      var fromVisitor := IsVisitor(nick) == Success(true);
      Success(state.(
        chats := Insert(state.chats, now, Spread(detail) + snapshot),
        lastNonVisitorMsgTs := if fromVisitor then state.lastNonVisitorMsgTs else Lookup(detail, "timestamp")))
    else if kind == Str("typing") then
      var key :- ToKey(nick);
      var known := if key in state.agents then state.agents[key] else map[];
      Success(state.(agents := state.agents[key := known["typing" := Lookup(detail, "typing")]]))
    else
      Success(state)
  }

  /** The nick a locally sent message goes out under:
      `state.visitor.nick || 'visitor:'`. */
  function SenderNick(state: State): (nick: Value)
    ensures Truthy(nick)
    ensures Truthy(Field(state.visitor, "nick")) ==> nick == state.visitor["nick"]
    ensures !Truthy(Field(state.visitor, "nick")) ==> nick == Str("visitor:")
  {
    var given := Field(state.visitor, "nick");
    if Truthy(given) then given else Str("visitor:")
  }

  /** The canonical `chat` event a local send intent becomes. */
  function LocalChatEvent(state: State, kind: string, payloadName: string, payload: Value, sentAt: int): (r: Record)
    requires payloadName !in {"type", "display_name", "nick", "timestamp", "source"}
    ensures r.Keys == {"type", "detail"} && r["type"] == Str("chat") && r["detail"].Obj?
    ensures r["detail"].fields.Keys == {"type", "display_name", "nick", "timestamp", payloadName, "source"}
    ensures r["detail"].fields[payloadName] == payload
    ensures r["detail"].fields["nick"] == SenderNick(state)
  {
    map[
      "type" := Str("chat"),
      "detail" := Obj(map[
        "type" := Str(kind),
        "display_name" := Field(state.visitor, "display_name"),
        "nick" := SenderNick(state),
        "timestamp" := Num(sentAt),
        payloadName := payload,
        "source" := Str("local")])]
  }

  /** The local intents `storeHandler` rewrites: a synthetic action whose
      payload asks to send a message or a file. */
  predicate IsLocalSend(action: Record) {
    && Field(action, "type") == Str("synthetic")
    && Lookup(Field(action, "detail"), "type") in {Str("visitor_send_msg"), Str("visitor_send_file")}
  }

  /** The intent translation of `storeHandler`: `visitor_send_msg` and
      `visitor_send_file` become `chat.msg` and `chat.file` events; every
      other action is forwarded as the whole envelope. What the rewritten
      event carries is `ChatStoreProperties.LocalSendShape`. */
  function Translate(state: State, action: Record, sentAt: int): (r: Result<Record>)
    ensures r.Failure? <==> Field(action, "type") == Str("synthetic") && Field(action, "detail").IsNullish()
    ensures r.Success? && !IsLocalSend(action) ==> r.value == action
    ensures r.Success? && IsLocalSend(action) ==>
      && Field(r.value, "type") == Str("chat")
      && Lookup(Field(r.value, "detail"), "type") in MessageKinds
  {
    if Field(action, "type") == Str("synthetic") then
      var detail := Field(action, "detail");
      var intent :- Prop(detail, "type");
      if intent == Str("visitor_send_msg") then
        Success(LocalChatEvent(state, "chat.msg", "msg", Lookup(detail, "msg"), sentAt))
      else if intent == Str("visitor_send_file") then
        Success(LocalChatEvent(state, "chat.file", "attachment", Lookup(detail, "attachment"), sentAt))
      else
        Success(action)
    else
      Success(action)
  }

  /** `storeHandler(state, action)`: translate, then reduce. The source reads
      the clock twice on a local send: `sentAt` stamps the message and `now`
      keys the transcript entry. */
  function StoreHandler(state: State, action: Record, sentAt: int, now: int): (r: Result<State>)
    ensures Field(action, "type") != Str("synthetic") ==> r == Update(state, action, now)
    ensures r.Success? ==> forall k :: k != now ==> Find(r.value.chats, k) == Find(state.chats, k)
  {
    var canonical :- Translate(state, action, sentAt);
    Update(state, canonical, now)
  }
}
