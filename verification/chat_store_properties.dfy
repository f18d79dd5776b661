/** Properties of the chat reducer, event kind by event kind: which field
    each event changes, which it leaves alone, and how the transcript and
    the derived flags (`typing`, `is_chatting`, the last non-visitor
    message time) evolve. */
module ChatStoreProperties {
  import opened JsValues
  import opened Identity
  import opened Transcript
  import opened ChatStore

  /** The envelope `{type: kind, detail: detail}`. */
  function Event(kind: string, detail: Value): Record {
    map["type" := Str(kind), "detail" := detail]
  }

  /** The envelope `{type: 'chat', detail: {type: kind, ...fields}}`. */
  function ChatEvent(kind: string, fields: Record): Record {
    Event("chat", Obj(fields["type" := Str(kind)]))
  }

  // ---------------------------------------------------------------------
  // Scalar top-level events

  lemma ConnectionUpdateReplacesConnection(s: State, a: Record, now: int)
    requires Field(a, "type") == Str("connection_update")
    ensures Update(s, a, now) == Success(s.(connection := Field(a, "detail")))
  {
  }

  lemma AccountStatusReplacesAccountStatus(s: State, a: Record, now: int)
    requires Field(a, "type") == Str("account_status")
    ensures Update(s, a, now) == Success(s.(accountStatus := Field(a, "detail")))
  {
  }

  lemma DepartmentUpdateReplacesDepartments(s: State, a: Record, now: int)
    requires Field(a, "type") == Str("department_update")
    ensures Update(s, a, now) == Success(s.(departments := Field(a, "detail")))
  {
  }

  /** Replacing one field wholesale is idempotent, whatever the clock says. */
  lemma ScalarUpdatesIdempotent(s: State, a: Record, now: int, later: int)
    requires Field(a, "type") in {Str("connection_update"), Str("account_status"), Str("department_update")}
    ensures Update(s, a, now).Success?
    ensures Update(Update(s, a, now).value, a, later) == Update(s, a, now)
  {
  }

  // ---------------------------------------------------------------------
  // Merge-style top-level events

  /** `visitor_update` overlays the payload's fields on the visitor: keys the
      payload names take its values, the others keep theirs, and nothing
      outside the visitor changes. */
  lemma VisitorUpdateOverlays(s: State, a: Record, now: int)
    requires Field(a, "type") == Str("visitor_update")
    ensures Update(s, a, now).Success?
    ensures
      var v := Update(s, a, now).value.visitor;
      var payload := Spread(Field(a, "detail"));
      && Update(s, a, now).value == s.(visitor := v)
      && v.Keys == s.visitor.Keys + payload.Keys
      && (forall f :: f in payload ==> v[f] == payload[f])
      && (forall f :: f in s.visitor && f !in payload ==> v[f] == s.visitor[f])
  {
  }

  /** `agent_update` for nick X: the agent under X carries the payload's
      fields, its `nick` is X, its `typing` is the earlier agent's (`false`
      for a new agent) whatever the payload says, and no other agent and no
      other part of the state changes. */
  lemma AgentUpdateMerges(s: State, a: Record, now: int)
    requires Field(a, "type") == Str("agent_update")
    requires !Field(a, "detail").IsNullish()
    ensures Update(s, a, now).Success? <==> ToKey(Lookup(Field(a, "detail"), "nick")).Success?
    ensures Update(s, a, now).Success? ==>
      var detail := Field(a, "detail");
      var nick := Lookup(detail, "nick");
      var key := ToKey(nick).value;
      var s' := Update(s, a, now).value;
      var agent := s'.agents[key];
      && s' == s.(agents := s'.agents)
      && s'.agents.Keys == s.agents.Keys + {key}
      && (forall k :: k in s.agents && k != key ==> s'.agents[k] == s.agents[k])
      && agent.Keys == Spread(detail).Keys + {"nick", "typing"}
      && (forall f :: f in Spread(detail) && f != "typing" ==> agent[f] == Spread(detail)[f])
      && agent["nick"] == nick
      && (key !in s.agents ==> agent["typing"] == Bool(false))
      && (key in s.agents ==> agent["typing"] == Field(s.agents[key], "typing"))
  {
  }

  /** `agent_update` reads `action.detail.nick`, so it throws without a
      payload. */
  lemma AgentUpdateWithoutPayloadThrows(s: State, a: Record, now: int)
    requires Field(a, "type") == Str("agent_update")
    requires Field(a, "detail").IsNullish()
    ensures Update(s, a, now).Failure?
  {
  }

  /** A typing flag set on an agent survives any later profile update of
      that agent, whether or not the payload mentions `typing`. */
  lemma TypingSurvivesAgentUpdate(s: State, nick: string, flag: Value, profile: Record, t1: int, t2: int)
    ensures
      var typed := Update(s, ChatEvent("typing", map["nick" := Str(nick), "typing" := flag]), t1);
      && typed.Success?
      && var updated := Update(typed.value, Event("agent_update", Obj(profile["nick" := Str(nick)])), t2);
      && updated.Success?
      && Field(updated.value.agents[nick], "typing") == flag
  {
    var e1 := ChatEvent("typing", map["nick" := Str(nick), "typing" := flag]);
    TypingSetsOnlyTyping(s, e1, t1);
    var typed := Update(s, e1, t1).value;
    AgentUpdateMerges(typed, Event("agent_update", Obj(profile["nick" := Str(nick)])), t2);
  }

  // ---------------------------------------------------------------------
  // Nested `chat` events

  /** The typing indicator changes only the addressed agent: no other
      agent and no other part of the state. */
  lemma TypingSetsOnlyTyping(s: State, a: Record, now: int)
    requires Field(a, "type") == Str("chat")
    requires Lookup(Field(a, "detail"), "type") == Str("typing")
    ensures Update(s, a, now).Success? <==> ToKey(Lookup(Field(a, "detail"), "nick")).Success?
    ensures Update(s, a, now).Success? ==>
      var key := ToKey(Lookup(Field(a, "detail"), "nick")).value;
      var s' := Update(s, a, now).value;
      && s' == s.(agents := s'.agents)
      && s'.agents.Keys == s.agents.Keys + {key}
      && (forall k :: k in s.agents && k != key ==> s'.agents[k] == s.agents[k])
      && Field(s'.agents[key], "typing") == Lookup(Field(a, "detail"), "typing")
  {
    var detail := Field(a, "detail");
    var nick := Lookup(detail, "nick");
    if Keyable(nick) {
      var key := ToKey(nick).value;
      var known := if key in s.agents then s.agents[key] else map[];
      assert UpdateChat(s, detail, now) == Success(s.(agents := s.agents[key := known["typing" := Lookup(detail, "typing")]]));
    }
  }

  /** Within the addressed agent the typing indicator sets `typing` alone:
      every other field keeps its value, and an unknown agent is created
      holding just `typing`. */
  lemma TypingKeepsAgentFields(s: State, a: Record, now: int)
    requires Field(a, "type") == Str("chat")
    requires Lookup(Field(a, "detail"), "type") == Str("typing")
    ensures Update(s, a, now).Success? <==> ToKey(Lookup(Field(a, "detail"), "nick")).Success?
    ensures Update(s, a, now).Success? ==>
      var key := ToKey(Lookup(Field(a, "detail"), "nick")).value;
      var agents := Update(s, a, now).value.agents;
      && key in agents
      && (key !in s.agents ==> agents[key].Keys == {"typing"})
      && (key in s.agents ==> agents[key].Keys == s.agents[key].Keys + {"typing"})
      && (key in s.agents ==> forall f :: f in s.agents[key] && f != "typing" ==> agents[key][f] == s.agents[key][f])
  {
    var detail := Field(a, "detail");
    var nick := Lookup(detail, "nick");
    if Keyable(nick) {
      var key := ToKey(nick).value;
      var known := if key in s.agents then s.agents[key] else map[];
      assert UpdateChat(s, detail, now) == Success(s.(agents := s.agents[key := known["typing" := Lookup(detail, "typing")]]));
    }
  }

  /** An agent join touches only that agent's entry, leaves the visitor
      and `is_chatting` alone, and appends the payload under the current
      clock reading. */
  lemma AgentJoin(s: State, a: Record, now: int)
    requires Field(a, "type") == Str("chat")
    requires Lookup(Field(a, "detail"), "type") == Str("chat.memberjoin")
    requires IsAgent(Lookup(Field(a, "detail"), "nick")) == Success(true)
    ensures Update(s, a, now).Success?
    ensures
      var detail := Field(a, "detail");
      var nick := Lookup(detail, "nick");
      var s' := Update(s, a, now).value;
      && s' == s.(agents := s'.agents, chats := s'.chats)
      && Find(s'.chats, now) == Some(Spread(detail))
      && s'.agents.Keys == s.agents.Keys + {nick.s}
      && (forall k :: k in s.agents && k != nick.s ==> s'.agents[k] == s.agents[k])
      && Field(s'.agents[nick.s], "nick") == nick
  {
    var detail := Field(a, "detail");
    var nick := Lookup(detail, "nick");
    var known := if nick.s in s.agents then s.agents[nick.s] else map[];
    assert UpdateChat(s, detail, now) == Success(s.(agents := s.agents[nick.s := known["nick" := nick]], chats := Insert(s.chats, now, Spread(detail))));
  }

  /** Within the joining agent's entry a join sets `nick` alone, so an
      earlier `typing` survives; an unknown agent is created holding just
      `nick`. */
  lemma AgentJoinKeepsAgentFields(s: State, a: Record, now: int)
    requires Field(a, "type") == Str("chat")
    requires Lookup(Field(a, "detail"), "type") == Str("chat.memberjoin")
    requires IsAgent(Lookup(Field(a, "detail"), "nick")) == Success(true)
    ensures Update(s, a, now).Success?
    ensures
      var key := Lookup(Field(a, "detail"), "nick").s;
      var agents := Update(s, a, now).value.agents;
      && key in agents
      && (key !in s.agents ==> agents[key].Keys == {"nick"})
      && (key in s.agents ==> agents[key].Keys == s.agents[key].Keys + {"nick"})
      && (key in s.agents ==> forall f :: f in s.agents[key] && f != "nick" ==> agents[key][f] == s.agents[key][f])
  {
    var detail := Field(a, "detail");
    var nick := Lookup(detail, "nick");
    var known := if nick.s in s.agents then s.agents[nick.s] else map[];
    assert UpdateChat(s, detail, now) == Success(s.(agents := s.agents[nick.s := known["nick" := nick]], chats := Insert(s.chats, now, Spread(detail))));
  }

  /** A join by anyone who is not an agent sets the visitor's `nick`, makes
      `is_chatting` true, leaves the roster alone and appends the payload
      under the current clock reading. */
  lemma NonAgentJoin(s: State, a: Record, now: int)
    requires Field(a, "type") == Str("chat")
    requires Lookup(Field(a, "detail"), "type") == Str("chat.memberjoin")
    requires IsAgent(Lookup(Field(a, "detail"), "nick")) == Success(false)
    ensures Update(s, a, now).Success?
    ensures
      var detail := Field(a, "detail");
      var nick := Lookup(detail, "nick");
      var s' := Update(s, a, now).value;
      && s' == s.(visitor := s'.visitor, isChatting := true, chats := s'.chats)
      && Find(s'.chats, now) == Some(Spread(detail))
      && s'.visitor.Keys == s.visitor.Keys + {"nick"}
      && Field(s'.visitor, "nick") == nick
      && forall f :: f in s.visitor && f != "nick" ==> s'.visitor[f] == s.visitor[f]
  {
    var detail := Field(a, "detail");
    var nick := Lookup(detail, "nick");
    var expected := s.(visitor := s.visitor["nick" := nick], isChatting := true, chats := Insert(s.chats, now, Spread(detail)));
    assert UpdateChat(s, detail, now) == Success(expected);
    assert Update(s, a, now) == Success(expected);
  }

  /** A member leave clears `is_chatting` unless the leaver is an agent,
      appends the payload, and changes nothing else. */
  lemma MemberLeave(s: State, a: Record, now: int)
    requires Field(a, "type") == Str("chat")
    requires Lookup(Field(a, "detail"), "type") == Str("chat.memberleave")
    requires Lookup(Field(a, "detail"), "nick").Str?
    ensures Update(s, a, now).Success?
    ensures
      var detail := Field(a, "detail");
      var s' := Update(s, a, now).value;
      && s' == s.(isChatting := s'.isChatting, chats := s'.chats)
      && Find(s'.chats, now) == Some(Spread(detail))
      && (s'.isChatting <==> IsAgent(Lookup(detail, "nick")) == Success(true) && s.isChatting)
  {
  }

  /** `is_chatting` after a join or leave: true exactly after a non-agent
      join, false exactly after a non-agent leave, and untouched by agents. */
  lemma ChattingFlagFollowsNonAgents(s: State, nick: string, fields: Record, now: int)
    ensures
      var join := Update(s, ChatEvent("chat.memberjoin", fields["nick" := Str(nick)]), now);
      var leave := Update(s, ChatEvent("chat.memberleave", fields["nick" := Str(nick)]), now);
      && join.Success? && leave.Success?
      && (join.value.isChatting <==> !BeginsWith(nick, AgentPrefix) || s.isChatting)
      && (leave.value.isChatting <==> BeginsWith(nick, AgentPrefix) && s.isChatting)
  {
  }

  /** A message, file, wait-queue or rating-request event appends the payload
      overlaid with the sender snapshot under the current clock reading, and
      records the payload's own timestamp as the last non-visitor message time
      exactly when the sender's nick is not visitor-prefixed. Roster, visitor
      and flags are untouched. */
  lemma MessageAppends(s: State, a: Record, now: int)
    requires Field(a, "type") == Str("chat")
    requires Lookup(Field(a, "detail"), "type") in MessageKinds
    requires Lookup(Field(a, "detail"), "nick").Str?
    ensures Update(s, a, now).Success?
    ensures
      var detail := Field(a, "detail");
      var nick := Lookup(detail, "nick");
      var s' := Update(s, a, now).value;
      && Member(s, detail).Success?
      && s' == s.(chats := s'.chats, lastNonVisitorMsgTs := s'.lastNonVisitorMsgTs)
      && Find(s'.chats, now) == Some(Spread(detail) + Member(s, detail).value)
      && (IsVisitor(nick) == Success(true) ==> s'.lastNonVisitorMsgTs == s.lastNonVisitorMsgTs)
      && (IsVisitor(nick) == Success(false) ==> s'.lastNonVisitorMsgTs == Lookup(detail, "timestamp"))
  {
  }

  /** The transcript entry a message produces carries the sender snapshot's
      fields over the payload's, and is tagged with the sender's role. */
  lemma MessageEntryCarriesSnapshot(s: State, a: Record, now: int)
    requires Field(a, "type") == Str("chat")
    requires Lookup(Field(a, "detail"), "type") in MessageKinds
    requires Lookup(Field(a, "detail"), "nick").Str?
    ensures
      var detail := Field(a, "detail");
      var nick := Lookup(detail, "nick");
      var entry := Find(Update(s, a, now).value.chats, now).value;
      && Update(s, a, now).Success?
      && Find(Update(s, a, now).value.chats, now).Some?
      && entry["member_type"] == Str(if IsAgent(nick) == Success(true) then "agent" else "visitor")
      && (IsAgent(nick) == Success(false) ==>
            forall f :: f in s.visitor && f != "member_type" ==> entry[f] == s.visitor[f])
      && (IsAgent(nick) == Success(true) && nick.s in s.agents ==>
            forall f :: f in s.agents[nick.s] && f != "member_type" ==> entry[f] == s.agents[nick.s][f])
      && (forall f :: f in Spread(detail) && f !in Member(s, detail).value ==> entry[f] == Spread(detail)[f])
  {
  }

  /** Join, leave and message-like events throw when the nick is not a
      string (`startsWith` is not a method of it). */
  lemma NickTestedEventsNeedStringNick(s: State, a: Record, now: int)
    requires Field(a, "type") == Str("chat")
    requires Lookup(Field(a, "detail"), "type") in NickTestedKinds
    requires !Lookup(Field(a, "detail"), "nick").Str?
    ensures Update(s, a, now).Failure?
  {
  }

  /** Unknown top-level and nested event kinds leave the state unchanged. */
  lemma UnknownEventsAreNoOps(s: State, a: Record, now: int)
    requires
      || Field(a, "type") !in {
           Str("connection_update"), Str("account_status"), Str("department_update"),
           Str("visitor_update"), Str("agent_update"), Str("chat")}
      || (&& Field(a, "type") == Str("chat")
          && !Field(a, "detail").IsNullish()
          && Lookup(Field(a, "detail"), "type") !in NickTestedKinds
          && Lookup(Field(a, "detail"), "type") != Str("typing"))
    ensures Update(s, a, now) == Success(s)
  {
  }

  /** A transcript entry is a snapshot: no later event at another clock
      reading changes it. */
  lemma EntriesAreSnapshots(s: State, a: Record, now: int, b: Record, later: int)
    requires Update(s, a, now).Success?
    requires later != now
    ensures
      var s1 := Update(s, a, now).value;
      Update(s1, b, later).Success? ==> Find(Update(s1, b, later).value.chats, now) == Find(s1.chats, now)
  {
  }

  /** With a clock that moves forward, every event that adds an entry adds
      it at the end of the transcript, so the transcript reads in the order
      events arrived. */
  lemma LaterEventsAppendAtEnd(s: State, a: Record, now: int)
    requires forall k | k in KeySet(s.chats) :: k < now
    requires Update(s, a, now).Success?
    ensures
      var chats := Update(s, a, now).value.chats;
      && chats[..|s.chats|] == s.chats
      && (|chats| == |s.chats| + 1 <==> now in KeySet(chats))
      && (now in KeySet(chats) ==> chats[|chats| - 1].key == now)
  {
    var chats := Update(s, a, now).value.chats;
    FindIffKey(s.chats, now);
    FindIffKey(chats, now);
    if now in KeySet(chats) {
      var record := Find(chats, now).value;
      AppendAfterLast(s.chats, now, record);
      Extensionality(chats, Insert(s.chats, now, record));
      assert chats == s.chats + [Entry(now, record)];
    } else {
      Extensionality(chats, s.chats);
    }
  }

  // ---------------------------------------------------------------------
  // Local intents

  /** A local send from a visitor without a truthy nick goes out under the
      sentinel `visitor:`, which is visitor-prefixed, so the last
      non-visitor message time is unchanged; the entry is tagged as the
      visitor's and, unless the visitor record says otherwise, marked local
      and stamped with the send time. */
  lemma AnonymousVisitorSend(s: State, a: Record, sentAt: int, now: int)
    requires IsLocalSend(a)
    requires !Truthy(Field(s.visitor, "nick"))
    ensures StoreHandler(s, a, sentAt, now).Success?
    ensures
      var s' := StoreHandler(s, a, sentAt, now).value;
      var entry := Find(s'.chats, now);
      && s' == s.(chats := s'.chats)
      && entry.Some?
      && Field(entry.value, "member_type") == Str("visitor")
      && ("nick" !in s.visitor ==> Field(entry.value, "nick") == Str("visitor:"))
      && ("source" !in s.visitor ==> Field(entry.value, "source") == Str("local"))
      && ("timestamp" !in s.visitor ==> Field(entry.value, "timestamp") == Num(sentAt))
  {
    LocalSendShape(s, a, sentAt);
    var canonical := Translate(s, a, sentAt).value;
    assert StoreHandler(s, a, sentAt, now) == Update(s, canonical, now);
    FallbackNickIsVisitor();
    MessageAppends(s, canonical, now);
    MessageEntryCarriesSnapshot(s, canonical, now);
  }

  /** A local send becomes a `chat.msg` or `chat.file` event that carries the
      visitor's nick (or the sentinel `visitor:` when the visitor has no
      truthy nick), the visitor's display name, the send time, the origin
      `local`, and the message text or attachment of the intent. */
  lemma LocalSendShape(s: State, a: Record, sentAt: int)
    requires IsLocalSend(a)
    ensures Translate(s, a, sentAt).Success?
    ensures
      var intent := Lookup(Field(a, "detail"), "type");
      var detail := Field(Translate(s, a, sentAt).value, "detail");
      && Lookup(detail, "type") == (if intent == Str("visitor_send_msg") then Str("chat.msg") else Str("chat.file"))
      && Truthy(Lookup(detail, "nick"))
      && (Truthy(Field(s.visitor, "nick")) ==> Lookup(detail, "nick") == Field(s.visitor, "nick"))
      && (!Truthy(Field(s.visitor, "nick")) ==> Lookup(detail, "nick") == Str("visitor:"))
      && Lookup(detail, "display_name") == Field(s.visitor, "display_name")
      && Lookup(detail, "timestamp") == Num(sentAt)
      && Lookup(detail, "source") == Str("local")
      && (intent == Str("visitor_send_msg") ==> Lookup(detail, "msg") == Lookup(Field(a, "detail"), "msg"))
      && (intent == Str("visitor_send_file") ==> Lookup(detail, "attachment") == Lookup(Field(a, "detail"), "attachment"))
  {
  }

  /** A local send goes through the reducer as the matching `chat` event. */
  lemma LocalSendBecomesChatEvent(s: State, a: Record, sentAt: int, now: int)
    requires IsLocalSend(a)
    ensures Translate(s, a, sentAt).Success?
    ensures
      var canonical := Translate(s, a, sentAt).value;
      && Field(canonical, "type") == Str("chat")
      && Lookup(Field(canonical, "detail"), "type") in MessageKinds
      && StoreHandler(s, a, sentAt, now) == Update(s, canonical, now)
  {
  }

  /** An unknown intent is forwarded as the whole `synthetic` envelope,
      which the reducer ignores; an intent without a payload throws. */
  lemma UnknownIntentIsNoOp(s: State, a: Record, sentAt: int, now: int)
    requires Field(a, "type") == Str("synthetic")
    ensures Field(a, "detail").IsNullish() ==> StoreHandler(s, a, sentAt, now).Failure?
    ensures !Field(a, "detail").IsNullish() &&
            Lookup(Field(a, "detail"), "type") !in {Str("visitor_send_msg"), Str("visitor_send_file")} ==>
            StoreHandler(s, a, sentAt, now) == Success(s)
  {
  }

  // ---------------------------------------------------------------------
  // Scenarios

  /** A typing flag set on an agent survives a later join of that agent,
      since a join only writes the agent's `nick`; an agent's join leaves
      `is_chatting` as it was. */
  lemma TypingSurvivesAgentJoin(s: State, nick: string, flag: Value, fields: Record, t1: int, t2: int)
    requires BeginsWith(nick, AgentPrefix)
    ensures
      var typed := Update(s, ChatEvent("typing", map["nick" := Str(nick), "typing" := flag]), t1);
      && typed.Success?
      && Field(typed.value.agents[nick], "typing") == flag
      && var joined := Update(typed.value, ChatEvent("chat.memberjoin", fields["nick" := Str(nick)]), t2);
      && joined.Success?
      && Field(joined.value.agents[nick], "typing") == flag
      && joined.value.isChatting == s.isChatting
  {
  }

  /** Starting from the default state, a profile update for `agent:1`
      creates exactly that agent, with its `nick`, its display name and
      `typing` false, and leaves every other part of the default state. */
  lemma FirstAgentFromDefault(t: int)
    ensures
      var r := Update(DefaultState, Event("agent_update", Obj(map["nick" := Str("agent:1"), "display_name" := Str("Bob")])), t);
      && r.Success?
      && r.value == DefaultState.(agents := r.value.agents)
      && r.value.agents.Keys == {"agent:1"}
      && r.value.agents["agent:1"] == map["nick" := Str("agent:1"), "display_name" := Str("Bob"), "typing" := Bool(false)]
  {
  }
}
