# Chat session store — a Dafny model

This project models the state store of a single live chat session in a chat
widget (`src/stores/ChatStore.js`). The store is a Redux reducer. It is
pure except for the in-place writes and the logging listed under
"## Left out". It tracks:

- the connection status, the account status and the department list;
- the visitor's profile and the roster of agents;
- the transcript (`chats`), a sorted map keyed by the clock reading at
  append time;
- two derived values: `is_chatting`, and the time of the last message
  whose nick does not start with `visitor` (`last_non_visitor_msg_ts`).
  Such a message may still be tagged `visitor` in the transcript, since
  the sender snapshot tags every nick that is not an agent nick as a
  visitor.

The model has five parts:

- **JsValues** (`js_values.dfy`). The JavaScript data these functions touch.
  It covers values, plain objects as `map<string, Value>`, property reads
  that throw on `undefined`/`null`, object spread, truthiness, and how a
  value becomes a property key. A thrown `TypeError` is a `Result.Failure`.
- **Identity** (`identity.dfy`). `isAgent`/`isVisitor`, the prefix tests on
  a nick. A nick that is not a string throws, as `startsWith` does in the
  source.
- **Transcript** (`transcript.dfy`). The sorted map is a `Log`: a sequence
  of entries whose keys strictly ascend. `Insert` is `concat` of a single
  `{[now]: record}` object. An append at a key already present replaces
  that entry. `Extensionality` shows the sequence is determined by its
  key → record lookup, so it represents a sorted map faithfully.
- **ChatStore** (`chat_store.dfy`). `DefaultState`, `Member`, `Update`,
  `Translate` and `StoreHandler`. `now` (the clock reading that keys the
  transcript) and `sentAt` (the clock reading stamped on a local send) are
  explicit parameters.
- **ChatStoreProperties** (`chat_store_properties.dfy`). One lemma per
  event kind. Each says which field changes and that everything else stays
  the same. There are also lemmas on transcript order, on snapshots, on the
  local-send fallback nick, on how an agent's `typing` survives later
  events, and on the first agent update from the default state.

Where the code behaves in a way a reader might not expect, the model
follows the code (line numbers are in `src/stores/ChatStore.js`):

- Unknown events are silent no-ops, but the code throws a `TypeError` in
  five cases, and the model keeps them as `Failure`. `update` throws in
  four of them:
  - an `agent_update` without a payload (line 51);
  - a `chat` event without a payload (line 60);
  - a join, leave, message, file, wait-queue or rating event whose `nick`
    is not a string (lines 63 and 83, and line 138 through `member` at line
    104);
  - an `agent_update` or `typing` event whose `nick` cannot become a
    property key (lines 51 and 119): an object with its own `toString`
    field, or an array holding one. That `toString` cannot be called, and
    the inherited `valueOf` gives back the object, which is not a key.

  `storeHandler` adds the fifth: a `synthetic` action without a payload
  (line 160).

  `ChatStore.Throws` lists exactly the four cases of `update`, and
  `ChatStore.Update` proves that it fails exactly on them.
  `ChatStore.Translate` fails exactly on the fifth, and
  `ChatStoreProperties.UnknownIntentIsNoOp` shows that `StoreHandler` then
  fails.
- An agent update always keeps the old `typing`, even when the payload
  carries one (line 54). A known agent with no `typing` field gets
  `typing: undefined`. The model follows the code (`AgentUpdateMerges`).

## Model

| member | source | states |
|---|---|---|
| JsValues.Prop | src/stores/ChatStore.js:51 | reading a property such as `action.detail.nick` throws exactly when the object read from is `undefined` or `null`; otherwise it yields the own field, or `undefined` when absent |
| Identity.StartsWith | src/stores/ChatStore.js:16-17 | `nick.startsWith(p)` throws exactly when the nick is not a string; otherwise it holds exactly when the nick's first `|p|` characters are `p` |
| Identity.IsAgent | src/stores/ChatStore.js:16 | a string nick is an agent exactly when its first six characters are `agent:`; any other nick throws |
| Identity.IsVisitor | src/stores/ChatStore.js:17 | a string nick is a visitor exactly when its first seven characters are `visitor`; any other nick throws |
| Identity.RolesExclusive | src/stores/ChatStore.js:16-17 | no nick is both agent and visitor; a nick can be neither (the empty nick, for one) |
| Identity.FallbackNickIsVisitor | src/stores/ChatStore.js:167 | the fallback nick `visitor:` counts as a visitor and not as an agent |
| Transcript.Insert | src/stores/ChatStore.js:75-79 | appending keeps the keys strictly ascending; the new record is found under `now`; every other key keeps its record; the key set gains exactly `now`; the length grows by one unless `now` was already present |
| Transcript.FindIffKey | src/stores/ChatStore.js:75-79 | a lookup finds a record exactly for the keys present in the transcript |
| Transcript.AppendAfterLast | src/stores/ChatStore.js:75-79 | an append at a key later than every present key puts the entry at the end |
| Transcript.TwoAppendsInOrder | src/stores/ChatStore.js:75-79 | two appends at increasing clock readings come out in the order they were made |
| Transcript.SameTickOverwrites | src/stores/ChatStore.js:75-79 | two appends in the same clock tick leave only the second entry |
| Transcript.Extensionality | src/stores/ChatStore.js:11 | two transcripts that store the same record under every key are equal |
| JsValues.Spread | src/stores/ChatStore.js:38-45 | the object spread `{...v}` (here `...action.detail`, and at every other spread in lines 25-152) copies exactly the own fields a property read of `v` sees; a non-object copies nothing |
| JsValues.Truthy | src/stores/ChatStore.js:167 | JavaScript truthiness, as used by `||` here and at line 54, by `!` at line 64 and by `?:` at line 145: a value is falsy exactly when it is `undefined`, `null`, `false`, `0` or the empty string |
| JsValues.JoinKeys | src/stores/ChatStore.js:51 | `Array.prototype.toString` inside a computed key (here and at lines 119-120) succeeds exactly when every element can become a key |
| JsValues.ToKey | src/stores/ChatStore.js:51-54 | turning a value into a property key (`[action.detail.nick]`, also at lines 119-120) fails exactly when the value is an object with its own `toString` field or an array holding such a value somewhere; a string is its own key |
| ChatStore.DefaultState | src/stores/ChatStore.js:5-14 | the initial state: connection `closed`, account `offline`, no departments, an empty visitor, no agents, an empty transcript, not chatting, last non-visitor message time 0 |
| ChatStore.Member | src/stores/ChatStore.js:134-154 | the snapshot fails exactly when the nick is not a string. For a known agent it is that agent's record tagged `member_type: agent`. For an unknown agent it is a stub with the event's nick and display name, an empty avatar and the agent tag. For any other nick it is the visitor's record tagged `visitor` |
| ChatStore.Update | src/stores/ChatStore.js:20-132 | the reducer throws exactly on `Throws`: a missing payload of an agent update or `chat` event, a non-string nick on a nick-tested `chat` kind, and a nick of an agent update or typing event that cannot become a key. No event changes a transcript entry outside key `now`. The transcript keeps all its keys and gains at most `now`. Events other than `chat` leave the transcript and both derived values unchanged |
| ChatStore.UpdateChat | src/stores/ChatStore.js:58-127 | a `chat` event fails exactly when its payload is missing, when a nick-tested kind carries a non-string nick, or when a typing event's nick cannot become a key; it only touches the transcript at `now` |
| ChatStore.SenderNick | src/stores/ChatStore.js:167 | a local sender's nick is always truthy: the visitor's nick when that nick is truthy, and `visitor:` otherwise |
| ChatStore.Translate | src/stores/ChatStore.js:156-190 | translation throws exactly on a synthetic action without a payload. Only `visitor_send_msg`/`visitor_send_file` are rewritten, into `chat` events whose nested kind is a message kind. Every other action, synthetic or not, is forwarded whole |
| ChatStore.LocalChatEvent | src/stores/ChatStore.js:162-185 | the rewritten local send is a `{type, detail}` envelope of type `chat`. Its payload has exactly the fields `type`, `display_name`, `nick`, `timestamp`, `source` and the message or attachment field, which carries the intent's payload. Its nick is the sender nick |
| ChatStore.StoreHandler | src/stores/ChatStore.js:156-197 | a non-synthetic action is handled exactly as the reducer handles it; transcript entries outside `now` are never touched |
| ChatStoreProperties.ConnectionUpdateReplacesConnection | src/stores/ChatStore.js:23-27 | `connection_update` replaces `connection` with the payload and changes nothing else |
| ChatStoreProperties.AccountStatusReplacesAccountStatus | src/stores/ChatStore.js:28-32 | `account_status` replaces the account status with the payload and changes nothing else |
| ChatStoreProperties.DepartmentUpdateReplacesDepartments | src/stores/ChatStore.js:33-37 | `department_update` replaces the department list wholesale and changes nothing else |
| ChatStoreProperties.ScalarUpdatesIdempotent | src/stores/ChatStore.js:23-37 | applying any of these three events twice equals applying it once |
| ChatStoreProperties.VisitorUpdateOverlays | src/stores/ChatStore.js:38-45 | the visitor's keys become the old keys plus the payload's. Payload keys take the payload's values and the other keys keep theirs. Nothing outside the visitor changes |
| ChatStoreProperties.AgentUpdateMerges | src/stores/ChatStore.js:46-57 | an agent update with a payload succeeds exactly when its nick can become a key. Then the agent under the nick's key carries every payload field (except `typing`) and `nick`. Its `typing` is the previous agent's, or `false` for a new agent, whatever the payload says. Other agents and the rest of the state are unchanged |
| ChatStoreProperties.AgentUpdateWithoutPayloadThrows | src/stores/ChatStore.js:51 | an agent update with an `undefined`/`null` payload throws |
| ChatStoreProperties.TypingSurvivesAgentUpdate | src/stores/ChatStore.js:46-57 | a typing flag set by a typing event survives a later profile update of the same agent |
| ChatStoreProperties.TypingSetsOnlyTyping | src/stores/ChatStore.js:114-124 | the typing event succeeds exactly when its nick can become a key. It sets the addressed agent's `typing` to the payload's. All other agents and the rest of the state are unchanged; the roster gains at most that agent |
| ChatStoreProperties.TypingKeepsAgentFields | src/stores/ChatStore.js:114-124 | when the typing event succeeds, within the addressed agent only `typing` changes: its other fields keep their values. An absent agent is created with `typing` alone |
| ChatStoreProperties.AgentJoin | src/stores/ChatStore.js:62-81 | an agent join sets that agent's `nick`, leaves the other agents, the visitor and `is_chatting` unchanged, and appends the payload at `now` |
| ChatStoreProperties.AgentJoinKeepsAgentFields | src/stores/ChatStore.js:63-66 | within the joining agent only `nick` changes, so an earlier `typing` survives. An unknown agent is created holding `nick` alone |
| ChatStoreProperties.NonAgentJoin | src/stores/ChatStore.js:62-81 | a non-agent join sets the visitor's `nick` and keeps its other fields, makes `is_chatting` true, leaves the roster unchanged, and appends the payload at `now` |
| ChatStoreProperties.MemberLeave | src/stores/ChatStore.js:82-94 | a leave appends the payload at `now`. `is_chatting` becomes false unless the leaver is an agent. Nothing else changes |
| ChatStoreProperties.ChattingFlagFollowsNonAgents | src/stores/ChatStore.js:62-94 | after a join `is_chatting` holds exactly when the joiner is not an agent or it held before. After a leave it holds exactly when the leaver is an agent and it held before |
| ChatStoreProperties.MessageAppends | src/stores/ChatStore.js:95-113 | message, file, wait-queue and rating events append the payload overlaid with the sender snapshot at `now`. `last_non_visitor_msg_ts` becomes the payload's `timestamp` exactly when the nick is not visitor-prefixed. Roster, visitor and flags are unchanged |
| ChatStoreProperties.MessageEntryCarriesSnapshot | src/stores/ChatStore.js:99-106 | the appended entry is tagged with the sender's role and carries the sender record's fields. Payload fields absent from the snapshot keep their payload values |
| ChatStoreProperties.NickTestedEventsNeedStringNick | src/stores/ChatStore.js:62-113 | join, leave and message-like events with a non-string nick throw |
| ChatStoreProperties.UnknownEventsAreNoOps | src/stores/ChatStore.js:125-130 | an unknown top-level kind, or an unknown nested `chat` kind, returns the state unchanged |
| ChatStoreProperties.EntriesAreSnapshots | src/stores/ChatStore.js:99-106 | no later event at another clock reading changes an entry already in the transcript, so the embedded sender snapshot is never changed by later profile updates |
| ChatStoreProperties.LaterEventsAppendAtEnd | src/stores/ChatStore.js:75-106 | when the clock is past every key, an event leaves the existing transcript as a prefix. It adds at most one entry, and that entry is last and keyed `now` |
| ChatStoreProperties.LocalSendShape | src/stores/ChatStore.js:161-186 | a local send becomes a `chat.msg` (for `visitor_send_msg`) or `chat.file` event. It carries the visitor's nick, or `visitor:` when that nick is falsy, the visitor's display name, the send time, source `local`, and the intent's message or attachment |
| ChatStoreProperties.AnonymousVisitorSend | src/stores/ChatStore.js:161-186 | a local send from a visitor without a truthy nick succeeds and changes only the transcript. The entry is tagged `visitor`. Unless the visitor record overrides them, it carries nick `visitor:`, source `local` and the send time. `last_non_visitor_msg_ts` is unchanged |
| ChatStoreProperties.LocalSendBecomesChatEvent | src/stores/ChatStore.js:161-191 | a local send is reduced as the `chat.msg`/`chat.file` event it translates to |
| ChatStoreProperties.UnknownIntentIsNoOp | src/stores/ChatStore.js:187-191 | an unknown synthetic intent leaves the state unchanged; a synthetic action without a payload throws |
| ChatStoreProperties.TypingSurvivesAgentJoin | src/stores/ChatStore.js:62-124 | for any state and any agent nick, a typing event sets the agent's `typing`, and a later join of that agent keeps it and leaves `is_chatting` as it was |
| ChatStoreProperties.FirstAgentFromDefault | src/stores/ChatStore.js:5-14 | from `DEFAULT_STATE`, a profile update for `agent:1` creates exactly that agent, holding its nick, display name and `typing` false; everything else stays at its default |

## Left out

- `createStore`, the devtools hook and the exported store (lines 199-204). These are Redux and browser plumbing, with no state logic.
- The `log(...)` calls (lines 21, 129, 159). They are diagnostic side effects that do not affect state.
- `Date.now()`. It is the parameter `now`, which keys the transcript. On a local send it is also `sentAt`, the message's `timestamp`. The source reads the clock once for each, so the two may differ.
- The `state = DEFAULT_STATE` default parameter of `update` and `storeHandler`. Callers pass `DefaultState` explicitly.
- The sorted-map library internals. The transcript is modelled as a strictly key-ordered sequence with overwrite on an equal key. The source's keys are the decimal strings of `Date.now()`, compared as strings. The model orders them as integers. Both orders agree while every timestamp has the same number of digits (13 digits from 2001 to 2286).
- In-place aliasing at lines 64-65 and 68. `{...state}` is a shallow copy, so an agent join writes into the previous state's agent record, or adds a new agent to the previous state's roster (line 64), and a non-agent join writes into the previous state's visitor record. The model gives value semantics, where the previous state is untouched.
- JavaScript numbers are modelled as integers only. Fractions, `NaN` (which is falsy) and `-0` are not represented.
- JsValues.ToKey: a number becomes a key written out in every decimal digit. JavaScript switches to exponent notation from 10^21 on (`String(1e21)` is `"1e+21"`), so an `agent_update` or `typing` event whose nick is such a number files the agent under a different key in the model. Also, `Num` holds integers beyond 2^53, which no JavaScript number represents exactly. The model does not reproduce JavaScript for such numbers. Callable `toString` or `valueOf` fields and symbols cannot occur in the model, since values are plain data.
- JsValues.Spread: spreading a string or array payload copies its elements under index keys in JavaScript. The model spreads nothing for such a payload.
- Property reads that find inherited members are not modelled. An example is a nick such as `toString`, for which `state.agents[nick]` finds a prototype function. Records are own data properties only.
- The insertion order of an object's keys. Records are maps.
- Entries appended in the same clock tick: the later one replaces the earlier (`Transcript.SameTickOverwrites`). The model keeps this behaviour of the source rather than adding a sequence counter.

