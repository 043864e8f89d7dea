# Conversational-memory hook of the multi-agent orchestrator, in Dafny

The orchestrator gives its router agent a hook that connects the agent's lifecycle
events to an external memory store. When the agent is initialized, the hook asks the
store for the last five conversation turns of the current actor and session. It
flattens them into `role: text` lines and appends them once to the system prompt,
under the header `"\n\nRecent conversation:\n"`. When a message is added, the hook
writes at most one `(text, role)` event for the last message. Every failure is logged
and swallowed. The hook exists twice: `src/agentcore/memory_helper.py` and
`src/agentcore/memory_hook.py`. The helper copy also reads the store's strategies
first and keeps a map from strategy type to namespace. The helper module also holds:

- the recovery in `create_short_term_memory` for a memory name that is already taken;
- the namespaces searched by the retrieval helpers;
- the memory viewer, which shortens each text to 100 characters.

Modules, one per source concern:

- `Strings` (`strings.dfy`): the string operations used from Python: `startswith`,
  `in`, `join`, and `str(n)`. It also has `split`, the inverse of `join`.
- `Memory` (`memory.dfy`): the vocabulary. The agent is a class with a system prompt,
  a state dictionary and its messages. The store is a class holding its events and the
  requests it received. Messages, turns, strategies and events are datatypes.
- `Conversation` (`conversation.dfy`): the logic both copies share. This is the
  context block (`Flatten`, `ContextLines`, `Loaded`, the nested loop in
  `CollectContextLines`), the message that `on_message_added` writes, and the viewer's
  formatter.
- `MemoryHelper` (`memory_helper.dfy`): the helper copy: recovering a memory by name
  prefix, `get_namespaces`, the retrieval namespaces, and its `MemoryHookProvider`.
  It also has a start-up scenario with the ids `master_agent.py` sets; that file
  imports this copy of the hook.
- `MemoryHook` (`memory_hook.dfy`): the other `MemoryHookProvider`.

The standing conventions of the model:

- Anything the external store or SDK answers is an input. This covers strategies,
  turns, memory listings, the outcome of creating a memory, and whether a write is
  accepted. It is written `Reply<T> = Returned(v) | Raised`.
- A Python exception inside a handler's `try` becomes an early return. The state is
  left as it was at that point.
- A missing dictionary key (`KeyError`) is an `Option` field that is `None`.
- An out-of-range index (`IndexError`) is an empty sequence.

Two behaviours of the code that are easy to miss:

- With an id missing from the agent state, the helper copy has already called
  `get_memory_strategies` and replaced its namespace map (memory_helper.py:134)
  before it returns (memory_helper.py:136-138). The other copy returns before any
  store call (memory_hook.py:17-19).
- `on_message_added` does not check the ids. It passes whatever `state.get`
  returned, `None` included, to `create_event` (memory_helper.py:166-175), so
  `Event.actor` and `Event.session` are `Option`s.

## Model

| member | source | states |
|---|---|---|
| `Strings.SplitJoin` | src/agentcore/memory_helper.py:155 | `"\n".join` loses nothing: if no part holds the separator, splitting the joined text gives back exactly the parts |
| `Strings.NatToString` | src/agentcore/memory_helper.py:211-212 | the turn number in `Turn {i}:` is printed as a non-empty run of decimal digits |
| `Strings.ParseNatToString` | src/agentcore/memory_helper.py:211-212 | the turn number printed by `enumerate(..., 1)` reads back as the same number |
| `Memory.Get` | src/agentcore/memory_helper.py:132-133 | `state.get(key)` gives the value exactly when the key is present |
| `Memory.MemoryStore.CreateEvent` | src/agentcore/memory_helper.py:170-176 | a write is always recorded as a request; the store then holds one more event if it accepted the write, and no extra event if the write raised |
| `Conversation.Flatten` | src/agentcore/memory_helper.py:149-150 | the nested walk over turns and messages visits one message per message stored, over all turns |
| `Conversation.FlattenAt` | src/agentcore/memory_helper.py:149-153 | message `m` of turn `t` is visited at position `Offset(t) + m`: turn order first, then message order |
| `Conversation.FlattenCovers` | src/agentcore/memory_helper.py:149-153 | every visited position is some message `m` of some turn `t` |
| `Conversation.IntactIffAllReadable` | src/agentcore/memory_helper.py:151-152 | the loop finds no missing `role` or `text` key exactly when no message of any turn lacks one |
| `Conversation.ContextLinesInOrder` | src/agentcore/memory_helper.py:148-153 | `context_messages` is built exactly when every message has both keys. It then has one line per message, and message `m` of turn `t` is line `Offset(t) + m`, equal to `role: text` |
| `Conversation.LoadedPrompt` | src/agentcore/memory_helper.py:147-156 | the prompt changes only for a non-empty list of turns whose messages all have both keys; it then becomes the old prompt + header + the `"\n"`-joined lines, in order, and otherwise stays as it was |
| `Conversation.EmptyTurnsAddHeader` | src/agentcore/memory_helper.py:147-156 | turns that hold no message still add the bare header, since the guard tests the list of turns rather than the messages |
| `Conversation.ContextBlockSplits` | src/agentcore/memory_hook.py:29-38 | when no role or text holds a newline, the block after the header has exactly one line per message, and those lines are the context lines |
| `Conversation.CollectContextLines` | src/agentcore/memory_hook.py:30-35 | the nested `for` loops give exactly `ContextLines`: all lines in order, or a stop at the first message that has no role or no text |
| `Conversation.SessionOf` | src/agentcore/memory_hook.py:15-18 | the ids pass the guard exactly when both `actor_id` and `session_id` are present and not empty |
| `Conversation.LoadRecentTurns` | src/agentcore/memory_hook.py:22-42 | one `get_last_k_turns` request with k = 5 for the ids. The prompt becomes `Loaded(old prompt, turns)` when the store answered, and stays as it was when the call raised |
| `Conversation.Outgoing` | src/agentcore/memory_helper.py:169-175 | a `(text, role)` pair is sent exactly when there is a last message, it has a first content item with non-empty text, and it has a role; the pair is that text and that role |
| `Conversation.EventFor` | src/agentcore/memory_helper.py:166-176 | the event written carries the state's `actor_id` and `session_id` as found, possibly absent, together with the outgoing text and role |
| `Conversation.SaveLastMessage` | src/agentcore/memory_hook.py:44-59 | exactly one `create_event` request when a pair is outgoing and none otherwise. The store gains that one event when it accepts the write, and nothing else changes |
| `Conversation.Preview` | src/agentcore/memory_helper.py:197-198 | the shown text has at most 103 characters. It equals the text when that has at most 100 characters; otherwise it is the first 100 characters followed by `...` |
| `Conversation.PreviewCanLookUncut` | src/agentcore/memory_hook.py:77-78 | a 103-character text ending in `...` is shown as itself, so "shown unchanged" does not imply "at most 100 characters" |
| `Conversation.MessagesViewShape` | src/agentcore/memory_helper.py:213-217 | printing a turn's messages raises exactly when one lacks a key. Otherwise it prints one line per message, and line `i` is message `i` shown as `  role: preview` |
| `Conversation.TurnsViewShape` | src/agentcore/memory_helper.py:211-218 | the turns print two lines each (`Turn n:` and the empty line) plus one per message, unless a message lacks a key, when the viewer raises |
| `Conversation.ViewShape` | src/agentcore/memory_hook.py:65-80 | the viewer raises exactly when some message lacks a role or a text. Otherwise it prints 1 + 2·turns + messages lines, and a message line shows at most 103 characters of text |
| `Conversation.TurnViewIsBlock` | src/agentcore/memory_helper.py:211-217 | with every message readable, one turn prints `Turn n:`, then each message in order as `  role: preview`, then the empty line |
| `Conversation.TurnsViewIsBlock` | src/agentcore/memory_helper.py:211-218 | with every message readable, the loop over `enumerate(recent_turns, 1)` never raises and prints the blocks of the turns one after the other, numbered from 1 |
| `Conversation.TurnsBlockShows` | src/agentcore/memory_helper.py:211-218 | the printed blocks have 2·turns + messages lines, and the block of turn `t` starts `2·t + Offset(t)` lines in, titled `Turn t+1:` |
| `Conversation.ViewLines` | src/agentcore/memory_hook.py:65-80 | with every message readable, the viewer does not raise. Its first line is the `=== Memory Contents ... ===` header, and every turn `t` is shown as its block one line further down |
| `Conversation.ViewLineOf` | src/agentcore/memory_helper.py:202-218 | line by line: turn `t` is titled `Turn t+1:` on line `1 + 2·t + Offset(t)`. Its message `m` is on the line `m + 1` below, as `  role: preview`, and the empty line follows its last message |
| `MemoryHelper.FirstWithPrefix` | src/agentcore/memory_helper.py:31-32 | gives `None` exactly when no listed id starts with the name; otherwise gives a listed id that starts with the name, before which no id does |
| `MemoryHelper.CreateShortTermMemory` | src/agentcore/memory_helper.py:11-49 | a created memory gives its id. On a `ValidationException` saying "already exists" it gives the first listed id that starts with the name (a raising listing escapes). Every other error gives `None`; nothing else raises |
| `MemoryHelper.CreateShortTermMemoryAsWritten` | src/agentcore/memory_helper.py:36-49 | as written, a generic error on creation raises out of the function |
| `MemoryHelper.GenericErrorEscapes` | src/agentcore/memory_helper.py:36-49 | the code as written and the intended helper agree except on a generic error, where the first raises and the second returns `None` |
| `MemoryHelper.NamespaceMapDefined` | src/agentcore/memory_helper.py:124-127 | `get_namespaces` builds its map exactly when every strategy has at least one namespace |
| `MemoryHelper.NamespaceMapKeys` | src/agentcore/memory_helper.py:127 | the keys of the map are exactly the strategy types |
| `MemoryHelper.NamespaceMapLastWins` | src/agentcore/memory_helper.py:127 | each type maps to the first namespace of the last strategy of that type: a later entry overwrites an earlier one |
| `MemoryHelper.PreferenceFollowsTemplate` | src/agentcore/memory_helper.py:220-229 | `retrieve_user_preference` searches `users/{actorId}/preference` with the actor filled in |
| `MemoryHelper.SemanticFollowsTemplate` | src/agentcore/memory_helper.py:231-240 | `retrieve_semantic` searches `users/{actorId}/semantic` with the actor filled in |
| `MemoryHelper.SummaryFollowsTemplate` | src/agentcore/memory_helper.py:242-251 | `retrieve_summaries` searches `user/{actorId}/summary/{sessionId}` with the actor and session filled in |
| `MemoryHelper.MemoryHookProvider.constructor` | src/agentcore/memory_helper.py:120-122 | the hook is bound to its store and has no namespace map yet |
| `MemoryHelper.MemoryHookProvider.OnAgentInitialized` | src/agentcore/memory_helper.py:129-160 | strategies are always requested first. The namespace map is replaced only when it could be built. Turns are requested only after that and only with both ids. The prompt becomes `Loaded(...)` only if every earlier step succeeded; no event is written |
| `MemoryHelper.MemoryHookProvider.OnMessageAdded` | src/agentcore/memory_helper.py:162-178 | at most one request and at most one new event, for the outgoing pair of the last message; the prompt and the namespace map are untouched |
| `MemoryHook.MemoryHookProvider.constructor` | src/agentcore/memory_hook.py:8-10 | the hook is bound to its store |
| `MemoryHook.MemoryHookProvider.OnAgentInitialized` | src/agentcore/memory_hook.py:12-42 | no store request and an unchanged prompt when an id is missing or empty. Otherwise one `get_last_k_turns` request, then the prompt becomes `Loaded(...)` unless that call raised; no event is written |
| `MemoryHook.MemoryHookProvider.OnMessageAdded` | src/agentcore/memory_hook.py:44-59 | at most one request and at most one new event, for the outgoing pair of the last message; the prompt is untouched |
| `MemoryHelper.StartAndChat` | src/master_agent.py:70-84 | with the demo ids in the state and well-formed strategies, start-up keeps the namespace map and appends the context block once. Two text messages then leave the store holding exactly their two events, in order |

## Left out

- `create_long_term_memory` is not modelled. It calls an undefined `client` on its
  recovery and cleanup paths (memory_helper.py:97, 111). Its cleanup also reads a
  possibly unbound `memory_id` (memory_helper.py:109). Only its strategy namespace
  templates (memory_helper.py:68, 75, 82) appear, as the templates the retrieval
  helpers are checked against.
- `CreateShortTermMemory`: two paths are not modelled. If `memory['id']` is missing,
  the generic handler runs after creation. If logging fails after `memory_id` is
  bound, the cleanup call `delete_memory_and_wait` would run. The model gives the
  intended `None` for every generic error.
- Which memory the hooks use: `memory_client` and `memory_id` together are the
  `MemoryStore` object. A `None` memory id (the value a failed creation returns) is
  not modelled separately.
- Store behaviour is not modelled: which turns count as the last k, retention,
  strategy extraction, what is stored for an event with absent ids, and whether a
  write that raised was partly stored (taken as nothing stored). No write/read-back
  round trip is claimed.
- All logging, all `print` output, and `register_hooks` (framework registration) are
  left out. The viewer's `get_last_k_turns` call with k = 3 is also left out: the
  viewer is modelled as a formatter of the turns it receives.
- `ViewShape`, `TurnsViewShape`: when a message lacks a key, the viewer raises after
  printing some lines. The model keeps those lines, but no lemma says what they are.
  The line-by-line content is stated only for readable turns (`ViewLineOf`).
- `view_memories` is defined twice, identically, in memory_helper.py (184-218); the
  second definition replaces the first. The model has one formatter.
- The retrieval helpers are modelled as the request they send (namespace and query).
  The memories the store returns, which go back to the caller as they are, are not
  modelled.
- Python's dynamic typing: state values, roles and texts are taken to be strings.
  Formatting a non-string value with an f-string, and a `TypeError` from `join`, are
  not modelled.
- The rest of the repository is not part of this model. That covers the CLI loop and
  router agent in master_agent.py, the LLM sub-agents, the web-search and market-data
  tools, the constant risk profile, and logging configuration. It is prompt text or a
  single external call.

## Findings

| source | as written | input that shows it | evidently intended | confidence | as-written member | corrected member |
|---|---|---|---|---|---|---|
| src/agentcore/memory_helper.py:36-49 | on any exception other than `ClientError`, the handler tests `if memory_id:` although `memory_id` was never assigned, so `UnboundLocalError` escapes the function | `create_memory_and_wait` raising a non-`ClientError` (a timeout, say) | log, skip the cleanup because nothing was created, and return `None` | high, not executed | `MemoryHelper.CreateShortTermMemoryAsWritten` (with `MemoryHelper.GenericErrorEscapes`) | `MemoryHelper.CreateShortTermMemory` |
