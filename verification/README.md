# Chat relay state machine

A Dafny model of the in-memory chat relay `ChatSocket` (`lib/sockets/chat/index.ts`).
With the socket.io wiring removed, the relay is a small sequential state. It holds a list
of user bindings `{id, socketId}` and a list of chats `{receiver, sender, messages}`.
Four event handlers act on it: `join`, `chat-list`, `add-message` and `disconnect`. Each
handler runs to completion and has no I/O of its own. Each one is modelled as a pure
function from (state, socket id, event) to (new state, emitted events).

- `chat_types.dfy` (`ChatTypes`): the records `Chat`, `User` and `Message`, the
  `{sender, messages}` projection, and the emissions. An emission is (target, event name,
  payload), and its target is one socket id or `Broadcast`.
- `subsequence.dfy` (`Subsequence`): order-preserving sub-sequences.
- `user_registry.dfy` (`UserRegistry`): the `users` list. This covers `push`, `find` and
  the `filter` by socket id.
- `chat_store.dfy` (`ChatStore`): the `chatList`. This covers `some` and `map` on the
  ordered (receiver, sender) pair, and the `chat-list` filter and projection.
- `chat_socket.dfy` (`ChatSocket`): the initial state, the four handlers, dispatch
  (`Step`) and processing a sequence of events (`Run`).
- `chat_runs.dfy` (`ChatRuns`): properties over steps and over arbitrary event
  sequences. These are append-only logs, at most one chat per ordered pair, idempotent
  disconnect, join/disconnect inverse, and a worked scenario.

Facts about the code that the model keeps:
- chats are keyed by the ORDERED pair (receiver, sender);
- messages are plain strings;
- `add-message` broadcasts the original payload to every socket (`io.emit`) when the
  receiver has a binding, and emits nothing otherwise. The broadcast also reaches the
  sender's own socket, but there is no reply addressed to the sender alone.

When a pair already exists, `add-message` maps over the whole list and appends to EVERY
chat of that pair. The model does the same (`AppendMatching`). The uniqueness invariant
proved for every reachable state means that this is exactly one chat.

## Model

| member | source | states |
|---|---|---|
| ChatSocket.Init | lib/sockets/chat/index.ts:39-47 | the constructor starts with no bindings and the single chat receiver "foo", sender "bar", messages ["123"]; at most one chat per ordered pair holds there |
| ChatSocket.OnJoin | lib/sockets/chat/index.ts:51-58 | `join` puts exactly one binding {userId, socketId} after all earlier ones and leaves chats alone; it emits one `join-response` {status "Success!"} to the joining socket only |
| ChatSocket.OnChatList | lib/sockets/chat/index.ts:60-69 | `chat-list` changes no state; it answers only the requesting socket with the projections of exactly the chats whose receiver is the user, with no more entries than there are chats |
| ChatSocket.OnAddMessage | lib/sockets/chat/index.ts:71-101 | `add-message` leaves users alone. For an existing ordered pair, the length is kept, the body goes at the end of that pair's log and the other chats stay the same. Otherwise exactly one new chat [body] is added at the end. There is one broadcast of the original payload iff some binding's id is the receiver, and no emission otherwise |
| ChatSocket.OnDisconnect | lib/sockets/chat/index.ts:103-105 | `disconnect` keeps exactly the bindings of other sockets, as an order-preserving sub-sequence of the old list; it leaves chats alone and emits nothing |
| ChatSocket.RunAppend | lib/sockets/chat/index.ts:49-106 | processing events one at a time, each to completion: running a + b is running a and then b from the state a leaves, with the emissions in event order |
| UserRegistry.Register | lib/sockets/chat/index.ts:52-55 | the new binding goes at the end; the earlier bindings remain as a prefix |
| UserRegistry.FindUser | lib/sockets/chat/index.ts:96 | it finds a binding iff one has the receiver's id, and the binding found is the first one with that id |
| UserRegistry.RemoveSocket | lib/sockets/chat/index.ts:104 | the result holds no binding of the socket, holds every other binding, and is an order-preserving sub-sequence of the input |
| UserRegistry.RemoveSocketAppend | lib/sockets/chat/index.ts:104 | the filter distributes over concatenation, so survivors keep their original order |
| UserRegistry.RemoveSocketSingle | lib/sockets/chat/index.ts:104 | one binding is dropped exactly when its socket id is the disconnecting one |
| UserRegistry.RemoveSocketAbsent | lib/sockets/chat/index.ts:104 | disconnecting a socket that has no binding leaves the list unchanged |
| UserRegistry.RemoveSocketIdempotent | lib/sockets/chat/index.ts:104 | filtering twice by the same socket equals filtering once |
| ChatStore.AppendMatching | lib/sockets/chat/index.ts:77-87 | the length is kept; every chat of the ordered pair keeps its key and gets the body at the end of its log; every other chat stays the same |
| ChatStore.ChatsFor | lib/sockets/chat/index.ts:61-66 | every entry projects a chat whose receiver is the user, and every such chat's projection is present |
| ChatStore.ChatsForAppend | lib/sockets/chat/index.ts:61-66 | the answer distributes over concatenation of the store, so entries follow store order |
| ChatStore.ChatsForSingle | lib/sockets/chat/index.ts:62-66 | a chat contributes {sender, messages} iff the user is its receiver; a chat where the user is only the sender contributes nothing |
| ChatStore.UniquePairsAppendNew | lib/sockets/chat/index.ts:88-94 | adding a chat for a pair that had none keeps at most one chat per ordered pair |
| ChatStore.UniquePairsAppendMatching | lib/sockets/chat/index.ts:77-87 | appending to existing logs keeps at most one chat per ordered pair |
| ChatStore.AppendMatchingTouchesOne | lib/sockets/chat/index.ts:72-87 | with unique pairs, exactly one chat (the one with the pair) has its log grown by the body, and all others stay the same |
| ChatRuns.StepLogsExtend | lib/sockets/chat/index.ts:51-105 | no event removes a chat, moves it, changes its key, or changes a stored message; each old log is a prefix of the new one |
| ChatRuns.RunLogsExtend | lib/sockets/chat/index.ts:49-106 | message logs are append-only over any sequence of events |
| ChatRuns.StepUniquePairs | lib/sockets/chat/index.ts:71-105 | every event keeps at most one chat per ordered (receiver, sender) pair |
| ChatRuns.RunUniquePairs | lib/sockets/chat/index.ts:49-106 | any sequence of events keeps at most one chat per ordered pair |
| ChatRuns.ReachableUniquePairs | lib/sockets/chat/index.ts:39-106 | every state reachable from the constructor's state has at most one chat per ordered pair |
| ChatRuns.AddMessageGrowsOneChat | lib/sockets/chat/index.ts:72-87 | on such a state, `add-message` for an existing pair grows exactly one chat's log, by the body, and leaves all other chats as they were |
| ChatRuns.ReversedPairUntouched | lib/sockets/chat/index.ts:72-79 | a message from a to b, with a different from b, leaves the chat (receiver a, sender b) as it was |
| ChatRuns.DisconnectIdempotent | lib/sockets/chat/index.ts:103-105 | a second `disconnect` of the same socket changes nothing and emits nothing |
| ChatRuns.JoinThenDisconnect | lib/sockets/chat/index.ts:51-105 | `disconnect` undoes a `join` made on a socket that had no binding |
| ChatRuns.ChatListAfterNewChat | lib/sockets/chat/index.ts:60-94 | a message that opens a chat shows up as the last `chat-list` entry of its receiver, and every other user's `chat-list` is unchanged |
| ChatRuns.ScenarioMessages | lib/sockets/chat/index.ts:71-100 | a message to a joined receiver creates its chat and is broadcast; a message to a receiver who never joined is stored and not emitted |
| ChatRuns.JoinThenMessageScenario | lib/sockets/chat/index.ts:39-100 | two joins and two messages from the initial state produce exactly two acknowledgements and one broadcast, and the chats are in creation order |

## Left out

- The socket.io `Server`, `io.on('connection')`, `socket.on` registration, `io.to(...).emit` and `io.emit` are transport. Emissions are returned as values, and `Step` stands in for the registration.
- The `async` handler wrappers are left out. Nothing inside a handler awaits, so each event runs to completion, and `Run` processes events one after another.
- Malformed payloads (a missing `userId`, `receiver` or `body` arriving as `undefined`) are not modelled. Events are typed, so every field is present. Any fields a client adds beyond receiver, sender and body are dropped, although lib/sockets/chat/index.ts:99 re-broadcasts the payload object with them.
- The commented-out middleware in `socketConfig()` (lib/sockets/chat/index.ts:109-122) is dead code.
- The unused `LeaveChatPayload` type (lib/sockets/chat/index.ts:30-32) is left out.
- Aliasing is not modelled. `chat-list` hands out the stored `messages` arrays by reference. The model has value semantics, and the relay never mutates those arrays in place.
- lib/index.ts (the Express app, dotenv and the `GET /` greeting) and bin/app.js (`listen` and logging) are HTTP and process plumbing, so they are not part of this model.
