# Truth-or-dare session server, modelled in Dafny

The server keeps one shared game record — the list of players, whose turn it
is, whether the game has started, the capacity, and the current choice,
question and punishment — and changes it in place as WebSocket messages
arrive. Each message names an action (`join`, `start`, `choose`, `next`,
`reset`); each action is guarded, and every action whose guard passes is
followed by a broadcast of the whole record to all connections. A failed
guard or an unknown action changes nothing and broadcasts nothing.

The project has four modules:

- `Wrappers` (wrappers.dfy): the `Option` used for the fields the server sets to `null`.
- `Content` (content.dfy): the two fixed prompt pools, the pool a choice selects, and the random pick.
  The random pick takes the index `draw`, standing for `Math.floor(Math.random() * length)`.
  Only membership of the result in the pool is modelled.
- `Session` (session.dfy): the record as a value (`State`), the transition taken for one message
  (`Step`), runs of messages (`Run`), the invariant every reachable state satisfies (`Inv`) and the
  lemmas about them.
- `Server` (server.dfy): the mutable record as a class `GameState`. It has one method per action,
  each returning whether a broadcast follows, and `HandleMessage` for the dispatch on the action.
  `HandleMessage` is proved to agree with `Session.Step`.

The invariant `Inv` says:
- names are unique and never more than the capacity;
- while started, there are at least two players and the turn index is in range;
- while not started, the index is 0 and there is no pending prompt;
- a choice and a question are present together, and the question comes from the pool the choice selects;
- the punishment is always null.

The started clause is what makes the `% players.length` of `next` safe. In `GameState.Next`,
the verifier discharges the divisor's non-zero obligation from `Valid()`.

Points where the code's behaviour may be unexpected; the model follows the code:
- the turn index is 0, not -1, both initially and after `reset`;
- `join` is accepted after the game has started, and for an empty name;
- any `choose` value other than `"truth"` draws from the dare pool, and that value is stored as the choice;
- `punishment` is only ever cleared.

## Model

| member | source | states |
|---|---|---|
| Content.GetRandomItem | server.js:40-42 | the random pick returns an element of the pool, for any in-range index |
| Content.PoolFor | server.js:78-80 | the choice `"truth"` selects the truth questions and every other value the dare actions; both pools hold five entries |
| Content.PoolsDisjoint | server.js:22-37 | no truth question is also a dare action |
| Session.Initial | server.js:11-19 | the start-up record: no players, index 0, not started, capacity 10, choice, question and punishment None; it satisfies the invariant |
| Session.Accepted | server.js:59-106 | the guard of each action: `reset` always passes, `choose` and `next` pass exactly while started, and an unknown action never does |
| Session.NextIndex | server.js:87 | the next turn `(i + 1) % n` is again an index of the table: `i + 1`, or 0 after the last player |
| Session.Cleared | server.js:96-103 | reset empties the players, sets the index to 0, clears started, choice, question and punishment, and keeps the capacity |
| Session.Step | server.js:59-106 | one message keeps the invariant; it is broadcast exactly when the guard of its action holds; when not broadcast the state is unchanged; the capacity never changes |
| Session.Run | server.js:54-110 | any sequence of messages handled one at a time from a valid state ends in a valid state with the same capacity |
| Session.ReachableInvariant | server.js:11-19 | from the start-up record, every reachable state has unique names, at most 10 of them, capacity 10, and while started at least two players with the turn index in range |
| Session.ResetRestoresInitial | server.js:95-105 | a `reset` from any state reachable from start-up yields exactly the start-up record |
| Session.NextRotates | server.js:86-92 | k consecutive `next` messages in a started game move the turn to `(i + k) % n`, keep the players and the started flag, and leave no pending choice or question |
| Session.FullCycle | server.js:87 | as many `next` messages as there are players bring the turn back to the same player |
| Session.Scenario | server.js:59-106 | Ann and Bo join; a second "Ann" is rejected; start sets turn 0; choosing truth yields a truth question; `next` gives turn 1 and clears the prompt; a second `next` wraps to turn 0 |
| Server.GameState.constructor | server.js:11-19 | the record starts empty, not started, index 0, capacity 10, all prompts null, and satisfies the invariant |
| Server.GameState.Join | server.js:60-65 | broadcast exactly when the name is absent and the table is below capacity; then the name is appended, otherwise the players are unchanged; nothing else changes |
| Server.GameState.Start | server.js:67-73 | broadcast exactly when there are at least two players and no game is running; then started with turn 0, otherwise unchanged |
| Server.GameState.Choose | server.js:75-83 | broadcast exactly while started; then the choice is stored and the question is the drawn entry of the truth pool for "truth" and of the dare pool otherwise; otherwise unchanged; players, turn and started untouched |
| Server.GameState.Next | server.js:85-93 | broadcast exactly while started; then the turn becomes `(i + 1) % n` and choice, question and punishment are null; otherwise unchanged |
| Server.GameState.Reset | server.js:95-105 | always broadcast; players empty, index 0, not started, choice, question and punishment null; capacity kept |
| Server.GameState.HandleMessage | server.js:54-110 | dispatch on the action: the new record and the broadcast flag are exactly those of `Session.Step`, and an unknown action changes nothing without a broadcast |

## Left out

- Express, the HTTP server, port binding, static files and the `/health` endpoint (server.js:1-8, 131-147): I/O plumbing outside the game logic.
- WebSocket connection handling, including the snapshot sent to a newly connected client (server.js:45-53, 112-115). The broadcast send loop and its `readyState` check (server.js:117-129) are left out too. A broadcast is represented only by the returned `broadcast` flag.
- `JSON.parse`/`JSON.stringify` and the `try/catch` around the handler (server.js:55-57, 107-109). A message that fails to parse leaves the record unchanged, like an unknown action.
- Message fields are modelled as strings. A missing or non-string `name` or `choice` is left out, since a JSON value of any type could be pushed or stored there.
- The uniform distribution of `Math.random` (server.js:41). The model takes an arbitrary in-range index.
- Console logging.
- Concurrency: Node's event loop handles one message at a time, and the model handles messages one at a time.
- public/game.js is not part of this model: DOM rendering, reconnect timing, and the client-side name check.
- The bundled client and this server do not speak the same protocol. The client sends `{type: ...}` (public/game.js:169-192), but the server dispatches on `action` (server.js:59). The server broadcasts `state_update` (server.js:50, 120), but the client takes state only from a `gameState` reply (public/game.js:55-56); it also handles `connected` and `error` (public/game.js:53, 57), but never `state_update`. Every message from the shipped client therefore falls into the unknown-action case. The model describes the server as written, not the end-to-end application.
