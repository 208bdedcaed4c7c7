# Twitch Plays Any Games: vote and dispatch logic

Twitch Plays Any Games is an Electron application. It lets a live channel's chat play a PC game. Viewers type commands such as `up` or `a`, and the application turns them into Windows key presses. It works in one of three modes:

- **anarchy**: every matching chat line presses its key at once.
- **democracy**: chat lines are votes for commands. On every tick of the dispatch loop, the command with the most votes is pressed and the tally is reset. When the top count is 0 the tick presses nothing, and when its command's key is empty nothing is pressed and the tally is kept. When the tally is empty the tick throws and the session stops.
- **random**: every tick draws a random key from the table and presses it, unless the drawn key is empty.

Viewers can also vote for a mode by typing its name. The mode changes as soon as the voted mode has at least as many votes as each of the others.

This project models the three parts of that logic and proves properties of each one.

- The Redux reducer over `GlobalState` (module `Reducer`). Two modules support it:
  - `Tally` models the democracy tally as a JavaScript object, keeping its key enumeration order.
  - `Options` is the usual option type.
- The sagas in `src/main/saga/index.ts`, stripped of their effects (module `Saga`). Two modules support them:
  - `Saga` holds the chat-line classifier, the democracy resolver, the mode-vote transition, `receiveKey`, `pickRandom` with the random draw as a parameter, the error path and the saved snapshot.
  - `Text` models `toLowerCase` and `trim`.
- A whole session as an imperative program (module `Session`).
  - Class `App` holds the store state, the chat client, the saved record and the log of keys handed to the key sender.
  - Its `StartServer` method runs the `while (isContinue)` loop over a finite trace. Each pass of the trace holds the `Math.random()` value of one tick and the chat lines and stop clicks that arrive during the following sleep.
  - Each method is proved equal to a function on values (`Start`, `Loop`, `Step`, `OnChat`, ...). The session-wide invariants are proved about those functions.
- The key sender in `src/main/saga/key.ts` (module `Key`). It covers the character-to-virtual-key table and the split of the key string into UTF-16 units. `InputKey` fills one array in two `while` loops, one for the press and one for the release, and returns the records each `SendInput` call receives.

JavaScript behaviour that matters here is written out explicitly:

- `undefined + 1` is `NaN`.
- `NaN > 0` is false.
- `toLowerCase` is modelled on ASCII letters only.
- `trim` removes the ECMAScript white-space and line-terminator set.
- An object's keys are enumerated with array-index keys first.
- `Array.prototype.sort` is stable. So `sort` by descending count puts the first entry with the top count first, which `Leader` computes as a left-to-right scan.
- `filter(p)[0]` is the first match, or `undefined`. Reading a property of `undefined` throws a `TypeError`.

Where the code behaves surprisingly, the model follows the code. The differences:

- A vote for a command the tally does not hold adds a `NaN` count. It is not ignored.
- `startServer` has no "already active" check.
- Key presses are not awaited, so they can overlap.
- A chat-client `error` event is only logged; it does not stop the session.
- An error thrown in the dispatch loop stops the session.
- `startServer` does not reset the democracy tally. Starting in democracy mode with an empty tally, as in the initial store, makes the first tick throw and stop the session (`Session.StartDemocracyOnEmptyTally`).
- Random mode draws from every entry's key, disabled entries included (`src/main/saga/index.ts:63`, `:127`).
- The reset after a democracy press lists every entry's command, disabled entries included (`src/main/saga/index.ts:62`, `:133`).
- The winner's key comes from the first entry whose command equals the winning text exactly, enabled or not, and without lower-casing (`src/main/saga/index.ts:122`).
- When no entry has the winning command, reading `.key` of `undefined` throws and the session stops. Votes only raise counts under configured commands, so this takes a tally carried over from elsewhere: the saved state keeps the tally, and `startServer` does not reset it, so a positive count under a command since removed from the table leads on the first tick (`Saga.TickDemocracyUnknownWinner`).

## Model

| member | source | states |
|---|---|---|
| Reducer.NotifyClosableByDefault | src/renderer/renderer/actions/index.ts:14-16 | dispatching `changeNotify` changes only the notification bar; `show`, type and message are shown as given; the bar can be closed unless `false` is passed, and passing `true` is the same as passing nothing |
| Reducer.ResetTally | src/main/reducer/index.ts:143-152 | after `resetDemocracyKeyVote(list)`, reading any command gives 0 if it is in `list` and `undefined` otherwise; the keys are exactly the list's elements, distinct, with index keys ascending ahead of the others; when no element is an array index and none repeats, the keys are the list in its own order; no other field changes |
| Reducer.VoteTracked | src/main/reducer/index.ts:153-161 | voting for a command that holds `n` makes it `n + 1`; every other command keeps its count, the key sequence is unchanged, no other field changes |
| Reducer.VoteOnNaN | src/main/reducer/index.ts:153-161 | voting for a command that holds `NaN` leaves it `NaN` (`NaN + 1`); every other command keeps its count, the key sequence is unchanged, no other field changes |
| Reducer.VoteUntracked | src/main/reducer/index.ts:153-161 | voting for a command that is not a key stores `NaN` (`undefined + 1`) under it, adds exactly one entry and leaves every other command and field as it was |
| Reducer.StopOnlyClearsStart | src/main/reducer/index.ts:134-139 | `stopServer` sets `start` to false and changes nothing else |
| Reducer.ApplyServerEffect | src/main/reducer/index.ts:119-133 | `applyServer(p)` starts the session, sets `mode` and `initialMode` to `p.initialMode`, copies `modeVote`, `commandToKey`, `keyInterval`, `keyPressTime` and the Twitch ID, and keeps `modeCount`, `democracyCount` and `notify` |
| Reducer.ChangeModeEffect | src/main/reducer/index.ts:140-142 | `changeMode` replaces `mode` and `modeCount` and nothing else |
| Reducer.NotifyEffects | src/main/reducer/index.ts:110-115 | `closeNotify` hides the bar and keeps its type, message and closability, changing nothing else; `changeNotify` replaces the bar only |
| Reducer.UnhandledActions | src/main/reducer/index.ts:116-118 | `startServer`, `receiveModeCommand` and `receiveKey` fall through to `default` and leave the state unchanged; `loadState` replaces the whole state |
| Reducer.ReduceAllAppend | src/main/reducer/index.ts:106-165 | dispatching `xs + ys` equals dispatching `xs`, then `ys` |
| Tally.Find | src/main/reducer/index.ts:158 | the position found holds the key, and no earlier entry does; nothing is found exactly when the key is absent |
| Tally.Keys | src/main/reducer/index.ts:46-48 | the object's keys, one per entry, in enumeration order |
| Tally.InsertIndexEntrySplice | src/main/reducer/index.ts:146 | adding an array-index key splices the new entry into the old sequence at one position and moves nothing else; every entry before it is an array index no greater than the new key, and the entry after it is not an index or is a greater one |
| Tally.InsertIndexEntryElements | src/main/reducer/index.ts:146 | after adding an array-index key, the entries are the old ones plus the new one, and the keys are the old keys plus the new key |
| Tally.InsertIndexEntryGet | src/main/reducer/index.ts:146 | after adding an absent array-index key, it reads back its value and every other key reads as before |
| Tally.InsertIndexEntryOrdered | src/main/reducer/index.ts:146 | adding an array-index key keeps the index keys ascending and ahead of the others |
| Tally.InsertIndexEntryDistinct | src/main/reducer/index.ts:146 | adding an absent key keeps the keys distinct |
| Tally.IncrementAt | src/main/reducer/index.ts:158 | `d[c] = d[c] + 1`: `c` reads its incremented count (`NaN` for `undefined` or `NaN`, `n + 1` for `n`), every other key keeps its count, and a key already present keeps the key sequence |
| Tally.GetAssign | src/main/reducer/index.ts:146 | after `d[k] = v`, `k` reads `v` and every other key reads as before |
| Tally.AssignElements | src/main/reducer/index.ts:156-159 | every entry after `d[k] = v` is an old entry or `(k, v)`; an existing key keeps its place, and a new key adds exactly one entry |
| Tally.GetAssignAll | src/main/reducer/index.ts:156-159 | the assignment read back at every key at once, with the unchanged key sequence when `k` was present |
| Tally.AssignKeepsShape | src/main/reducer/index.ts:156-159 | assignment keeps the object in enumeration order with distinct keys |
| Tally.GetZeroedFrom | src/main/reducer/index.ts:144-147 | after the `.map` that assigns 0 to each listed command, every listed command reads 0 and every other key reads as before |
| Tally.ZeroedFromShape | src/main/reducer/index.ts:144-147 | the `.map` keeps enumeration order and distinct keys, and adds only listed commands holding 0 |
| Tally.ZeroedExactly | src/main/reducer/index.ts:143-147 | the fresh reset object holds exactly the listed commands, each at 0, once each, with index keys ascending ahead of the others |
| Tally.ZeroedOrder | src/main/reducer/index.ts:144-147 | when no listed command is an array index and none repeats, the reset object enumerates its keys in exactly the list's order |
| Text.LowerCharFolds | src/main/saga/index.ts:81 | lower-casing a character never yields an ASCII capital and is idempotent; two characters agree after it exactly when they are equal or the two cases of one ASCII letter |
| Text.ToLower | src/main/saga/index.ts:81 | lowercasing keeps the length |
| Text.ToLowerAt | src/main/saga/index.ts:81 | lowercasing works one character at a time |
| Text.TrimStart | src/main/saga/index.ts:81 | the result is a suffix of the input and does not start with white space |
| Text.TrimEnd | src/main/saga/index.ts:81 | the result is a prefix of the input and does not end with white space |
| Text.TrimStartDrops | src/main/saga/index.ts:81 | everything dropped at the front is white space |
| Text.TrimEndDrops | src/main/saga/index.ts:81 | everything dropped at the back is white space |
| Text.TrimIsSlice | src/main/saga/index.ts:81 | `trim` returns a contiguous slice of its input, with only white space around it and no white space at either end |
| Text.TrimIdempotent | src/main/saga/index.ts:86 | trimming twice is trimming once |
| Text.ToLowerIsLower | src/main/saga/index.ts:81 | a lowercased string has no character that lowercasing would change |
| Text.TrimKeepsLower | src/main/saga/index.ts:81 | trimming a lower-case string leaves it lower-case |
| Text.ToLowerOfLower | src/main/saga/index.ts:86 | lowercasing a string that is already lower-case changes nothing |
| Text.NormalizeIdempotent | src/main/saga/index.ts:81-86 | `toLowerCase().trim()` applied twice equals it applied once, so the handler's second normalization of the text has no effect |
| Text.NormalizeHasNoCapitals | src/main/saga/index.ts:62 | a lowercased and trimmed string holds no ASCII capital |
| Saga.ModeOf | src/main/saga/index.ts:81-83 | `modeList.includes(text)` names the mode whose name is the text, and finds nothing when no mode has that name |
| Saga.FirstWhere | src/main/saga/index.ts:86-88 | `filter(p)[0]` is the first element satisfying `p`; with none, no element satisfies it |
| Saga.MatchesNormalized | src/main/saga/index.ts:86 | comparing with the already normalized line is comparing with the line itself |
| Saga.ClassifyModeVote | src/main/saga/index.ts:81-84 | a chat line is a mode vote for `m` exactly when mode voting is on and the line, lowercased and trimmed, is `m`'s name |
| Saga.ClassifyCommand | src/main/saga/index.ts:85-89 | a line that sets off a command is not a mode vote, and the entry is the first enabled entry whose lowercased, trimmed command equals the line |
| Saga.ClassifyEntryInTable | src/main/saga/index.ts:86-88 | the entry a line sets off is an entry of the session's command table |
| Saga.ClassifyIgnoredOnlyIf | src/main/saga/index.ts:83-90 | a line that sets nothing off is not a mode vote, and no enabled entry matches it |
| Saga.ClassifyIgnoredIf | src/main/saga/index.ts:83-90 | a line that is not a mode vote and that no enabled entry matches sets nothing off, so disabled entries never match |
| Saga.Leader | src/main/saga/index.ts:114-118 | `sorted[0]`: a first entry holding `NaN` stays in front; otherwise the front entry holds a number, the largest one, and no earlier entry holds it |
| Saga.ResolveSpec | src/main/saga/index.ts:114-121 | an empty tally leaves `sorted[0]` undefined; a winner holds a positive count that no numeric count exceeds and is the first such entry; with numeric counts, nothing wins exactly when all are 0. With a `NaN` count in the tally, the winner claim holds of the `Saga.Leader` scan, not of the engine's sort order |
| Saga.ResolveAfterReset | src/main/saga/index.ts:119-134 | right after a reset nothing wins; the tally is empty exactly when the list was |
| Saga.KeyOf | src/main/saga/index.ts:122 | the winner's key comes from the first entry whose command is exactly the winning string, enabled or not; there is none exactly when no entry has that command |
| Saga.PickRandomInList | src/main/saga/index.ts:168-170 | `pickRandom` returns an element of a non-empty list and `undefined` for an empty one |
| Saga.PickRandomReachesEvery | src/main/saga/index.ts:168-170 | every position of the list is the pick of some value in [0, 1) |
| Saga.ReceiveKeyByMode | src/main/saga/index.ts:177-186 | in anarchy the entry's key is sent and the state is kept; in random nothing happens; in democracy nothing is sent and the only put is the vote for the entry's own command |
| Saga.ReceiveKeyDemocracyVote | src/main/saga/index.ts:182-184 | in democracy, a vote for a tracked command raises its count by exactly one, and no other count and no other field changes |
| Saga.WinsIsTopOrTied | src/main/saga/index.ts:205-227 | each of the switch's three cases holds exactly when the voted mode's count is at least every mode's count |
| Saga.ModeVoteCounts | src/main/saga/index.ts:199-202 | a vote for `m` adds one to `m`'s count and leaves the other two counts alone |
| Saga.ModeVoteSpec | src/main/saga/index.ts:192-235 | the mode becomes `m` exactly when `m`'s new count is at least both others, and stays otherwise; a transition resets the tally to the commands as configured and a failed one keeps it; nothing else changes |
| Saga.ModeVoteMonotone | src/main/saga/index.ts:199-202 | a mode vote never lowers any mode's count |
| Saga.TieFavoursVote | src/main/saga/index.ts:205-218 | whenever a vote brings the voted mode level with the highest count of another mode, the voted mode becomes current and the two stay tied |
| Saga.FailureStops | src/main/saga/index.ts:141-144 | after an error, the error bar shows the message and can be closed, the session is stopped, and nothing else changes |
| Saga.SnapshotSpec | src/main/saga/index.ts:23-32 | the saved record always says not running with zero mode votes, otherwise equals the live state, does not change when taken twice, and `loadState` restores it as is |
| Saga.TickStoppedOrAnarchy | src/main/saga/index.ts:107-139 | the loop ends exactly when `start` is false; an anarchy tick sends nothing and puts nothing |
| Saga.TickDemocracyEmpty | src/main/saga/index.ts:114-120 | a democracy tick throws on `sorted[0][1]` exactly when the tally is empty |
| Saga.TickDemocracyUnknownWinner | src/main/saga/index.ts:114-123 | a democracy tick throws on `filter(...)[0].key` exactly when the entry `sort` puts first holds a positive count and no configured entry has exactly its command |
| Saga.TickDemocracyReset | src/main/saga/index.ts:131-134 | a democracy tick puts a reset exactly when it sends a key, and the reset list is the lowercased, trimmed commands |
| Saga.TickDemocracyWinner | src/main/saga/index.ts:114-123 | a key sent in democracy is non-empty and is the key of a tally entry holding a positive count that no numeric count exceeds. With a `NaN` count in the tally, this holds of the `Saga.Leader` scan, not of the engine's sort order |
| Saga.TickRandom | src/main/saga/index.ts:126-132 | a random tick puts nothing and sends a non-empty element of the lowercased key list; it always sends when the table is non-empty and no key trims to empty |
| Saga.VoteAfterSendIsNaN | src/main/saga/index.ts:131-134 | after a democracy send, a vote for a command that differs from its lowercased, trimmed form stores `NaN` |
| Saga.DefaultCommandANotInCommandList | src/main/reducer/index.ts:91 | the default table's command "A" is such a command |
| Session.PutAllAppend | src/main/saga/index.ts:102-103 | putting `xs + ys` equals putting `xs`, then `ys` |
| Session.PutAllState | src/main/saga/index.ts:147-153 | putting actions runs the reducer over them; it closes the chat client exactly when `stopServer` is among them; the saved record and the sent keys do not change |
| Session.StartWithoutTwitchId | src/main/saga/index.ts:54-65 | with an empty Twitch ID, the session never starts: the error "Twitch ID未指定" is shown, `start` is false, no client is joined, the saved record is unchanged and no key is sent |
| Session.OpenedSpec | src/main/saga/index.ts:67-104 | before the first tick: the client is joined with the session's settings; the store runs in the initial mode with zero mode votes and the form's settings (keys, press time, interval, channel, mode voting, initial mode); the democracy tally and the notification are as before; the saved record is that store with `start` off |
| Session.StartDemocracyOnEmptyTally | src/main/saga/index.ts:102-120 | starting in democracy mode with an empty tally: the first tick throws, the error is shown, `start` is false, the client is closed and no key is sent |
| Session.HarmlessKeepsInv | src/main/reducer/index.ts:134-161 | the sagas' own puts keep the session invariant and the saved record |
| Session.SendKeepsInv | src/main/saga/index.ts:132 | sending a configured key keeps the invariant, and the new key press has the configured press time |
| Session.ModeVotePutsHarmless | src/main/saga/index.ts:205-235 | `receiveModeCommand` puts only resets and mode changes |
| Session.ReactKeepsInv | src/main/saga/index.ts:172-239 | the sagas a chat line starts keep the invariant and send only configured keys |
| Session.OnChatKeepsInv | src/main/saga/index.ts:78-91 | the `PRIVMSG` handler keeps the invariant and the saved record |
| Session.OnEventsKeepsInv | src/main/saga/index.ts:78-91 | chat lines and stop clicks during a sleep keep the invariant |
| Session.TickKeyConfigured | src/main/saga/index.ts:121-127 | a tick's key is a configured key: the democracy winner's key as written, or a random key lowercased and trimmed |
| Session.TickPutsHarmless | src/main/saga/index.ts:133 | a tick puts only the tally reset, which changes neither the settings nor the mode votes |
| Session.AfterKeepsInv | src/main/saga/index.ts:131-144 | what follows a tick (its error handling, or its send, puts and the sleep's events) keeps the invariant |
| Session.StepKeepsInv | src/main/saga/index.ts:107-140 | one pass of the loop keeps the invariant and the saved record, and sends only configured keys |
| Session.LoopKeepsInv | src/main/saga/index.ts:106-140 | over any trace, the loop keeps the invariant and the saved record, and sends only configured keys |
| Session.StartSession | src/main/saga/index.ts:54-145 | a started session: the client is joined exactly while `start` is on, with the session's settings; the snapshot saved before the loop is never rewritten; the key record only grows, and every key added is a configured key with the configured press time |
| Session.SendExtends | src/main/saga/index.ts:132 | sending a key appends it to the sent record |
| Session.ReactExtends | src/main/saga/index.ts:172-239 | the sagas a chat line starts only append to the sent record |
| Session.OnEventExtends | src/main/saga/index.ts:78-91 | one event only appends to the sent record |
| Session.OnEventsExtends | src/main/saga/index.ts:78-91 | a sleep's events only append to the sent record |
| Session.AfterExtends | src/main/saga/index.ts:131-136 | what follows a tick only appends to the sent record |
| Session.LoopSentPrefix | src/main/saga/index.ts:106-140 | keys once sent stay sent: the loop only appends to the sent record |
| Session.LoopStopped | src/main/saga/index.ts:137-139 | a stopped session ends at its next tick and changes nothing more |
| Session.HarmlessNoLower | src/main/reducer/index.ts:109-164 | actions other than `changeMode` and `loadState` leave the mode vote counts as they are |
| Session.ReactNoLower | src/main/saga/index.ts:199-202 | what a chat line sets off never lowers a mode's vote count |
| Session.OnChatNoLower | src/main/saga/index.ts:78-91 | the chat handler never lowers a mode's vote count |
| Session.OnEventsNoLower | src/main/saga/index.ts:78-91 | a sleep's events never lower a mode's vote count |
| Session.AfterNoLower | src/main/saga/index.ts:131-144 | what follows a tick never lowers a mode's vote count |
| Session.LoopNoLower | src/main/saga/index.ts:106-140 | within a session, mode vote counts only grow |
| Session.App.constructor | src/main/reducer/index.ts:65-104 | the application starts with the initial state, no client, no saved record and no keys sent |
| Session.App.Dispatch | src/main/saga/index.ts:147-153 | one action in place: the reducer runs, and `stopServer` also closes the client |
| Session.App.DispatchAll | src/main/saga/index.ts:102-103 | the actions in order, in place |
| Session.App.SendKey | src/main/saga/index.ts:179 | records `inputKey(key, keyPressTime)` |
| Session.App.Handle | src/main/saga/index.ts:172-239 | dispatches the classified line and runs the saga it starts |
| Session.App.ChatMessage | src/main/saga/index.ts:78-91 | the `PRIVMSG` handler in place, as long as a client is joined |
| Session.App.HandleEvents | src/main/saga/index.ts:78-91 | the sleep's chat lines and stop clicks, in order |
| Session.App.Open | src/main/saga/index.ts:67-104 | joins the channel, applies the settings, sets the initial mode with zero votes and saves the snapshot |
| Session.App.Tick | src/main/saga/index.ts:107-144 | one pass of the loop body in place; the result is false exactly when the loop ends |
| Session.App.RunLoop | src/main/saga/index.ts:106-140 | `while (isContinue)` over the trace leaves the state that `Loop` describes |
| Session.App.StartServer | src/main/saga/index.ts:54-145 | the whole `startServer` saga in place, equal to `Start`, whose properties are the lemmas above |
| Key.KeyCodes | src/main/saga/key.ts:155 | one code per UTF-16 unit of the key string |
| Key.KeyCodesAt | src/main/saga/key.ts:155 | on a string inside the Basic Multilingual Plane, one code per character, and entry `i` is the table's code for character `i` |
| Key.KeyCodesAstral | src/main/saga/key.ts:155 | a character above U+FFFF gives two `undefined` codes, one per surrogate half, followed by the codes of the rest |
| Key.InputKey | src/main/saga/key.ts:155-195 | both passes fill one record per UTF-16 unit, in order: keyboard type, the unit's code, press or release flags, time 0 |
| Key.DigitCodes | src/main/saga/key.ts:74-83 | the digits map to 48..57 |
| Key.LowerLetterCodes | src/main/saga/key.ts:84-109 | each lower-case letter maps to its capital's code, 65..90 |
| Key.UpperLetterCodes | src/main/saga/key.ts:110-135 | each capital maps to its own code, 65..90 |
| Key.ArrowCodes | src/main/saga/key.ts:136-139 | the arrows ←, ↑, →, ↓ map to 37, 38, 39, 40 |
| Key.TableDomain | src/main/saga/key.ts:71-140 | the table holds exactly the digits, the ASCII letters and the four arrows |
| Key.ArrowsAreExtended | src/main/saga/key.ts:173 | a character's code gets the extended-key bit exactly when the character is an arrow |
| Key.FlagRule | src/main/saga/key.ts:148-152 | press flags are 1 for an arrow code and 0 otherwise; release flags are the press flags plus `KEYEVENTF_KEYUP` |
| Key.KeyCodesIgnoreCase | src/main/saga/key.ts:74-135 | lowercasing a key string changes none of its codes |
| Key.ReleaseMatchesPress | src/main/saga/key.ts:167-194 | the release pass covers the same codes as the press pass, in the same order, each with the key-up bit added |

## Left out

- Chat-client I/O is not modelled: `connect`, `join`, `destroy`, and the `ready`, `error` and `close` handlers (which only log). A joined client is the value `Chat.Joined`, and received lines arrive as trace events.
- `storage.set` is not modelled; the saved record is a field of the world. The JSON encoding and `main.ts`'s loading of it are not part of this model.
- `setTitle`, `console` and `log` output are not modelled.
- Time is not modelled: no `sleep`, `keyInterval` or `keyPressTime` waits. A tick and each event are atomic steps, and events happen during a sleep.
- `inputKey` is not awaited in the source, so key presses may overlap. The model records each call in order and does not model overlapping presses.
- `Math.random` is a parameter of each tick, a real number in [0, 1).
- The model follows a finite trace of passes. The source loop may run forever.
- A second `startServer` dispatched while a session runs would start a second loop. The model runs one session per `StartServer` call.
- The Win32 FFI is not modelled: `SendInput`, `MapVirtualKeyA`, and the `wScan` and `dw` fields. An `undefined` code is kept as `None` rather than its ref-struct conversion.
- Key.KeyCodes: a code point above U+FFFF counts as two UTF-16 units that are not in the table. The model does not split it into surrogates.
- Text.ToLower: only ASCII capitals are lowercased. JavaScript's `toLowerCase` also maps non-ASCII capitals.
- Saga.Leader: with `NaN` counts, the order `sort` produces depends on the engine. The model keeps a `NaN` first entry in front and otherwise skips `NaN` entries.
- Saga.Message: the two `TypeError` messages are V8's wording.
- Tally.Get: the tally is modelled as an object with no inherited properties. The source's object literal inherits `Object.prototype`, so a vote for `constructor` (or `toString`, ...) reads a function and `+ 1` stores a string, and assigning `__proto__` adds no key; the model treats every absent key as `undefined` and `__proto__` as an ordinary key.
- Vote counts are unbounded naturals (`Votes(n: nat)`). A JavaScript number stops growing by 1 at 2^53; no tally in a session reaches that.
- Key.KeyCodesIgnoreCase: the lemma rests on `Text.ToLower` mapping ASCII capitals only. With JavaScript's full `toLowerCase`, U+212A (Kelvin sign) lowercases to `k`, which has a code, and U+0130 lowercases to two units, so the lemma does not carry over to non-ASCII keys.
- The UI actions are not modelled, apart from `startServer` (dispatched by the start button; its saga is `Session.Start` and `App.StartServer`), `stopServer`, dispatched by the stop button, and the `changeNotify` creator.
- `closeNotify`'s saga only logs, and is not modelled.
