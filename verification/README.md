# Arena game server: model and proofs

Machine-checked model of the parts of the server whose correctness spans several functions: what the
clients see of a room, what a turn-based match records, what the simulation does, who is matched with whom
and what a purchase costs. `dafny verify dfyconfig.toml` checks everything.

## What is modelled

**Replication** (`Keyed`, `Snapshots`, `DeltaSpec`, `DeltaEncoder`, `DeltaClients`, `Broadcast`,
`Replication`, `EventFeed`, `ServedMatch`, `Seen`). A message is a list of players, projectiles, removed ids and events. `DeltaSpec`
says what a delta is by what it does to maps; the encoder over recycled scratch, the Go client and the
browser client are proved against it. `Broadcast.Room` is the room's sending half with its ring of 64 states
and its memo; `Replication` is the transition system of one room, any clients and a network that loses,
duplicates and reorders, with acknowledgements that may be forged. `ServedMatch` puts the simulation under it, and
`Seen` says what is on a client's screen in terms of the simulation alone.

**Turn-based matches** (`CardGame`, `CardPlay`, `Deal`, `MatchStore`, `TurnService`, `TurnPlays`, `Deadlines`, `Cursor`, with `Lex` and
`SortedSet` for orders). The rules of the card game, the deal, the record under its compare-and-swap, the
deadline schedule, every interleaving of writers and sweepers, and the page's cursor over a lossy push
channel.

**Simulation** (`FixedPoint`, `Geometry`, `SimTypes`, `Arena`, `World`, `Laws`, `Steps`, `Stance`, `Constancy`,
`Shots`, `Lives`, `Firing`, `Launches`, `Choices`, `Departure`, `Rhythm`). `Arena` is a step as a function, `World` the same step in place, `Geometry` measures the
integer collision test against the exact one over the reals, and the rest is what every step and every run
keeps. `Prediction`, `InputBuffer`, `ReplayFormat` and `Replay` are the client's prediction, the room's
jitter buffer, the recording's bytes and the replay; `LateChanges` is about recordings closed with changes
pending.

**Matchmaking** (`Matchmaking`, `Queues`). The sorted list and the Redis script, proved against one
specification of the line.

**Platform** (`Ledger`, `LedgerStores`, `LedgerLaws`, `KeyRings`). Entries and match records in the in-memory store and in
the database transactions, and the page's ring of idempotency keys in front of them.

Code that changes things in place is a class with methods proved against functions; the theorems are about
those functions and about transition systems whose runs are any sequences of steps. Strings are sequences of
characters; ticks, sequence numbers and counters are unbounded; the generator is an arbitrary stream fixed by
its seed and the checksum an arbitrary function of the world, so nothing depends on their quality, except that
`LateChanges` asks the checksum to tell apart the two worlds it compares.

## Where the code has an edge

- A delta names no departed players, so it rebuilds the world only if the baseline's players are all still
  there (`DeltaSpec.RoundTrip`); a room's roster is fixed, and `Replication` builds on that.
- `recordAck` accepts the tick at which a subscription began. Right after a reconnect an acknowledgement sent
  before it can therefore name a state the new connection does not hold; `Replication.FreshMessageApplies`
  states when the next message is usable, and
  `Replication.LeftoverAckIsHonoured` when it is not. State safety does not depend on it.
- The arena page numbers and sends inputs before its first position arrives but keeps none of them, so whatever is in
  flight at that moment moves the player once when it lands (`Prediction.CorrectedByWhatWasFlying`,
  `Prediction.AnInputInFlightCorrects`).
- The turn page renders the events of an update whose cursor is not ahead of its own, so a duplicated push
  can be shown twice (`Cursor.DuplicatePushRepeats`, `Cursor.NothingIsMissed`).
- A shot whose nearest target is spawn-protected flies on without trying the next one
  (`Choices.StopsUnlessProtected`, `Choices.ProtectedPlayerShields`).
- Roster changes drained after the last tick are in the checksum but in no frame
  (`LateChanges.LateChangesAreADesync`, `LateChanges.OneLateDepartShows`).
- A sweeper that fails after it popped a deadline leaves the turn without one until a writer arms it again
  (`TurnService.AFailedSweepStrandsTheTurn`, `TurnService.ClockNeverStops`).
- The stores part over an entry that moves no items of a stack above its limit, one that takes items away, and a
  batch that repeats an account under a different match (`Ledger.StoresPart`, `Ledger.BatchesPart`). Nothing stops
  a grant from taking items away: in memory it can leave a negative stack, in the database the CHECK on the
  quantity, which is on the row proposed for insertion, makes the statement fail. The database also refuses an
  impossible quantity before it looks at anything else. The comments call the stores twins; the code is followed.
- Two players' idempotency keys can collide when one name extends the other past the separator
  (`CardGame.KeysCollideExactly`, `CardGame.KeysCollide`).

## Model

| member | source | states |
|---|---|---|
| `Snapshots.CheckWellOrdered` | backend/internal/room/delta.go:348-375 | answers true exactly for messages whose players, projectiles and removed ids strictly ascend and whose events never go back in time |
| `DeltaSpec.PatchUndoesDelta` | backend/internal/room/delta.go:167-219 | laying a player's delta over the avatar it was computed from gives the current avatar, whether or not there was one |
| `DeltaSpec.RoundTrip` | backend/internal/room/delta.go:106-109 | a delta applied to any client copy of its baseline rebuilds the current world if and only if every player of the baseline is still there, which is what the delta cannot say; otherwise the departed players stay |
| `DeltaSpec.FullAlwaysApplies` | backend/internal/room/delta.go:228-240 | a full snapshot is applied whatever the client holds, and is the world it describes |
| `DeltaSpec.DeltaIsWellOrdered` | backend/internal/room/delta.go:348-375 | every delta between two states passes the receiver's ordering check |
| `DeltaSpec.DeltaIsMinimal` | backend/internal/room/delta.go:87-219 | a player or projectile is in the delta exactly when it differs from the baseline, an id is named as removed exactly when it is gone; every player's mask names something, and every field it does not name is zero |
| `DeltaEncoder.FillPlayerDelta` | backend/internal/room/delta.go:167-219 | overwrites a scratch message, whatever an earlier tick left in it, with exactly the player's delta; false when nothing changed |
| `DeltaEncoder.DeltaBuf.EmitPlayer` | backend/internal/room/delta.go:115-127 | takes the next message of the free list, growing it when it is used up, and appends the player's delta to what is sent, leaving what was sent before untouched |
| `DeltaEncoder.DeltaBuf.Encode` | backend/internal/room/delta.go:87-155 | the sorted merge into reused scratch produces exactly the message that looking up every id in the baseline would have |
| `DeltaEncoder.SkipTo` | backend/internal/room/delta.go:112-114 | the baseline cursor stops at the first player not below the wanted id |
| `DeltaEncoder.MergeProjectiles` | backend/internal/room/delta.go:136-154 | the one-pass merge lists exactly the projectiles that are new or moved and the ids that are gone, both ascending |
| `DeltaEncoder.RemoveBelow` | backend/internal/room/delta.go:138-141 | the baseline ids the current list has gone past are named as removed, each once |
| `DeltaClients.MergePlayers` | backend/internal/room/delta.go:273-291 | the client's merge of two player lists is the patched map, ascending |
| `DeltaClients.MergeProjectiles` | backend/internal/room/delta.go:293-324 | the client's three-way merge drops removed ids, takes moved ones from the delta and keeps the rest, ascending |
| `DeltaClients.ApplyDelta` | backend/internal/room/delta.go:228-325 | the Go client's merge computes the specification's result, nil included, for every baseline and message |
| `DeltaClients.BrowserMergeProjectiles` | web/pb.js:345-364 | the browser's merge through a map yields the surviving baseline projectiles in order, then the new ones in order |
| `DeltaClients.BrowserApplyDelta` | web/pb.js:310-366 | the browser's result for every baseline and message, rejection included |
| `DeltaClients.ClientsAgree` | web/pb.js:310-366 | the browser's projectile list is the Go client's exactly when every survivor's id is below every newcomer's |
| `DeltaClients.ClientsAgreeOnServerDeltas` | web/pb.js:345-364 | on a delta whose new projectile ids exceed every id of its baseline both clients rebuild the same projectiles (that the simulation gives such ids is `ServedMatch.NewIdsAreAbove`) |
| `ServedMatch.RunIsLater` | backend/internal/sim/world.go:416-425 | over every run of ticks, departures and returns the view handed to the room is ordered, the tick and the id counter never fall, and a shot that is new since has an id not given out before |
| `ServedMatch.NewIdsAreAbove` | backend/internal/sim/world.go:416-425 | between any two worlds of one match, as the room encodes them, every new projectile id is above every old one |
| `ServedMatch.BrowserIsReference` | web/pb.js:310-366 | over any exact history of a simulated match, any message the server owes anybody is rejected by both clients or rebuilds the same state in both |
| `ServedMatch.BrowsersSeeTheMatch` | web/pb.js:310-366 | in every run of the protocol over a simulated match, what the browser makes of a message in flight is what the Go client makes of it, and is the world the server broadcast |
| `ServedMatch.BrowsersRunAlike` | web/index.html:175-192 | whichever clients are browsers, every run of the protocol over a simulated match in which their histories are filled by the browser's own merge is, state for state, the run with the Go client's merge everywhere |
| `Seen.EncodedShows` | backend/internal/room/room.go:1256-1309 | what is sent of a world has every seat in order with its own place, aim, score, bot flag and input number and its health, or none when it is down; every shot with life left at its place and no other; the result; and the newest eight of the tick's events, one for one |
| `Seen.ClientsSeeTheMatch` | backend/internal/room/room.go:1256-1309 | over every run of the protocol serving a simulated match, whatever a client holds for a tick shows the match as it stood at that tick, seat for seat and shot for shot, and what it has shown of the tick's events is a newest part of the newest eight the simulation told |
| `Seen.PredictionHoldsOverTheNetwork` | web/index.html:175-200 | a page that starts from a state it holds and reconciles with a later one it holds, over any network, is moved by exactly what was in flight at first, and not at all when nothing was |
| `Broadcast.EncodedIsSendable` | backend/internal/room/room.go:1256-1309 | an encoded simulation view is an ordered state message, spent projectiles left out |
| `Broadcast.StuckAckMeansFull` | backend/internal/room/room.go:1224-1233 | with an acknowledgement that stays at a tick, every broadcast from 64 ticks later on is a full snapshot |
| `Broadcast.SlotFound` | backend/internal/room/room.go:1175-1181 | a recycled slot of the ring yields a state exactly when that tick was sent and is less than 64 ticks old, and then it is that tick's state: no overwritten slot is ever a baseline |
| `Broadcast.SpanIsOrdered` | backend/internal/room/room.go:1200-1219 | the events of the broadcast ticks since an acknowledgement never go back in time and lie within those ticks |
| `Broadcast.Room.RecordAck` | backend/internal/room/room.go:916-936 | an acknowledgement only moves forward, never past what was sent nor before the subscription; nobody else is affected |
| `Broadcast.Room.Subscribe` | backend/internal/room/room.go:957-959 | a new subscriber starts at acknowledgement zero, from the last broadcast tick on |
| `Broadcast.Room.Unsubscribe` | backend/internal/room/room.go:1029-1031 | only that subscriber is gone |
| `Broadcast.Room.BaselineFor` | backend/internal/room/room.go:1224-1233 | the state of the acknowledged tick when it was sent and is younger than 64 ticks, else none |
| `Broadcast.Room.EventsSince` | backend/internal/room/room.go:1200-1219 | exactly the events of the broadcast ticks after the baseline up to now, in order, cut to the newest eight |
| `Broadcast.Room.Broadcast` | backend/internal/room/room.go:1053-1128 | with the ring, the lazily built full message and the memo per acknowledgement, every subscriber is sent exactly what a server keeping every state and encoding for each client would send |
| `Broadcast.Room.Fanout` | backend/internal/room/room.go:1105-1126 | one message a subscriber, each the one its own acknowledgement is owed |
| `Broadcast.Room.MessageTo` | backend/internal/room/room.go:1106-1124 | the memo is only ever consulted for the acknowledgement it was filled for |
| `Replication.ReceiveIsExact` | backend/internal/room/delta.go:228-325 | any message the server ever produced, laid over any exact history, is rejected or rebuilds the server's world of its tick |
| `Replication.SafetyHolds` | backend/internal/room/room.go:1053-1128 | over every run of ticks, joins, lost, duplicated and reordered messages and arbitrary acknowledgements, every message in flight is genuine and every entry of every client's history is exact |
| `Replication.Agreement` | backend/cmd/loadtest/main.go:295-311 | every state a client ever holds for a tick is the server's world at that tick |
| `Replication.HonestHolds` | web/index.html:181-192 | a browser, which acknowledges only what it applied and starts over when it reconnects, keeps every acknowledged tick the server may still use |
| `Replication.FreshMessageApplies` | backend/internal/room/room.go:1224-1233 | the message such a client is sent on a tick cannot be applied exactly when the server still holds an acknowledged tick younger than 64 that the client let go of, and then that is the signon tick itself; otherwise it applies at once and is that tick's world |
| `Replication.LeftoverAckIsHonoured` | backend/internal/room/room.go:916-936 | that exception happens: apply and acknowledge a state, reconnect before the next broadcast, and the late acknowledgement makes the next message a delta the client cannot apply |
| `Replication.AcknowledgedTickIsTheBaseline` | backend/internal/room/room.go:916-936 | once an acknowledgement arrives that is neither older than the recorded one, nor than the signon, nor of the future, the next message within 64 ticks is encoded against that very tick; any other changes nothing that is sent |
| `EventFeed.AfterSpan` | backend/internal/room/room.go:1200-1219 | what a client that has consumed up to a tick takes from a longer span is exactly the span after that tick |
| `EventFeed.MessageEvents` | backend/internal/room/room.go:1200-1219 | the events a message carries are of ticks after its baseline up to its own, and of each tick a newest part of that tick's events; they are all of them exactly when it is a delta over at most eight |
| `EventFeed.FeedIsFaithful` | web/index.html:266-280 | under any loss, duplication and reordering a client shows, of every tick, a newest part of its events, each at most once and in order; along a chain of deltas over at most eight events each it shows every event exactly once |
| `EventFeed.FreshMessageIsShown` | web/index.html:175-192 | an honest client that is handed the message of the newest tick, unless it is owed against a state it let go of, then holds that tick, acknowledges it and has shown every event of it |
| `CardGame.RemoveCard` | backend/internal/turn/game.go:143-154 | the hand without the first copy of the card |
| `CardGame.LowestCard` | backend/internal/turn/game.go:121-132 | the least card of the hand, zero for an empty one |
| `CardGame.Match.Apply` | backend/internal/turn/game.go:174-256 | rejects with the first failing check and changes nothing, answers a handled retry with no events, otherwise moves state and log to the move's outcome |
| `CardGame.Match.Resolve` | backend/internal/turn/game.go:201-255 | the in-place mutation past the checks is the outcome the rules define |
| `CardPlay.MoveIsTakenExactly` | backend/internal/turn/game.go:174-199 | a move is played exactly when it is its player's turn, means this turn and is a card of that hand; a handled retry changes nothing; every refusal is true, and the first of those that hold |
| `CardPlay.FirstCardIsLaid` | backend/internal/turn/game.go:201-224 | the first card of a trick leaves the hand and lies on the table for the other seat to answer; scores, result and everything else stay; the log tells the card |
| `CardPlay.HigherCardTakesTheTrick` | backend/internal/turn/game.go:226-256 | on the second card the seat that put down the higher one, or the leader of the trick if they are equal, gains one point and leads next, the other gains none, and the log names that player and that card; with both hands empty the match ends and is won by whoever has more tricks |
| `CardPlay.ScoresAreTricks` | backend/internal/turn/game.go:226-240 | after any submissions each seat's score is the number of tricks the log gives its player |
| `CardPlay.WinnerTookMost` | backend/internal/turn/game.go:241-255 | over any submissions from a fresh deal the match is over exactly when the log shows three tricks, and its winner is the one player with at least two of them |
| `CardPlay.TimeoutPlaysTheLowest` | backend/internal/turn/game.go:121-132 | the move made for a player whose time is up is the lowest card of that hand, for that turn |
| `CardGame.MoveKeeps` | backend/internal/turn/game.go:174-256 | every legal move keeps the invariant of a run: cards in hands, on the table and played are the deal, scores sum to completed tricks, the match is over after exactly six moves with twelve log events and has a winner |
| `CardGame.AutoMoveIsLegal` | backend/internal/turn/game.go:121-132 | in every reachable unfinished match the lowest card of the seat on the clock is a legal move |
| `CardGame.TimeoutsEndTheMatch` | backend/internal/turn/service.go:353-379 | timeouts alone end a match with k moves played on exactly the (6 - k)th |
| `CardGame.RetryChangesNothing` | backend/internal/turn/game.go:174-187 | once a move under a key has landed, sending it again after any further submissions changes nothing and logs nothing; a finished match answers that it is over |
| `CardGame.KeysLast` | backend/internal/turn/game.go:203-205 | over any submissions, accepted or not, the key of a move that landed stays stored |
| `CardGame.KeysCollideExactly` | backend/internal/turn/game.go:266-271 | two players can produce one stored key exactly when one name extends the other past the separator |
| `CardGame.KeysCollide` | backend/internal/turn/game.go:266-271 | two concrete players and keys that are stored as one |
| `Deal.Shuffle` | backend/internal/turn/game.go:76-101 | the in-place Fisher-Yates loop leaves the shuffle the draws define |
| `Deal.ShufflePermutes` | backend/internal/turn/game.go:82-86 | for every stream of draws the shuffle is a permutation |
| `Deal.OrderTellsTheChoices` | backend/internal/turn/game.go:82-86 | two streams of draws leave the same order of the deck exactly when they make the same choice at every position |
| `Deal.EveryOrderIsDealt` | backend/internal/turn/game.go:82-86 | every order of the deck comes of some stream of draws: with the row before, of exactly one choice at each position, so the shuffle is fair |
| `Deal.HandsAreDealt` | backend/internal/turn/game.go:94-99 | for every stream of draws: two sorted hands of three, all from 1 to 10, no card in both and none twice |
| `Deal.EveryDealComesUp` | backend/internal/turn/game.go:82-99 | whatever six cards are asked for, in two hands of three, some stream of draws deals exactly those |
| `Deal.NewState` | backend/internal/turn/game.go:76-101 | the opening state: both hands dealt, first seat to play, turn one, nothing scored |
| `MatchStore.MemoryStore.Append` | backend/internal/turn/store.go:263-275 | events are numbered on from the cursor and the log is trimmed to its window |
| `MatchStore.MemoryStore.Create` | backend/internal/turn/store.go:191-204 | version one, the state stamped with the number of its last event |
| `MatchStore.MemoryStore.Get` | backend/internal/turn/store.go:206-214 | the stored state and version, or that there is no such match; nothing changes |
| `MatchStore.MemoryStore.Commit` | backend/internal/turn/store.go:216-235 | state, version and log advance together when the expected version matches; a loser changes nothing and leaves no events |
| `MatchStore.AppendKeepsLog` | backend/internal/turn/store.go:263-275 | the retained log stays the run of consecutive numbers ending at the cursor |
| `MatchStore.LogKeepsTheNewest` | backend/internal/turn/store.go:263-275 | the log keeps the newest five hundred events, and all of them as long as there are no more |
| `MatchStore.SinceIsTheRun` | backend/internal/turn/store.go:237-261 | a cursor is answered exactly with the numbers after it, consecutively, up to the current one; it is refused when its next event has been trimmed, or it is ahead of an empty log |
| `MatchStore.MemoryStore.SinceCursor` | backend/internal/turn/store.go:237-261 | the same, from the store, with the current cursor |
| `TurnService.Create` | backend/internal/turn/service.go:91-127 | dealt, armed and stored: what is in the store is an opening record, its log two events, its deadline in the schedule |
| `TurnService.Linearizable` | backend/internal/turn/service.go:141-226 | for any interleaving of writers and sweepers, any of which may fail at any point, the stored record is one sequential run of the accepted moves; version, turn number and moves stay in step, the state carries the number of the last event, and a finished match has six moves, twelve events and a winner |
| `TurnService.OneMovePerWriter` | backend/internal/turn/service.go:141-226 | a writer commits at most once, a move that names its turn lands only on that turn, and an automatic move for turn n comes from a sweeper of turn n |
| `TurnService.NamedMoveLosesAtMostOnce` | backend/internal/turn/service.go:160-226 | a move that names its turn loses at most one compare-and-swap |
| `TurnService.ClockNeverStops` | backend/internal/turn/service.go:322-379 | unless a sweeper that popped it is still at work, the current turn of a live match is armed if and only if it is not dropped: popped by a sweeper that failed, and armed by no writer since; without failures nothing is ever dropped |
| `TurnService.AFailedSweepStrandsTheTurn` | backend/internal/turn/service.go:322-340 | one sweeper that pops the first deadline and fails leaves nothing counting down |
| `TurnService.EndReportedOnce` | backend/internal/turn/service.go:213-222 | the end of a match is reported at most once, and once when nobody is still about to report it |
| `TurnPlays.CommitIsTheMove` | backend/internal/turn/service.go:182-212 | a commit stores what the move does to the match and nothing else: numbered by its last event, stamped with the next turn's deadline or with none at the end, its events numbered on behind what is retained of the log, the last of them carrying the deadline |
| `TurnPlays.PlaysAreAskedFor` | backend/internal/turn/service.go:141-226 | over any interleaving every committed move is, to the letter, what was submitted under the call that committed it, or the lowest card of the player on the clock, played for them |
| `TurnPlays.NothingExpiresAfterTheEnd` | backend/internal/turn/service.go:199-203 | over any interleaving, once a match is over whatever is still armed names a turn that is past |
| `TurnPlays.MovesLand` | backend/internal/turn/service.go:160-226 | from any reachable moment a move the rules accept, left undisturbed, lands; and the armed deadline of a live match's turn, popped and left undisturbed, plays the lowest card of the player on the clock |
| `Deadlines.ParseUndoesKey` | backend/internal/turn/deadline.go:37-51 | every armed entry names its match and turn again, whatever the match is called |
| `Deadlines.KeysAreDistinct` | backend/internal/turn/deadline.go:37-39 | two entries are one exactly when they are for the same turn of the same match |
| `Deadlines.PoppedIsWhatWasArmed` | backend/internal/turn/deadline.go:37-51 | popping the entries of any turns of any matches names exactly those, in order |
| `Deadlines.MemoryDeadlines.Arm` | backend/internal/turn/deadline.go:62-67 | the entry is due at that time and no other entry moves |
| `Deadlines.MemoryDeadlines.PopDue` | backend/internal/turn/deadline.go:79-117 | the oldest due entries, in order, up to the limit, are removed together; everything else stays |
| `Cursor.HasGap` | web/cursor.js:19-30 | there is no gap exactly when the update is not ahead of the cursor or its events are the consecutive run starting right after it |
| `Cursor.DiffNeverGaps` | backend/cmd/loadtest/turnbot.go:119-135 | the store's answer to a cursor never shows that cursor a gap |
| `Cursor.NothingIsMissed` | web/turn.html:245-290 | under lost, duplicated and reordered pushes and syncs, everything up to the page's cursor since its last whole state has been shown and nothing past it; once each and in order exactly when no update that was not ahead of the cursor was rendered |
| `Cursor.SyncCatchesUp` | web/turn.html:245-290 | wherever a page is, one sync with its cursor brings it to the end of the log, and shows it everything in between unless that has been trimmed away |
| `Cursor.PushIsShown` | web/turn.html:245-290 | a push that arrives while the page is up to date is shown and moves its cursor to the end of the log |
| `Cursor.StateNeverLagsCursor` | backend/internal/turn/service.go:246-270 | the state in any update is at least as new as the cursor it travels with |
| `Cursor.DuplicatePushRepeats` | web/turn.html:245-290 | a concrete run in which a duplicated push is shown twice |
| `FixedPoint.SineIsBounded` | backend/internal/sim/world.go:800-812 | the integer sine and cosine never exceed one, for every angle |
| `FixedPoint.SineTurns` | backend/internal/sim/world.go:800-812 | exact at the quarter turns; odd under half a turn, symmetric about a quarter, periodic |
| `FixedPoint.SpawnIsOnMap` | backend/internal/sim/world.go:194-203 | every ring point, for every roster size, is inside the clamp |
| `FixedPoint.PerTickIsItsShare` | backend/internal/sim/world.go:166-192 | a second's ticks of a speed come to that speed, but for less than one unit a tick |
| `Steps.RingIsARing` | backend/internal/sim/world.go:194-203 | the ring's first point lies straight out from the middle, every point at least seven tenths of the radius out along one axis and never further than the radius, and opposite seats have opposite points |
| `Geometry.SweepFits` | backend/internal/sim/world.go:505-524 | from any position on the map and any step of a legal speed, every intermediate value of the sweep fits its 32- or 64-bit register |
| `Geometry.AimedProductsFit` | backend/internal/sim/world.go:406-425 | for every aim and tick rate the products behind a shot's velocity and muzzle, a bot's stride and a spawn point fit 32 bits, and so do the positions they lead to and the numerator and denominator of the sine and cosine, whose division is never by zero |
| `Geometry.NearestIsNearest` | backend/internal/sim/world.go:496-524 | the exact projection is the point of the path closest to the target |
| `Geometry.MeasuredIsClose` | backend/internal/sim/world.go:505-524 | the truncated closest point is within one unit, on each axis, of the exact one |
| `Geometry.NearIsFound` | backend/internal/sim/world.go:470-483 | a target some point of the path comes within 24000 - 2 of is always found |
| `Geometry.FoundIsNear` | backend/internal/sim/world.go:470-483 | a target no point of the path comes within 24000 + 2 of never is |
| `World.World.Step` | backend/internal/sim/world.go:235-255 | the step in place is the step function: passes in order, nothing after the end |
| `World.World.RunTimers` | backend/internal/sim/world.go:334-365 | the timer pass |
| `World.World.ApplyInputs` | backend/internal/sim/world.go:288-325 | the input pass: stale inputs, movement, clamp and fire, seat by seat on what the seats before left |
| `World.World.BotThink` | backend/internal/sim/world.go:367-390 | the bot pass, drawing from the stream exactly when the code does |
| `World.World.SpawnProjectile` | backend/internal/sim/world.go:406-448 | the shot caught up tick by tick, swept on the way, joins the world or is spent |
| `World.World.SweepHit` | backend/internal/sim/world.go:470-494 | the loop over the roster finds whom the shot reaches first and resolves that hit |
| `World.World.Hurt` | backend/internal/sim/world.go:533-554 | one hit: protection, damage, or a kill with its credit and its two events |
| `World.World.AdvanceProjectiles` | backend/internal/sim/world.go:567-589 | the flight pass, survivors written over the shots they came from |
| `World.World.Respawn` | backend/internal/sim/world.go:604-636 | the respawn pass with its claimed slots |
| `World.World.FindSlot` | backend/internal/sim/world.go:643-675 | the nested loops find the safest slot |
| `World.World.IsAbandoned` | backend/internal/sim/world.go:273-286 | true exactly when there is a human seat and every human seat is gone and down |
| `World.World.FindLeader` | backend/internal/sim/world.go:725-744 | the loop finds the leader |
| `World.World.Leave` | backend/internal/sim/world.go:685-692 | one seat is marked as gone with its full linger, once |
| `World.World.ComeBack` | backend/internal/sim/world.go:697-707 | one seat is back, and respawns if it had despawned |
| `Choices.StruckIsFirst` | backend/internal/sim/world.go:470-494 | the chosen target is in reach and nobody else in reach comes sooner along the path, ties to the lowest id; none is chosen only when nobody is in reach |
| `Choices.NearbyRivalIsStruck` | backend/internal/sim/world.go:470-494 | a living rival the path passes close to makes the shot find somebody |
| `Choices.StruckIsNear` | backend/internal/sim/world.go:470-494 | nobody is struck whom the path does not pass close to |
| `Choices.StopsUnlessProtected` | backend/internal/sim/world.go:486-494 | a shot stops exactly when the one it reaches first is unprotected; a protected one stops nothing and nobody behind is tried |
| `Choices.ProtectedPlayerShields` | backend/internal/sim/world.go:470-494 | a concrete shot that passes a protected player and an unprotected one behind on one stride and hits neither |
| `Choices.HitIsToldAsItIs` | backend/internal/sim/world.go:533-554 | a landed hit takes 25 health or what is left; its event tells the health afterwards, and a kill event follows exactly when that is zero; nobody else loses health |
| `Choices.ThreatIsNearest` | backend/internal/sim/world.go:650-661 | a slot's threat is the distance to the nearest living rival, or -1 when there is none |
| `Choices.SafestIsSafest` | backend/internal/sim/world.go:643-675 | the slot found is free and no free slot is further from its nearest rival, ties to the lowest; none is found only when all are claimed |
| `Choices.FallbackIsUnreachable` | backend/internal/sim/world.go:669-674 | at every visit of the respawn pass there is a free slot, so the fallback to slot 0 places nobody |
| `Choices.ReturnsTakeDistinctSlots` | backend/internal/sim/world.go:604-636 | two players who come back on the same step take different slots |
| `Choices.WinnerStandsAlone` | backend/internal/sim/world.go:725-744 | a seat wins exactly when it alone has the best score |
| `Laws.WalkIsLawful` | backend/internal/sim/world.go:288-325 | every pass after the timers keeps ids, bots and departures as they are, positions in the clamp, alive exactly when hp is above zero, points equal to kills, and takes each life at most once |
| `Steps.TimersCharge` | backend/internal/sim/world.go:334-365 | every clock is charged exactly one tick, and a departure is announced for exactly the seats whose linger runs out |
| `Steps.StepKeepsTheLaws` | backend/internal/sim/world.go:235-255 | a step from any inputs keeps the world sound: ids fixed and ascending, seats in the clamp, alive iff hp > 0, shots ascending, owned, in bounds and below the next id; total score grows by the kills emitted |
| `Shots.ShotsOnlyFly` | backend/internal/sim/world.go:406-448 | every shot after a step is one that flew exactly one stride from the same muzzle, or a new one, with at most its lag already spent, that left the muzzle of its owner where the owner still stands, at the velocity of the owner's aim: position is muzzle plus velocity times the ticks spent, so catch-up never extends the range |
| `Steps.ShotFollowsAim` | backend/internal/sim/world.go:406-425 | for every aim a shot leaves the shooter's edge into the quarter aimed at, at most full speed and at least seven tenths of it along one axis; exactly along the axes at 0 and 90 degrees; the opposite aim is the opposite shot |
| `Shots.FineCatchUpIsExact` | backend/internal/sim/world.go:429-445 | every collision test of a catch-up, each in the world it is made in, is computed without overflow |
| `Shots.EverySweepFits` | backend/internal/sim/world.go:505-524 | at every tick rate, every collision test of every visit of every pass of a step is computed without overflow in the world that visit finds |
| `Firing.SeatThroughStep` | backend/internal/sim/world.go:235-255 | every seat through every step: health falls by 25 for each hit the feed tells of it and by nothing else, a life ends with one kill, points are the kills the feed gives it; who is down waits its 40 ticks and comes back whole and immune; the gun and the immunity lose a tick, or are set by a shot; an immune seat that holds fire is not hit |
| `Firing.PlayerFiresExactly` | backend/internal/sim/world.go:288-325 | a player who stands through the step fires exactly when there is a new input for it that asks to and its gun is ready on that tick, and then its cooldown is 8; it aims where the input says; whoever is down or gone does not fire |
| `Firing.BotFiresExactly` | backend/internal/sim/world.go:367-390 | a bot that stands through the step fires exactly when its gun is ready and its draw says one in twelve, and turns exactly when its draw says one in twenty |
| `Launches.OneIdForEachShot` | backend/internal/sim/world.go:406-425 | a step gives out exactly one id for every seat that fires, and takes from the stream exactly what its standing bots draw, in the order of their seats |
| `Launches.PlayerShoots` | backend/internal/sim/world.go:406-448 | the shot of a player who fires leaves the muzzle where the player has moved to, with the next id and a full life, and is in the air after that turn, its lag further on, exactly when nothing ends it on the way |
| `Launches.BotShootsOne` | backend/internal/sim/world.go:385-389 | a bot that fires always puts its shot in the air |
| `Launches.BotWalksWhereItAims` | backend/internal/sim/world.go:378-383 | a bot that stands through a step has walked one stride the way it now aims, held in by the walls |
| `Launches.CatchUpIsSwept` | backend/internal/sim/world.go:429-447 | a shot that catches up joins the world, its lag of strides on, exactly when no stride on the way meets somebody who is not immune or spends it; otherwise it ends on the first that does and hurts whom it meets |
| `Launches.ShotsFlyOn` | backend/internal/sim/world.go:567-589 | exactly the shots that nothing ended are in the air after a step, in the order they were fired, each one stride on |
| `Launches.ShotLastsExactly` | backend/internal/sim/world.go:567-589 | one shot is there after the step, one stride on, exactly when that stride met nobody who is not immune and did not spend it |
| `Constancy.PassesAreQuiet` | backend/internal/sim/world.go:235-255 | whatever the world, a step moves the clock by one, fills the feed with events of that tick only, and charges every linger once |
| `Departure.OpeningIsSound` | backend/internal/sim/world.go:170-192 | a fresh roster opens a sound world |
| `Departure.OpeningIsFull` | backend/internal/sim/world.go:170-203 | everybody starts on their feet and whole, each on their own point of the ring, with no shot fired |
| `Departure.RunIsSound` | backend/internal/sim/world.go:235-255 | over every run of ticks, departures and returns the world stays sound and points equal the kills ever emitted |
| `Departure.WhileGone` | backend/internal/sim/world.go:334-365 | from the moment a seat is gone until its player returns it is killed at most once and only if it stood, never stands again, and is announced once, on the tick its linger runs out |
| `Departure.DepartureIsAnnouncedOnce` | backend/internal/sim/world.go:685-692 | after a disconnect without return: one DEPART event, on exactly the 60th tick the match runs, and at most one kill |
| `Departure.StepEndsExactly` | backend/internal/sim/world.go:251-254 | a step ends the match exactly when its time is up or it is abandoned, with the leader as winner |
| `Departure.NobodyLeftEndsIt` | backend/internal/sim/world.go:273-286 | a match with a human seat ends on the first step that leaves all of them gone and down |
| `Rhythm.ShotsAreApart` | backend/internal/sim/world.go:317-323 | over every run of ticks, departures and returns, two shots of one seat are at least 8 ticks apart |
| `Rhythm.BackAfterForty` | backend/internal/sim/world.go:604-636 | a player killed in a step, whose connection holds, is down for 39 more ticks of the match and back on the 40th with full health and ten ticks of immunity |
| `Rhythm.ImmuneUntilItFires` | backend/internal/sim/world.go:533-537 | over every run, a seat that holds fire loses no health and is told no hit as long as its immunity has ticks left |
| `Rhythm.ComebackExactly` | backend/internal/sim/world.go:697-707 | who comes back to a standing avatar finds it where it was; who comes back after it was taken away waits 40 ticks and is up on the next |
| `Prediction.MovesAlike` | web/predict.js:33-48 | client and server, the server in wrapping 32-bit arithmetic, move alike for all integer inputs from anywhere on the map at every tick rate |
| `Prediction.StepIsAsAsked` | web/predict.js:33-48 | away from the edges a step goes the way asked on each axis, by the speed straight on and by seven tenths of it on a diagonal, and never further than the speed |
| `Prediction.Predictor.Record` | web/predict.js:65-73 | nothing before the first server position; then the input is kept and the avatar moved |
| `Prediction.Predictor.Reconcile` | web/predict.js:77-98 | the position is the fold of the step over the unacknowledged inputs from the server's position |
| `Prediction.UnackedIsNewer` | web/predict.js:83-84 | of inputs numbered upwards, what stays pending is exactly what is newer than the acknowledgement |
| `Prediction.NeverCorrected` | web/predict.js:77-98 | over every session in which the server applied each input once and in order, no answer ever moves the player |
| `Prediction.StepMovesAsPredicted` | backend/internal/sim/world.go:288-325 | a whole server step that finds and leaves a player standing moves it exactly as the client moves it with the input the step takes up and acknowledges that; with a stale input or none it stays where it is; whoever else fires, falls or returns in it |
| `Prediction.RunMovesAsPredicted` | backend/internal/sim/world.go:288-325 | over every run of ticks, departures and returns a human seat that stands throughout is where the client's rule takes it with the inputs it took up, in order, and acknowledges the last of them |
| `Prediction.CorrectedByWhatWasFlying` | web/predict.js:65-98 | against the simulation itself: when a seat that stood throughout took up what was in flight at the first position and then the first inputs sent since, its next position moves the player by exactly what was in flight, and not at all when nothing was |
| `Prediction.AnInputInFlightCorrects` | web/index.html:231-240 | in any sound world, one step to the right that was in flight at a first position short of the right edge moves the player in the step in which it lands |
| `Stance.ShooterIsExposed` | backend/internal/sim/world.go:317-323 | after a shot its shooter is not immune and has a full cooldown, whatever the shot ran into on the way |
| `ReplayFormat.NumberOfBytes` | backend/internal/replay/replay.go:455-477 | big-endian writing and reading are inverse within the width |
| `ReplayFormat.FirstByteIsTheMostSignificant` | backend/internal/replay/replay.go:455-477 | numbers are written most significant byte first |
| `ReplayFormat.SignedOfUnsigned` | backend/internal/replay/replay.go:343-349 | signed fields survive the trip through unsigned bytes |
| `ReplayFormat.ReadUndoesWrite` | backend/internal/replay/replay.go:312-370 | reading the bytes of any recording that fits gives that recording: header, frames, skipped ticks, signed fields and end |
| `ReplayFormat.WritingLosesNothing` | backend/internal/replay/replay.go:148-254 | two recordings that fit have the same bytes only if they are equal |
| `Replay.InIdOrder` | backend/internal/replay/replay.go:198-203 | the inputs of a tick in id order, whatever order the map is walked in |
| `Replay.Recorder.constructor` | backend/internal/replay/replay.go:148-163 | the buffer holds exactly the header |
| `Replay.Recorder.Record` | backend/internal/replay/replay.go:188-227 | an empty tick adds nothing; any other adds exactly its frame, with the roster changes pending before it |
| `Replay.Recorder.Close` | backend/internal/replay/replay.go:236-254 | the buffer is exactly the recording's bytes |
| `Replay.Parser.TakeBody` | backend/internal/replay/replay.go:335-365 | the loop with its sticky error reads what the cursor functions define |
| `Replay.Parse` | backend/internal/replay/replay.go:312-370 | the parser is the reading function, for every byte string |
| `Replay.PlayAndRecord` | backend/internal/room/room.go:509-527 | the room's loop with its recorder writes the recording of the match it played |
| `Replay.LiveIsARun` | backend/internal/room/room.go:509-527 | the match a room plays and records is a run of the simulation: on every tick the departures and returns drained, in order, and then the tick |
| `Replay.Verify` | backend/internal/replay/replay.go:379-403 | the verifier steps a fresh world through the recording and compares checksums |
| `Replay.ReplayIsTheMatch` | backend/internal/replay/replay.go:379-403 | tick for tick the replayed world is the world that was played, unwritten ticks included |
| `Replay.MatchesAreShort` | backend/internal/replay/replay.go:414-423 | the clamp on the final tick never cuts a match short of its length |
| `Replay.RecordingVerifies` | backend/internal/replay/replay.go:379-403 | record, read back, verify: the same world and the same checksum, whenever no roster change was pending at the close |
| `LateChanges.SeatIsUnmarkedExactly` | backend/internal/sim/world.go:685-707 | any departures and returns leave a seat as it was exactly when a departed seat sees no return, and a present one does not end gone and, if taken out at all, stands or has a respawn running |
| `LateChanges.LateChangesAreADesync` | backend/internal/room/room.go:1001-1014 | with any changes pending at the close, and a checksum that does not collide on the two worlds compared when their seats differ, the recording verifies exactly when the changes leave no seat marked |
| `LateChanges.OneLateDepartShows` | backend/internal/room/room.go:1001-1014 | a concrete match whose one late departure leaves a mark |
| `InputBuffer.LagIsCapped` | backend/internal/room/room.go:738-750 | compensation is at most ten ticks for round trip and interpolation together, and none without an acknowledgement of an earlier tick |
| `InputBuffer.InterpIsNearest` | backend/internal/room/room.go:757-766 | the render delay is rounded to the nearest tick |
| `InputBuffer.Inboxes.Enqueue` | backend/internal/room/room.go:779-796 | the input is filed behind what waits, the oldest going when eight do; other inboxes are untouched |
| `InputBuffer.Inboxes.TakeNext` | backend/internal/room/room.go:837-844 | a backlog is trimmed to the buffer from the front, then one is taken |
| `InputBuffer.Inboxes.FillPending` | backend/internal/room/room.go:807-861 | one input per waiting player, lag measured at the tick it is simulated on; silent empty inboxes and nothing else are evicted |
| `InputBuffer.TickIsOneInbox` | backend/internal/room/room.go:807-861 | the pass over all inboxes does to each what a tick of its own line does |
| `InputBuffer.EveryTickUsesOne` | backend/internal/room/room.go:779-861 | a tick that finds an input waiting uses exactly one, the oldest the buffer still holds, with the lag of the tick it is simulated on, and drops only what is in front of the buffer; an arrival pushes out the oldest only when eight wait |
| `InputBuffer.OneUseForEachTick` | backend/internal/room/room.go:807-861 | over every run as many inputs are used as there were ticks that found one waiting |
| `InputBuffer.InputsAreConserved` | backend/internal/room/room.go:779-861 | over every run of arrivals and ticks: arrived = used + dropped + queued, uses in arrival order and each at most once, at most buffer - 1 wait after a tick, nothing waits for buffer ticks, eviction loses nothing |
| `Matchmaking.MatchIsFair` | backend/internal/matchmaking/queue.go:225-273 | every formed match has the longest waiting player and only company from the scanned part of the line inside the window; players and bots fill the room; whoever in that part fitted and was left out waits behind everybody picked, and there is nobody like that when the room is short |
| `Matchmaking.FormedExactly` | backend/internal/matchmaking/queue.go:225-260 | a match is formed exactly when the front of the line, eight rooms deep, holds enough players near enough to the longest waiting one to fill a room, or enough for the smallest match once the timeout is over |
| `Matchmaking.PairIsMatchedExactly` | backend/internal/matchmaking/queue.go:97-109 | two players alone in line for a room of two are matched before the timeout exactly when their gap is inside the window as widened by the wait and under its ceiling, or there is no window |
| `Matchmaking.WaitingOnlyHelps` | backend/internal/matchmaking/queue.go:97-109 | who is near enough after a wait is near enough after every longer one |
| `Matchmaking.EverybodyFitsInTime` | backend/internal/matchmaking/queue.go:97-109 | with a window that widens and no ceiling, everybody is near enough in the end |
| `Matchmaking.SaneIsSane` | backend/internal/matchmaking/queue.go:81-92 | rules are made sane by the least change |
| `Matchmaking.FormConserves` | backend/internal/matchmaking/queue.go:225-273 | queue before is queue after plus match, order and all |
| `Matchmaking.RequeueRestores` | backend/internal/app/app.go:1328-1332 | forming a match and putting its players back restores the line exactly |
| `Matchmaking.RequeueAmongJoiners` | backend/internal/app/app.go:1328-1332 | whichever strangers join between the forming and the putting back, the line is as if no match had formed |
| `Queues.MemoryQueue.Enqueue` | backend/internal/matchmaking/queue.go:146-164 | a stranger is inserted in order, a queued player is not queued twice; list and set stay in step |
| `Queues.NewcomersStandLast` | backend/internal/matchmaking/queue.go:146-164 | whoever comes without a time of their own came now, and stands behind everybody who came before |
| `Queues.MemoryQueue.Remove` | backend/internal/matchmaking/queue.go:197-208 | exactly that connection leaves |
| `Queues.MemoryQueue.Drop` | backend/internal/matchmaking/queue.go:182-195 | the in-place compaction removes exactly the matched players and keeps the order |
| `Queues.MemoryQueue.TryForm` | backend/internal/matchmaking/queue.go:225-273 | the formed match and the queue left are the specification's |
| `Queues.RedisQueue.Enqueue` | backend/internal/matchmaking/queue.go:288-296 | the script's sorted set and hash denote the line with the player inserted |
| `Queues.RedisQueue.Remove` | backend/internal/matchmaking/queue.go:405-412 | exactly that connection leaves |
| `Queues.RedisQueue.TryForm` | backend/internal/matchmaking/queue.go:305-386 | for every queue, rules and clock the script returns the same match and leaves the same line as the in-memory queue |
| `Queues.RedisQueue.Choose` | backend/internal/matchmaking/queue.go:305-386 | the script picks the ids the specification picks |
| `Queues.RedisQueue.Company` | backend/internal/matchmaking/queue.go:345-365 | the script's walk picks exactly the company the specification picks |
| `Queues.WindowFor` | backend/internal/matchmaking/queue.go:97-109 | the widening window |
| `Queues.MatchPass` | backend/internal/app/app.go:1036-1079 | over the in-memory queue, whatever placement answers, every player queued before a pass is queued after it or in exactly one started match |
| `Queues.FleetMatchPass` | backend/internal/app/app.go:1036-1079 | the same over the Redis queue |
| `Queues.Requeue` | backend/internal/app/app.go:1328-1332 | the players of a refused match are back in the line, nobody else moves |
| `Queues.FleetRequeue` | backend/internal/app/app.go:1328-1332 | the same over the Redis queue |
| `Ledger.StoresAgreeOnBooks` | backend/internal/platform/postgres.go:296-377 | for any quantity and limit the in-memory store and the database reach the same books exactly when the entry is not, payable, a movement of nothing of a stack above its limit, a taking away, one with a limit below zero that a stack exceeds, or one with a limit on no item |
| `Ledger.StoresPart` | backend/internal/platform/schema.sql:44-50 | three concrete entries on which they part: one moves none of a stack above its limit, one takes away what is not held, one is refused for different reasons |
| `Ledger.StoresAgreeOnAnswers` | backend/internal/platform/postgres.go:296-299 | they answer alike exactly when, besides, the quantity is not above the limit before anything else is wrong or the entry a replay, and nothing is taken away |
| `Ledger.ApplyKeeps` | backend/internal/platform/memory.go:145-189 | refusals and replays change nothing and no wallet is overdrawn in either store; the database's books stay sound for any quantity, the in-memory ones, and the same, as long as nothing is taken away |
| `LedgerLaws.EntryMoves` | backend/internal/platform/memory.go:145-189 | for both stores: which entries go through; and that one that does moves the wallet by its amount and the stack by its quantity, keeps the time a stack was acquired or sets it on a new one, takes its key, shows the result, and touches no other stack, account or record |
| `LedgerLaws.ReplayShowsTheBooks` | backend/internal/platform/postgres.go:313-330 | a replay changes nothing and shows the wallet and the stack as they are |
| `LedgerLaws.BooksAddUp` | backend/internal/platform/memory.go:145-189 | over any run of entries, in either store, a stack is what it was and the quantities that went through, and a wallet what it was and the amounts |
| `LedgerLaws.ProfileIsItsMatches` | backend/internal/platform/memory.go:191-218 | over any batch a profile gains exactly its new lines: matches by their number, wins by those placed first, kills, currency and history by theirs, and the rating by what each was worth, never below a hundred |
| `LedgerLaws.DatabaseProfileIsItsMatches` | backend/internal/platform/postgres.go:419-533 | the database does the same for the first line of each account, and answers with the number of lines it added |
| `Ledger.StoresNeverPart` | backend/internal/platform/postgres.go:296-377 | over any run of the service's entries that take nothing away both stores keep the same books |
| `Ledger.SecondTimeIsReplay` | backend/internal/platform/memory.go:161-163 | after any run in which an entry was applied, another under its key moves nothing in either store, and is a replay unless the database first refuses its quantity |
| `Ledger.RefusalLeavesKeyFree` | backend/internal/platform/postgres.go:293-295 | an entry refused for want of money goes through under the same key once the wallet covers it, in either store, exactly when the item's limit does not refuse it |
| `Ledger.RecordsAgreeExactly` | backend/internal/platform/postgres.go:419-533 | the row-by-row loop and the two set-based statements record a batch alike exactly when every repeated account repeats its first match or one already recorded |
| `Ledger.BatchesPart` | backend/internal/platform/postgres.go:419-425 | a concrete batch, one account under two matches, that they record differently |
| `Ledger.PartialRecordingIsHarmless` | backend/internal/platform/memory.go:191-218 | recording part of a match and then all of it is recording all of it once |
| `LedgerStores.Memory.Apply` | backend/internal/platform/memory.go:145-189 | the in-place store does what the outcome function says |
| `LedgerStores.Memory.RecordMatch` | backend/internal/platform/memory.go:191-218 | the loop over the rows |
| `LedgerStores.Postgres.Apply` | backend/internal/platform/postgres.go:296-377 | statement by statement, committing everything or leaving everything |
| `LedgerStores.Postgres.RecordMatch` | backend/internal/platform/postgres.go:419-533 | dedupe, insert, build the columns, update: the database's record of the batch |
| `LedgerStores.DedupeByAccount` | backend/internal/platform/postgres.go:536-547 | the first row of every account, in order |
| `LedgerStores.FirstRowsAreFirst` | backend/internal/platform/postgres.go:536-547 | nothing is repeated and every account keeps the row it came with first |
| `LedgerStores.TwoStatementsAreTheLoop` | backend/internal/platform/postgres.go:419-533 | for accounts that do not repeat, insert-then-update is row after row |
| `KeyRings.KeyRing.Begin` | web/platform.js:33-36 | the outstanding attempt's key, minted only when there is none |
| `KeyRings.KeyRing.Settle` | web/platform.js:43-43 | exactly that item's key is forgotten |
| `KeyRings.ChargedOnce` | web/platform.html:266-286 | under lost, duplicated and retried requests and answers: every attempt is charged at most once, exactly once if it settled; an unsettled charge belongs to the attempt still outstanding; the wallet has paid for exactly the charges and is not negative |
| `KeyRings.ChargesAreItems` | web/platform.html:266-286 | over the same runs the buyer holds, of every item, one more for each charge of an attempt to buy it |
| `KeyRings.RetrySettles` | web/platform.js:12-22 | after a lost answer the next click asks with the same key, is answered as a replay, moves nothing and settles |

## Left out

- Transports, HTTP handlers, tokens and password hashing, Kafka, metrics and logging: I/O or code not in sight.
- Protobuf and JSON encoding: messages are datatypes, and a marshalled message is its value.
- Redis and Postgres: each script and each statement is one atomic step; an error from either is not modelled, except placement refusing a match in the matchmaker's pass, a failed call of the turn service, and the quantity CHECK.
- Placement, registry, presence, pairing, configuration, rate limits, rating formula, leaderboard and history queries: small beside the rest, or floating point.
- Wall-clock pacing, warmup, panic containment and the channels in front of the room (inputs dropped by a full channel never reach an inbox).
- Wrap-around of 32-bit ticks, scores and sequence numbers: a match ends long before.
- Memory: pools, allocation counts and aliasing of the room's views; the encoder's free list is modelled, the recycling of a ring entry's own player messages is overwriting a value.
- Nil entries inside message lists: a list holds messages.
- Broadcast.Room.Broadcast: subscribers are visited in an arbitrary order; one that sends every n-th tick is a history with fewer ticks, and the events of ticks it did not broadcast are gone, as in the code.
- The load tester does not reset its own newest tick on a reconnect; `Replication` uses the browser's rule.
- The arena page never resets the last event tick it showed when a new match begins; `EventFeed` is about one match.
- The time-to-live of stored matches and the Redis match store, whose stored state is marshalled before its number is assigned.
- TurnService.ClockNeverStops: assumes that a deadline is not popped before the commit it was armed for; without that the code makes no promise. A commit whose answer is lost is not modelled.
- TurnService.Linearizable: the two seats are held by players with distinct, non-empty names.
- Queues.RedisQueue.TryForm: the clock and the timeout are in whole milliseconds and the window is an exact rational, where both implementations agree.
- Queues.MatchPass: the deadline that may cut a pass short only makes it form fewer matches; the pass runs with nobody joining or leaving in between (joining is `Matchmaking.RequeueAmongJoiners`).
- World.World.constructor: a roster comes in id order, as the room builds it; sorting it is not modelled.
- World.World.BotThink: the generator's arithmetic is any stream.
- Replay.Verify: opening and naming the file; format 1 is read but nothing is said about what wrote it.
- ReplayFormat.ReadUndoesWrite: a recording fits when its counts and ids fit their fields; the writer truncates what does not.
- Prediction.Predictor.Reconcile: the correction distance shown on screen is floating point; browser numbers are exact in the range used.
- Prediction.NeverCorrected: answers arrive in order, as the page drops older snapshots before reconciling.
- Prediction.CorrectedByWhatWasFlying: the room's inbox lost no input of the page's and the avatar stood throughout; after a loss or a fall the next position is the server's and the page starts over from it.
- Interpolation of other players on screen: drawing only.
- Ledger.StoresAgreeOnBooks: amounts are unbounded and the kind of an entry, which nothing reads, is not stored.
- KeyRings.ChargedOnce: a minted key was never seen before, and prices do not change during a run.
- SQL's choice of the order of returned rows: accounts in one batch are distinct, so no order matters.
