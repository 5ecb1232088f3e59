# Bowling engine model

A Dafny model of the message-driven scoring engine of a multiplayer bowling game. Three entities,
Frame, Player and Game, each move through a workflow of named places. Four message handlers drive
them, and each handler's follow-up messages drive the next entity:

- a frame message records a roll or credits a bonus;
- a propagation message credits a roll to earlier frames that still owe bonus pins;
- a player message starts a player's turn, or scores and advances a player whose frame is over;
- a game message starts the game, elects the next player, or crowns the winner.

The model is layered the way the system is built:

- `Entities` (`entities.dfy`): the three entities as classes whose setters update fields in place,
  with Doctrine's guarded `add`/`removeElement` collections. `Data()` reads an entity's scoring
  fields as a value.
- `FrameMachine`, `Propagation`, `PlayerMachine`, `GameMachine`: each handler as a pure step on
  those values, which states what the handler does, plus the handler as an imperative method on
  the objects.
  Each method's `ensures` ties the new object state and the returned messages to the pure step.
  Loops in the source (the score sum, the winner scan, the propagation filter, the election
  sort) are loops with invariants.
- `Engine` (`engine.dfy`): the whole system. The database is a store of maps from identifier to
  record, and the bus is a first-in first-out queue. A refused message is dropped and changes
  nothing. `Throw` puts a roll on the bus and delivers until the bus is empty.
- `StrikeBonus` (`strike_bonus.dfy`): a strike followed by 2 and 3, played through the bus from the
  moment frame 1 stands at 12.
- `FastGame` (`fast_game.dfy`): the one-player fast game of `tests/UseCase/GameTest.php`, proved
  ball by ball through the bus. The player ends with 20 points and every frame done.

Where the code and the tests or design disagree, the model follows the code. The exceptions are
three places where the code as written would stop with a PHP error on every run: an undefined
constant, a return type the value cannot take, and a class name that does not exist. There the
model takes the evident intent, and "## Left out" lists each one. The model also takes the evident
intent for the three defects listed under "## Findings".

- The frame handler's switch uses the labels `second_stage` and `wait`. The workflow stores
  `second_roll` and `wait_score`. As written no second roll and no bonus credit ever lands; see
  Findings. `FrameMachine.Roll` maps the labels onto the stored names.
- `atNew`/`atSecondStage` (frame) and `atNew`/`atPlaying` (game) are generators, and their results
  go to `array_walk`. As written their bodies never run; see Findings. The model runs each
  generator to its end and dispatches what it yields, in order.
- A strike in round 10 is `wait_score` with one credit owed, as the code does. No frame ever
  enters `third_roll`, and a round-11 frame is never created: the player message carries only the
  player id, and a player with ten frames finishes.
- A PHP `assert` in a handler becomes a refusal (`InvalidRoll` or `StateViolation`) before any field
  changes. Frames in `third_roll` or `done` have no branch and ignore frame messages.
- `findLastFrameForPlayer` is the frame with the greatest round. A playing player without frames
  has no such frame, and the message is refused (`NotFound`).
- A turn-ending roll (a strike, or any second roll) dispatches the player message before the
  propagation. Two things together make that roll's bonus credit go missing: the propagation handler
  refuses unless the player is `playing` (`src/MessageHandler/FrameRollPropagationHandler.php:44-46`),
  and the bus is first-in first-out. The player message is handled first, and it moves the player to
  `waiting` (or `finished`). Its follow-up game message is queued behind the propagation, so the
  player is not `playing` again until after the propagation has been refused
  (`FastGame.LateRollRefused`, `Propagation.Propagate`). Any frame still owed that roll's pins
  misses them: a strike is never credited with the next frame's second roll, nor with a strike in
  the next frame. `StrikeBonus.StrikeKeepsTwelveOnTheBus` plays this through the bus: a strike
  followed by 2 and 3 stays at 12 and the player is scored 17, where
  `tests/Workflow/FrameWorkflowTest.php:161-182` expects 15 and 20. `StrikeBonus.CreditLandsWhilePlaying`
  shows that the same propagation, delivered while the player is still `playing`, closes the strike
  at 15. Under nested synchronous dispatch, as in the tests, a lone player's turn is handed back
  before the propagation runs, so there the credit lands. The model keeps the code's guard and the
  first-in first-out bus. The ball-by-ball proofs of the fast game cover only open frames, where
  nothing is owed.
- The game's `end` transition leads from `playing` to `players_finished`. Nothing ever moves a game
  to `finished`, and the winner is set only by a later game message at `players_finished`. The
  fast-game test expects `finished` and a winner right after the tenth frame. The model proves
  what the code does: `players_finished` with no winner, and player 1 crowned by one more game
  message.

## Model

| member | source | states |
|---|---|---|
| Entities.TwoRollsOnFreshFrame | src/Entity/Frame.php:100-119 | On a fresh frame, `setRoll1` then `setRoll2` leave both rolls in the score and the state untouched |
| Entities.Added | src/Entity/Player.php:130-138 | A guarded add contains the element and adds nothing else. The old collection is kept as a prefix, and the length grows by one exactly when the element was absent |
| Entities.Removed | src/Entity/Player.php:140-150 | Removal takes exactly one occurrence out of the multiset. It is the first occurrence, and the remaining elements keep their order. An absent element leaves the collection as it was |
| Entities.AddedIdempotent | src/Entity/Player.php:130-138 | Adding an element twice is the same as adding it once |
| Entities.RemovedUndoesAdded | src/Entity/Player.php:130-150 | Removing an element just added restores the collection exactly, order included |
| Entities.RemovedAbsent | src/Entity/Player.php:140-150 | Removing an absent element changes nothing |
| Entities.Frame.constructor | src/Entity/Frame.php:23-51 | A new frame is `new` with every counter at its default 0 and no player |
| Entities.Frame.SetRound | src/Entity/Frame.php:64-69 | Writes the round only |
| Entities.Frame.SetState | src/Entity/Frame.php:76-81 | Writes the state only |
| Entities.Frame.SetScoreWait | src/Entity/Frame.php:88-93 | Writes the owed-credit count only |
| Entities.Frame.SetRoll1 | src/Entity/Frame.php:100-106 | Stores the first roll and adds it to the running score |
| Entities.Frame.SetRoll2 | src/Entity/Frame.php:113-119 | Stores the second roll and adds it to the running score |
| Entities.Frame.SetRoll3 | src/Entity/Frame.php:151-157 | Stores the third roll and adds it to the running score |
| Entities.Frame.SetScore | src/Entity/Frame.php:127-132 | Overwrites the score only |
| Entities.Frame.SetPlayer | src/Entity/Frame.php:139-144 | Writes the owning player only |
| Entities.Player.constructor | src/Entity/Player.php:32-55 | A new player is `waiting` with score 0, last round 0, no game and no frames. Its position is 0, standing for the source's null before the player is seated |
| Entities.Player.SetState | src/Entity/Player.php:79-84 | Writes the state only |
| Entities.Player.SetFinalScore | src/Entity/Player.php:91-96 | Writes the final score only |
| Entities.Player.SetLastRound | src/Entity/Player.php:163-168 | Writes the last round only |
| Entities.Player.SetGame | src/Entity/Player.php:115-120 | Writes the owning game only |
| Entities.Player.AddFrame | src/Entity/Player.php:130-138 | Appends the frame unless present; only a newly added frame is pointed at this player |
| Entities.Player.RemoveFrame | src/Entity/Player.php:140-150 | Removes the frame; its player is cleared only if it was present and still pointed here |
| Entities.Player.SetPositionValue | src/Entity/Player.php:152-156 | The seat is the number of players the game holds when the player is persisted |
| Entities.Game.constructor | src/Entity/Game.php:37-46 | A new game is `new`, with no players and no winner |
| Entities.Game.SetState | src/Entity/Game.php:112-117 | Writes the state only |
| Entities.Game.SetWinnerPlayer | src/Entity/Game.php:131-136 | Writes the winner only |
| Entities.Game.AddPlayer | src/Entity/Game.php:85-93 | Appends the player unless present; only a newly added player is pointed at this game |
| Entities.Game.RemovePlayer | src/Entity/Game.php:95-105 | Removes the player; its game is cleared only if it was present and still pointed here |
| Entities.Join | src/Entity/Player.php:152-156 | Seating a new player (set game, persist, add) gives it the next seat and keeps the players in seat order |
| FrameMachine.Roll | src/MessageHandler/FrameMessageHandler.php:31-52 | Refused exactly when the pins exceed what the frame's state allows; the round never changes; a first or second roll always propagates its pins |
| FrameMachine.BonusBallEndsFrame | src/MessageHandler/FrameMessageHandler.php:61-73 | A roll on the round-11 frame closes it, tells the player, then propagates the roll |
| FrameMachine.StrikeWaitsForBonus | src/MessageHandler/FrameMessageHandler.php:75-92 | A strike waits for two credits, or one in round 10, and tells the player before propagating |
| FrameMachine.OpenFirstRoll | src/MessageHandler/FrameMessageHandler.php:87-92 | An open first roll moves the frame to `second_roll` and only propagates the roll |
| FrameMachine.FirstRollPropagatesLast | src/MessageHandler/FrameMessageHandler.php:61-93 | A first roll is accepted iff it is at most 10 pins, and its last message propagates exactly those pins |
| FrameMachine.SecondRollOutcome | src/MessageHandler/FrameMessageHandler.php:95-129 | A second roll is accepted iff both rolls fit 10 pins; a spare waits for one credit; an open frame is done and is sent one empty roll after the player message and the propagation |
| FrameMachine.CreditOutcome | src/MessageHandler/FrameMessageHandler.php:132-144 | A credit is accepted iff one is owed and the pins fit; it adds the pins, owes one less, and closes the frame iff it was the last |
| FrameMachine.InertStatesIgnoreRolls | src/MessageHandler/FrameMessageHandler.php:36-46 | Frames in `third_roll` or `done` ignore frame messages and send nothing |
| FrameMachine.WaitingFrameTakesOwedCredits | src/MessageHandler/FrameMessageHandler.php:132-144 | A frame owing n credits takes n valid credits, ends `done`, and holds all of them in its score |
| FrameMachine.StrikeThenTwoAndThree | src/MessageHandler/FrameMessageHandler.php:75-85 | A strike followed by 2 and 3 is worth 15 on the frame once both credits land (on the bus the second credit is refused; see StrikeBonus) |
| FrameMachine.SpareTakesOneCredit | src/MessageHandler/FrameMessageHandler.php:103-108 | A spare in any regular round, round 10 included, is worth 10 plus the next roll once its credit lands |
| FrameMachine.AtNew | src/MessageHandler/FrameMessageHandler.php:61-93 | The frame object and the messages end as `RollAtNew` says; a refused roll changes nothing |
| FrameMachine.AtSecondStage | src/MessageHandler/FrameMessageHandler.php:95-129 | The frame object and the messages end as `RollAtSecondStage` says; a refused roll changes nothing |
| FrameMachine.AtWait | src/MessageHandler/FrameMessageHandler.php:132-144 | The frame object ends as `CreditAtWait` says; a refused credit changes nothing |
| FrameMachine.HandleFrameMessage | src/MessageHandler/FrameMessageHandler.php:31-52 | The frame object and the messages end as `Roll` says, with the frame's own id and its player's id |
| FrameMachine.LabelMismatchDropsRolls | src/MessageHandler/FrameMessageHandler.php:36-46 | With the switch's labels, a frame rolled 2 then 3 stays `second_roll` with score 2, and a strike ignores its credit; `Roll` closes the frame with 5 |
| FrameMachine.GeneratorBranchesNeverRun | src/MessageHandler/FrameMessageHandler.php:36-51 | Unwalked, a first or second roll changes nothing and sends nothing; `Roll` records the roll and propagates it |
| Propagation.Credits | src/MessageHandler/FrameRollPropagationHandler.php:50-59 | At most one credit per frame, each of exactly the pins rolled |
| Propagation.CreditsConcat | src/MessageHandler/FrameRollPropagationHandler.php:57-59 | Credits are sent in the player's frame order |
| Propagation.CreditedOnlyIfOwing | src/MessageHandler/FrameRollPropagationHandler.php:50-54 | Every credit goes to an earlier frame in `wait_score` that still owes credit |
| Propagation.OwingIsCredited | src/MessageHandler/FrameRollPropagationHandler.php:50-59 | Every earlier frame that owes credit is credited |
| Propagation.CreditedIffOwing | src/MessageHandler/FrameRollPropagationHandler.php:50-59 | With distinct frame ids, a frame is credited iff it owes credit; the source frame and later frames never are |
| Propagation.NothingOwedNothingCredited | src/MessageHandler/FrameRollPropagationHandler.php:50-59 | When no frame owes credit, nothing is sent |
| Propagation.Propagate | src/MessageHandler/FrameRollPropagationHandler.php:32-60 | Too many pins are refused first. The propagation is accepted iff the pins fit and both game and player are playing. When accepted, it sends exactly the credits `Credits` selects: one frame message per frame still waiting for this roll, in the player's frame order |
| Propagation.StrikeCreditsTwoPendingFrames | src/MessageHandler/FrameRollPropagationHandler.php:50-59 | A third strike in a row credits both pending strikes, oldest first |
| Propagation.HandlePropagation | src/MessageHandler/FrameRollPropagationHandler.php:32-60 | The loop over the player's frames returns exactly `Propagate`'s messages and writes nothing |
| PlayerMachine.SumScoresConcat | src/MessageHandler/PlayerMessageHandler.php:94-97 | The score sum splits over concatenation |
| PlayerMachine.SumOfEqualScores | src/MessageHandler/PlayerMessageHandler.php:94-97 | Frames of equal score sum to that score times their number |
| PlayerMachine.LastRound | src/MessageHandler/PlayerMessageHandler.php:100 | None iff there are no frames; otherwise a round some frame has, and no frame's round is greater |
| PlayerMachine.LastRoundOfOrderedFrames | src/MessageHandler/PlayerMessageHandler.php:100 | For frames holding rounds 1 to n in order, the last round is n |
| PlayerMachine.Turn | src/MessageHandler/PlayerMessageHandler.php:31-59 | Refused unless the game is playing; the seat never changes; a created frame is numbered one past the frame count |
| PlayerMachine.WaitingPlayerStarts | src/MessageHandler/PlayerMessageHandler.php:67-80 | A waiting player becomes playing, gains a round-1 frame iff it has none, and sends nothing |
| PlayerMachine.PlayingPlayerAdvances | src/MessageHandler/PlayerMessageHandler.php:89-124 | A playing player is scored with the frame sum and last round; with ten frames it finishes, otherwise it waits with one more frame; one game message either way |
| PlayerMachine.PlayingWithoutFramesRefused | src/MessageHandler/PlayerMessageHandler.php:100 | A playing player with no frames has no last frame, and the message is refused |
| PlayerMachine.FinishedPlayerUnchanged | src/MessageHandler/PlayerMessageHandler.php:44-51 | A finished player is left as it is and nothing is sent |
| PlayerMachine.TurnKeepsRoundOrder | src/MessageHandler/PlayerMessageHandler.php:103-121 | Frames in round order stay in round order after a turn, and the last round is the frame count |
| PlayerMachine.TotalScore | src/MessageHandler/PlayerMessageHandler.php:93-97 | The loop's total is the sum of the frames' scores |
| PlayerMachine.AtWaiting | src/MessageHandler/PlayerMessageHandler.php:67-80 | The player object and the created frame end as `TurnWaiting` says |
| PlayerMachine.AtPlaying | src/MessageHandler/PlayerMessageHandler.php:89-124 | The player object, the created frame and the messages end as `TurnPlaying` says; a refusal changes nothing |
| PlayerMachine.HandlePlayerMessage | src/MessageHandler/PlayerMessageHandler.php:31-59 | The player ends as `Turn` says, and frames in round order stay in round order |
| GameMachine.Elect | src/MessageHandler/GameMessageHandler.php:78-103 | None iff nobody waits; otherwise a waiting player that no waiting player goes before, ahead of every equal in the collection |
| GameMachine.ElectionIsUnique | src/MessageHandler/GameMessageHandler.php:86-93 | The elected index is the only one meeting that description |
| GameMachine.SeatsTakeTurns | src/MessageHandler/GameMessageHandler.php:86-93 | Once the first k seats have played one round more, seat k is elected |
| GameMachine.Winner | src/MessageHandler/GameMessageHandler.php:111-128 | None iff nobody scored above 0; otherwise a highest score, strictly above every earlier seat |
| GameMachine.TieGoesToEarlierPlayer | src/MessageHandler/GameMessageHandler.php:118-122 | On a tie for the highest score, the later player does not win |
| GameMachine.GameStep | src/MessageHandler/GameMessageHandler.php:30-55 | A crowned index is always a seat of the game |
| GameMachine.NewGameStarts | src/MessageHandler/GameMessageHandler.php:63-70 | A new game starts playing and sends itself one game message |
| GameMachine.PlayingGameElects | src/MessageHandler/GameMessageHandler.php:78-103 | A playing game stays playing iff someone waits, then sends one player message to an elected waiting player; otherwise it is players-finished and sends nothing |
| GameMachine.FinishedPlayersCrowned | src/MessageHandler/GameMessageHandler.php:111-128 | At players-finished the winner is crowned and nothing else changes; no step ever reaches `finished` |
| GameMachine.CrowningIsStable | src/MessageHandler/GameMessageHandler.php:111-128 | A second game message at players-finished changes nothing more |
| GameMachine.FindWinner | src/MessageHandler/GameMessageHandler.php:111-128 | The scan's player is the one `Winner` names, or null |
| GameMachine.NextPlayer | src/MessageHandler/GameMessageHandler.php:80-93 | The loop's player is the one `Elect` names, or null |
| GameMachine.HandleGameMessage | src/MessageHandler/GameMessageHandler.php:30-55 | The game's state, winner and messages end as `GameStep` says |
| GameMachine.GameGeneratorsNeverRun | src/MessageHandler/GameMessageHandler.php:30-70 | Unwalked, a new game stays new and a playing game elects nobody; `GameStep` starts the game and elects |
| Engine.LoadFrames | src/Entity/Player.php:45-47 | Loading succeeds iff every id is stored, and yields the frames in the order given |
| Engine.LoadPlayers | src/Entity/Game.php:33-35 | Loading succeeds iff every id is stored, and yields the players in the order given |
| Engine.RollWritesOnlyItsFrame | src/MessageHandler/FrameMessageHandler.php:31-52 | A frame message writes only the frame it names and keeps its owner |
| Engine.PropagationWritesNothing | src/MessageHandler/FrameRollPropagationHandler.php:32-60 | A propagation never writes the store; too many pins are refused before any lookup |
| Engine.PlayerTurnWritesOnlyItsPlayer | src/MessageHandler/PlayerMessageHandler.php:31-59 | A player message writes only its player among the players, never a game, and overwrites no stored frame |
| Engine.GameTurnWritesOnlyItsGame | src/MessageHandler/GameMessageHandler.php:30-55 | A game message writes only its own game's state and winner |
| Engine.PlayerTurnKeepsOrder | src/MessageHandler/PlayerMessageHandler.php:110-114 | A player message that creates a frame gives it the next round under an unused identifier. The player's frames stay its own and in round order, and every seat is kept |
| Engine.DeliverKeepsOrder | src/Entity/Player.php:44-46 | Every delivery keeps each player's frames its own and in round order 1, 2, 3, …, and each game's players stored and in seat order, as the collections' `OrderBy` promises |
| Engine.DrainKeepsOrder | src/Entity/Game.php:33-35 | Draining the bus keeps both orders |
| Engine.ThrowKeepsOrder | src/Entity/Game.php:33-35 | A throw keeps both orders |
| Engine.StepIsFifo | src/MessageHandler/FrameMessageHandler.php:48-51 | Waiting messages keep their order ahead of the new ones; a refused message is dropped and changes nothing |
| FastGame.NewGameOpens | src/DataFixtures/Game2Fixture.php:16-29 | The fixture's game with one waiting player and no frames is the fast game's opening |
| FastGame.DoneRoundsScore | src/MessageHandler/PlayerMessageHandler.php:94-100 | Frames 1 to r of two points each load in order, sum to 2r, and end at round r |
| FastGame.FirstRollLands | src/MessageHandler/FrameMessageHandler.php:87-92 | The first one-pin roll on a fresh frame leaves it at `second_roll` and only propagates |
| FastGame.RollPropagatesNowhere | src/MessageHandler/FrameRollPropagationHandler.php:50-59 | With no frame owing credit, a propagation is accepted and sends nothing |
| FastGame.SecondRollLands | src/MessageHandler/FrameMessageHandler.php:109-128 | The second one-pin roll closes the frame with two points and sends player, propagation, empty roll |
| FastGame.FrameOverBeforeLastRound | src/MessageHandler/PlayerMessageHandler.php:108-120 | Before round 10 the player is scored 2r, waits, and gets the frame of the next round |
| FastGame.FrameOverAtLastRound | src/MessageHandler/PlayerMessageHandler.php:103-107 | After round 10 the player is scored 20 and finished, and gets no new frame |
| FastGame.LateRollRefused | src/MessageHandler/FrameRollPropagationHandler.php:44-46 | A propagation arriving after the player has left `playing` is refused |
| FastGame.DoneFrameIgnoresRoll | src/MessageHandler/FrameMessageHandler.php:36-46 | A done frame ignores the empty roll, and the store is unchanged |
| FastGame.WaitingPlayerElected | src/MessageHandler/GameMessageHandler.php:78-103 | The game elects its only, waiting, player and is otherwise unchanged |
| FastGame.ElectedPlayerStarts | src/MessageHandler/PlayerMessageHandler.php:67-80 | The elected player with frames starts playing and gets no new frame |
| FastGame.FirstFrameCreated | src/MessageHandler/PlayerMessageHandler.php:69-79 | The elected player without frames starts playing with a round-1 frame under the next id |
| FastGame.NobodyLeftToElect | src/MessageHandler/GameMessageHandler.php:96-101 | With its only player finished, the game becomes players-finished and sends nothing |
| FastGame.GameStarts | src/MessageHandler/GameMessageHandler.php:63-70 | A new game starts playing and sends itself a game message |
| FastGame.WinnerCrowned | src/MessageHandler/GameMessageHandler.php:111-128 | At players-finished, player 1 with 20 points is crowned and the game stays players-finished |
| FastGame.FirstThrow | tests/UseCase/GameTest.php:65 | The first throw of a round settles with the frame at `second_roll` and the bus empty |
| FastGame.FrameCloses | tests/UseCase/GameTest.php:66-68 | The closing throw closes the frame and scores the player, who waits (or finishes at round 10) |
| FastGame.LateMessagesSettle | src/MessageHandler/FrameRollPropagationHandler.php:41-46 | The late propagation is dropped and the empty roll changes nothing |
| FastGame.TurnHandedBack | src/MessageHandler/GameMessageHandler.php:78-103 | The game elects the waiting player, which starts playing, and the bus empties |
| FastGame.NextRoundBegins | tests/UseCase/GameTest.php:57-69 | Before round 10, the closing throw's messages settle with the player playing the next round |
| FastGame.GameRunsOut | tests/UseCase/GameTest.php:57-74 | After round 10, the messages settle with the player finished and the game players-finished, no winner yet |
| FastGame.ThrowOnEmptyBus | src/Controller/GameController.php:122 | A throw on an empty bus delivers its one frame message first |
| FastGame.SecondThrow | tests/UseCase/GameTest.php:66-68 | Before round 10, the second throw leaves the player playing a fresh frame of the next round |
| FastGame.LastThrow | tests/UseCase/GameTest.php:66-74 | In round 10, the second throw leaves the player finished with 20 and the bus empty |
| StrikeBonus.ThreeClosesFrame | src/MessageHandler/FrameMessageHandler.php:95-128 | The 3 closes frame 2 at 5. The frame message sends the player message first, then the propagation, then the empty roll |
| StrikeBonus.PlayerToldFirst | src/MessageHandler/PlayerMessageHandler.php:89-124 | The player message scores 12 + 5 = 17, moves the player to `waiting` and gives it the round-3 frame |
| StrikeBonus.LateCreditRefused | src/MessageHandler/FrameRollPropagationHandler.php:42-46 | With the player waiting, the propagated 3 is refused |
| StrikeBonus.CreditLandsWhilePlaying | src/MessageHandler/FrameRollPropagationHandler.php:48-59 | Delivered while the player is playing, the same propagation credits frame 1, which closes at 15 |
| StrikeBonus.TurnHandedBack | src/MessageHandler/GameMessageHandler.php:78-103 | The game elects the waiting player, which starts playing with the frames it has |
| StrikeBonus.ScenarioOrdered | src/Entity/Player.php:44-46 | The store the scenario starts from has its frames in round order and its seats in order, the invariant every delivery keeps |
| StrikeBonus.StrikeKeepsTwelveOnTheBus | tests/Workflow/FrameWorkflowTest.php:161-182 | Throwing the 3 through the bus settles with frame 1 at 12 and still owing a roll, and the player at 17; the test expects 15 and 20 |
| FastGame.FirstBallPlaysOut | tests/UseCase/GameTest.php:57-69 | From any round's first ball, the remaining throws end with 20 points, every frame done, the bus empty |
| FastGame.SecondBallPlaysOut | tests/UseCase/GameTest.php:57-69 | From any round's second ball, the remaining throws end the same way |
| FastGame.GameOpens | tests/UseCase/GameTest.php:51-55 | Starting the game leaves it playing, its player playing, and one fresh round-1 frame |
| FastGame.GameCrowned | tests/UseCase/GameTest.php:79-80 | One more game message crowns player 1 and the bus empties |
| FastGame.FastGameScoresTwenty | tests/UseCase/GameTest.php:47-81 | Two one-pin throws per frame give 20 points and all frames done; the game is players-finished, and one more game message crowns the player |

## Left out

- FastGame.FastGameScoresTwenty: states `players_finished` where the fast-game test expects `finished`, and needs one more game message for the winner. This is the code's behaviour (see the description), not a weakened proof.
- FrameMachine.StrikeThenTwoAndThree: the 15 is proved on the frame alone, crediting it with 2 and 3 directly. Through the engine's first-in first-out bus, the propagation of the 3 is refused because the player has already left `playing`, so the frame stays at 12 (`StrikeBonus.StrikeKeepsTwelveOnTheBus`). The lemma therefore does not promise 15 for a game played through the bus.
- `Game::STATE_PLAYING` is not declared (`src/Entity/Game.php:19` declares only `FRAMES_PER_GAME`), yet the player handler and the propagation handler compare against it (`src/MessageHandler/PlayerMessageHandler.php:37`, `src/MessageHandler/FrameRollPropagationHandler.php:42`). As written, every player message and every propagation stops with an undefined-constant error. The model compares against the game's `playing` place.
- `FrameMessage::getPinsRolled()` declares an `array` return type but returns the integer pin count (`src/Message/FrameMessage.php:19-22`). Every call in the frame handler's switch (`src/MessageHandler/FrameMessageHandler.php:38,41,44`) would stop with a type error, before the label and generator defects under "## Findings" are reached. The model passes the integer, which is what the handlers' `int $pins_rolled` parameters take.
- The frame handler constructs `FrameRollPropagation` (`src/MessageHandler/FrameMessageHandler.php:9,92,122`), but the message class is `FrameRollPropagationMessage`. As written, the first propagation it yields would stop with a class-not-found error. The model sends the propagation message the handler at `src/MessageHandler/FrameRollPropagationHandler.php` consumes.
- The round argument of the frame handler's player message and the next-round computation (`src/MessageHandler/FrameMessageHandler.php:113-116`). The player message class keeps only the player id, so the value is never delivered and the model drops it.
- Persistence (`persist`, `flush`, the repositories) is not modelled. The store is updated atomically per message, and storage hands out frame ids in increasing order (`nextFrameId`).
- The asynchronous transport is not modelled: no concurrency, no retries, no interleaving of several buses. The bus is one first-in first-out queue.
- Engine.Drain: `Throw` delivers at most `DRAIN_LIMIT` (1000) messages. A throw whose chain were longer would stop early; the fast game needs far fewer.
- Names, the public reference and `setReferenceValue` (random bytes at persist time) are not modelled: they play no part in scoring or turns.
- The controller, its forms and its rendering are not modelled. They are callers of the core, except `Throw`, which stands for the controller's frame dispatch. In particular the controller persists the player after `addPlayer`, so its seats start at 1, while `Entities.Join` follows the fixtures' order (seats from 0). The election depends only on the seats' relative order.
- The workflow component's own transition table is not modelled. An `apply` is taken to succeed and write the place the handler names; a transition the table would refuse is not modelled.
- PHP's loose `$winner->getId() != null` is read as "a player was found". Identifiers are natural numbers, and id 0 is never handed out.
- `removeFrame` and `removePlayer` are modelled on the entities, but no handler calls them.

## Findings

| source | as written | input that shows it | evidently intended | confidence | as-written member | corrected member |
|---|---|---|---|---|---|---|
| src/MessageHandler/FrameMessageHandler.php:40-43 | the switch compares the frame's state with `second_stage` and `wait`, names the workflow never stores (it stores `second_roll` and `wait_score`) | a fresh frame rolled 2 then 3: the second roll is ignored and the frame stays `second_roll` with score 2; a strike never takes its credits | the two branches match `second_roll` and `wait_score` | high, not executed | FrameMachine.LabelMismatchDropsRolls | FrameMachine.Roll |
| src/MessageHandler/FrameMessageHandler.php:51 | `atNew` and `atSecondStage` are generators, and `array_walk` walks an object's properties instead of iterating it, so their bodies never run | a fresh frame rolled 1: the roll is not recorded and nothing is dispatched | the generator is iterated and every yielded message dispatched in order | medium, not executed | FrameMachine.GeneratorBranchesNeverRun | FrameMachine.Roll |
| src/MessageHandler/GameMessageHandler.php:54 | `atNew` and `atPlaying` are generators handed to `array_walk`, so the game neither starts nor elects | a new game with one waiting player: after a game message it is still `new` | the generator is iterated: the game starts and elects a player | medium, not executed | GameMachine.GameGeneratorsNeverRun | GameMachine.GameStep |
