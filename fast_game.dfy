/**
 * The single-player fast game, played through the bus: game 1 with player 1 in seat 0 is started,
 * then every frame is rolled one pin and one pin. Frame `k` is the frame of round `k`.
 */
module FastGame {
  import opened Messages
  import opened Entities
  import opened FrameMachine
  import opened Propagation
  import opened PlayerMachine
  import opened GameMachine
  import opened Engine

  /** Frame `k` after two rolls of one pin. */
  function DoneFrame(k: int): FrameData
  {
    FrameData(k, FrameState.Done, 0, 1, 1, 0, 2)
  }

  /** Frame `k` after its first roll of one pin. */
  function HalfFrame(k: int): FrameData
  {
    FrameData(k, SecondRoll, 0, 1, 0, 0, 1)
  }

  /** The identifiers of frames 1 to `r`, in round order. */
  function Rounds(r: nat): (ids: seq<nat>)
    ensures |ids| == r && forall i :: 0 <= i < r ==> ids[i] == i + 1
  {
    seq(r, i requires 0 <= i => i + 1)
  }

  /** `m` holds frames 1 to `r` of player 1: the earlier ones done, the one of round `r` as `current`. */
  ghost predicate RoundFrames(m: map<nat, FrameRec>, r: nat, current: FrameData)
  {
    && (forall k: nat :: k in m <==> 1 <= k <= r)
    && (forall k :: k in m ==> m[k] == FrameRec(1, if k < r then DoneFrame(k) else current))
  }

  /** The store of the scenario: game 1 with only player 1, which holds frames 1 to `r`. */
  ghost predicate Scene(st: Store, gameState: GameState, winner: Option<nat>, player: PlayerData, r: nat, current: FrameData)
  {
    && st.games == map[1 := GameRec(gameState, winner, [1])]
    && st.players == map[1 := PlayerRec(1, player, Rounds(r))]
    && RoundFrames(st.frames, r, current)
    && st.nextFrameId == r + 1
  }

  /** A new game whose one player waits in seat 0, with no frames stored yet. */
  ghost predicate Opening(st: Store)
  {
    Scene(st, GameState.New, None, PlayerData(PlayerState.Waiting, 0, 0, 0), 0, FreshFrame(1))
  }

  /** The store the game and its player are created as meets the opening's description. */
  lemma NewGameOpens()
    ensures Opening(Store(map[1 := GameRec(GameState.New, None, [1])],
                          map[1 := PlayerRec(1, PlayerData(PlayerState.Waiting, 0, 0, 0), [])], map[], 1))
  {
    assert Rounds(0) == [];
  }

  /** The player of round `r`, before its frame is over. */
  function InPlay(r: nat): PlayerData
  {
    PlayerData(PlayerState.Playing, 2 * (r - 1), 0, r - 1)
  }

  /** Player 1 playing round `r`, with a fresh frame for it and two points in every earlier frame. */
  ghost predicate AtRound(st: Store, r: nat)
  {
    Scene(st, GameState.Playing, None, InPlay(r), r, FreshFrame(r))
  }

  /** Every frame played: the player finished with 20, the game waiting for its winner. */
  ghost predicate Closing(st: Store, winner: Option<nat>)
  {
    Scene(st, GameState.PlayersFinished, winner, PlayerData(PlayerState.Finished, 20, 0, 10), 10, DoneFrame(10))
  }

  /**
   * Plays the rest of the fast game from frame `frame`, its first ball or, when `secondBall`, its second:
   * every remaining ball is a throw of one pin at the frame of its round.
   */
  function PlayFrom(sys: System, frame: nat, secondBall: bool): System
    decreases FRAMES_PER_GAME + 1 - frame, if secondBall then 0 else 1
  {
    if frame > FRAMES_PER_GAME then sys
    else if !secondBall then PlayFrom(Throw(sys, frame, 1), frame, true)
    else PlayFrom(Throw(sys, frame, 1), frame + 1, false)
  }

  lemma RoundsGrow(r: nat)
    ensures Rounds(r) + [r + 1] == Rounds(r + 1)
  {
  }

  /** Player 1's frames load in round order: the earlier ones done, the last one as `current`. */
  lemma LoadedRounds(st: Store, r: nat, current: FrameData)
    requires RoundFrames(st.frames, r, current)
    ensures LoadFrames(st, Rounds(r)).Ok?
    ensures var fs := LoadFrames(st, Rounds(r)).value;
            |fs| == r && forall i :: 0 <= i < r ==> fs[i] == if i + 1 < r then DoneFrame(i + 1) else current
  {
    assert forall i :: 0 <= i < r ==> Rounds(r)[i] in st.frames;
  }

  /** With every frame through its rolls and not waiting for credit, a roll propagates nowhere. */
  lemma NoCreditsOwed(st: Store, r: nat, current: FrameData, pins: int)
    requires RoundFrames(st.frames, r, current) && current.state != WaitScore
    ensures var fs := LoadFrames(st, Rounds(r)).value;
            LoadFrames(st, Rounds(r)).Ok? && Credits(fs, Rounds(r), r, pins) == []
  {
    LoadedRounds(st, r, current);
    var fs := LoadFrames(st, Rounds(r)).value;
    NothingOwedNothingCredited(fs, Rounds(r), r, pins);
  }

  /** Frames 1 to `r`, all done with two points each, sum to `2 * r`, and the last round is `r`. */
  lemma DoneRoundsScore(st: Store, r: nat)
    requires r >= 1 && RoundFrames(st.frames, r, DoneFrame(r))
    ensures var fs := LoadFrames(st, Rounds(r)).value;
            LoadFrames(st, Rounds(r)).Ok? && SumScores(fs) == 2 * r && LastRound(fs) == Some(r)
  {
    LoadedRounds(st, r, DoneFrame(r));
    var fs := LoadFrames(st, Rounds(r)).value;
    SumOfEqualScores(fs, 2);
    LastRoundOfOrderedFrames(fs);
  }

  /** Rolling the frame of round `r` again in place keeps frames 1 to `r` in shape. */
  lemma RoundFramesReplace(m: map<nat, FrameRec>, r: nat, current: FrameData, next: FrameData)
    requires r >= 1 && RoundFrames(m, r, current)
    ensures RoundFrames(m[r := FrameRec(1, next)], r, next)
  {
  }

  /** Once round `r` is done, a fresh frame for round `r + 1` extends frames 1 to `r`. */
  lemma RoundFramesGrow(m: map<nat, FrameRec>, r: nat)
    requires RoundFrames(m, r, DoneFrame(r))
    ensures RoundFrames(m[r + 1 := FrameRec(1, FreshFrame(r + 1))], r + 1, FreshFrame(r + 1))
  {
  }

  /** The game's only player loads as itself. */
  lemma OnlyPlayerLoads(st: Store, p: PlayerData)
    requires 1 in st.players && st.players[1].data == p
    ensures LoadPlayers(st, [1]) == Ok([p])
  {
    var l := LoadPlayers(st, [1]);
    assert [1][0] in st.players;
    assert l.value[0] == p;
    assert l.value == [p];
  }

  /** The first roll of one pin lands on the fresh frame of round `r`, which only propagates it. */
  lemma FirstRollLands(st: Store, r: nat)
    requires 1 <= r <= FRAMES_PER_GAME && AtRound(st, r)
    ensures var o := DeliverRoll(st, r, 1);
            && o.Ok? && o.value.1 == [RollPropagation(r, 1)]
            && Scene(o.value.0, GameState.Playing, None, InPlay(r), r, HalfFrame(r))
  {
    assert st.frames[r] == FrameRec(1, FreshFrame(r));
    assert RollAtNew(FreshFrame(r), r, 1, 1) == Ok(Rolled(HalfFrame(r), [RollPropagation(r, 1)]));
    RoundFramesReplace(st.frames, r, FreshFrame(r), HalfFrame(r));
  }

  /** While the player plays a frame that owes nothing, its roll is accepted and credits no frame. */
  lemma RollPropagatesNowhere(st: Store, r: nat, current: FrameData)
    requires r >= 1 && current.round == r && current.state != WaitScore
    requires Scene(st, GameState.Playing, None, InPlay(r), r, current)
    ensures DeliverPropagation(st, r, 1) == Ok((st, []))
  {
    assert st.frames[r] == FrameRec(1, current);
    NoCreditsOwed(st, r, current, 1);
    var fs := LoadFrames(st, Rounds(r)).value;
    assert Propagate(1, GameState.Playing, PlayerState.Playing, fs, Rounds(r), r) == Ok([]);
  }

  /** The second roll of one pin closes the frame of round `r`: the player is told, then the roll propagated, then the frame sent an empty roll. */
  lemma SecondRollLands(st: Store, r: nat)
    requires 1 <= r <= FRAMES_PER_GAME
    requires Scene(st, GameState.Playing, None, InPlay(r), r, HalfFrame(r))
    ensures var o := DeliverRoll(st, r, 1);
            && o.Ok? && o.value.1 == [PlayerTurn(1), RollPropagation(r, 1), FrameRoll(r, 0)]
            && Scene(o.value.0, GameState.Playing, None, InPlay(r), r, DoneFrame(r))
  {
    assert st.frames[r] == FrameRec(1, HalfFrame(r));
    assert [PlayerTurn(1), RollPropagation(r, 1)] + [FrameRoll(r, 0)] == [PlayerTurn(1), RollPropagation(r, 1), FrameRoll(r, 0)];
    assert RollAtSecondStage(HalfFrame(r), r, 1, 1) == Ok(Rolled(DoneFrame(r), [PlayerTurn(1), RollPropagation(r, 1), FrameRoll(r, 0)]));
    RoundFramesReplace(st.frames, r, HalfFrame(r), DoneFrame(r));
  }

  /** Before the last round, the player whose frame is over is scored, waits, and gets the frame of the next round. */
  lemma FrameOverBeforeLastRound(st: Store, r: nat)
    requires 1 <= r < FRAMES_PER_GAME
    requires Scene(st, GameState.Playing, None, InPlay(r), r, DoneFrame(r))
    ensures var o := DeliverPlayerTurn(st, 1);
            && o.Ok? && o.value.1 == [GameTurn(1)]
            && Scene(o.value.0, GameState.Playing, None, PlayerData(PlayerState.Waiting, 2 * r, 0, r), r + 1, FreshFrame(r + 1))
  {
    DoneRoundsScore(st, r);
    var fs := LoadFrames(st, Rounds(r)).value;
    PlayingPlayerAdvances(1, InPlay(r), fs);
    RoundFramesGrow(st.frames, r);
    RoundsGrow(r);
  }

  /** After the last round, the player is scored and finished, and gets no further frame. */
  lemma FrameOverAtLastRound(st: Store, r: nat)
    requires r == FRAMES_PER_GAME
    requires Scene(st, GameState.Playing, None, InPlay(r), r, DoneFrame(r))
    ensures var o := DeliverPlayerTurn(st, 1);
            && o.Ok? && o.value.1 == [GameTurn(1)]
            && Scene(o.value.0, GameState.Playing, None, PlayerData(PlayerState.Finished, 2 * r, 0, r), r, DoneFrame(r))
  {
    DoneRoundsScore(st, r);
    var fs := LoadFrames(st, Rounds(r)).value;
    PlayingPlayerAdvances(1, InPlay(r), fs);
  }

  /** A propagated roll that arrives after the player's turn has ended is refused and dropped. */
  lemma LateRollRefused(st: Store, w: Option<nat>, p: PlayerData, r: nat, current: FrameData, k: nat, pins: int)
    requires p.state != PlayerState.Playing && 1 <= k <= r
    requires Scene(st, GameState.Playing, w, p, r, current)
    ensures DeliverPropagation(st, k, pins).Err?
  {
    assert st.frames[k].player == 1;
    LoadedRounds(st, r, current);
  }

  /** A done frame ignores a roll, and the store is left as it was. */
  lemma DoneFrameIgnoresRoll(st: Store, gs: GameState, w: Option<nat>, p: PlayerData, r: nat, current: FrameData, k: nat, pins: int)
    requires 1 <= k <= r && (k < r || current.state == FrameState.Done)
    requires Scene(st, gs, w, p, r, current)
    ensures DeliverRoll(st, k, pins) == Ok((st, []))
  {
    var rec := st.frames[k];
    assert rec.data.state == FrameState.Done;
    assert st.frames[k := rec] == st.frames;
  }

  /** A playing game whose only player waits elects that player and stays as it is. */
  lemma WaitingPlayerElected(st: Store, p: PlayerData, r: nat, current: FrameData)
    requires p.state == PlayerState.Waiting
    requires Scene(st, GameState.Playing, None, p, r, current)
    ensures DeliverGameTurn(st, 1) == Ok((st, [PlayerTurn(1)]))
  {
    OnlyPlayerLoads(st, p);
    assert Elect([p]) == Some(0) by {
      assert [p][..0] == [];
    }
    assert st.games[1 := st.games[1]] == st.games;
  }

  /** The elected player starts playing; with frames already it gets none. */
  lemma ElectedPlayerStarts(st: Store, p: PlayerData, r: nat, current: FrameData)
    requires p.state == PlayerState.Waiting && r >= 1
    requires Scene(st, GameState.Playing, None, p, r, current)
    ensures var o := DeliverPlayerTurn(st, 1);
            && o.Ok? && o.value.1 == []
            && Scene(o.value.0, GameState.Playing, None, p.(state := PlayerState.Playing), r, current)
  {
    LoadedRounds(st, r, current);
    WaitingPlayerStarts(1, p, LoadFrames(st, Rounds(r)).value);
  }

  /** The elected player without frames starts playing with a fresh frame for round 1, under the next identifier. */
  lemma FirstFrameCreated(st: Store, p: PlayerData, current: FrameData)
    requires p == PlayerData(PlayerState.Waiting, 0, 0, 0)
    requires Scene(st, GameState.Playing, None, p, 0, current)
    ensures var o := DeliverPlayerTurn(st, 1);
            o.Ok? && o.value.1 == [] && AtRound(o.value.0, 1)
  {
    assert LoadFrames(st, []) == Ok([]);
    WaitingPlayerStarts(1, p, []);
    assert Rounds(0) + [1] == Rounds(1);
  }

  /** With its only player finished, a playing game moves to players-finished and sends nothing. */
  lemma NobodyLeftToElect(st: Store, p: PlayerData, r: nat, current: FrameData)
    requires p.state == PlayerState.Finished
    requires Scene(st, GameState.Playing, None, p, r, current)
    ensures var o := DeliverGameTurn(st, 1);
            o.Ok? && o.value.1 == [] && Scene(o.value.0, GameState.PlayersFinished, None, p, r, current)
  {
    OnlyPlayerLoads(st, p);
    assert Elect([p]) == None by {
      assert [p][..0] == [];
    }
  }

  /** A new game starts playing and sends itself a message to elect. */
  lemma GameStarts(st: Store, p: PlayerData, r: nat, current: FrameData)
    requires Scene(st, GameState.New, None, p, r, current)
    ensures var o := DeliverGameTurn(st, 1);
            o.Ok? && o.value.1 == [GameTurn(1)] && Scene(o.value.0, GameState.Playing, None, p, r, current)
  {
    OnlyPlayerLoads(st, p);
  }

  /** Once the players have finished, a game message crowns player 1, the only one, and the game stays players-finished. */
  lemma WinnerCrowned(st: Store)
    requires Closing(st, None)
    ensures var o := DeliverGameTurn(st, 1);
            o.Ok? && o.value.1 == [] && Closing(o.value.0, Some(1))
  {
    var p := PlayerData(PlayerState.Finished, 20, 0, 10);
    OnlyPlayerLoads(st, p);
    assert Winner([p]) == Some(0) by {
      assert [p][..0] == [];
    }
  }

  /** The first throw of a round lands and is propagated to no frame; the bus is empty again. */
  lemma FirstThrow(sys: System, r: nat)
    requires 1 <= r <= FRAMES_PER_GAME && AtRound(sys.store, r) && sys.queue == []
    ensures var t := Throw(sys, r, 1);
            t.queue == [] && Scene(t.store, GameState.Playing, None, InPlay(r), r, HalfFrame(r))
  {
    var s0 := System(sys.store, [FrameRoll(r, 1)]);
    assert sys.queue + [FrameRoll(r, 1)] == s0.queue;
    FirstRollLands(s0.store, r);
    var s1 := Step(s0);
    assert s1.queue == [RollPropagation(r, 1)];
    RollPropagatesNowhere(s1.store, r, HalfFrame(r));
    var s2 := Step(s1);
    assert s2 == System(s1.store, []);
    assert Drain(s0, DRAIN_LIMIT) == Drain(s1, DRAIN_LIMIT - 1) == Drain(s2, DRAIN_LIMIT - 2) == s2;
  }

  /** The closing roll of a round: the frame closes and the player, told first, is scored. */
  lemma FrameCloses(st: Store, r: nat, n: nat) returns (scored: Store)
    requires 1 <= r <= FRAMES_PER_GAME && n >= 2
    requires Scene(st, GameState.Playing, None, InPlay(r), r, HalfFrame(r))
    ensures r < FRAMES_PER_GAME ==>
              Scene(scored, GameState.Playing, None, PlayerData(PlayerState.Waiting, 2 * r, 0, r), r + 1, FreshFrame(r + 1))
    ensures r == FRAMES_PER_GAME ==>
              Scene(scored, GameState.Playing, None, PlayerData(PlayerState.Finished, 2 * r, 0, r), r, DoneFrame(r))
    ensures Drain(System(st, [FrameRoll(r, 1)]), n)
            == Drain(System(scored, [RollPropagation(r, 1), FrameRoll(r, 0), GameTurn(1)]), n - 2)
  {
    SecondRollLands(st, r);
    var s0 := System(st, [FrameRoll(r, 1)]);
    var s1 := Step(s0);
    assert s1.queue == [PlayerTurn(1), RollPropagation(r, 1), FrameRoll(r, 0)];
    var d := DeliverRoll(st, r, 1).value.0;
    assert s1.store == d;
    if r < FRAMES_PER_GAME {
      FrameOverBeforeLastRound(d, r);
    } else {
      FrameOverAtLastRound(d, r);
    }
    var s2 := Step(s1);
    assert s2.queue == [RollPropagation(r, 1), FrameRoll(r, 0), GameTurn(1)];
    scored := s2.store;
  }

  /** After the turn has ended, the late propagation is dropped and the empty roll changes nothing. */
  lemma LateMessagesSettle(st: Store, p: PlayerData, r: nat, k: nat, current: FrameData, n: nat)
    requires p.state != PlayerState.Playing && 1 <= k <= r && (k < r || current.state == FrameState.Done) && n >= 2
    requires Scene(st, GameState.Playing, None, p, r, current)
    ensures Drain(System(st, [RollPropagation(k, 1), FrameRoll(k, 0), GameTurn(1)]), n)
            == Drain(System(st, [GameTurn(1)]), n - 2)
  {
    LateRollRefused(st, None, p, r, current, k, 1);
    var s0 := System(st, [RollPropagation(k, 1), FrameRoll(k, 0), GameTurn(1)]);
    var s1 := Step(s0);
    assert s1 == System(st, [FrameRoll(k, 0), GameTurn(1)]);
    DoneFrameIgnoresRoll(st, GameState.Playing, None, p, r, current, k, 0);
    var s2 := Step(s1);
    assert s2 == System(st, [GameTurn(1)]);
  }

  /** The game elects the waiting player, which starts playing; the bus is then empty. */
  lemma TurnHandedBack(st: Store, p: PlayerData, r: nat, current: FrameData, n: nat) returns (playing: Store)
    requires p.state == PlayerState.Waiting && r >= 1 && n >= 2
    requires Scene(st, GameState.Playing, None, p, r, current)
    ensures Scene(playing, GameState.Playing, None, p.(state := PlayerState.Playing), r, current)
    ensures Drain(System(st, [GameTurn(1)]), n) == System(playing, [])
  {
    WaitingPlayerElected(st, p, r, current);
    var s0 := System(st, [GameTurn(1)]);
    var s1 := Step(s0);
    assert s1 == System(st, [PlayerTurn(1)]);
    ElectedPlayerStarts(st, p, r, current);
    var s2 := Step(s1);
    assert s2.queue == [];
    playing := s2.store;
    assert Drain(System(playing, []), n - 2) == System(playing, []);
  }

  /** Before the last round, once the late messages settle, the game hands the turn back to the player. */
  lemma NextRoundBegins(st: Store, r: nat, n: nat) returns (playing: Store)
    requires 1 <= r < FRAMES_PER_GAME && n >= 4
    requires Scene(st, GameState.Playing, None, PlayerData(PlayerState.Waiting, 2 * r, 0, r), r + 1, FreshFrame(r + 1))
    ensures AtRound(playing, r + 1)
    ensures Drain(System(st, [RollPropagation(r, 1), FrameRoll(r, 0), GameTurn(1)]), n) == System(playing, [])
  {
    var waiting := PlayerData(PlayerState.Waiting, 2 * r, 0, r);
    LateMessagesSettle(st, waiting, r + 1, r, FreshFrame(r + 1), n);
    playing := TurnHandedBack(st, waiting, r + 1, FreshFrame(r + 1), n - 2);
  }

  /** After the last round, once the late messages settle, the game finds nobody to elect. */
  lemma GameRunsOut(st: Store, r: nat, n: nat) returns (closed: Store)
    requires r == FRAMES_PER_GAME && n >= 3
    requires Scene(st, GameState.Playing, None, PlayerData(PlayerState.Finished, 2 * r, 0, r), r, DoneFrame(r))
    ensures Closing(closed, None)
    ensures Drain(System(st, [RollPropagation(r, 1), FrameRoll(r, 0), GameTurn(1)]), n) == System(closed, [])
  {
    var finished := PlayerData(PlayerState.Finished, 2 * r, 0, r);
    LateMessagesSettle(st, finished, r, r, DoneFrame(r), n);
    NobodyLeftToElect(st, finished, r, DoneFrame(r));
    var s0 := System(st, [GameTurn(1)]);
    var s1 := Step(s0);
    assert s1.queue == [];
    assert Drain(s0, n - 2) == Drain(s1, n - 3) == s1;
    closed := s1.store;
  }

  /** A throw on an empty bus delivers that one frame message first. */
  lemma ThrowOnEmptyBus(sys: System, frameId: nat, pins: int)
    requires sys.queue == []
    ensures Throw(sys, frameId, pins) == Drain(System(sys.store, [FrameRoll(frameId, pins)]), DRAIN_LIMIT)
  {
    assert sys.queue + [FrameRoll(frameId, pins)] == [FrameRoll(frameId, pins)];
  }

  /**
   * The second throw of a round before the last: the frame closes, the player waits with the next frame,
   * the late propagation and the empty roll change nothing, and the game hands the turn back to the player.
   */
  lemma SecondThrow(sys: System, r: nat)
    requires 1 <= r < FRAMES_PER_GAME && sys.queue == []
    requires Scene(sys.store, GameState.Playing, None, InPlay(r), r, HalfFrame(r))
    ensures var t := Throw(sys, r, 1);
            t.queue == [] && AtRound(t.store, r + 1)
  {
    ThrowOnEmptyBus(sys, r, 1);
    var st := FrameCloses(sys.store, r, DRAIN_LIMIT);
    var playing := NextRoundBegins(st, r, DRAIN_LIMIT - 2);
  }

  /**
   * The second throw of the last round: the frame closes, the player finishes with its score, the late
   * propagation and the empty roll change nothing, and the game, with nobody left to elect, waits for its winner.
   */
  lemma LastThrow(sys: System, r: nat)
    requires r == FRAMES_PER_GAME && sys.queue == []
    requires Scene(sys.store, GameState.Playing, None, InPlay(r), r, HalfFrame(r))
    ensures var t := Throw(sys, r, 1);
            t.queue == [] && Closing(t.store, None)
  {
    ThrowOnEmptyBus(sys, r, 1);
    var st := FrameCloses(sys.store, r, DRAIN_LIMIT);
    var closed := GameRunsOut(st, r, DRAIN_LIMIT - 2);
  }

  /** From the first ball of `frame` on, the remaining balls play the game out: the player finishes with 20. */
  lemma {:induction false} FirstBallPlaysOut(sys: System, frame: nat)
    requires 1 <= frame <= FRAMES_PER_GAME && AtRound(sys.store, frame) && sys.queue == []
    ensures var e := PlayFrom(sys, frame, false);
            e.queue == [] && Closing(e.store, None)
    decreases FRAMES_PER_GAME + 1 - frame, 1
  {
    FirstThrow(sys, frame);
    SecondBallPlaysOut(Throw(sys, frame, 1), frame);
  }

  /** From the second ball of `frame` on, the remaining balls play the game out: the player finishes with 20. */
  lemma {:induction false} SecondBallPlaysOut(sys: System, frame: nat)
    requires 1 <= frame <= FRAMES_PER_GAME && sys.queue == []
    requires Scene(sys.store, GameState.Playing, None, InPlay(frame), frame, HalfFrame(frame))
    ensures var e := PlayFrom(sys, frame, true);
            e.queue == [] && Closing(e.store, None)
    decreases FRAMES_PER_GAME + 1 - frame, 0
  {
    if frame < FRAMES_PER_GAME {
      SecondThrow(sys, frame);
      FirstBallPlaysOut(Throw(sys, frame, 1), frame + 1);
    } else {
      LastThrow(sys, frame);
    }
  }

  /** Starting the game elects its only player, which starts playing with the frame of round 1. */
  lemma GameOpens(opening: Store) returns (started: System)
    requires Opening(opening)
    ensures started == Drain(System(opening, [GameTurn(1)]), DRAIN_LIMIT)
    ensures started.queue == [] && AtRound(started.store, 1)
  {
    var newcomer := PlayerData(PlayerState.Waiting, 0, 0, 0);
    var s0 := System(opening, [GameTurn(1)]);
    GameStarts(s0.store, newcomer, 0, FreshFrame(1));
    var s1 := Step(s0);
    assert s1.queue == [GameTurn(1)];
    WaitingPlayerElected(s1.store, newcomer, 0, FreshFrame(1));
    var s2 := Step(s1);
    assert s2 == System(s1.store, [PlayerTurn(1)]);
    FirstFrameCreated(s2.store, newcomer, FreshFrame(1));
    var s3 := Step(s2);
    assert s3.queue == [];
    assert Drain(s0, DRAIN_LIMIT) == Drain(s1, DRAIN_LIMIT - 1) == Drain(s2, DRAIN_LIMIT - 2) == Drain(s3, DRAIN_LIMIT - 3) == s3;
    started := s3;
  }

  /** Once the players have finished, one game message crowns player 1 and the bus is empty again. */
  lemma GameCrowned(st: Store) returns (crowned: System)
    requires Closing(st, None)
    ensures crowned == Drain(System(st, [GameTurn(1)]), DRAIN_LIMIT)
    ensures crowned.queue == [] && Closing(crowned.store, Some(1))
  {
    WinnerCrowned(st);
    var c0 := System(st, [GameTurn(1)]);
    var c1 := Step(c0);
    assert c1.queue == [];
    assert Drain(c0, DRAIN_LIMIT) == Drain(c1, DRAIN_LIMIT - 1) == c1;
    crowned := c1;
  }

  /**
   * The fast game: once started, two throws of one pin in each of the ten frames leave every frame done
   * with two points, the player finished with 20 and the bus empty. The game is then players-finished,
   * not finished: only a further game message crowns player 1, and the game stays players-finished.
   */
  lemma FastGameScoresTwenty(opening: Store) returns (started: System, played: System, crowned: System)
    requires Opening(opening)
    ensures started == Drain(System(opening, [GameTurn(1)]), DRAIN_LIMIT)
    ensures played == PlayFrom(started, 1, false)
    ensures crowned == Drain(System(played.store, [GameTurn(1)]), DRAIN_LIMIT)
    ensures played.queue == [] && Closing(played.store, None)
    ensures crowned.queue == [] && Closing(crowned.store, Some(1))
  {
    started := GameOpens(opening);
    FirstBallPlaysOut(started, 1);
    played := PlayFrom(started, 1, false);
    crowned := GameCrowned(played.store);
  }
}
