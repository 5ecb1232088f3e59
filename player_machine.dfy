/**
 * The player state machine: a waiting player is started on its frame; a playing player whose
 * frame is over is scored and either given its next frame or finished, and the game is asked
 * to elect the next player.
 */
module PlayerMachine {
  import opened Messages
  import opened Entities

  /** The sum of the frames' running scores. */
  function SumScores(frames: seq<FrameData>): int
  {
    if |frames| == 0 then 0 else SumScores(frames[..|frames| - 1]) + frames[|frames| - 1].score
  }

  /** Sums split over concatenation. */
  lemma {:induction false} SumScoresConcat(a: seq<FrameData>, b: seq<FrameData>)
    ensures SumScores(a + b) == SumScores(a) + SumScores(b)
    decreases |b|
  {
    if |b| == 0 {
      assert a + b == a;
    } else {
      assert (a + b)[..|a + b| - 1] == a + b[..|b| - 1];
      SumScoresConcat(a, b[..|b| - 1]);
    }
  }

  /** Frames that all score the same add up to that score times their number. */
  lemma {:induction false} SumOfEqualScores(frames: seq<FrameData>, score: int)
    requires forall i :: 0 <= i < |frames| ==> frames[i].score == score
    ensures SumScores(frames) == score * |frames|
    decreases |frames|
  {
    if |frames| > 0 {
      SumOfEqualScores(frames[..|frames| - 1], score);
    }
  }

  /** The round of the player's last frame: the greatest round among its frames, if it has any. */
  function LastRound(frames: seq<FrameData>): (r: Option<int>)
    ensures r.None? <==> |frames| == 0
    ensures r.Some? ==> (exists i :: 0 <= i < |frames| && frames[i].round == r.value)
    ensures r.Some? ==> forall i :: 0 <= i < |frames| ==> frames[i].round <= r.value
  {
    if |frames| == 0 then None
    else
      var earlier := LastRound(frames[..|frames| - 1]);
      var last := frames[|frames| - 1].round;
      if earlier.None? || earlier.value <= last then Some(last) else earlier
  }

  /** When the frames hold rounds 1 to n in order, the last round is n. */
  lemma LastRoundOfOrderedFrames(frames: seq<FrameData>)
    requires |frames| > 0
    requires forall i :: 0 <= i < |frames| ==> frames[i].round == i + 1
    ensures LastRound(frames) == Some(|frames|)
  {
    var r := LastRound(frames);
    assert frames[|frames| - 1].round <= r.value;
  }

  /** What one player message produced: the player's new fields, the round of the frame created, the messages. */
  datatype Turned = Turned(player: PlayerData, newFrameRound: Option<int>, messages: seq<Message>)

  /** A waiting player starts playing; it gets its first frame if it has none. */
  function TurnWaiting(p: PlayerData, frames: seq<FrameData>): Turned
  {
    Turned(p.(state := PlayerState.Playing), if |frames| == 0 then Some(1) else None, [])
  }

  /**
   * A playing player whose frame is over: its final score becomes the sum of its frames and its last
   * round the round of its last frame; with every frame played it is finished, otherwise it gets
   * the next frame and waits. Either way the game is asked to elect.
   */
  function TurnPlaying(gameId: nat, p: PlayerData, frames: seq<FrameData>): Result<Turned>
  {
    match LastRound(frames)
    case None => Err(NotFound)
    case Some(last) =>
      var scored := p.(finalScore := SumScores(frames), lastRound := last);
      if |frames| == FRAMES_PER_GAME then
        Ok(Turned(scored.(state := PlayerState.Finished), None, [GameTurn(gameId)]))
      else
        Ok(Turned(scored.(state := PlayerState.Waiting), Some(|frames| + 1), [GameTurn(gameId)]))
  }

  /** A player message, given the owning game's state and the player's frames. */
  function Turn(gameState: GameState, gameId: nat, p: PlayerData, frames: seq<FrameData>): (r: Result<Turned>)
    ensures gameState != GameState.Playing ==> r == Err(GameNotRunning)
    ensures r.Ok? ==> r.value.player.position == p.position
    ensures r.Ok? && r.value.newFrameRound.Some? ==> r.value.newFrameRound.value == |frames| + 1
  {
    if gameState != GameState.Playing then Err(GameNotRunning)
    else match p.state
      case Waiting => Ok(TurnWaiting(p, frames))
      case Playing => TurnPlaying(gameId, p, frames)
      case Finished => Ok(Turned(p, None, []))
  }

  /** A waiting player becomes playing, gains exactly one round-1 frame if it has none, and sends nothing. */
  lemma WaitingPlayerStarts(gameId: nat, p: PlayerData, frames: seq<FrameData>)
    requires p.state == PlayerState.Waiting
    ensures var r := Turn(GameState.Playing, gameId, p, frames);
            && r.Ok? && r.value.player == p.(state := PlayerState.Playing) && r.value.messages == []
            && r.value.newFrameRound == (if |frames| == 0 then Some(1) else None)
  {
  }

  /**
   * A playing player is scored with the sum of its frames and the round of its last frame. With all
   * ten frames it finishes and gets no new frame; with fewer it waits with one more frame, numbered
   * one past its count. Exactly one game message is sent either way.
   */
  lemma PlayingPlayerAdvances(gameId: nat, p: PlayerData, frames: seq<FrameData>)
    requires p.state == PlayerState.Playing && |frames| > 0
    ensures var r := Turn(GameState.Playing, gameId, p, frames);
            && r.Ok?
            && r.value.player.finalScore == SumScores(frames)
            && Some(r.value.player.lastRound) == LastRound(frames)
            && r.value.messages == [GameTurn(gameId)]
            && (|frames| == FRAMES_PER_GAME ==>
                  r.value.player.state == PlayerState.Finished && r.value.newFrameRound == None)
            && (|frames| != FRAMES_PER_GAME ==>
                  r.value.player.state == PlayerState.Waiting && r.value.newFrameRound == Some(|frames| + 1))
  {
  }

  /** A playing player without frames has no last frame to read, and the message is refused. */
  lemma PlayingWithoutFramesRefused(gameId: nat, p: PlayerData)
    requires p.state == PlayerState.Playing
    ensures Turn(GameState.Playing, gameId, p, []) == Err(NotFound)
  {
  }

  /** A finished player is left as it is and nothing is sent. */
  lemma FinishedPlayerUnchanged(gameId: nat, p: PlayerData, frames: seq<FrameData>)
    requires p.state == PlayerState.Finished
    ensures Turn(GameState.Playing, gameId, p, frames) == Ok(Turned(p, None, []))
  {
  }

  /**
   * When the frames hold rounds 1 to n in order, a turn keeps them so: the frame it creates is
   * round n + 1, and a player that ends its frame records n as its last round.
   */
  lemma TurnKeepsRoundOrder(gameId: nat, p: PlayerData, frames: seq<FrameData>)
    requires forall i :: 0 <= i < |frames| ==> frames[i].round == i + 1
    ensures var r := Turn(GameState.Playing, gameId, p, frames);
            r.Ok? && r.value.newFrameRound.Some? ==>
              var rounds := frames + [FreshFrame(r.value.newFrameRound.value)];
              forall i :: 0 <= i < |rounds| ==> rounds[i].round == i + 1
    ensures var r := Turn(GameState.Playing, gameId, p, frames);
            r.Ok? && p.state == PlayerState.Playing ==> r.value.player.lastRound == |frames|
  {
    if |frames| > 0 {
      LastRoundOfOrderedFrames(frames);
    }
  }

  // ---------------------------------------------------------------------------------------------
  // The handler on a loaded player object.

  /** The sum of the frames' scores, accumulated frame by frame. */
  method TotalScore(frames: seq<Frame>) returns (total: int)
    ensures total == SumScores(FrameDatas(frames))
  {
    total := 0;
    for i := 0 to |frames|
      invariant total == SumScores(FrameDatas(frames[..i]))
    {
      assert FrameDatas(frames[..i + 1])[..i] == FrameDatas(frames[..i]);
      total := total + frames[i].score;
    }
    assert frames[..|frames|] == frames;
  }

  /** The player and the frame it gained, if any, are as `turn` says; on a refusal nothing changed. */
  twostate predicate Enacted(player: Player, newFrameId: nat, turn: Result<Turned>,
                             new r: Result<seq<Message>>, new created: Frame?)
    reads player, created
  {
    match turn
    case Err(e) =>
      r == Err(e) && created == null && player.Data() == old(player.Data()) && player.frames == old(player.frames)
    case Ok(t) =>
      && r == Ok(t.messages) && player.Data() == t.player
      && match t.newFrameRound
         case None => created == null && player.frames == old(player.frames)
         case Some(round) =>
           && created != null && fresh(created)
           && created.id == newFrameId && created.Data() == FreshFrame(round) && created.player == player
           && player.frames == old(player.frames) + [created]
  }

  /** A waiting player starts playing; it is given a first frame, of round 1, when it has none. */
  method AtWaiting(player: Player, newFrameId: nat) returns (created: Frame?)
    requires player.state == PlayerState.Waiting
    modifies player
    ensures player.id == old(player.id) && player.game == old(player.game)
    ensures Enacted(player, newFrameId, Ok(TurnWaiting(old(player.Data()), old(FrameDatas(player.frames)))), Ok([]), created)
  {
    created := null;
    if |player.frames| == 0 {
      created := new Frame(newFrameId, 1);
      created.SetPlayer(player);
      player.AddFrame(created);
    }
    player.SetState(PlayerState.Playing);
  }

  /** A playing player is scored and then finished or given its next frame; the game is asked to elect. */
  method AtPlaying(player: Player, gameId: nat, newFrameId: nat) returns (r: Result<seq<Message>>, created: Frame?)
    requires player.state == PlayerState.Playing
    modifies player
    ensures player.id == old(player.id) && player.game == old(player.game)
    ensures Enacted(player, newFrameId, TurnPlaying(gameId, old(player.Data()), old(FrameDatas(player.frames))), r, created)
  {
    created := null;
    var total := TotalScore(player.frames);
    // the repository's last frame for the player
    var last := LastRound(FrameDatas(player.frames));
    if last.None? {
      return Err(NotFound), null;
    }
    player.SetFinalScore(total);
    player.SetLastRound(last.value);
    if |player.frames| == FRAMES_PER_GAME {
      player.SetState(PlayerState.Finished);
      r := Ok([GameTurn(gameId)]);
    } else {
      created := new Frame(newFrameId, |player.frames| + 1);
      created.SetPlayer(player);
      player.AddFrame(created);
      player.SetState(PlayerState.Waiting);
      r := Ok([GameTurn(gameId)]);
    }
  }

  /**
   * The player message handler on a loaded player: refused unless the game is playing, then
   * dispatched on the player's state. `newFrameId` is the identifier storage gives a new frame.
   * A player whose frames are in round order keeps them in round order.
   */
  method HandlePlayerMessage(player: Player, newFrameId: nat) returns (r: Result<seq<Message>>, created: Frame?)
    requires player.game != null
    modifies player
    ensures player.id == old(player.id) && player.game == old(player.game)
    ensures Enacted(player, newFrameId,
                    Turn(old(player.game.state), player.game.id, old(player.Data()), old(FrameDatas(player.frames))),
                    r, created)
    ensures old(player.FramesInRoundOrder()) ==> player.FramesInRoundOrder()
  {
    ghost var before := FrameDatas(player.frames);
    if player.game.state != GameState.Playing {
      return Err(GameNotRunning), null;
    }
    match player.state
    case Waiting =>
      created := AtWaiting(player, newFrameId);
      r := Ok([]);
    case Playing =>
      r, created := AtPlaying(player, player.game.id, newFrameId);
    case Finished =>
      r, created := Ok([]), null;
    if old(player.FramesInRoundOrder()) {
      TurnKeepsRoundOrder(player.game.id, old(player.Data()), before);
    }
  }
}
