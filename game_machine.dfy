/**
 * The game state machine: a new game starts playing; a playing game elects the waiting player
 * that has played the fewest rounds (the lowest seat among equals) or, with nobody waiting,
 * ends; once every player has finished, the highest final score is crowned.
 */
module GameMachine {
  import opened Messages
  import opened Entities

  /** The election order: fewer rounds played first, then the lower seat. `a` goes strictly before `b`. */
  predicate Before(a: PlayerData, b: PlayerData)
  {
    a.lastRound < b.lastRound || (a.lastRound == b.lastRound && a.position < b.position)
  }

  /**
   * The index of the player a stable sort of the waiting players puts first: no waiting player goes
   * strictly before it, and every waiting player ahead of it in the collection goes strictly after it.
   */
  function Elect(ps: seq<PlayerData>): (r: Option<nat>)
    ensures r.None? <==> forall i :: 0 <= i < |ps| ==> ps[i].state != PlayerState.Waiting
    ensures r.Some? ==> r.value < |ps| && ps[r.value].state == PlayerState.Waiting
    ensures r.Some? ==> forall i :: 0 <= i < |ps| && ps[i].state == PlayerState.Waiting ==> !Before(ps[i], ps[r.value])
    ensures r.Some? ==> forall i :: 0 <= i < r.value && ps[i].state == PlayerState.Waiting ==> Before(ps[r.value], ps[i])
  {
    if |ps| == 0 then None
    else
      var earlier := Elect(ps[..|ps| - 1]);
      var last := |ps| - 1;
      if ps[last].state != PlayerState.Waiting then earlier
      else if earlier.None? || Before(ps[last], ps[earlier.value]) then Some(last)
      else earlier
  }

  /** The elected player is the only one meeting the election's description. */
  lemma ElectionIsUnique(ps: seq<PlayerData>, k: nat)
    requires k < |ps| && ps[k].state == PlayerState.Waiting
    requires forall i :: 0 <= i < |ps| && ps[i].state == PlayerState.Waiting ==> !Before(ps[i], ps[k])
    requires forall i :: 0 <= i < k && ps[i].state == PlayerState.Waiting ==> Before(ps[k], ps[i])
    ensures Elect(ps) == Some(k)
  {
    var e := Elect(ps).value;
    // neither goes strictly before the other, so they tie on rounds and seats; the collection order then decides
    assert !Before(ps[k], ps[e]) && !Before(ps[e], ps[k]);
    assert !(e < k);
    assert !(k < e);
  }

  /**
   * Seats take turns: when every player is waiting, seated in order, and the first `k` have played one
   * round more than the rest, seat `k` is elected next.
   */
  lemma SeatsTakeTurns(ps: seq<PlayerData>, k: nat, r: int)
    requires k < |ps|
    requires forall i :: 0 <= i < |ps| ==> ps[i].state == PlayerState.Waiting && ps[i].position == i
    requires forall i :: 0 <= i < |ps| ==> ps[i].lastRound == if i < k then r + 1 else r
    ensures Elect(ps) == Some(k)
  {
    ElectionIsUnique(ps, k);
  }

  /**
   * The winner as the source scans for it: starting from an empty player with a final score of 0,
   * each player whose final score is strictly greater than the best so far takes its place.
   */
  function Winner(ps: seq<PlayerData>): (r: Option<nat>)
    ensures r.None? <==> forall i :: 0 <= i < |ps| ==> ps[i].finalScore <= 0
    ensures r.Some? ==> r.value < |ps| && ps[r.value].finalScore > 0
    ensures r.Some? ==> forall i :: 0 <= i < |ps| ==> ps[i].finalScore <= ps[r.value].finalScore
    ensures r.Some? ==> forall i :: 0 <= i < r.value ==> ps[i].finalScore < ps[r.value].finalScore
  {
    if |ps| == 0 then None
    else
      var earlier := Winner(ps[..|ps| - 1]);
      var best := if earlier.None? then 0 else ps[earlier.value].finalScore;
      if ps[|ps| - 1].finalScore > best then Some(|ps| - 1) else earlier
  }

  /** On a tie for the highest score, the lower seat in the collection wins. */
  lemma TieGoesToEarlierPlayer(ps: seq<PlayerData>, i: nat, j: nat)
    requires i < j < |ps| && ps[i].finalScore == ps[j].finalScore > 0
    ensures Winner(ps) != Some(j)
  {
  }

  /** What one game message does: the new state, the player to crown (if any), the messages sent. */
  datatype GameOutcome = GameOutcome(state: GameState, crown: Option<nat>, messages: seq<Message>)

  /** The game message, given the game's players (in seat order) and their identifiers. */
  function GameStep(gameId: nat, state: GameState, ps: seq<PlayerData>, ids: seq<nat>): (r: GameOutcome)
    requires |ps| == |ids|
    ensures r.crown.Some? ==> r.crown.value < |ps|
  {
    match state
    case New => GameOutcome(GameState.Playing, None, [GameTurn(gameId)])
    case Playing =>
      (match Elect(ps)
       case Some(k) => GameOutcome(GameState.Playing, None, [PlayerTurn(ids[k])])
       case None => GameOutcome(GameState.PlayersFinished, None, []))
    case PlayersFinished => GameOutcome(GameState.PlayersFinished, Winner(ps), [])
    case Finished => GameOutcome(GameState.Finished, None, [])
  }

  /** A new game starts playing and sends itself a message to elect the first player. */
  lemma NewGameStarts(gameId: nat, ps: seq<PlayerData>, ids: seq<nat>)
    requires |ps| == |ids|
    ensures GameStep(gameId, GameState.New, ps, ids) == GameOutcome(GameState.Playing, None, [GameTurn(gameId)])
  {
  }

  /**
   * A playing game with a waiting player stays playing and sends exactly one player message, to a
   * waiting player no waiting player goes before; with nobody waiting it moves to players-finished
   * and sends nothing.
   */
  lemma PlayingGameElects(gameId: nat, ps: seq<PlayerData>, ids: seq<nat>)
    requires |ps| == |ids|
    ensures var o := GameStep(gameId, GameState.Playing, ps, ids);
            && o.crown == None
            && ((exists i :: 0 <= i < |ps| && ps[i].state == PlayerState.Waiting) <==> o.state == GameState.Playing)
            && (o.state == GameState.Playing ==>
                  exists k :: 0 <= k < |ps| && ps[k].state == PlayerState.Waiting && o.messages == [PlayerTurn(ids[k])]
                    && forall i :: 0 <= i < |ps| && ps[i].state == PlayerState.Waiting ==> !Before(ps[i], ps[k]))
            && (o.state == GameState.PlayersFinished ==> o.messages == [])
  {
    var e := Elect(ps);
    if e.Some? {
      assert ps[e.value].state == PlayerState.Waiting;
    }
  }

  /**
   * Once the players have finished, a game message crowns the player with the highest positive final
   * score and nothing else happens: the game never leaves players-finished, so no step ever reaches finished.
   */
  lemma FinishedPlayersCrowned(gameId: nat, state: GameState, ps: seq<PlayerData>, ids: seq<nat>)
    requires |ps| == |ids|
    ensures state == GameState.PlayersFinished ==>
              GameStep(gameId, state, ps, ids) == GameOutcome(GameState.PlayersFinished, Winner(ps), [])
    ensures state != GameState.Finished ==> GameStep(gameId, state, ps, ids).state != GameState.Finished
  {
  }

  /** Crowning is idempotent: a second message at players-finished names the same winner. */
  lemma CrowningIsStable(gameId: nat, ps: seq<PlayerData>, ids: seq<nat>)
    requires |ps| == |ids|
    ensures var o := GameStep(gameId, GameState.PlayersFinished, ps, ids);
            GameStep(gameId, o.state, ps, ids) == o
  {
  }

  // ---------------------------------------------------------------------------------------------
  // The handler on a loaded game object.

  /** The player the winner scan ends on, or null when nobody scored above zero. */
  method FindWinner(players: seq<Player>) returns (w: Player?)
    ensures w == match Winner(PlayerDatas(players)) case None => null case Some(k) => players[k]
  {
    // `w == null` stands for the empty player the scan starts from, whose final score is 0
    w := null;
    var best := 0;
    for i := 0 to |players|
      invariant w == match Winner(PlayerDatas(players[..i])) case None => null case Some(k) => players[k]
      invariant best == if w == null then 0 else w.finalScore
    {
      assert PlayerDatas(players[..i + 1])[..i] == PlayerDatas(players[..i]);
      if players[i].finalScore > best {
        w := players[i];
        best := players[i].finalScore;
      }
    }
    assert players[..|players|] == players;
  }

  /** Elects the next player among the game's players, or returns null when nobody is waiting. */
  method NextPlayer(players: seq<Player>) returns (next: Player?)
    ensures next == match Elect(PlayerDatas(players)) case None => null case Some(k) => players[k]
  {
    next := null;
    ghost var at := 0;
    for i := 0 to |players|
      invariant next == match Elect(PlayerDatas(players[..i])) case None => null case Some(k) => players[k]
      invariant next != null ==> at < i && next == players[at] && next.Data() == PlayerDatas(players[..i])[at]
    {
      assert PlayerDatas(players[..i + 1])[..i] == PlayerDatas(players[..i]);
      if players[i].state == PlayerState.Waiting && (next == null || Before(players[i].Data(), next.Data())) {
        next := players[i];
        at := i;
      }
    }
    assert players[..|players|] == players;
  }

  /** The game message handler on a loaded game: only its state and its winner can change. */
  method HandleGameMessage(game: Game) returns (messages: seq<Message>)
    modifies game`state, game`winner
    ensures var o := GameStep(game.id, old(game.state), PlayerDatas(game.players), PlayerIds(game.players));
            && game.state == o.state && messages == o.messages
            && game.winner == match o.crown case None => old(game.winner) case Some(k) => game.players[k]
  {
    messages := [];
    match game.state
    case New =>
      game.SetState(GameState.Playing);
      messages := [GameTurn(game.id)];
    case Playing =>
      var next := NextPlayer(game.players);
      if next != null {
        messages := [PlayerTurn(next.id)];
      } else {
        game.SetState(GameState.PlayersFinished);
      }
    case PlayersFinished =>
      var w := FindWinner(game.players);
      if w != null {
        game.SetWinnerPlayer(w);
      }
    case Finished =>
  }

  // ---------------------------------------------------------------------------------------------
  // `atNew` and `atPlaying` are generators, and the messages are handed to `array_walk`.

  /**
   * The game message as the handler runs it: `array_walk` does not iterate the generators, so
   * their bodies, which hold both the workflow transitions and the messages, never run. Only the
   * winner scan, a plain method, takes effect.
   */
  function GameStepUnwalked(gameId: nat, state: GameState, ps: seq<PlayerData>, ids: seq<nat>): GameOutcome
    requires |ps| == |ids|
  {
    match state
    case PlayersFinished => GameOutcome(GameState.PlayersFinished, Winner(ps), [])
    case _ => GameOutcome(state, None, [])
  }

  /**
   * Unwalked, a new game stays new and a playing game elects nobody, so no game ever starts;
   * `GameStep`, which runs the generators to their end, starts the game and elects a waiting player.
   */
  lemma GameGeneratorsNeverRun(gameId: nat, ps: seq<PlayerData>, ids: seq<nat>)
    requires |ps| == |ids|
    ensures GameStepUnwalked(gameId, GameState.New, ps, ids) == GameOutcome(GameState.New, None, [])
    ensures GameStepUnwalked(gameId, GameState.Playing, ps, ids) == GameOutcome(GameState.Playing, None, [])
    ensures GameStep(gameId, GameState.New, ps, ids).state == GameState.Playing
    ensures (exists i :: 0 <= i < |ps| && ps[i].state == PlayerState.Waiting) ==>
              |GameStep(gameId, GameState.Playing, ps, ids).messages| == 1
  {
  }
}
