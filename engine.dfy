/**
 * The engine as a whole: the stored entities as maps from identifier to record, and the bus as a
 * first-in first-out queue of messages. Each message is handled against the store; a refused
 * message is dropped and leaves the store as it was.
 */
module Engine {
  import opened Messages
  import opened Entities
  import opened FrameMachine
  import opened Propagation
  import opened PlayerMachine
  import opened GameMachine

  datatype GameRec = GameRec(state: GameState, winner: Option<nat>, players: seq<nat>)
  datatype PlayerRec = PlayerRec(game: nat, data: PlayerData, frames: seq<nat>)
  datatype FrameRec = FrameRec(player: nat, data: FrameData)

  /** The stored entities; `nextFrameId` is the identifier storage gives the next frame it saves. */
  datatype Store = Store(games: map<nat, GameRec>, players: map<nat, PlayerRec>,
                         frames: map<nat, FrameRec>, nextFrameId: nat)

  /** Loads the frames with the given identifiers, in that order; a missing one is not found. */
  function LoadFrames(st: Store, ids: seq<nat>): (r: Result<seq<FrameData>>)
    ensures r.Ok? <==> forall i :: 0 <= i < |ids| ==> ids[i] in st.frames
    ensures r.Ok? ==> |r.value| == |ids| && forall i :: 0 <= i < |ids| ==> r.value[i] == st.frames[ids[i]].data
  {
    if forall i :: 0 <= i < |ids| ==> ids[i] in st.frames then
      Ok(seq(|ids|, i requires 0 <= i < |ids| && ids[i] in st.frames => st.frames[ids[i]].data))
    else Err(NotFound)
  }

  /** Loads the players with the given identifiers, in that order; a missing one is not found. */
  function LoadPlayers(st: Store, ids: seq<nat>): (r: Result<seq<PlayerData>>)
    ensures r.Ok? <==> forall i :: 0 <= i < |ids| ==> ids[i] in st.players
    ensures r.Ok? ==> |r.value| == |ids| && forall i :: 0 <= i < |ids| ==> r.value[i] == st.players[ids[i]].data
  {
    if forall i :: 0 <= i < |ids| ==> ids[i] in st.players then
      Ok(seq(|ids|, i requires 0 <= i < |ids| && ids[i] in st.players => st.players[ids[i]].data))
    else Err(NotFound)
  }

  /** A frame message: the frame is rolled and saved; nothing else is written. */
  function DeliverRoll(st: Store, frameId: nat, pins: int): Result<(Store, seq<Message>)>
  {
    if frameId !in st.frames then Err(NotFound)
    else
      var rec := st.frames[frameId];
      match Roll(rec.data, frameId, rec.player, pins)
      case Err(e) => Err(e)
      case Ok(rolled) => Ok((st.(frames := st.frames[frameId := rec.(data := rolled.frame)]), rolled.messages))
  }

  /** A propagation message: too many pins are refused before any lookup; the store is never written. */
  function DeliverPropagation(st: Store, frameId: nat, pins: int): Result<(Store, seq<Message>)>
  {
    if pins > PINS_PER_FRAME then Err(InvalidRoll)
    else if frameId !in st.frames then Err(NotFound)
    else
      var source := st.frames[frameId];
      if source.player !in st.players then Err(NotFound)
      else
        var owner := st.players[source.player];
        if owner.game !in st.games then Err(NotFound)
        else match LoadFrames(st, owner.frames)
          case Err(e) => Err(e)
          case Ok(frames) =>
            match Propagate(pins, st.games[owner.game].state, owner.data.state, frames, owner.frames, source.data.round)
            case Err(e) => Err(e)
            case Ok(credits) => Ok((st, credits))
  }

  /**
   * A player message: the player is updated and, when it gains a frame, the frame is saved under the
   * next identifier and appended to the player's frames. Games and existing frames are not written.
   */
  function DeliverPlayerTurn(st: Store, playerId: nat): Result<(Store, seq<Message>)>
  {
    if playerId !in st.players then Err(NotFound)
    else
      var p := st.players[playerId];
      if p.game !in st.games then Err(NotFound)
      else match LoadFrames(st, p.frames)
        case Err(e) => Err(e)
        case Ok(frames) =>
          match Turn(st.games[p.game].state, p.game, p.data, frames)
          case Err(e) => Err(e)
          case Ok(t) =>
            match t.newFrameRound
            case None => Ok((st.(players := st.players[playerId := p.(data := t.player)]), t.messages))
            case Some(round) =>
              var id := st.nextFrameId;
              Ok((Store(st.games,
                        st.players[playerId := PlayerRec(p.game, t.player, p.frames + [id])],
                        st.frames[id := FrameRec(playerId, FreshFrame(round))],
                        id + 1),
                  t.messages))
  }

  /** A game message: only the game's state and winner are written; players and frames are not. */
  function DeliverGameTurn(st: Store, gameId: nat): Result<(Store, seq<Message>)>
  {
    if gameId !in st.games then Err(NotFound)
    else
      var g := st.games[gameId];
      match LoadPlayers(st, g.players)
      case Err(e) => Err(e)
      case Ok(players) =>
        var o := GameStep(gameId, g.state, players, g.players);
        var winner := match o.crown case None => g.winner case Some(k) => Some(g.players[k]);
        Ok((st.(games := st.games[gameId := g.(state := o.state, winner := winner)]), o.messages))
  }

  /** Handles one message against the store. */
  function Deliver(st: Store, m: Message): Result<(Store, seq<Message>)>
  {
    match m
    case FrameRoll(frameId, pins) => DeliverRoll(st, frameId, pins)
    case RollPropagation(frameId, pins) => DeliverPropagation(st, frameId, pins)
    case PlayerTurn(playerId) => DeliverPlayerTurn(st, playerId)
    case GameTurn(gameId) => DeliverGameTurn(st, gameId)
  }

  /** A frame message writes only the frame it names, and keeps that frame's owner. */
  lemma RollWritesOnlyItsFrame(st: Store, frameId: nat, pins: int)
    ensures var r := DeliverRoll(st, frameId, pins);
            r.Ok? ==> && frameId in st.frames
                      && r.value.0.games == st.games && r.value.0.players == st.players
                      && r.value.0.nextFrameId == st.nextFrameId
                      && r.value.0.frames.Keys == st.frames.Keys
                      && r.value.0.frames[frameId].player == st.frames[frameId].player
                      && forall k :: k in st.frames && k != frameId ==> r.value.0.frames[k] == st.frames[k]
  {
  }

  /** A propagation message never writes the store, and too many pins are refused before any lookup. */
  lemma PropagationWritesNothing(st: Store, frameId: nat, pins: int)
    ensures var r := DeliverPropagation(st, frameId, pins);
            && (pins > PINS_PER_FRAME ==> r == Err(InvalidRoll))
            && (r.Ok? ==> r.value.0 == st)
  {
  }

  /**
   * A player message writes only the player it names among the players and never a game; a frame it
   * creates is saved under an unused identifier, so no stored frame is overwritten.
   */
  lemma PlayerTurnWritesOnlyItsPlayer(st: Store, playerId: nat)
    ensures var r := DeliverPlayerTurn(st, playerId);
            r.Ok? ==> && playerId in st.players && r.value.0.games == st.games
                      && r.value.0.players.Keys == st.players.Keys
                      && (forall k :: k in st.players && k != playerId ==> r.value.0.players[k] == st.players[k])
    ensures var r := DeliverPlayerTurn(st, playerId);
            r.Ok? && st.nextFrameId !in st.frames ==>
              forall k :: k in st.frames ==> k in r.value.0.frames && r.value.0.frames[k] == st.frames[k]
  {
  }

  /** A game message writes only its own game's state and winner. */
  lemma GameTurnWritesOnlyItsGame(st: Store, gameId: nat)
    ensures var r := DeliverGameTurn(st, gameId);
            r.Ok? ==> && gameId in st.games
                      && r.value.0.players == st.players && r.value.0.frames == st.frames
                      && r.value.0.nextFrameId == st.nextFrameId
                      && r.value.0.games.Keys == st.games.Keys
                      && r.value.0.games[gameId].players == st.games[gameId].players
                      && forall k :: k in st.games && k != gameId ==> r.value.0.games[k] == st.games[k]
  {
  }

  /**
   * Frame identifiers are below `nextFrameId`, and every player's frames are its own and hold
   * rounds 1, 2, 3, ... in that order, as the `round` ordering of the player's collection promises.
   */
  ghost predicate FramesInRoundOrder(st: Store)
  {
    && (forall k :: k in st.frames ==> k < st.nextFrameId)
    && (forall pid, i :: pid in st.players && 0 <= i < |st.players[pid].frames| ==>
          && st.players[pid].frames[i] in st.frames
          && st.frames[st.players[pid].frames[i]].player == pid
          && st.frames[st.players[pid].frames[i]].data.round == i + 1)
  }

  /** Every game's players are stored, and its collection lists them by increasing position. */
  ghost predicate PlayersInSeatOrder(st: Store)
  {
    && (forall g, i :: g in st.games && 0 <= i < |st.games[g].players| ==> st.games[g].players[i] in st.players)
    && (forall g, i, j ::
          (g in st.games && 0 <= i < j < |st.games[g].players|
           && st.games[g].players[i] in st.players && st.games[g].players[j] in st.players) ==>
          st.players[st.games[g].players[i]].data.position < st.players[st.games[g].players[j]].data.position)
  }

  /** The ordering the stored collections keep. */
  ghost predicate Ordered(st: Store)
  {
    FramesInRoundOrder(st) && PlayersInSeatOrder(st)
  }

  /** A player message that creates a frame gives it the next round and an unused identifier. */
  lemma PlayerTurnKeepsOrder(st: Store, playerId: nat)
    requires Ordered(st)
    ensures DeliverPlayerTurn(st, playerId).Ok? ==> Ordered(DeliverPlayerTurn(st, playerId).value.0)
  {
    if DeliverPlayerTurn(st, playerId).Ok? {
      var p := st.players[playerId];
      var frames := LoadFrames(st, p.frames).value;
      var t := Turn(st.games[p.game].state, p.game, p.data, frames).value;
      var r := DeliverPlayerTurn(st, playerId).value.0;
      assert r.games == st.games;
      assert forall pid :: pid in st.players && pid != playerId ==> r.players[pid] == st.players[pid];
      assert r.players[playerId].data.position == p.data.position;
      if t.newFrameRound.Some? {
        var id := st.nextFrameId;
        assert id !in st.frames;
        assert r.players[playerId].frames == p.frames + [id];
        assert r.frames[id] == FrameRec(playerId, FreshFrame(|p.frames| + 1));
      }
    }
  }

  /** Every delivery keeps the stored collections ordered: frames keep their rounds and owners, players their seats. */
  lemma DeliverKeepsOrder(st: Store, m: Message)
    requires Ordered(st)
    ensures Deliver(st, m).Ok? ==> Ordered(Deliver(st, m).value.0)
  {
    match m
    case FrameRoll(frameId, pins) => RollWritesOnlyItsFrame(st, frameId, pins);
    case RollPropagation(frameId, pins) => PropagationWritesNothing(st, frameId, pins);
    case PlayerTurn(playerId) => PlayerTurnKeepsOrder(st, playerId);
    case GameTurn(gameId) => GameTurnWritesOnlyItsGame(st, gameId);
  }

  /** The store and the messages waiting on the bus, oldest first. */
  datatype System = System(store: Store, queue: seq<Message>)

  /**
   * Delivers the oldest message. Messages already waiting keep their order ahead of the ones it
   * produces; a refused message is dropped and changes nothing.
   */
  function Step(sys: System): System
    requires |sys.queue| > 0
  {
    match Deliver(sys.store, sys.queue[0])
    case Err(_) => System(sys.store, sys.queue[1..])
    case Ok(out) => System(out.0, sys.queue[1..] + out.1)
  }

  /**
   * The bus is first-in first-out: messages already waiting keep their order ahead of the ones the
   * delivery produces, and a refused message is dropped without changing the store.
   */
  lemma StepIsFifo(sys: System)
    requires |sys.queue| > 0
    ensures var r := Step(sys);
            && |r.queue| >= |sys.queue| - 1 && r.queue[..|sys.queue| - 1] == sys.queue[1..]
            && (Deliver(sys.store, sys.queue[0]).Err? ==> r == System(sys.store, sys.queue[1..]))
            && (Deliver(sys.store, sys.queue[0]).Ok? ==>
                  r.store == Deliver(sys.store, sys.queue[0]).value.0
                  && r.queue[|sys.queue| - 1..] == Deliver(sys.store, sys.queue[0]).value.1)
  {
  }

  /** Delivers messages until the bus is empty, for at most `fuel` deliveries. */
  function Drain(sys: System, fuel: nat): System
    decreases fuel
  {
    if fuel == 0 || |sys.queue| == 0 then sys else Drain(Step(sys), fuel - 1)
  }

  /** The most deliveries one throw may cause before it counts as settled. */
  const DRAIN_LIMIT: nat := 1000

  /** A throw: a frame message for `frameId` goes on the bus, which is then drained. */
  function Throw(sys: System, frameId: nat, pins: int): System
  {
    Drain(System(sys.store, sys.queue + [FrameRoll(frameId, pins)]), DRAIN_LIMIT)
  }

  /** Draining the bus keeps the stored collections ordered. */
  lemma {:induction false} DrainKeepsOrder(sys: System, fuel: nat)
    requires Ordered(sys.store)
    ensures Ordered(Drain(sys, fuel).store)
    decreases fuel
  {
    if fuel > 0 && |sys.queue| > 0 {
      DeliverKeepsOrder(sys.store, sys.queue[0]);
      DrainKeepsOrder(Step(sys), fuel - 1);
    }
  }

  /** A throw keeps the stored collections ordered. */
  lemma ThrowKeepsOrder(sys: System, frameId: nat, pins: int)
    requires Ordered(sys.store)
    ensures Ordered(Throw(sys, frameId, pins).store)
  {
    DrainKeepsOrder(System(sys.store, sys.queue + [FrameRoll(frameId, pins)]), DRAIN_LIMIT);
  }
}
