/** The commands that travel on the message bus, and the ways a handler can refuse one. */
module Messages {

  /** One command on the bus. Each constructor stands for one message class of the system. */
  datatype Message =
    /** A roll of `pins` on frame `frameId`; also used to credit a propagated bonus roll. */
    | FrameRoll(frameId: nat, pins: int)
    /** Ask for the pins just rolled on `frameId` to be credited to earlier frames. */
    | RollPropagation(frameId: nat, pins: int)
    /** Advance player `playerId` (the message carries only the player id). */
    | PlayerTurn(playerId: nat)
    /** Advance game `gameId`: start it, elect the next player, or pick the winner. */
    | GameTurn(gameId: nat)

  /** Why a handler refused a message. A refused message changes nothing. */
  datatype Failure =
    /** A pin count above what the frame still holds. */
    | InvalidRoll
    /** A bonus credit for a frame that owes none. */
    | StateViolation
    /** The owning game is not `playing`. */
    | GameNotRunning
    /** The owning player is not `playing`. */
    | PlayerNotPlaying
    /** A referenced entity does not exist. */
    | NotFound

  datatype Result<T> = Ok(value: T) | Err(error: Failure)

  datatype Option<T> = None | Some(value: T)
}
