/**
 * The frame state machine: how one roll, or one propagated bonus credit, changes a frame
 * and which follow-up messages it produces, in the order they are dispatched.
 */
module FrameMachine {
  import opened Messages
  import opened Entities

  /** What one frame message produced: the frame's new fields and the messages to dispatch, in order. */
  datatype Rolled = Rolled(frame: FrameData, messages: seq<Message>)

  /** The first roll of a frame in `new`. */
  function RollAtNew(f: FrameData, frameId: nat, playerId: nat, pins: int): Result<Rolled>
  {
    if pins > PINS_PER_FRAME then Err(InvalidRoll)
    else
      var g := f.WithRoll1(pins);
      var propagate := RollPropagation(frameId, pins);
      if g.round == FRAMES_PER_GAME + 1 then
        // the bonus ball: the frame is over at once
        Ok(Rolled(g.(state := Done), [PlayerTurn(playerId), propagate]))
      else if pins == PINS_PER_FRAME then
        // a strike waits for one (last round) or two propagated rolls
        var wait := if g.round == FRAMES_PER_GAME then 1 else 2;
        Ok(Rolled(g.(state := WaitScore, scoreWait := wait), [PlayerTurn(playerId), propagate]))
      else
        Ok(Rolled(g.(state := SecondRoll), [propagate]))
  }

  /** The second roll of a frame in `second_roll`. */
  function RollAtSecondStage(f: FrameData, frameId: nat, playerId: nat, pins: int): Result<Rolled>
  {
    if f.roll1 + pins > PINS_PER_FRAME then Err(InvalidRoll)
    else
      var g := f.WithRoll2(pins);
      var h := if g.roll1 + g.roll2 == PINS_PER_FRAME then g.(state := WaitScore, scoreWait := 1)
               else g.(state := Done);
      // a finished frame is sent one more (empty) roll after the flush
      var closing := if h.state == Done then [FrameRoll(frameId, 0)] else [];
      Ok(Rolled(h, [PlayerTurn(playerId), RollPropagation(frameId, pins)] + closing))
  }

  /** A propagated bonus credit to a frame in `wait_score`. */
  function CreditAtWait(f: FrameData, pins: int): Result<Rolled>
  {
    if pins > PINS_PER_FRAME then Err(InvalidRoll)
    else if f.scoreWait <= 0 then Err(StateViolation)
    else
      var g := f.(score := f.score + pins, scoreWait := f.scoreWait - 1);
      Ok(Rolled(if g.scoreWait == 0 then g.(state := Done) else g, []))
  }

  /**
   * A frame message of `pins` for frame `frameId` owned by player `playerId`, dispatched on the
   * frame's state. Frames in `third_roll` or `done` have no branch and are left as they are.
   */
  function Roll(f: FrameData, frameId: nat, playerId: nat, pins: int): (r: Result<Rolled>)
    ensures r.Err? <==> || (f.state == FrameState.New && pins > PINS_PER_FRAME)
                        || (f.state == SecondRoll && f.roll1 + pins > PINS_PER_FRAME)
                        || (f.state == WaitScore && (pins > PINS_PER_FRAME || f.scoreWait <= 0))
    ensures r.Ok? ==> r.value.frame.round == f.round
    ensures r.Ok? && f.state in {FrameState.New, SecondRoll} ==>
              |r.value.messages| > 0 && RollPropagation(frameId, pins) in r.value.messages
  {
    match f.state
    case New => RollAtNew(f, frameId, playerId, pins)
    case SecondRoll => RollAtSecondStage(f, frameId, playerId, pins)
    case WaitScore => CreditAtWait(f, pins)
    case ThirdRoll => Ok(Rolled(f, []))
    case Done => Ok(Rolled(f, []))
  }

  /** A bonus-ball frame (round 11) is done after one roll; the player is told, then the roll is propagated. */
  lemma BonusBallEndsFrame(f: FrameData, frameId: nat, playerId: nat, pins: int)
    requires f.state == FrameState.New && f.round == FRAMES_PER_GAME + 1 && pins <= PINS_PER_FRAME
    ensures var r := Roll(f, frameId, playerId, pins);
            && r.Ok? && r.value.frame.state == Done
            && r.value.frame.roll1 == pins && r.value.frame.score == f.score + pins
            && r.value.messages == [PlayerTurn(playerId), RollPropagation(frameId, pins)]
  {
  }

  /**
   * A strike before the bonus ball waits for two propagated rolls, or for one on the last regular round;
   * the player is told before the roll is propagated.
   */
  lemma StrikeWaitsForBonus(f: FrameData, frameId: nat, playerId: nat)
    requires f.state == FrameState.New && f.round != FRAMES_PER_GAME + 1
    ensures var r := Roll(f, frameId, playerId, PINS_PER_FRAME);
            && r.Ok? && r.value.frame.state == WaitScore
            && r.value.frame.scoreWait == (if f.round == FRAMES_PER_GAME then 1 else 2)
            && r.value.frame.roll1 == PINS_PER_FRAME && r.value.frame.score == f.score + PINS_PER_FRAME
            && r.value.messages == [PlayerTurn(playerId), RollPropagation(frameId, PINS_PER_FRAME)]
  {
  }

  /** An open first roll moves the frame to its second roll and only propagates the roll. */
  lemma OpenFirstRoll(round: int, frameId: nat, playerId: nat, pins: int)
    requires round != FRAMES_PER_GAME + 1 && pins < PINS_PER_FRAME
    ensures var r := Roll(FreshFrame(round), frameId, playerId, pins);
            && r.Ok? && r.value.frame.state == SecondRoll
            && r.value.frame.score == r.value.frame.roll1 == pins
            && r.value.messages == [RollPropagation(frameId, pins)]
  {
  }

  /** Every accepted first roll ends with the propagation of exactly the pins rolled; too many pins are refused. */
  lemma FirstRollPropagatesLast(f: FrameData, frameId: nat, playerId: nat, pins: int)
    requires f.state == FrameState.New
    ensures var r := Roll(f, frameId, playerId, pins);
            && (r.Ok? <==> pins <= PINS_PER_FRAME)
            && (r.Ok? ==> r.value.messages[|r.value.messages| - 1] == RollPropagation(frameId, pins))
  {
  }

  /**
   * The second roll: refused when the two rolls exceed the pins; a spare waits for one propagated roll,
   * anything less closes the frame. The player is told, the roll is propagated, and a closed frame
   * is sent one empty roll.
   */
  lemma SecondRollOutcome(f: FrameData, frameId: nat, playerId: nat, pins: int)
    requires f.state == SecondRoll
    ensures var r := Roll(f, frameId, playerId, pins);
            && (r.Ok? <==> f.roll1 + pins <= PINS_PER_FRAME)
            && (r.Ok? ==>
                  && r.value.frame.roll2 == pins && r.value.frame.score == f.score + pins
                  && (f.roll1 + pins == PINS_PER_FRAME ==>
                        r.value.frame.state == WaitScore && r.value.frame.scoreWait == 1
                        && r.value.messages == [PlayerTurn(playerId), RollPropagation(frameId, pins)])
                  && (f.roll1 + pins < PINS_PER_FRAME ==>
                        r.value.frame.state == Done
                        && r.value.messages == [PlayerTurn(playerId), RollPropagation(frameId, pins), FrameRoll(frameId, 0)]))
  {
  }

  /**
   * A bonus credit: refused unless credit is owed and the pins fit a frame; otherwise it adds the pins,
   * owes one credit less, closes the frame exactly when nothing more is owed, and sends nothing.
   */
  lemma CreditOutcome(f: FrameData, frameId: nat, playerId: nat, pins: int)
    requires f.state == WaitScore
    ensures var r := Roll(f, frameId, playerId, pins);
            && (r.Ok? <==> f.scoreWait > 0 && pins <= PINS_PER_FRAME)
            && (r.Ok? ==>
                  && r.value.frame.score == f.score + pins
                  && r.value.frame.scoreWait == f.scoreWait - 1
                  && (r.value.frame.state == Done <==> f.scoreWait == 1)
                  && (r.value.frame.state == WaitScore <==> f.scoreWait > 1)
                  && r.value.frame.roll1 == f.roll1 && r.value.frame.roll2 == f.roll2
                  && r.value.messages == [])
  {
  }

  /** Frames in `third_roll` or `done` ignore frame messages: a repeated credit is not added twice. */
  lemma InertStatesIgnoreRolls(f: FrameData, frameId: nat, playerId: nat, pins: int)
    requires f.state == ThirdRoll || f.state == Done
    ensures Roll(f, frameId, playerId, pins) == Ok(Rolled(f, []))
  {
  }

  /** Applies a run of propagated credits to one frame, stopping at the first refusal. */
  function CreditAll(f: FrameData, credits: seq<int>): Result<FrameData>
    decreases |credits|
  {
    if |credits| == 0 then Ok(f)
    else match CreditAtWait(f, credits[0])
      case Err(e) => Err(e)
      case Ok(rolled) => CreditAll(rolled.frame, credits[1..])
  }

  function Sum(xs: seq<int>): int
  {
    if |xs| == 0 then 0 else xs[0] + Sum(xs[1..])
  }

  /**
   * A frame waiting for `n` credits takes exactly `n` of them: each adds its pins, and the frame is
   * done after the last one, with every credit in its score.
   */
  lemma {:induction false} WaitingFrameTakesOwedCredits(f: FrameData, credits: seq<int>)
    requires f.state == WaitScore && f.scoreWait == |credits| > 0
    requires forall i :: 0 <= i < |credits| ==> credits[i] <= PINS_PER_FRAME
    ensures CreditAll(f, credits).Ok?
    ensures CreditAll(f, credits).value.state == Done && CreditAll(f, credits).value.scoreWait == 0
    ensures CreditAll(f, credits).value.score == f.score + Sum(credits)
    decreases |credits|
  {
    var g := f.(score := f.score + credits[0], scoreWait := f.scoreWait - 1);
    if |credits| == 1 {
      assert CreditAtWait(f, credits[0]) == Ok(Rolled(g.(state := Done), []));
      assert CreditAll(f, credits) == CreditAll(g.(state := Done), []);
    } else {
      assert CreditAtWait(f, credits[0]) == Ok(Rolled(g, []));
      WaitingFrameTakesOwedCredits(g, credits[1..]);
    }
  }

  /** A strike followed by rolls of 2 and 3 in the next frame is worth 15 once both credits land. */
  lemma StrikeThenTwoAndThree(frameId: nat, playerId: nat)
    ensures var strike := Roll(FreshFrame(1), frameId, playerId, PINS_PER_FRAME);
            && strike.Ok?
            && CreditAll(strike.value.frame, [2, 3]) == Ok(FrameData(1, Done, 0, 10, 0, 0, 15))
  {
    var strike := Roll(FreshFrame(1), frameId, playerId, PINS_PER_FRAME);
    WaitingFrameTakesOwedCredits(strike.value.frame, [2, 3]);
  }

  /** A spare, in any regular round including the last, is worth ten plus the next roll once its credit lands. */
  lemma SpareTakesOneCredit(f: FrameData, frameId: nat, playerId: nat, first: int, next: int)
    requires f == FreshFrame(f.round) && f.round != FRAMES_PER_GAME + 1
    requires 0 <= first < PINS_PER_FRAME && next <= PINS_PER_FRAME
    ensures var one := Roll(f, frameId, playerId, first);
            && one.Ok?
            && var two := Roll(one.value.frame, frameId, playerId, PINS_PER_FRAME - first);
            && two.Ok? && two.value.frame.state == WaitScore
            && CreditAll(two.value.frame, [next]).Ok?
            && CreditAll(two.value.frame, [next]).value.score == PINS_PER_FRAME + next
            && CreditAll(two.value.frame, [next]).value.state == Done
  {
    var one := Roll(f, frameId, playerId, first);
    var two := Roll(one.value.frame, frameId, playerId, PINS_PER_FRAME - first);
    WaitingFrameTakesOwedCredits(two.value.frame, [next]);
  }

  // ---------------------------------------------------------------------------------------------
  // The handler on a loaded frame object.

  /** Applies `Roll`'s outcome to a frame: the new fields and messages on success, nothing on refusal. */
  ghost predicate Applied(step: Result<Rolled>, before: FrameData, after: FrameData, r: Result<seq<Message>>)
  {
    match step
    case Ok(rolled) => r == Ok(rolled.messages) && after == rolled.frame
    case Err(e) => r == Err(e) && after == before
  }

  /** The first roll on a frame in `new`, applied in place through the frame's setters. */
  method AtNew(frame: Frame, playerId: nat, pins: int) returns (r: Result<seq<Message>>)
    requires frame.state == FrameState.New
    modifies frame
    ensures frame.id == old(frame.id) && frame.player == old(frame.player)
    ensures Applied(RollAtNew(old(frame.Data()), frame.id, playerId, pins), old(frame.Data()), frame.Data(), r)
  {
    if pins > PINS_PER_FRAME {
      return Err(InvalidRoll);
    }
    frame.SetRoll1(pins);
    var messages: seq<Message> := [];
    if frame.round == FRAMES_PER_GAME + 1 {
      frame.SetState(Done);
      messages := messages + [PlayerTurn(playerId)];
    } else if pins == PINS_PER_FRAME {
      frame.SetState(WaitScore);
      frame.SetScoreWait(if frame.round == FRAMES_PER_GAME then 1 else 2);
      messages := messages + [PlayerTurn(playerId)];
    } else {
      frame.SetState(SecondRoll);
    }
    messages := messages + [RollPropagation(frame.id, pins)];
    assert frame.Data() == RollAtNew(old(frame.Data()), frame.id, playerId, pins).value.frame;
    assert messages == RollAtNew(old(frame.Data()), frame.id, playerId, pins).value.messages;
    r := Ok(messages);
  }

  /** The second roll on a frame in `second_roll`, applied in place; a closed frame is sent one empty roll last. */
  method AtSecondStage(frame: Frame, playerId: nat, pins: int) returns (r: Result<seq<Message>>)
    requires frame.state == SecondRoll
    modifies frame
    ensures frame.id == old(frame.id) && frame.player == old(frame.player)
    ensures Applied(RollAtSecondStage(old(frame.Data()), frame.id, playerId, pins), old(frame.Data()), frame.Data(), r)
  {
    if frame.roll1 + pins > PINS_PER_FRAME {
      return Err(InvalidRoll);
    }
    frame.SetRoll2(pins);
    if frame.roll1 + frame.roll2 == PINS_PER_FRAME {
      frame.SetState(WaitScore);
      frame.SetScoreWait(1);
    } else {
      frame.SetState(Done);
    }
    var messages := [PlayerTurn(playerId), RollPropagation(frame.id, pins)];
    if frame.state == Done {
      messages := messages + [FrameRoll(frame.id, 0)];
    }
    assert frame.Data() == RollAtSecondStage(old(frame.Data()), frame.id, playerId, pins).value.frame;
    assert messages == RollAtSecondStage(old(frame.Data()), frame.id, playerId, pins).value.messages;
    r := Ok(messages);
  }

  /** A bonus credit on a frame in `wait_score`, added to its score in place. */
  method AtWait(frame: Frame, pins: int) returns (r: Result<seq<Message>>)
    requires frame.state == WaitScore
    modifies frame
    ensures frame.id == old(frame.id) && frame.player == old(frame.player)
    ensures Applied(CreditAtWait(old(frame.Data()), pins), old(frame.Data()), frame.Data(), r)
  {
    if pins > PINS_PER_FRAME {
      return Err(InvalidRoll);
    }
    if frame.scoreWait <= 0 {
      return Err(StateViolation);
    }
    frame.SetScore(frame.score + pins);
    frame.SetScoreWait(frame.scoreWait - 1);
    if frame.scoreWait == 0 {
      frame.SetState(Done);
    }
    r := Ok([]);
  }

  /**
   * The frame message handler on a loaded frame: dispatch on the frame's state, update the frame in
   * place, and return the messages to dispatch after the frame is saved, in the order produced.
   */
  method HandleFrameMessage(frame: Frame, pins: int) returns (r: Result<seq<Message>>)
    requires frame.player != null
    modifies frame
    ensures frame.id == old(frame.id) && frame.player == old(frame.player)
    ensures Applied(Roll(old(frame.Data()), frame.id, frame.player.id, pins), old(frame.Data()), frame.Data(), r)
  {
    var playerId := frame.player.id;
    match frame.state
    case New =>
      r := AtNew(frame, playerId, pins);
    case SecondRoll =>
      r := AtSecondStage(frame, playerId, pins);
    case WaitScore =>
      r := AtWait(frame, pins);
    case ThirdRoll =>
      r := Ok([]);
    case Done =>
      r := Ok([]);
  }

  // ---------------------------------------------------------------------------------------------
  // The dispatch as written compares the state with the labels 'new', 'second_stage' and 'wait'.

  /** The name the workflow stores for each place of a frame. */
  function StateName(s: FrameState): string
  {
    match s
    case New => "new"
    case SecondRoll => "second_roll"
    case ThirdRoll => "third_roll"
    case WaitScore => "wait_score"
    case Done => "done"
  }

  /** The frame message dispatch with the labels of the handler's switch, compared with the stored name. */
  function RollAsWritten(f: FrameData, frameId: nat, playerId: nat, pins: int): Result<Rolled>
  {
    var name := StateName(f.state);
    if name == "new" then RollAtNew(f, frameId, playerId, pins)
    else if name == "second_stage" then RollAtSecondStage(f, frameId, playerId, pins)
    else if name == "wait" then CreditAtWait(f, pins)
    else Ok(Rolled(f, []))
  }

  /**
   * As written, no second roll and no bonus credit ever lands: a frame rolled 2 then 3 stays in
   * `second_roll` with score 2, and a strike credited 2 keeps score 10. `Roll` maps the labels onto
   * the stored names and closes the frame with score 5, and credits the strike to 12.
   */
  lemma LabelMismatchDropsRolls(frameId: nat, playerId: nat)
    ensures var first := RollAsWritten(FreshFrame(1), frameId, playerId, 2);
            && first.Ok? && first.value.frame.state == SecondRoll
            && RollAsWritten(first.value.frame, frameId, playerId, 3) == Ok(Rolled(first.value.frame, []))
            && first.value.frame.score == 2
    ensures var strike := RollAsWritten(FreshFrame(1), frameId, playerId, 10);
            && strike.Ok? && strike.value.frame.state == WaitScore
            && RollAsWritten(strike.value.frame, frameId, playerId, 2) == Ok(Rolled(strike.value.frame, []))
    ensures var first := Roll(FreshFrame(1), frameId, playerId, 2);
            && first.Ok?
            && var second := Roll(first.value.frame, frameId, playerId, 3);
            && second.Ok? && second.value.frame.state == Done && second.value.frame.score == 5
  {
    assert StateName(SecondRoll) != "second_stage";
    assert StateName(WaitScore) != "wait";
  }

  // ---------------------------------------------------------------------------------------------
  // `atNew` and `atSecondStage` are generators, and the messages are handed to `array_walk`.

  /**
   * The frame message as the handler runs it: a generator's body runs only when the generator is
   * iterated, and `array_walk` walks an object's properties instead of iterating it. So the two
   * generator branches neither touch the frame nor dispatch anything; the credit branch, a plain
   * method, still takes effect.
   */
  function RollUnwalked(f: FrameData, frameId: nat, playerId: nat, pins: int): Result<Rolled>
  {
    match f.state
    case WaitScore => CreditAtWait(f, pins)
    case _ => Ok(Rolled(f, []))
  }

  /**
   * Unwalked, a first or second roll leaves the frame as it was and sends nothing; `Roll`, which
   * runs the generator to its end, records the roll and at least propagates it.
   */
  lemma GeneratorBranchesNeverRun(f: FrameData, frameId: nat, playerId: nat, pins: int)
    requires f.state == FrameState.New || f.state == SecondRoll
    ensures RollUnwalked(f, frameId, playerId, pins) == Ok(Rolled(f, []))
    ensures f.state == FrameState.New && pins <= PINS_PER_FRAME ==>
              var r := Roll(f, frameId, playerId, pins);
              r.Ok? && r.value.frame.roll1 == pins && r.value.frame.state != FrameState.New
              && RollPropagation(frameId, pins) in r.value.messages
  {
  }
}
