/**
 * Score propagation: a roll on one frame is credited to the player's earlier frames that still
 * owe bonus pins, one credit message per such frame.
 */
module Propagation {
  import opened Messages
  import opened Entities

  /** A frame still owes bonus pins to a roll made in round `sourceRound`. */
  predicate OwesBonus(f: FrameData, sourceRound: int)
  {
    f.round < sourceRound && f.state == WaitScore && f.scoreWait > 0
  }

  /** One credit of `pins` for each frame that owes bonus to the source roll, in the player's frame order. */
  function Credits(frames: seq<FrameData>, ids: seq<nat>, sourceRound: int, pins: int): (ms: seq<Message>)
    requires |frames| == |ids|
    ensures |ms| <= |frames|
    ensures forall m :: m in ms ==> m.FrameRoll? && m.pins == pins
    decreases |frames|
  {
    if |frames| == 0 then []
    else
      var head := if OwesBonus(frames[0], sourceRound) then [FrameRoll(ids[0], pins)] else [];
      head + Credits(frames[1..], ids[1..], sourceRound, pins)
  }

  /** Credits keep the frames' order: those of a concatenation are the concatenation of the credits. */
  lemma {:induction false} CreditsConcat(a: seq<FrameData>, ia: seq<nat>, b: seq<FrameData>, ib: seq<nat>,
                                        sourceRound: int, pins: int)
    requires |a| == |ia| && |b| == |ib|
    ensures Credits(a + b, ia + ib, sourceRound, pins)
            == Credits(a, ia, sourceRound, pins) + Credits(b, ib, sourceRound, pins)
    decreases |a|
  {
    if |a| == 0 {
      assert a + b == b && ia + ib == ib;
    } else {
      var head := if OwesBonus(a[0], sourceRound) then [FrameRoll(ia[0], pins)] else [];
      assert (a + b)[0] == a[0] && (ia + ib)[0] == ia[0];
      assert (a + b)[1..] == a[1..] + b && (ia + ib)[1..] == ia[1..] + ib;
      CreditsConcat(a[1..], ia[1..], b, ib, sourceRound, pins);
      calc {
        Credits(a + b, ia + ib, sourceRound, pins);
        head + Credits(a[1..] + b, ia[1..] + ib, sourceRound, pins);
        head + (Credits(a[1..], ia[1..], sourceRound, pins) + Credits(b, ib, sourceRound, pins));
        (head + Credits(a[1..], ia[1..], sourceRound, pins)) + Credits(b, ib, sourceRound, pins);
      }
    }
  }

  /** Every credit goes to a frame that owes bonus to the source roll. */
  lemma {:induction false} CreditedOnlyIfOwing(frames: seq<FrameData>, ids: seq<nat>, sourceRound: int, pins: int, m: Message)
    requires |frames| == |ids|
    requires m in Credits(frames, ids, sourceRound, pins)
    ensures exists k :: 0 <= k < |frames| && OwesBonus(frames[k], sourceRound) && m == FrameRoll(ids[k], pins)
    decreases |frames|
  {
    var head := if OwesBonus(frames[0], sourceRound) then [FrameRoll(ids[0], pins)] else [];
    if m !in head {
      CreditedOnlyIfOwing(frames[1..], ids[1..], sourceRound, pins, m);
      var k :| 0 <= k < |frames| - 1 && OwesBonus(frames[1..][k], sourceRound) && m == FrameRoll(ids[1..][k], pins);
      assert frames[k + 1] == frames[1..][k] && ids[k + 1] == ids[1..][k];
    }
  }

  /** Every frame that owes bonus to the source roll is credited. */
  lemma {:induction false} OwingIsCredited(frames: seq<FrameData>, ids: seq<nat>, sourceRound: int, pins: int, k: nat)
    requires |frames| == |ids| && k < |frames|
    requires OwesBonus(frames[k], sourceRound)
    ensures FrameRoll(ids[k], pins) in Credits(frames, ids, sourceRound, pins)
    decreases k
  {
    if k > 0 {
      OwingIsCredited(frames[1..], ids[1..], sourceRound, pins, k - 1);
    }
  }

  /**
   * With distinct frame ids, a frame is credited exactly when it owes bonus to the source roll;
   * in particular the source frame itself (whose round is not below its own) is never credited.
   */
  lemma CreditedIffOwing(frames: seq<FrameData>, ids: seq<nat>, sourceRound: int, pins: int, k: nat)
    requires |frames| == |ids| && k < |frames|
    requires forall i, j :: 0 <= i < j < |ids| ==> ids[i] != ids[j]
    ensures FrameRoll(ids[k], pins) in Credits(frames, ids, sourceRound, pins) <==> OwesBonus(frames[k], sourceRound)
    ensures frames[k].round >= sourceRound ==> FrameRoll(ids[k], pins) !in Credits(frames, ids, sourceRound, pins)
  {
    if FrameRoll(ids[k], pins) in Credits(frames, ids, sourceRound, pins) {
      CreditedOnlyIfOwing(frames, ids, sourceRound, pins, FrameRoll(ids[k], pins));
    }
    if OwesBonus(frames[k], sourceRound) {
      OwingIsCredited(frames, ids, sourceRound, pins, k);
    }
  }

  /** When no frame owes bonus, nothing is credited. */
  lemma NothingOwedNothingCredited(frames: seq<FrameData>, ids: seq<nat>, sourceRound: int, pins: int)
    requires |frames| == |ids|
    requires forall i :: 0 <= i < |frames| ==> !OwesBonus(frames[i], sourceRound)
    ensures Credits(frames, ids, sourceRound, pins) == []
  {
    var ms := Credits(frames, ids, sourceRound, pins);
    if ms != [] {
      CreditedOnlyIfOwing(frames, ids, sourceRound, pins, ms[0]);
    }
  }

  /**
   * The propagation handler on the loaded state: too many pins are refused before anything else,
   * then a game or player that is not playing; otherwise the credits are the only effect.
   */
  function Propagate(pins: int, gameState: GameState, playerState: PlayerState,
                     frames: seq<FrameData>, ids: seq<nat>, sourceRound: int): (r: Result<seq<Message>>)
    requires |frames| == |ids|
    ensures pins > PINS_PER_FRAME ==> r == Err(InvalidRoll)
    ensures r.Ok? <==> pins <= PINS_PER_FRAME && gameState == GameState.Playing && playerState == PlayerState.Playing
    ensures r.Ok? ==> r.value == Credits(frames, ids, sourceRound, pins)
  {
    if pins > PINS_PER_FRAME then Err(InvalidRoll)
    else if gameState != GameState.Playing then Err(GameNotRunning)
    else if playerState != PlayerState.Playing then Err(PlayerNotPlaying)
    else Ok(Credits(frames, ids, sourceRound, pins))
  }

  /**
   * A strike rolled after two pending strikes credits both of them: the one before it (still owed
   * two rolls) and the one before that (owed its last roll), oldest first.
   */
  lemma StrikeCreditsTwoPendingFrames(ids: seq<nat>)
    requires |ids| == 3
    ensures var frames := [FrameData(1, WaitScore, 1, 10, 0, 0, 20),
                           FrameData(2, WaitScore, 2, 10, 0, 0, 10),
                           FreshFrame(3).WithRoll1(10).(state := WaitScore, scoreWait := 2)];
            Credits(frames, ids, 3, 10) == [FrameRoll(ids[0], 10), FrameRoll(ids[1], 10)]
  {
    var frames := [FrameData(1, WaitScore, 1, 10, 0, 0, 20),
                   FrameData(2, WaitScore, 2, 10, 0, 0, 10),
                   FreshFrame(3).WithRoll1(10).(state := WaitScore, scoreWait := 2)];
    assert Credits(frames[2..], ids[2..], 3, 10) == [];
    assert Credits(frames[1..], ids[1..], 3, 10) == [FrameRoll(ids[1], 10)];
  }

  /**
   * The propagation handler on a loaded frame: it reads the frame's player, the player's game and
   * the player's frames, writes nothing, and returns the credit messages in frame order.
   */
  method HandlePropagation(frame: Frame, pins: int) returns (r: Result<seq<Message>>)
    requires frame.player != null && frame.player.game != null
    ensures r == Propagate(pins, frame.player.game.state, frame.player.state,
                           FrameDatas(frame.player.frames), FrameIds(frame.player.frames), frame.round)
  {
    if pins > PINS_PER_FRAME {
      return Err(InvalidRoll);
    }
    var player := frame.player;
    if player.game.state != GameState.Playing {
      return Err(GameNotRunning);
    } else if player.state != PlayerState.Playing {
      return Err(PlayerNotPlaying);
    }
    var frames := player.frames;
    var messages: seq<Message> := [];
    for i := 0 to |frames|
      invariant messages == Credits(FrameDatas(frames[..i]), FrameIds(frames[..i]), frame.round, pins)
    {
      var candidate := frames[i];
      assert FrameDatas(frames[..i + 1]) == FrameDatas(frames[..i]) + [candidate.Data()];
      assert FrameIds(frames[..i + 1]) == FrameIds(frames[..i]) + [candidate.id];
      CreditsConcat(FrameDatas(frames[..i]), FrameIds(frames[..i]), [candidate.Data()], [candidate.id], frame.round, pins);
      if OwesBonus(candidate.Data(), frame.round) {
        messages := messages + [FrameRoll(candidate.id, pins)];
      }
    }
    assert frames[..|frames|] == frames;
    r := Ok(messages);
  }
}
