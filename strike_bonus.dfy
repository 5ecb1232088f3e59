/**
 * A strike followed by 2 and 3, played through the bus. Game 1's only player, player 1, struck in
 * frame 1 (round 1) and rolled 2 in frame 2 (round 2); that 2 has been credited, so frame 1 stands
 * at 12 and still owes one roll. The 3 that closes frame 2 tells the player before it propagates,
 * and on a first-in first-out bus the player has stopped playing by the time the propagation is
 * handled, so the frame keeps 12.
 */
module StrikeBonus {
  import opened Messages
  import opened Entities
  import opened FrameMachine
  import opened Propagation
  import opened PlayerMachine
  import opened GameMachine
  import opened Engine

  /** Frame 1 after its strike and the credit of the next frame's first roll of 2. */
  function StruckFrame(): FrameData
  {
    FrameData(1, WaitScore, 1, PINS_PER_FRAME, 0, 0, 12)
  }

  /** Frame 2 after its first roll of 2. */
  function TwoRolled(): FrameData
  {
    FrameData(2, SecondRoll, 0, 2, 0, 0, 2)
  }

  /** Frame 2 after 2 and 3. */
  function FiveRolled(): FrameData
  {
    FrameData(2, FrameState.Done, 0, 2, 3, 0, 5)
  }

  /** The store before the 3: player 1 is playing round 2 and has been scored 10 for round 1. */
  function BeforeThree(seat: int): Store
  {
    Store(map[1 := GameRec(GameState.Playing, None, [1])],
          map[1 := PlayerRec(1, PlayerData(PlayerState.Playing, 10, seat, 1), [1, 2])],
          map[1 := FrameRec(1, StruckFrame()), 2 := FrameRec(1, TwoRolled())],
          3)
  }

  /** The starting store keeps the order every delivery keeps: frames in round order, seats in order. */
  lemma ScenarioOrdered(seat: int)
    ensures Ordered(BeforeThree(seat))
  {
    var st := BeforeThree(seat);
    assert st.players[1].frames == [1, 2];
  }

  /** The store once frame 2 holds the 3 and nothing else has been handled. */
  function ThreeRolled(seat: int): Store
  {
    BeforeThree(seat).(frames := BeforeThree(seat).frames[2 := FrameRec(1, FiveRolled())])
  }

  /** The store once the player has been told its frame is over: scored, waiting, with a fresh frame 3. */
  function TurnEnded(seat: int): Store
  {
    Store(BeforeThree(seat).games,
          map[1 := PlayerRec(1, PlayerData(PlayerState.Waiting, 17, seat, 2), [1, 2, 3])],
          ThreeRolled(seat).frames[3 := FrameRec(1, FreshFrame(3))],
          4)
  }

  /** Player 1's two frames load in round order, frame 1 still owing a roll, frame 2 done. */
  lemma TwoFramesLoad(seat: int)
    ensures LoadFrames(ThreeRolled(seat), [1, 2]) == Ok([StruckFrame(), FiveRolled()])
  {
    var st := ThreeRolled(seat);
    var l := LoadFrames(st, [1, 2]);
    assert [1, 2][0] in st.frames && [1, 2][1] in st.frames;
    assert l.value[0] == StruckFrame() && l.value[1] == FiveRolled();
    assert l.value == [StruckFrame(), FiveRolled()];
  }

  /** The 3 closes frame 2: the player is told, then the roll propagated, then the frame sent an empty roll. */
  lemma ThreeClosesFrame(seat: int)
    ensures DeliverRoll(BeforeThree(seat), 2, 3)
            == Ok((ThreeRolled(seat), [PlayerTurn(1), RollPropagation(2, 3), FrameRoll(2, 0)]))
  {
    assert [PlayerTurn(1), RollPropagation(2, 3)] + [FrameRoll(2, 0)]
           == [PlayerTurn(1), RollPropagation(2, 3), FrameRoll(2, 0)];
  }

  /** The player message scores 12 + 5, moves the player to waiting and gives it the frame of round 3. */
  lemma PlayerToldFirst(seat: int)
    ensures DeliverPlayerTurn(ThreeRolled(seat), 1) == Ok((TurnEnded(seat), [GameTurn(1)]))
  {
    var st := ThreeRolled(seat);
    var fs := [StruckFrame(), FiveRolled()];
    TwoFramesLoad(seat);
    assert fs[..1] == [StruckFrame()] && fs[..1][..0] == [];
    assert SumScores(fs) == 17;
    assert LastRound(fs) == Some(2);
    var t := Turned(PlayerData(PlayerState.Waiting, 17, seat, 2), Some(3), [GameTurn(1)]);
    assert Turn(GameState.Playing, 1, PlayerData(PlayerState.Playing, 10, seat, 1), fs) == Ok(t);
    assert [1, 2] + [3] == [1, 2, 3];
    assert st.players[1 := PlayerRec(1, t.player, [1, 2, 3])] == TurnEnded(seat).players;
  }

  /** With the player waiting, the propagated 3 is refused: frame 1 is never credited with it. */
  lemma LateCreditRefused(seat: int)
    ensures DeliverPropagation(TurnEnded(seat), 2, 3) == Err(PlayerNotPlaying)
  {
    var st := TurnEnded(seat);
    assert LoadFrames(st, [1, 2, 3]).Ok?;
  }

  /** Delivered before the player message, the same propagation credits frame 1 with the 3, closing it at 15. */
  lemma CreditLandsWhilePlaying(seat: int)
    ensures DeliverPropagation(ThreeRolled(seat), 2, 3) == Ok((ThreeRolled(seat), [FrameRoll(1, 3)]))
    ensures DeliverRoll(ThreeRolled(seat), 1, 3).Ok?
    ensures DeliverRoll(ThreeRolled(seat), 1, 3).value.0.frames[1].data == FrameData(1, FrameState.Done, 0, PINS_PER_FRAME, 0, 0, 15)
  {
    var st := ThreeRolled(seat);
    var fs := [StruckFrame(), FiveRolled()];
    TwoFramesLoad(seat);
    assert Credits(fs[1..], [1, 2][1..], 2, 3) == [];
    assert Credits(fs, [1, 2], 2, 3) == [FrameRoll(1, 3)];
  }

  /** The game elects the waiting player, which starts playing with the frames it has. */
  lemma TurnHandedBack(seat: int)
    ensures DeliverGameTurn(TurnEnded(seat), 1) == Ok((TurnEnded(seat), [PlayerTurn(1)]))
    ensures DeliverPlayerTurn(TurnEnded(seat), 1).Ok?
    ensures DeliverPlayerTurn(TurnEnded(seat), 1).value.1 == []
    ensures DeliverPlayerTurn(TurnEnded(seat), 1).value.0
            == TurnEnded(seat).(players := map[1 := PlayerRec(1, PlayerData(PlayerState.Playing, 17, seat, 2), [1, 2, 3])])
  {
    var st := TurnEnded(seat);
    var p := PlayerData(PlayerState.Waiting, 17, seat, 2);
    var l := LoadPlayers(st, [1]);
    assert [1][0] in st.players;
    assert l.value[0] == p;
    assert l.value == [p];
    assert Elect([p]) == Some(0) by {
      assert [p][..0] == [];
    }
    assert st.games[1 := st.games[1]] == st.games;
    assert LoadFrames(st, [1, 2, 3]).Ok?;
  }

  /** The bus after the 3 is handled: the player message, then the propagation, then the empty roll. */
  lemma BusRollsThree(seat: int)
    ensures Step(System(BeforeThree(seat), [FrameRoll(2, 3)]))
            == System(ThreeRolled(seat), [PlayerTurn(1), RollPropagation(2, 3), FrameRoll(2, 0)])
  {
    ThreeClosesFrame(seat);
  }

  /** The bus after the player message: the propagation now waits behind the player's turn having ended. */
  lemma BusEndsTurn(seat: int)
    ensures Step(System(ThreeRolled(seat), [PlayerTurn(1), RollPropagation(2, 3), FrameRoll(2, 0)]))
            == System(TurnEnded(seat), [RollPropagation(2, 3), FrameRoll(2, 0), GameTurn(1)])
  {
    PlayerToldFirst(seat);
    assert [RollPropagation(2, 3), FrameRoll(2, 0)] + [GameTurn(1)]
           == [RollPropagation(2, 3), FrameRoll(2, 0), GameTurn(1)];
  }

  /** The bus drops the refused propagation, then the empty roll leaves the done frame as it is. */
  lemma BusDropsCredit(seat: int)
    ensures Step(System(TurnEnded(seat), [RollPropagation(2, 3), FrameRoll(2, 0), GameTurn(1)]))
            == System(TurnEnded(seat), [FrameRoll(2, 0), GameTurn(1)])
    ensures Step(System(TurnEnded(seat), [FrameRoll(2, 0), GameTurn(1)])) == System(TurnEnded(seat), [GameTurn(1)])
  {
    LateCreditRefused(seat);
    var rec := TurnEnded(seat).frames[2];
    assert TurnEnded(seat).frames[2 := rec] == TurnEnded(seat).frames;
    assert DeliverRoll(TurnEnded(seat), 2, 0) == Ok((TurnEnded(seat), []));
  }

  /** The bus hands the turn back: the game elects the player, which starts playing and sends nothing. */
  lemma BusHandsTurnBack(seat: int)
    ensures Step(System(TurnEnded(seat), [GameTurn(1)])) == System(TurnEnded(seat), [PlayerTurn(1)])
    ensures var s := Step(System(TurnEnded(seat), [PlayerTurn(1)]));
            s.queue == [] && s.store == DeliverPlayerTurn(TurnEnded(seat), 1).value.0
  {
    TurnHandedBack(seat);
  }

  /** The store the bus settles in: frame 1 unchanged, frame 2 done, the player playing round 3 on 17. */
  function Settled(seat: int): Store
  {
    TurnEnded(seat).(players := map[1 := PlayerRec(1, PlayerData(PlayerState.Playing, 17, seat, 2), [1, 2, 3])])
  }

  /** In the settled store frame 1 is as the 2 left it, frame 2 holds 5 and the player 17. */
  lemma SettledShape(seat: int)
    ensures Settled(seat).frames[1].data == StruckFrame() && Settled(seat).frames[2].data == FiveRolled()
    ensures Settled(seat).players[1].data == PlayerData(PlayerState.Playing, 17, seat, 2)
  {
  }

  /** Six deliveries empty the bus after the 3, whatever fuel beyond them is left. */
  lemma BusSettles(seat: int, s0: System, n: nat)
    requires s0 == System(BeforeThree(seat), [FrameRoll(2, 3)]) && n >= 6
    ensures Drain(s0, n) == System(Settled(seat), [])
  {
    BusRollsThree(seat);
    BusEndsTurn(seat);
    BusDropsCredit(seat);
    BusHandsTurnBack(seat);
    TurnHandedBack(seat);
    var s1 := Step(s0);
    var s2 := Step(s1);
    var s3 := Step(s2);
    var s4 := Step(s3);
    var s5 := Step(s4);
    var s6 := Step(s5);
    assert s6 == System(Settled(seat), []);
    assert Drain(s0, n) == Drain(s1, n - 1) == Drain(s2, n - 2) == Drain(s3, n - 3)
           == Drain(s4, n - 4) == Drain(s5, n - 5) == Drain(s6, n - 6) == s6;
  }

  /** Throwing the 3 on the empty bus ends in the settled store, with nothing left to deliver. */
  lemma ThrowSettles(seat: int, sys: System)
    requires sys == System(BeforeThree(seat), [])
    ensures Throw(sys, 2, 3) == System(Settled(seat), [])
  {
    var s0 := System(sys.store, sys.queue + [FrameRoll(2, 3)]);
    assert s0 == System(BeforeThree(seat), [FrameRoll(2, 3)]);
    BusSettles(seat, s0, DRAIN_LIMIT);
  }

  /**
   * Throwing the 3 through the bus settles with frame 1 still at 12 and owing a roll, and the player
   * scored 17 instead of 20; frame 2 is done and the player plays on in round 3.
   */
  lemma StrikeKeepsTwelveOnTheBus(seat: int, sys: System)
    requires sys == System(BeforeThree(seat), [])
    ensures Throw(sys, 2, 3) == System(Settled(seat), [])
    ensures var f := Settled(seat).frames;
            && f[1].data == StruckFrame() && f[1].data.score == 12 && f[1].data.state == WaitScore
            && f[2].data == FiveRolled()
    ensures Settled(seat).players[1].data == PlayerData(PlayerState.Playing, 17, seat, 2)
  {
    ThrowSettles(seat, sys);
    SettledShape(seat);
  }
}
