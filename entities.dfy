/**
 * The persisted entities of a bowling game: frames, players and games.
 * Each is an object whose setters update its fields in place; `Data()` reads the
 * scoring-relevant fields as a value, which is what the state machines reason about.
 * Back-references (frame to player, player to game) are object references, as in the source.
 */
module Entities {

  /** Pins standing at the start of a frame. */
  const PINS_PER_FRAME: int := 10
  /** Regular frames each player plays in one game. */
  const FRAMES_PER_GAME: int := 10

  /** The places of the frame workflow: `new`, `second_roll`, `third_roll`, `wait_score`, `done`. */
  datatype FrameState = New | SecondRoll | ThirdRoll | WaitScore | Done
  /** The places of the player workflow: `waiting`, `playing`, `finished`. */
  datatype PlayerState = Waiting | Playing | Finished
  /** The places of the game workflow: `new`, `playing`, `players_finished`, `finished`. */
  datatype GameState = New | Playing | PlayersFinished | Finished

  /** The scoring fields of a frame, as a value. */
  datatype FrameData = FrameData(round: int, state: FrameState, scoreWait: int,
                                 roll1: int, roll2: int, roll3: int, score: int)
  {
    /** `setRoll1`: store the first roll and add it to the running score. */
    function WithRoll1(pins: int): FrameData { this.(roll1 := pins, score := score + pins) }
    /** `setRoll2`: store the second roll and add it to the running score. */
    function WithRoll2(pins: int): FrameData { this.(roll2 := pins, score := score + pins) }
    /** `setRoll3`: store the third roll and add it to the running score. */
    function WithRoll3(pins: int): FrameData { this.(roll3 := pins, score := score + pins) }
  }

  /** A frame as created for `round`: every counter at its column default. */
  function FreshFrame(round: int): FrameData
  {
    FrameData(round, FrameState.New, 0, 0, 0, 0, 0)
  }

  /** The turn-ordering fields of a player, as a value. */
  datatype PlayerData = PlayerData(state: PlayerState, finalScore: int, position: int, lastRound: int)

  /** On a fresh frame, the two setters leave exactly the two rolls in the score. */
  lemma TwoRollsOnFreshFrame(round: int, a: int, b: int)
    ensures var f := FreshFrame(round).WithRoll1(a).WithRoll2(b);
            f.roll1 == a && f.roll2 == b && f.score == a + b && f.state == FrameState.New
  {
  }

  /** Doctrine's `add` guarded by `contains`: append `x` unless it is already present. */
  function Added<T(==)>(s: seq<T>, x: T): (r: seq<T>)
    ensures x in r && multiset(s) <= multiset(r)
    ensures forall y :: y in r ==> y in s || y == x
    ensures |s| <= |r| && r[..|s|] == s && |r| == |s| + (if x in s then 0 else 1)
  {
    if x in s then s else s + [x]
  }

  /** The position of the first occurrence of `x` in `s`. */
  function FirstIndex<T(==)>(s: seq<T>, x: T): (i: nat)
    requires x in s
    ensures i < |s| && s[i] == x && x !in s[..i]
  {
    if s[0] == x then 0
    else
      var j := FirstIndex(s[1..], x);
      assert s[..j + 1] == [s[0]] + s[1..][..j];
      j + 1
  }

  /** Only the first occurrence has no `x` before it. */
  lemma {:induction false} FirstIndexUnique<T>(s: seq<T>, x: T, i: nat)
    requires i < |s| && s[i] == x && x !in s[..i]
    ensures x in s && FirstIndex(s, x) == i
  {
    assert s[..i + 1][i] == x;
    assert s == s[..i + 1] + s[i + 1..];
    if i > 0 {
      assert s[0] == s[..i][0];
      assert s[1..][i - 1] == x && s[1..][..i - 1] == s[..i][1..];
      FirstIndexUnique(s[1..], x, i - 1);
    }
  }

  /** `s` without its element at `k`: one occurrence of that element leaves the multiset. */
  function Without<T>(s: seq<T>, k: nat): (r: seq<T>)
    requires k < |s|
    ensures multiset(r) == multiset(s) - multiset{s[k]}
  {
    assert s == s[..k] + [s[k]] + s[k + 1..];
    s[..k] + s[k + 1..]
  }

  /** Doctrine's `removeElement`: drop the first occurrence of `x`, keeping the order of the rest. */
  function Removed<T(==)>(s: seq<T>, x: T): (r: seq<T>)
    ensures multiset(r) == multiset(s) - multiset{x}
    ensures x !in s ==> r == s
    ensures forall i :: 0 <= i < |s| && s[i] == x && x !in s[..i] ==> r == s[..i] + s[i + 1..]
  {
    if x !in s then (assert multiset{x} !! multiset(s); s)
    else
      var k := FirstIndex(s, x);
      assert forall i :: 0 <= i < |s| && s[i] == x && x !in s[..i] ==> i == k by {
        forall i | 0 <= i < |s| && s[i] == x && x !in s[..i]
          ensures i == k
        {
          FirstIndexUnique(s, x, i);
        }
      }
      Without(s, k)
  }

  /** Adding an element twice is the same as adding it once. */
  lemma AddedIdempotent<T>(s: seq<T>, x: T)
    ensures Added(Added(s, x), x) == Added(s, x)
  {
  }

  /** Removing an element that was just added restores the collection. */
  lemma {:induction false} RemovedUndoesAdded<T>(s: seq<T>, x: T)
    requires x !in s
    ensures Removed(Added(s, x), x) == s
  {
    if |s| == 0 {
      assert Added(s, x) == [x];
    } else {
      assert Added(s, x) == [s[0]] + Added(s[1..], x);
      RemovedUndoesAdded(s[1..], x);
    }
  }

  /** Removing an absent element changes nothing. */
  lemma {:induction false} RemovedAbsent<T>(s: seq<T>, x: T)
    requires x !in s
    ensures Removed(s, x) == s
  {
    if |s| > 0 {
      RemovedAbsent(s[1..], x);
    }
  }

  /** The fields of each frame, in collection order. */
  function FrameDatas(fs: seq<Frame>): (ds: seq<FrameData>)
    reads fs
    ensures |ds| == |fs| && forall i :: 0 <= i < |fs| ==> ds[i] == fs[i].Data()
  {
    seq(|fs|, i requires 0 <= i < |fs| reads fs => fs[i].Data())
  }

  /** The identifier of each frame, in collection order. */
  function FrameIds(fs: seq<Frame>): (ids: seq<nat>)
    reads fs
    ensures |ids| == |fs| && forall i :: 0 <= i < |fs| ==> ids[i] == fs[i].id
  {
    seq(|fs|, i requires 0 <= i < |fs| reads fs => fs[i].id)
  }

  /** The fields of each player, in collection order. */
  function PlayerDatas(ps: seq<Player>): (ds: seq<PlayerData>)
    reads ps
    ensures |ds| == |ps| && forall i :: 0 <= i < |ps| ==> ds[i] == ps[i].Data()
  {
    seq(|ps|, i requires 0 <= i < |ps| reads ps => ps[i].Data())
  }

  /** The identifier of each player, in collection order. */
  function PlayerIds(ps: seq<Player>): (ids: seq<nat>)
    reads ps
    ensures |ids| == |ps| && forall i :: 0 <= i < |ps| ==> ids[i] == ps[i].id
  {
    seq(|ps|, i requires 0 <= i < |ps| reads ps => ps[i].id)
  }

  class Frame {
    var id: nat
    var round: int
    var state: FrameState
    var scoreWait: int
    var roll1: int
    var roll2: int
    var roll3: int
    var score: int
    var player: Player?

    /** `new Frame()` followed by `setRound(round)`, as every creation site does; `id` is the storage identifier. */
    constructor (id: nat, round: int)
      ensures this.id == id && this.round == round && player == null
      ensures state == FrameState.New && scoreWait == 0
      ensures roll1 == 0 && roll2 == 0 && roll3 == 0 && score == 0
    {
      this.id := id;
      this.round := round;
      state := FrameState.New;
      scoreWait := 0;
      roll1, roll2, roll3 := 0, 0, 0;
      score := 0;
      player := null;
    }

    function Data(): FrameData
      reads this
    {
      FrameData(round, state, scoreWait, roll1, roll2, roll3, score)
    }

    method SetRound(round: int)
      modifies this`round
      ensures this.round == round
    {
      this.round := round;
    }

    /** The workflow's `apply` writes the new place into the frame. */
    method SetState(state: FrameState)
      modifies this`state
      ensures this.state == state
    {
      this.state := state;
    }

    method SetScoreWait(scoreWait: int)
      modifies this`scoreWait
      ensures this.scoreWait == scoreWait
    {
      this.scoreWait := scoreWait;
    }

    method SetRoll1(pins: int)
      modifies this`roll1, this`score
      ensures roll1 == pins && score == old(score) + pins
      ensures Data() == old(Data()).WithRoll1(pins)
    {
      roll1 := pins;
      score := score + pins;
    }

    method SetRoll2(pins: int)
      modifies this`roll2, this`score
      ensures roll2 == pins && score == old(score) + pins
      ensures Data() == old(Data()).WithRoll2(pins)
    {
      roll2 := pins;
      score := score + pins;
    }

    method SetRoll3(pins: int)
      modifies this`roll3, this`score
      ensures roll3 == pins && score == old(score) + pins
      ensures Data() == old(Data()).WithRoll3(pins)
    {
      roll3 := pins;
      score := score + pins;
    }

    /** Overwrites the running score; no other field changes (the frame says so). */
    method SetScore(score: int)
      modifies this`score
      ensures this.score == score
    {
      this.score := score;
    }

    method SetPlayer(player: Player?)
      modifies this`player
      ensures this.player == player
    {
      this.player := player;
    }
  }

  class Player {
    var id: nat
    var state: PlayerState
    var finalScore: int
    var position: int
    var lastRound: int
    var game: Game?
    var frames: seq<Frame>

    /**
     * `new Player()`: waiting, no score, no frames. The source leaves the position null until the
     * player is persisted and seated; position 0 stands for that unseated null here.
     */
    constructor (id: nat)
      ensures this.id == id && game == null && frames == []
      ensures state == PlayerState.Waiting && finalScore == 0 && lastRound == 0 && position == 0
    {
      this.id := id;
      state := PlayerState.Waiting;
      finalScore := 0;
      position := 0;
      lastRound := 0;
      game := null;
      frames := [];
    }

    function Data(): PlayerData
      reads this
    {
      PlayerData(state, finalScore, position, lastRound)
    }

    /** Frames are kept in round order, one per round, starting at round 1. */
    ghost predicate FramesInRoundOrder()
      reads this, frames
    {
      forall i :: 0 <= i < |frames| ==> frames[i].round == i + 1
    }

    /** The workflow's `apply` writes the new place into the player. */
    method SetState(state: PlayerState)
      modifies this`state
      ensures this.state == state
    {
      this.state := state;
    }

    method SetFinalScore(finalScore: int)
      modifies this`finalScore
      ensures this.finalScore == finalScore
    {
      this.finalScore := finalScore;
    }

    method SetLastRound(lastRound: int)
      modifies this`lastRound
      ensures this.lastRound == lastRound
    {
      this.lastRound := lastRound;
    }

    method SetGame(game: Game?)
      modifies this`game
      ensures this.game == game
    {
      this.game := game;
    }

    /** Appends `f` only when it is not there yet, and then points it back at this player. */
    method AddFrame(f: Frame)
      modifies this`frames, f`player
      ensures frames == Added(old(frames), f)
      ensures f.player == if f in old(frames) then old(f.player) else this
    {
      if f !in frames {
        frames := frames + [f];
        f.SetPlayer(this);
      }
    }

    /** Removes `f` if present; its back-reference is cleared only when it still points here. */
    method RemoveFrame(f: Frame)
      modifies this`frames, f`player
      ensures frames == Removed(old(frames), f)
      ensures f.player == if f in old(frames) && old(f.player) == this then null else old(f.player)
    {
      if f in frames {
        frames := Removed(frames, f);
        if f.player == this {
          f.SetPlayer(null);
        }
      } else {
        RemovedAbsent(frames, f);
      }
    }

    /** The pre-persist hook: the seat is the number of players the game already has. */
    method SetPositionValue()
      requires game != null
      modifies this`position
      ensures position == |game.players|
    {
      position := |game.players|;
    }
  }

  class Game {
    var id: nat
    var state: GameState
    var players: seq<Player>
    var winner: Player?

    /** `new Game()`: state `new`, no players, no winner. */
    constructor (id: nat)
      ensures this.id == id && state == GameState.New && players == [] && winner == null
    {
      this.id := id;
      state := GameState.New;
      players := [];
      winner := null;
    }

    /** Players are kept in seat order: the player at index `i` holds position `i`. */
    ghost predicate SeatedInOrder()
      reads this, players
    {
      forall i :: 0 <= i < |players| ==> players[i].position == i
    }

    /** The workflow's `apply` writes the new place into the game. */
    method SetState(state: GameState)
      modifies this`state
      ensures this.state == state
    {
      this.state := state;
    }

    /** Changes the winner and nothing else. */
    method SetWinnerPlayer(winner: Player?)
      modifies this`winner
      ensures this.winner == winner
    {
      this.winner := winner;
    }

    /** Appends `p` only when it is not there yet, and then points it at this game. */
    method AddPlayer(p: Player)
      modifies this`players, p`game
      ensures players == Added(old(players), p)
      ensures p.game == if p in old(players) then old(p.game) else this
    {
      if p !in players {
        players := players + [p];
        p.SetGame(this);
      }
    }

    /** Removes `p` if present; its game is cleared only when it still points here. */
    method RemovePlayer(p: Player)
      modifies this`players, p`game
      ensures players == Removed(old(players), p)
      ensures p.game == if p in old(players) && old(p.game) == this then null else old(p.game)
    {
      if p in players {
        players := Removed(players, p);
        if p.game == this {
          p.SetGame(null);
        }
      } else {
        RemovedAbsent(players, p);
      }
    }
  }

  /**
   * Seating a new player: `setGame`, then the pre-persist `setPositionValue`, then `addPlayer`.
   * The new player takes the next seat, so the players stay in seat order.
   */
  method Join(game: Game, player: Player)
    requires game.SeatedInOrder() && player !in game.players
    modifies game`players, player`game, player`position
    ensures game.players == old(game.players) + [player] && player.game == game
    ensures player.position == old(|game.players|)
    ensures game.SeatedInOrder()
  {
    player.SetGame(game);
    player.SetPositionValue();
    game.AddPlayer(player);
  }
}
