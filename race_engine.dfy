/**
 * The race engine of the car racing game: the player records, the advantage
 * drawn on each turn, a single turn, and the whole race as a reference
 * function.  The class in game.dfy runs the race with loops and is proved
 * to compute exactly what RaceFrom describes here.
 */
module RaceEngine {

  /** One entry of currentPlayers: the player number shown in the table and the score. */
  datatype Player = Player(playerNumber: int, score: int)

  /**
   * The result of a race: the players as they stand when the loop stops,
   * the index (in turn order) of the winner, and the number of advantages
   * drawn so far (the turn counter).
   */
  datatype Outcome = Outcome(players: seq<Player>, winner: nat, turns: nat)

  /** random(k) is the k-th value returned by Math.random(), which lies in [0, 1). */
  ghost predicate IsRandomStream(random: nat -> real)
  {
    forall k: nat :: 0.0 <= random(k) < 1.0
  }

  /**
   * calculateCarAdvantage: floor(r * 10) + 1.  The result is an integer in
   * [1, 10], and each of the ten values is drawn from an interval of width
   * one tenth of [0, 1).
   */
  function CarAdvantage(r: real): (a: int)
    requires 0.0 <= r < 1.0
    ensures 1 <= a <= 10
    ensures (a - 1) as real <= r * 10.0 < a as real
  {
    (r * 10.0).Floor + 1
  }

  /**
   * The new score of the player whose turn it is: the old score plus the
   * advantage, clamped to scoreToWin.  The result is the smaller of the two.
   */
  function TurnScore(score: int, advantage: int, scoreToWin: int): (r: int)
    ensures r <= scoreToWin && r <= score + advantage
    ensures r == scoreToWin || r == score + advantage
    ensures score <= scoreToWin && 0 <= advantage ==> score <= r
  {
    if score + advantage > scoreToWin then scoreToWin else score + advantage
  }

  /** One turn of player i: only that player's score changes. */
  function Turn(ps: seq<Player>, i: nat, advantage: int, scoreToWin: int): (qs: seq<Player>)
    requires i < |ps|
    ensures |qs| == |ps|
    ensures qs[i].playerNumber == ps[i].playerNumber
    ensures qs[i].score == TurnScore(ps[i].score, advantage, scoreToWin)
    ensures qs[i].score <= scoreToWin
    ensures forall j :: 0 <= j < |ps| && j != i ==> qs[j] == ps[j]
  {
    ps[i := ps[i].(score := TurnScore(ps[i].score, advantage, scoreToWin))]
  }

  /** How far a player still is from the target (0 once it is reached). */
  function Gap(p: Player, scoreToWin: int): nat
  {
    if p.score < scoreToWin then scoreToWin - p.score else 0
  }

  /** The sum of the remaining distances to the target: the race's termination measure. */
  function Distance(ps: seq<Player>, scoreToWin: int): nat
  {
    if ps == [] then 0 else Gap(ps[0], scoreToWin) + Distance(ps[1..], scoreToWin)
  }

  /** Replacing one player changes the measure by the difference of the two gaps only. */
  lemma {:induction false} DistanceUpdate(ps: seq<Player>, i: nat, p: Player, scoreToWin: int)
    requires i < |ps|
    ensures Distance(ps[i := p], scoreToWin)
            == Distance(ps, scoreToWin) - Gap(ps[i], scoreToWin) + Gap(p, scoreToWin)
  {
    if i > 0 {
      assert ps[i := p][1..] == ps[1..][i - 1 := p];
      DistanceUpdate(ps[1..], i - 1, p, scoreToWin);
    } else {
      assert ps[i := p][1..] == ps[1..];
    }
  }

  /** Each player's gap is part of the measure. */
  lemma {:induction false} GapWithinDistance(ps: seq<Player>, i: nat, scoreToWin: int)
    requires i < |ps|
    ensures Gap(ps[i], scoreToWin) <= Distance(ps, scoreToWin)
  {
    if i > 0 {
      GapWithinDistance(ps[1..], i - 1, scoreToWin);
    }
  }

  /** When every score is 0 the measure is the number of players times max(scoreToWin, 0). */
  lemma {:induction false} DistanceAllZero(ps: seq<Player>, scoreToWin: int)
    requires forall j :: 0 <= j < |ps| ==> ps[j].score == 0
    ensures Distance(ps, scoreToWin) == |ps| * (if scoreToWin > 0 then scoreToWin else 0)
  {
    if ps != [] {
      DistanceAllZero(ps[1..], scoreToWin);
    }
  }

  /**
   * The race from the turn of player i, with k advantages already drawn:
   * the player draws, moves (clamped), and the race stops at once if the
   * player has reached scoreToWin; otherwise the next player in turn order
   * (wrapping round to the first after the last) takes the next turn.
   */
  function RaceFrom(ps: seq<Player>, i: nat, k: nat, scoreToWin: int, random: nat -> real): (o: Outcome)
    requires i < |ps|
    requires IsRandomStream(random)
    ensures |o.players| == |ps| && o.winner < |ps|
    decreases Distance(ps, scoreToWin)
  {
    var qs := Turn(ps, i, CarAdvantage(random(k)), scoreToWin);
    if qs[i].score >= scoreToWin then
      Outcome(qs, i, k + 1)
    else
      DistanceUpdate(ps, i, qs[i], scoreToWin);
      RaceFrom(qs, Next(i, |ps|), k + 1, scoreToWin, random)
  }

  /**
   * Unconditional play of m turns from the turn of player i, ignoring the
   * target: the trajectory a race follows until it stops.
   */
  function PlayTurns(ps: seq<Player>, i: nat, k: nat, scoreToWin: int, random: nat -> real, m: nat): (qs: seq<Player>)
    requires i < |ps|
    requires IsRandomStream(random)
    ensures |qs| == |ps|
    decreases m
  {
    if m == 0 then ps
    else PlayTurns(Turn(ps, i, CarAdvantage(random(k)), scoreToWin), Next(i, |ps|), k + 1, scoreToWin, random, m - 1)
  }

  /** The turn order: the next player after i, wrapping round to the first after the last. */
  function Next(i: nat, n: nat): (j: nat)
    requires i < n
    ensures j < n
    ensures j == 0 <==> i == n - 1
    ensures j != 0 ==> j == i + 1
  {
    if i + 1 < n then i + 1 else 0
  }

  /** The index of the player who takes turn t (counting from 0) when play starts with player i. */
  function MoverOf(i: nat, n: nat, t: nat): (j: nat)
    requires i < n
    ensures j < n
  {
    if t == 0 then i else Next(MoverOf(i, n, t - 1), n)
  }

  /** Starting one player later is the same as starting one turn later. */
  lemma {:induction false} MoverOfShift(i: nat, n: nat, t: nat)
    requires i < n
    ensures MoverOf(Next(i, n), n, t) == MoverOf(i, n, t + 1)
  {
    if t > 0 {
      MoverOfShift(i, n, t - 1);
    }
  }

  /** If player j moves at turn t of play that starts with the first player, a round began at turn t - j. */
  lemma {:induction false} RoundStart(n: nat, t: nat, j: nat)
    requires 0 < n
    requires MoverOf(0, n, t) == j
    ensures j <= t && MoverOf(0, n, t - j) == 0
  {
    if j > 0 {
      RoundStart(n, t - 1, j - 1);
    }
  }

  /**
   * When the race stops, the winner sits at scoreToWin, at least one turn
   * was played, and no player was added or renumbered.
   */
  lemma {:induction false} RaceEndsAtTarget(ps: seq<Player>, i: nat, k: nat, scoreToWin: int, random: nat -> real)
    requires i < |ps|
    requires IsRandomStream(random)
    ensures var o := RaceFrom(ps, i, k, scoreToWin, random);
      && |o.players| == |ps|
      && o.winner < |ps|
      && o.players[o.winner].score == scoreToWin
      && o.turns > k
      && (forall j :: 0 <= j < |ps| ==> o.players[j].playerNumber == ps[j].playerNumber)
    decreases Distance(ps, scoreToWin)
  {
    var qs := Turn(ps, i, CarAdvantage(random(k)), scoreToWin);
    if qs[i].score < scoreToWin {
      DistanceUpdate(ps, i, qs[i], scoreToWin);
      RaceEndsAtTarget(qs, Next(i, |ps|), k + 1, scoreToWin, random);
    }
  }

  /** If nobody has reached the target when the race starts, every player but the winner ends strictly below it. */
  lemma {:induction false} RaceLeavesOthersBelow(ps: seq<Player>, i: nat, k: nat, scoreToWin: int, random: nat -> real)
    requires i < |ps|
    requires IsRandomStream(random)
    requires forall j :: 0 <= j < |ps| ==> ps[j].score < scoreToWin
    ensures var o := RaceFrom(ps, i, k, scoreToWin, random);
      |o.players| == |ps| &&
      forall j :: 0 <= j < |ps| && j != o.winner ==> o.players[j].score < scoreToWin
    decreases Distance(ps, scoreToWin)
  {
    var qs := Turn(ps, i, CarAdvantage(random(k)), scoreToWin);
    if qs[i].score < scoreToWin {
      DistanceUpdate(ps, i, qs[i], scoreToWin);
      RaceLeavesOthersBelow(qs, Next(i, |ps|), k + 1, scoreToWin, random);
    }
  }

  /** No score goes down during a race and none ends above the target, as long as none started above it. */
  lemma {:induction false} RaceNeverLowersScores(ps: seq<Player>, i: nat, k: nat, scoreToWin: int, random: nat -> real)
    requires i < |ps|
    requires IsRandomStream(random)
    requires forall j :: 0 <= j < |ps| ==> ps[j].score <= scoreToWin
    ensures var o := RaceFrom(ps, i, k, scoreToWin, random);
      |o.players| == |ps| &&
      forall j :: 0 <= j < |ps| ==> ps[j].score <= o.players[j].score <= scoreToWin
    decreases Distance(ps, scoreToWin)
  {
    var qs := Turn(ps, i, CarAdvantage(random(k)), scoreToWin);
    if qs[i].score < scoreToWin {
      DistanceUpdate(ps, i, qs[i], scoreToWin);
      RaceNeverLowersScores(qs, Next(i, |ps|), k + 1, scoreToWin, random);
    }
  }

  /**
   * Every turn that does not end the race takes at least one point off the
   * measure, so the race stops within max(Distance, 1) turns.
   */
  lemma {:induction false} RaceTurnBound(ps: seq<Player>, i: nat, k: nat, scoreToWin: int, random: nat -> real)
    requires i < |ps|
    requires IsRandomStream(random)
    ensures var o := RaceFrom(ps, i, k, scoreToWin, random);
      var d := Distance(ps, scoreToWin);
      k < o.turns <= k + (if d == 0 then 1 else d)
    decreases Distance(ps, scoreToWin)
  {
    var qs := Turn(ps, i, CarAdvantage(random(k)), scoreToWin);
    if qs[i].score < scoreToWin {
      DistanceUpdate(ps, i, qs[i], scoreToWin);
      GapWithinDistance(qs, i, scoreToWin);
      RaceTurnBound(qs, Next(i, |ps|), k + 1, scoreToWin, random);
    }
  }

  /**
   * A race with n >= 1 fresh players (all scores 0) stops within
   * n * max(scoreToWin, 1) turns.
   */
  lemma FreshRaceTurnBound(ps: seq<Player>, scoreToWin: int, random: nat -> real)
    requires |ps| >= 1
    requires IsRandomStream(random)
    requires forall j :: 0 <= j < |ps| ==> ps[j].score == 0
    ensures 1 <= RaceFrom(ps, 0, 0, scoreToWin, random).turns <= |ps| * (if scoreToWin > 1 then scoreToWin else 1)
  {
    RaceTurnBound(ps, 0, 0, scoreToWin, random);
    DistanceAllZero(ps, scoreToWin);
    if scoreToWin > 1 {
      assert |ps| * scoreToWin >= scoreToWin;
    }
  }

  /**
   * The race stops at the first turn whose mover reaches the target: its
   * final state is the trajectory after o.turns - k turns, the winner is
   * the player who took the last of them, and in every earlier state of the
   * trajectory all scores are below the target.
   */
  lemma {:induction false} RaceIsFirstHit(ps: seq<Player>, i: nat, k: nat, scoreToWin: int, random: nat -> real)
    requires i < |ps|
    requires IsRandomStream(random)
    requires forall j :: 0 <= j < |ps| ==> ps[j].score < scoreToWin
    ensures var o := RaceFrom(ps, i, k, scoreToWin, random);
      var m := o.turns - k;
      && o.turns > k
      && o.players == PlayTurns(ps, i, k, scoreToWin, random, m)
      && o.winner == MoverOf(i, |ps|, m - 1)
      && (forall m', j :: 0 <= m' < m && 0 <= j < |ps| ==> PlayTurns(ps, i, k, scoreToWin, random, m')[j].score < scoreToWin)
    decreases Distance(ps, scoreToWin)
  {
    var n := |ps|;
    var qs := Turn(ps, i, CarAdvantage(random(k)), scoreToWin);
    var o := RaceFrom(ps, i, k, scoreToWin, random);
    if qs[i].score >= scoreToWin {
      assert PlayTurns(ps, i, k, scoreToWin, random, 1) == PlayTurns(qs, Next(i, n), k + 1, scoreToWin, random, 0);
    } else {
      DistanceUpdate(ps, i, qs[i], scoreToWin);
      var i' := Next(i, n);
      RaceIsFirstHit(qs, i', k + 1, scoreToWin, random);
      assert o == RaceFrom(qs, i', k + 1, scoreToWin, random);
      var m := o.turns - k;
      MoverOfShift(i, n, m - 2);
      forall m', j | 0 <= m' < m && 0 <= j < n
        ensures PlayTurns(ps, i, k, scoreToWin, random, m')[j].score < scoreToWin
      {
        if m' > 0 {
          assert PlayTurns(ps, i, k, scoreToWin, random, m') == PlayTurns(qs, i', k + 1, scoreToWin, random, m' - 1);
        }
      }
    }
  }

  /** Playing a + b turns is playing a turns and then b more from where they left off. */
  lemma {:induction false} PlayTurnsSplit(ps: seq<Player>, i: nat, k: nat, scoreToWin: int, random: nat -> real, a: nat, b: nat)
    requires i < |ps|
    requires IsRandomStream(random)
    ensures PlayTurns(ps, i, k, scoreToWin, random, a + b)
         == PlayTurns(PlayTurns(ps, i, k, scoreToWin, random, a), MoverOf(i, |ps|, a), k + a, scoreToWin, random, b)
    decreases a
  {
    if a > 0 {
      var qs := Turn(ps, i, CarAdvantage(random(k)), scoreToWin);
      PlayTurnsSplit(qs, Next(i, |ps|), k + 1, scoreToWin, random, a - 1, b);
      assert a + b - 1 == (a - 1) + b;
      MoverOfShift(i, |ps|, a - 1);
    }
  }

  /** Playing the players i .. i+m-1 of a round leaves every later player untouched. */
  lemma {:induction false} PlayTurnsLeavesLater(ps: seq<Player>, i: nat, k: nat, scoreToWin: int, random: nat -> real, m: nat)
    requires i < |ps| && i + m <= |ps|
    requires IsRandomStream(random)
    ensures forall j :: i + m <= j < |ps| ==> PlayTurns(ps, i, k, scoreToWin, random, m)[j] == ps[j]
    decreases m
  {
    if m > 0 {
      var qs := Turn(ps, i, CarAdvantage(random(k)), scoreToWin);
      if i + 1 < |ps| {
        PlayTurnsLeavesLater(qs, i + 1, k + 1, scoreToWin, random, m - 1);
      } else {
        assert m == 1;
      }
    }
  }

  /**
   * A race that starts with the first player: the final round begins with
   * the first player winner + 1 turns before the end and is cut short at the
   * winner, so every player after the winner keeps the score they had when
   * the previous round ended.
   */
  lemma FinalRoundStopsAtWinner(ps: seq<Player>, scoreToWin: int, random: nat -> real)
    requires |ps| >= 1
    requires IsRandomStream(random)
    requires forall j :: 0 <= j < |ps| ==> ps[j].score < scoreToWin
    ensures var o := RaceFrom(ps, 0, 0, scoreToWin, random);
      && |o.players| == |ps|
      && o.winner < o.turns
      && var lastRound := o.turns - 1 - o.winner;
      && MoverOf(0, |ps|, lastRound) == 0
      && forall j :: o.winner < j < |ps| ==>
           o.players[j] == PlayTurns(ps, 0, 0, scoreToWin, random, lastRound)[j]
  {
    var n := |ps|;
    var o := RaceFrom(ps, 0, 0, scoreToWin, random);
    RaceIsFirstHit(ps, 0, 0, scoreToWin, random);
    RoundStart(n, o.turns - 1, o.winner);
    var lastRound := o.turns - 1 - o.winner;
    PlayTurnsSplit(ps, 0, 0, scoreToWin, random, lastRound, o.winner + 1);
    assert lastRound + (o.winner + 1) == o.turns;
    var start := PlayTurns(ps, 0, 0, scoreToWin, random, lastRound);
    PlayTurnsLeavesLater(start, 0, lastRound, scoreToWin, random, o.winner + 1);
  }
}
