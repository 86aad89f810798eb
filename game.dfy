/**
 * The page's global state and the operations that change it: the started
 * flag and the two form buttons it controls, the roster currentPlayers,
 * the race loop, and the rows of the results table.  Element creation,
 * car animation and cell text are presentation and are not modelled.
 */
module Game {
  import opened RaceEngine
  import opened Ranking

  /** Players 1 .. n, in turn order, each with score 0. */
  function Roster(n: nat): (r: seq<Player>)
    ensures |r| == n
    ensures forall i :: 0 <= i < n ==> r[i] == Player(i + 1, 0)
  {
    if n == 0 then [] else Roster(n - 1) + [Player(n, 0)]
  }

  /** One more entry of s makes that entry the new first row of the reversal. */
  lemma ReversedPrefixStep(s: seq<Player>, i: nat)
    requires i < |s|
    ensures Reversed(s[..i + 1]) == [s[i]] + Reversed(s[..i])
  {
  }

  /**
   * In a game started with n >= 1 players, every score shown in the results
   * table lies between 0 and scoreToWin when scoreToWin is not negative.
   */
  lemma FreshGameScoresInRange(n: nat, scoreToWin: int, random: nat -> real)
    requires n >= 1
    requires IsRandomStream(random)
    requires scoreToWin >= 0
    ensures var o := RaceFrom(Roster(n), 0, 0, scoreToWin, random);
      var rows := Reversed(SortByScore(o.players));
      |rows| == n && forall j :: 0 <= j < n ==> 0 <= rows[j].score <= scoreToWin
  {
    var roster := Roster(n);
    RaceNeverLowersScores(roster, 0, 0, scoreToWin, random);
    var o := RaceFrom(roster, 0, 0, scoreToWin, random);
    TableScoresWithin(o.players, 0, scoreToWin);
  }

  /**
   * In a game started with n >= 1 players and a positive scoreToWin, the
   * first row of the results table is the winner, and every other row
   * scores strictly less than scoreToWin.
   */
  lemma FreshGameWinnerOnTop(n: nat, scoreToWin: int, random: nat -> real)
    requires n >= 1
    requires IsRandomStream(random)
    requires scoreToWin >= 1
    ensures var o := RaceFrom(Roster(n), 0, 0, scoreToWin, random);
      var rows := Reversed(SortByScore(o.players));
      && o.winner < n && |rows| == n
      && rows[0] == o.players[o.winner]
      && forall j :: 1 <= j < n ==> rows[j].score < scoreToWin
  {
    var roster := Roster(n);
    RaceEndsAtTarget(roster, 0, 0, scoreToWin, random);
    RaceLeavesOthersBelow(roster, 0, 0, scoreToWin, random);
    var o := RaceFrom(roster, 0, 0, scoreToWin, random);
    TableLeaderOnTop(o.players, o.winner);
  }

  class Game {
    /** Whether a game has been started and not reset since. */
    var hasGameStarted: bool
    /** The players in turn order, later sorted by score for the table. */
    var currentPlayers: seq<Player>
    /** Visibility of the submit (start) button and of the reset button. */
    var submitHidden: bool
    var resetHidden: bool
    /** Visibility of the results table and its rows, top row first. */
    var outputHidden: bool
    var outputRows: seq<Player>

    /** The buttons show the started flag: only the button that can be used next is visible. */
    predicate ButtonsMatchFlag()
      reads this
    {
      submitHidden == hasGameStarted && resetHidden == !hasGameStarted
    }

    /**
     * The state when the page has loaded: no game started, no players, the
     * results table hidden and empty.
     */
    constructor ()
      ensures !hasGameStarted && currentPlayers == []
      ensures ButtonsMatchFlag()
      ensures outputHidden && outputRows == []
    {
      hasGameStarted := false;
      currentPlayers := [];
      submitHidden := false;
      resetHidden := true;
      outputHidden := true;
      outputRows := [];
    }

    /** Hides the submit button exactly when a game has started, and the reset button exactly when none has. */
    method FormButtonToggler()
      modifies this`submitHidden, this`resetHidden
      ensures ButtonsMatchFlag()
    {
      if hasGameStarted {
        submitHidden := true;
        resetHidden := false;
        return;
      }
      submitHidden := false;
      resetHidden := true;
    }

    /** Hides the results table and removes its rows. */
    method ResetOutputTable()
      modifies this`outputHidden, this`outputRows
      ensures outputHidden && outputRows == []
    {
      outputHidden := true;
      outputRows := [];
    }

    /**
     * Clears the started flag and the results table.  Both the hard and
     * the soft reset act on the page only (removing the lanes, or moving
     * the cars back to the start): currentPlayers and its scores are kept.
     */
    method ResetGame(hardReset: bool)
      modifies this`hasGameStarted, this`submitHidden, this`resetHidden, this`outputHidden, this`outputRows
      ensures !hasGameStarted && ButtonsMatchFlag()
      ensures outputHidden && outputRows == []
      ensures currentPlayers == old(currentPlayers)
    {
      hasGameStarted := false;
      FormButtonToggler();
      ResetOutputTable();
    }

    /** Rebuilds currentPlayers as players 1 .. numberOfPlayers with score 0 (none if the count is not positive). */
    method CreatePlayers(numberOfPlayers: int)
      modifies this`currentPlayers
      ensures currentPlayers == Roster(if numberOfPlayers > 0 then numberOfPlayers else 0)
      ensures |currentPlayers| == (if numberOfPlayers > 0 then numberOfPlayers else 0)
      ensures forall i :: 0 <= i < |currentPlayers| ==> currentPlayers[i] == Player(i + 1, 0)
    {
      currentPlayers := [];
      var index := 1;
      while index < numberOfPlayers + 1
        invariant 1 <= index
        invariant index == 1 || index <= numberOfPlayers + 1
        invariant currentPlayers == Roster(index - 1)
      {
        currentPlayers := currentPlayers + [Player(index, 0)];
        index := index + 1;
      }
    }

    /**
     * The race loop: rounds over currentPlayers in array order; on each
     * turn the player's score grows by the advantage drawn from random(turns)
     * and is clamped to scoreToWin, and the whole loop stops as soon as a
     * player has reached scoreToWin.  The result is the race RaceFrom
     * describes; winner is the winner's index in turn order and turns the
     * number of advantages drawn.
     */
    method Race(scoreToWin: int, random: nat -> real) returns (winner: nat, turns: nat)
      requires |currentPlayers| >= 1
      requires IsRandomStream(random)
      modifies this`currentPlayers
      ensures RaceFrom(old(currentPlayers), 0, 0, scoreToWin, random) == Outcome(currentPlayers, winner, turns)
      ensures |currentPlayers| == |old(currentPlayers)|
      ensures winner < |currentPlayers| && currentPlayers[winner].score == scoreToWin
      ensures turns >= 1
    {
      ghost var whole := RaceFrom(currentPlayers, 0, 0, scoreToWin, random);
      RaceEndsAtTarget(currentPlayers, 0, 0, scoreToWin, random);
      var n := |currentPlayers|;
      var hasWinner := false;
      winner, turns := 0, 0;
      label winnerLoop:
      while !hasWinner
        invariant !hasWinner
        invariant |currentPlayers| == n
        invariant RaceFrom(currentPlayers, 0, turns, scoreToWin, random) == whole
        decreases Distance(currentPlayers, scoreToWin)
      {
        ghost var roundStart := Distance(currentPlayers, scoreToWin);
        for index := 0 to n
          invariant |currentPlayers| == n
          invariant RaceFrom(currentPlayers, if index < n then index else 0, turns, scoreToWin, random) == whole
          invariant Distance(currentPlayers, scoreToWin) + index <= roundStart
        {
          ghost var before := currentPlayers;
          var turnCarAdvantage := CarAdvantage(random(turns));
          var player := currentPlayers[index];
          var score := player.score + turnCarAdvantage;
          if score > scoreToWin {
            score := scoreToWin;
          }
          currentPlayers := currentPlayers[index := player.(score := score)];
          turns := turns + 1;
          if score >= scoreToWin {
            winner := index;
            hasWinner := true;
            break winnerLoop;
          }
          DistanceUpdate(before, index, currentPlayers[index], scoreToWin);
        }
      }
    }

    /**
     * Sorts currentPlayers in place by ascending score, then inserts each
     * player in that order as the new first row of the results table, so the
     * new rows read in descending score (TableDescending) above any rows
     * already there.
     */
    method CreateOutputTable()
      modifies this`outputHidden, this`currentPlayers, this`outputRows
      ensures !outputHidden
      ensures currentPlayers == SortByScore(old(currentPlayers))
      ensures outputRows == Reversed(currentPlayers) + old(outputRows)
    {
      outputHidden := false;
      currentPlayers := SortByScore(currentPlayers);
      var playersSortedByScore := currentPlayers;
      for i := 0 to |playersSortedByScore|
        invariant !outputHidden && currentPlayers == playersSortedByScore
        invariant outputRows == Reversed(playersSortedByScore[..i]) + old(outputRows)
      {
        ReversedPrefixStep(playersSortedByScore, i);
        outputRows := [playersSortedByScore[i]] + outputRows;
      }
      assert playersSortedByScore[..|playersSortedByScore|] == currentPlayers;
    }

    /** Runs the race and then fills the results table; winner is the winning player's record. */
    method StartRacing(scoreToWin: int, random: nat -> real) returns (winner: Player, turns: nat)
      requires |currentPlayers| >= 1
      requires IsRandomStream(random)
      modifies this`currentPlayers, this`outputHidden, this`outputRows
      ensures var o := RaceFrom(old(currentPlayers), 0, 0, scoreToWin, random);
        && o.winner < |o.players|
        && winner == o.players[o.winner]
        && turns == o.turns
        && currentPlayers == SortByScore(o.players)
      ensures winner.score == scoreToWin
      ensures !outputHidden && outputRows == Reversed(currentPlayers) + old(outputRows)
    {
      var index;
      index, turns := Race(scoreToWin, random);
      winner := currentPlayers[index];
      CreateOutputTable();
    }

    /**
     * Starts a game with the given form values: a hard reset, the started
     * flag set, a fresh roster, the race and the results table.  With no
     * players the source's loop never ends, so at least one is required.
     */
    method StartGame(numberOfPlayers: int, scoreToWin: int, random: nat -> real) returns (winner: Player, turns: nat)
      requires numberOfPlayers >= 1
      requires IsRandomStream(random)
      modifies this
      ensures hasGameStarted && ButtonsMatchFlag()
      ensures var o := RaceFrom(Roster(numberOfPlayers), 0, 0, scoreToWin, random);
        && o.winner < |o.players|
        && winner == o.players[o.winner]
        && turns == o.turns
        && currentPlayers == SortByScore(o.players)
      ensures !outputHidden && outputRows == Reversed(currentPlayers)
      ensures winner.score == scoreToWin
      ensures 1 <= turns <= numberOfPlayers * (if scoreToWin > 1 then scoreToWin else 1)
      ensures |outputRows| == numberOfPlayers
      ensures forall i, j :: 0 <= i < j < numberOfPlayers ==> outputRows[i].score >= outputRows[j].score
      ensures scoreToWin >= 0 ==> forall j :: 0 <= j < numberOfPlayers ==> 0 <= outputRows[j].score <= scoreToWin
      ensures scoreToWin >= 1 ==>
        outputRows[0] == winner && forall j :: 1 <= j < numberOfPlayers ==> outputRows[j].score < scoreToWin
    {
      ResetGame(true);
      hasGameStarted := true;
      FormButtonToggler();
      CreatePlayers(numberOfPlayers);
      ghost var roster := currentPlayers;
      winner, turns := StartRacing(scoreToWin, random);
      FreshRaceTurnBound(roster, scoreToWin, random);
      ghost var o := RaceFrom(roster, 0, 0, scoreToWin, random);
      TableDescending(o.players);
      if scoreToWin >= 0 {
        FreshGameScoresInRange(numberOfPlayers, scoreToWin, random);
      }
      if scoreToWin >= 1 {
        FreshGameWinnerOnTop(numberOfPlayers, scoreToWin, random);
      }
    }
  }
}
