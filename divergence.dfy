/**
 Where the football stub and the scoreboard contract part ways, and the
 contract's behaviour on a small match day.
 */
module Divergence {
  import opened Matches
  import opened Scoreboard
  import opened Football

  /** The stub accepts empty names, which the contract rejects. */
  method EmptyNames() returns (stub: FootballMatch, contract: Outcome)
    ensures stub == FootballMatch("", "")
    ensures contract == ArgumentError
  {
    var s := new FootballScoreboard();
    s.StartMatch("", "");
    stub := s.Match;
    var b := new Scoreboard();
    contract := b.StartMatch("", "");
  }

  /** The stub lets a team start a second match, replacing the first, which
      the contract rejects. */
  method RepeatedTeam() returns (stub: FootballMatch, first: Outcome, second: Outcome)
    ensures stub == FootballMatch("Norway", "Denmark")
    ensures first == Ok && second == InvalidOperation
  {
    var s := new FootballScoreboard();
    s.StartMatch("Norway", "Sweden");
    s.StartMatch("Norway", "Denmark");
    stub := s.Match;
    var b := new Scoreboard();
    first := b.StartMatch("Norway", "Sweden");
    assert Involves(b.matches[0], "Norway");
    second := b.StartMatch("Norway", "Denmark");
  }

  /** A score update looks a match up by its exact pair: the same two teams
      with home and away swapped are not that match. */
  method SwappedRoles() returns (started: Outcome, swapped: Outcome)
    ensures started == Ok && swapped == InvalidOperation
  {
    var b := new Scoreboard();
    started := b.StartMatch("Austria", "Switzerland");
    assert !IsPair(b.matches[0], "Switzerland", "Austria");
    swapped := b.UpdateScore("Switzerland", "Austria", 1, 0);
  }

  /** Two goalless matches are listed latest first; a score moves a match to
      the top; finishing a match removes only that one. */
  method MatchDay() returns (tied: seq<MatchView>, scored: seq<MatchView>, finished: seq<MatchView>)
    ensures tied == [MatchView("Austria", "Switzerland", 0, 0), MatchView("Spain", "Portugal", 0, 0)]
    ensures scored == [MatchView("Austria", "Switzerland", 1, 3), MatchView("Spain", "Portugal", 0, 0)]
    ensures finished == [MatchView("Spain", "Portugal", 0, 0)]
  {
    var spain := Match("Spain", "Portugal", 0, 0, 0);
    var austria := Match("Austria", "Switzerland", 0, 0, 1);
    var b := new Scoreboard();
    KickOff(b);
    SummaryOfTwo(spain, austria);
    tied := b.GetScoreboardSummary();
    Score(b);
    SummaryOfTwo(spain, austria.(homeScore := 1, awayScore := 3));
    scored := b.GetScoreboardSummary();
    Finish(b);
    assert Rank([spain]) == [spain];
    finished := b.GetScoreboardSummary();
  }

  /** Starts Spain against Portugal, then Austria against Switzerland. */
  method KickOff(b: Scoreboard)
    requires b.Valid() && b.matches == [] && b.clock == 0
    modifies b
    ensures b.Valid()
    ensures b.matches == [Match("Spain", "Portugal", 0, 0, 0), Match("Austria", "Switzerland", 0, 0, 1)]
  {
    var o := b.StartMatch("Spain", "Portugal");
    assert !Involves(b.matches[0], "Austria") && !Involves(b.matches[0], "Switzerland");
    o := b.StartMatch("Austria", "Switzerland");
  }

  /** Austria against Switzerland becomes 1-3. */
  method Score(b: Scoreboard)
    requires b.Valid()
    requires b.matches == [Match("Spain", "Portugal", 0, 0, 0), Match("Austria", "Switzerland", 0, 0, 1)]
    modifies b
    ensures b.Valid()
    ensures b.matches == [Match("Spain", "Portugal", 0, 0, 0), Match("Austria", "Switzerland", 1, 3, 1)]
  {
    assert IsPair(b.matches[1], "Austria", "Switzerland") && !IsPair(b.matches[0], "Austria", "Switzerland");
    var o := b.UpdateScore("Austria", "Switzerland", 1, 3);
  }

  /** Austria against Switzerland ends. */
  method Finish(b: Scoreboard)
    requires b.Valid()
    requires b.matches == [Match("Spain", "Portugal", 0, 0, 0), Match("Austria", "Switzerland", 1, 3, 1)]
    modifies b
    ensures b.Valid()
    ensures b.matches == [Match("Spain", "Portugal", 0, 0, 0)]
  {
    assert IsPair(b.matches[1], "Austria", "Switzerland") && !IsPair(b.matches[0], "Austria", "Switzerland");
    var o := b.FinishMatch("Austria", "Switzerland");
  }

  /** The summary of two matches where the second one started later and has
      at least the first one's total. */
  lemma SummaryOfTwo(first: Match, second: Match)
    requires first.started < second.started && Total(first) <= Total(second)
    ensures DistinctStarts([first, second])
    ensures Summary([first, second]) == [View(second), View(first)]
  {

  }
}
