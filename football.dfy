/**
 The football scoreboard as it stands: a stub that keeps a single match in a
 public field and whose `StartMatch` overwrites it without any check.
 */
module Football {

  /** A value record: two matches with the same names are the same match. */
  datatype FootballMatch = FootballMatch(homeTeam: string, awayTeam: string)

  class FootballScoreboard {
    /** The one match the stub knows about. */
    var Match: FootballMatch

    constructor ()
      ensures Match == FootballMatch("", "")
    {
      Match := FootballMatch("", "");
    }

    /** Replaces the stored match with one between `homeTeam` and `awayTeam`;
        any names are accepted and no earlier match is kept. */
    method StartMatch(homeTeam: string, awayTeam: string)
      modifies this
      ensures Match.homeTeam == homeTeam && Match.awayTeam == awayTeam
      ensures Match == FootballMatch(homeTeam, awayTeam)
    {
      Match := FootballMatch(homeTeam, awayTeam);
    }
  }

  /** Record equality is structural. */
  lemma FootballMatchEquality(a: FootballMatch, b: FootballMatch)
    ensures a == b <==> a.homeTeam == b.homeTeam && a.awayTeam == b.awayTeam
  {
  }
}
