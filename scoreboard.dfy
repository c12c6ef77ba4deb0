/**
 The scoreboard contract: a registry of in-progress matches with three
 mutators (start, update score, finish) and an ordered summary. Each mutator
 reports its error as an `Outcome` instead of throwing, and leaves the board
 unchanged when it fails.
 */
module Scoreboard {
  import opened Matches

  class Scoreboard {
    /** The matches in progress, in the order they were started. */
    var matches: seq<Match>
    /** The logical clock: the start time the next started match receives. */
    var clock: nat

    /** No team is in two matches, matches are in start order and stamped
        before the clock, and every name is present. */
    ghost predicate Valid()
      reads this
    {
      WellFormed(matches, clock)
    }

    constructor ()
      ensures Valid()
      ensures matches == [] && clock == 0
    {
      matches := [];
      clock := 0;
    }

    /** Starts a 0-0 match between `homeTeam` and `awayTeam`. */
    method StartMatch(homeTeam: string, awayTeam: string) returns (o: Outcome)
      requires Valid()
      modifies this
      ensures Valid()
      ensures o == ArgumentError <==> IsNullOrEmpty(homeTeam) || IsNullOrEmpty(awayTeam)
      ensures o == InvalidOperation <==>
        && !IsNullOrEmpty(homeTeam) && !IsNullOrEmpty(awayTeam)
        && (HasTeam(old(matches), homeTeam) || HasTeam(old(matches), awayTeam))
      ensures o == Ok ==>
        && matches == old(matches) + [Match(homeTeam, awayTeam, 0, 0, old(clock))]
        && clock == old(clock) + 1
      ensures o != Ok ==> matches == old(matches) && clock == old(clock)
    {
      if IsNullOrEmpty(homeTeam) || IsNullOrEmpty(awayTeam) {
        return ArgumentError;
      }
      if HasTeam(matches, homeTeam) || HasTeam(matches, awayTeam) {
        return InvalidOperation;
      }
      var m := Match(homeTeam, awayTeam, 0, 0, clock);
      AppendKeepsWellFormed(matches, clock, m);
      matches := matches + [m];
      clock := clock + 1;
      o := Ok;
    }

    /** Sets the scores of the match between exactly `homeTeam` (home) and
        `awayTeam` (away). */
    method UpdateScore(homeTeam: string, awayTeam: string, homeScore: int32, awayScore: int32)
      returns (o: Outcome)
      requires Valid()
      modifies this
      ensures Valid()
      ensures o == ArgumentError <==>
        IsNullOrEmpty(homeTeam) || IsNullOrEmpty(awayTeam) || homeScore < 0 || awayScore < 0
      ensures o == InvalidOperation <==>
        && !IsNullOrEmpty(homeTeam) && !IsNullOrEmpty(awayTeam) && homeScore >= 0 && awayScore >= 0
        && !HasPair(old(matches), homeTeam, awayTeam)
      ensures o == Ok ==>
        && |matches| == |old(matches)|
        && forall k :: 0 <= k < |matches| ==>
             matches[k] == if IsPair(old(matches)[k], homeTeam, awayTeam)
                           then old(matches)[k].(homeScore := homeScore as int, awayScore := awayScore as int)
                           else old(matches)[k]
      ensures o != Ok ==> matches == old(matches)
      ensures clock == old(clock)
    {
      if IsNullOrEmpty(homeTeam) || IsNullOrEmpty(awayTeam) || homeScore < 0 || awayScore < 0 {
        return ArgumentError;
      }
      var found := Find(matches, homeTeam, awayTeam);
      if found.None? {
        return InvalidOperation;
      }
      var i := found.value;
      forall k | 0 <= k < |matches| && IsPair(matches[k], homeTeam, awayTeam)
        ensures k == i
      {
        TeamInOneMatch(matches, homeTeam, i, k);
      }
      RescoreKeepsWellFormed(matches, clock, i, homeScore as int, awayScore as int);
      matches := matches[i := matches[i].(homeScore := homeScore as int, awayScore := awayScore as int)];
      o := Ok;
    }

    /** Removes the match between exactly `homeTeam` (home) and `awayTeam` (away). */
    method FinishMatch(homeTeam: string, awayTeam: string) returns (o: Outcome)
      requires Valid()
      modifies this
      ensures Valid()
      ensures o == ArgumentError <==> IsNullOrEmpty(homeTeam) || IsNullOrEmpty(awayTeam)
      ensures o == InvalidOperation <==>
        && !IsNullOrEmpty(homeTeam) && !IsNullOrEmpty(awayTeam)
        && !HasPair(old(matches), homeTeam, awayTeam)
      ensures o == Ok ==>
        && |matches| == |old(matches)| - 1
        && forall m :: m in matches <==> m in old(matches) && !IsPair(m, homeTeam, awayTeam)
      ensures o == Ok ==>
        exists i :: 0 <= i < |old(matches)| && IsPair(old(matches)[i], homeTeam, awayTeam) &&
          matches == old(matches)[..i] + old(matches)[i + 1..]
      ensures o != Ok ==> matches == old(matches)
      ensures clock == old(clock)
    {
      if IsNullOrEmpty(homeTeam) || IsNullOrEmpty(awayTeam) {
        return ArgumentError;
      }
      var found := Find(matches, homeTeam, awayTeam);
      if found.None? {
        return InvalidOperation;
      }
      var i := found.value;
      var rest := matches[..i] + matches[i + 1..];
      assert forall k :: 0 <= k < |rest| ==> rest[k] == matches[if k < i then k else k + 1];
      forall m | m in matches && IsPair(m, homeTeam, awayTeam)
        ensures m == matches[i]
      {
        var k :| 0 <= k < |matches| && matches[k] == m;
        TeamInOneMatch(matches, homeTeam, i, k);
      }
      forall m ensures m in rest <==> m in matches && !IsPair(m, homeTeam, awayTeam) {
        if m in matches {
          var k :| 0 <= k < |matches| && matches[k] == m;
        }
      }
      RemoveKeepsWellFormed(matches, clock, i);
      matches := rest;
      o := Ok;
    }

    /** The matches in progress, by total score, highest first, ties to the
        most recently started; empty when nothing is in progress. Reading it
        changes nothing. */
    function GetScoreboardSummary(): (r: seq<MatchView>)
      reads this
      requires Valid()
      ensures DistinctStarts(matches) && r == Summary(matches)
    {
      Summary(matches)
    }
  }
}
