/**
 Values of the live scoreboard: a match in progress, the read-only view the
 summary hands out, the outcome of a mutating call, the ranking used by the
 summary, the exact-pair lookup, and the registry invariant.
 */
module Matches {

  datatype Option<T> = None | Some(value: T)

  /** A 32-bit signed integer, the type of the scores a caller passes in. */
  newtype int32 = x: int | -0x8000_0000 <= x < 0x8000_0000

  /** What a mutating call does instead of throwing: `ArgumentError` stands for
      `ArgumentException`, `InvalidOperation` for `InvalidOperationException`. */
  datatype Outcome = Ok | ArgumentError | InvalidOperation

  /** A match in progress. `started` is the logical start time: the value of the
      board's clock when the match was started. */
  datatype Match = Match(homeTeam: string, awayTeam: string, homeScore: nat, awayScore: nat, started: nat)

  /** The `IScoreboardMatch` view: team names and scores, no start time. */
  datatype MatchView = MatchView(homeTeam: string, awayTeam: string, homeScore: nat, awayScore: nat)

  function View(m: Match): MatchView {
    MatchView(m.homeTeam, m.awayTeam, m.homeScore, m.awayScore)
  }

  /** A null name is modelled as the empty string. */
  predicate IsNullOrEmpty(name: string) {
    name == ""
  }

  function Total(m: Match): nat {
    m.homeScore + m.awayScore
  }

  function ViewTotal(v: MatchView): nat {
    v.homeScore + v.awayScore
  }

  predicate Involves(m: Match, team: string) {
    m.homeTeam == team || m.awayTeam == team
  }

  predicate IsPair(m: Match, homeTeam: string, awayTeam: string) {
    m.homeTeam == homeTeam && m.awayTeam == awayTeam
  }

  /** Some match in `ms` has `team`, as home or as away. */
  predicate HasTeam(ms: seq<Match>, team: string) {
    exists i :: 0 <= i < |ms| && Involves(ms[i], team)
  }

  /** Some match in `ms` is between exactly `homeTeam` (home) and `awayTeam` (away). */
  predicate HasPair(ms: seq<Match>, homeTeam: string, awayTeam: string) {
    exists i :: 0 <= i < |ms| && IsPair(ms[i], homeTeam, awayTeam)
  }

  // ---------------------------------------------------------------------------
  // Registry invariant

  /** No team plays in two different matches. */
  ghost predicate TeamsDisjoint(ms: seq<Match>) {
    forall i, j :: 0 <= i < j < |ms| ==>
      !Involves(ms[j], ms[i].homeTeam) && !Involves(ms[j], ms[i].awayTeam)
  }

  /** Matches are kept in start order. */
  ghost predicate InStartOrder(ms: seq<Match>) {
    forall i, j :: 0 <= i < j < |ms| ==> ms[i].started < ms[j].started
  }

  /** Every match was started before the clock reached `clock`. */
  ghost predicate StartedBefore(ms: seq<Match>, clock: nat) {
    forall i :: 0 <= i < |ms| ==> ms[i].started < clock
  }

  ghost predicate NamesPresent(ms: seq<Match>) {
    forall i :: 0 <= i < |ms| ==> !IsNullOrEmpty(ms[i].homeTeam) && !IsNullOrEmpty(ms[i].awayTeam)
  }

  ghost predicate WellFormed(ms: seq<Match>, clock: nat) {
    TeamsDisjoint(ms) && InStartOrder(ms) && StartedBefore(ms, clock) && NamesPresent(ms)
  }

  /** A team is in at most one match of a well-formed registry. */
  lemma TeamInOneMatch(ms: seq<Match>, team: string, i: nat, j: nat)
    requires TeamsDisjoint(ms)
    requires i < |ms| && j < |ms|
    requires Involves(ms[i], team) && Involves(ms[j], team)
    ensures i == j
  {
  }

  /** Appending a match stamped with the clock, whose teams are not playing
      and whose names are present, keeps the registry well formed. */
  lemma AppendKeepsWellFormed(ms: seq<Match>, clock: nat, m: Match)
    requires WellFormed(ms, clock)
    requires !HasTeam(ms, m.homeTeam) && !HasTeam(ms, m.awayTeam)
    requires !IsNullOrEmpty(m.homeTeam) && !IsNullOrEmpty(m.awayTeam)
    requires m.started == clock
    ensures WellFormed(ms + [m], clock + 1)
  {

  }

  /** Changing the scores of one match keeps the registry well formed. */
  lemma RescoreKeepsWellFormed(ms: seq<Match>, clock: nat, i: nat, homeScore: nat, awayScore: nat)
    requires WellFormed(ms, clock)
    requires i < |ms|
    ensures WellFormed(ms[i := ms[i].(homeScore := homeScore, awayScore := awayScore)], clock)
  {

  }

  /** Removing one match keeps the registry well formed. */
  lemma RemoveKeepsWellFormed(ms: seq<Match>, clock: nat, i: nat)
    requires WellFormed(ms, clock)
    requires i < |ms|
    ensures WellFormed(ms[..i] + ms[i + 1..], clock)
  {

  }

  // ---------------------------------------------------------------------------
  // Exact-pair lookup

  /** The position of the match whose home team is `homeTeam` and whose away
      team is `awayTeam` (roles are significant), if there is one. */
  function Find(ms: seq<Match>, homeTeam: string, awayTeam: string): (r: Option<nat>)
    ensures r.Some? ==> r.value < |ms| && IsPair(ms[r.value], homeTeam, awayTeam)
    ensures r.None? <==> forall i :: 0 <= i < |ms| ==> !IsPair(ms[i], homeTeam, awayTeam)
  {
    if ms == [] then None
    else if IsPair(ms[0], homeTeam, awayTeam) then Some(0)
    else match Find(ms[1..], homeTeam, awayTeam)
      case None => None
      case Some(i) => Some(i + 1)
  }

  /** In a well-formed registry at most one match has a given pair, so the
      match `Find` reports is the only one. */
  lemma FindIsTheOnlyMatch(ms: seq<Match>, homeTeam: string, awayTeam: string, j: nat)
    requires TeamsDisjoint(ms)
    requires j < |ms| && IsPair(ms[j], homeTeam, awayTeam)
    ensures Find(ms, homeTeam, awayTeam) == Some(j)
  {

  }

  // ---------------------------------------------------------------------------
  // Summary ranking

  /** `a` is listed before `b`: a higher total score, or the same total and a
      later start. */
  predicate Before(a: Match, b: Match) {
    Total(a) > Total(b) || (Total(a) == Total(b) && a.started > b.started)
  }

  predicate Ranked(s: seq<Match>) {
    forall i, j :: 0 <= i < j < |s| ==> Before(s[i], s[j])
  }

  predicate DistinctStarts(s: seq<Match>) {
    forall i, j :: 0 <= i < j < |s| ==> s[i].started != s[j].started
  }

  /** Inserts `m` into a ranked sequence at its place. */
  function Insert(m: Match, s: seq<Match>): (r: seq<Match>)
    requires Ranked(s)
    requires forall k :: 0 <= k < |s| ==> s[k].started != m.started
    ensures Ranked(r)
    ensures multiset(r) == multiset(s) + multiset{m}
  {
    if s == [] then [m]
    else if Before(m, s[0]) then [m] + s
    else
      var rest := Insert(m, s[1..]);
      assert s == [s[0]] + s[1..];
      HeadBeforeInserted(m, s, rest);
      [s[0]] + rest
  }

  /** The head of a ranked sequence that `m` does not precede also precedes
      every element of the tail with `m` inserted. */
  lemma HeadBeforeInserted(m: Match, s: seq<Match>, rest: seq<Match>)
    requires Ranked(s) && s != [] && !Before(m, s[0])
    requires forall k :: 0 <= k < |s| ==> s[k].started != m.started
    requires multiset(rest) == multiset(s[1..]) + multiset{m}
    ensures forall k :: 0 <= k < |rest| ==> Before(s[0], rest[k])
  {
    forall k | 0 <= k < |rest| ensures Before(s[0], rest[k]) {
      assert rest[k] in multiset(rest);
      if rest[k] != m {
        assert rest[k] in multiset(s[1..]);
        var j :| 0 <= j < |s[1..]| && s[1..][j] == rest[k];
        assert s[j + 1] == rest[k];
      }
    }
  }

  /** The summary order of `ms`: by total score, highest first, ties to the
      most recently started. */
  function Rank(ms: seq<Match>): (r: seq<Match>)
    requires DistinctStarts(ms)
    ensures Ranked(r)
    ensures multiset(r) == multiset(ms)
  {
    if ms == [] then []
    else
      var rest := Rank(ms[1..]);
      assert ms == [ms[0]] + ms[1..];
      assert forall k :: 0 <= k < |rest| ==> rest[k].started != ms[0].started by {
        forall k | 0 <= k < |rest| ensures rest[k].started != ms[0].started {
          assert rest[k] in multiset(ms[1..]);
        }
      }
      Insert(ms[0], rest)
  }

  lemma BeforeAsymmetric(a: Match, b: Match)
    ensures !(Before(a, b) && Before(b, a))
  {
  }

  /** The ranking is determined by its specification: a ranked permutation of
      a sequence is unique. */
  lemma {:induction false} RankedPermutationUnique(r1: seq<Match>, r2: seq<Match>)
    requires Ranked(r1) && Ranked(r2)
    requires multiset(r1) == multiset(r2)
    ensures r1 == r2
  {
    if r1 == [] {
      assert |r2| == |multiset(r2)| == 0;
    } else {
      assert r1[0] in multiset(r2);
      assert r2 != [];
      assert r2[0] in multiset(r1);
      var k :| 0 <= k < |r2| && r2[k] == r1[0];
      var j :| 0 <= j < |r1| && r1[j] == r2[0];
      if k > 0 && j > 0 {
        BeforeAsymmetric(r2[0], r1[0]);
      }
      assert r1[0] == r2[0];
      assert r1 == [r1[0]] + r1[1..];
      assert r2 == [r2[0]] + r2[1..];
      assert multiset(r1) == multiset{r1[0]} + multiset(r1[1..]);
      assert multiset(r2) == multiset{r2[0]} + multiset(r2[1..]);
      assert multiset(r1[1..]) == multiset(r1) - multiset{r1[0]};
      assert multiset(r2[1..]) == multiset(r2) - multiset{r2[0]};
      RankedPermutationUnique(r1[1..], r2[1..]);
    }
  }


  function Views(s: seq<Match>): (r: seq<MatchView>)
    ensures |r| == |s|
    ensures forall i :: 0 <= i < |s| ==> r[i] == View(s[i])
  {
    if s == [] then [] else [View(s[0])] + Views(s[1..])
  }

  /** In a registry where no team plays twice, a view determines its match. */
  lemma ViewIdentifiesMatch(ms: seq<Match>, p: nat, q: nat)
    requires TeamsDisjoint(ms)
    requires p < |ms| && q < |ms|
    requires View(ms[p]) == View(ms[q])
    ensures p == q
  {

  }

  // ---------------------------------------------------------------------------
  // Summary

  /** The summary of the matches in progress `ms`: their views in ranking order. */
  function Summary(ms: seq<Match>): (r: seq<MatchView>)
    requires DistinctStarts(ms)
    ensures |r| == |ms|
    ensures r == [] <==> ms == []
  {
    assert |Rank(ms)| == |multiset(Rank(ms))| == |multiset(ms)| == |ms|;
    Views(Rank(ms))
  }

  /** Ranking keeps exactly the elements it is given. */
  lemma RankSameElements(ms: seq<Match>, x: Match)
    requires DistinctStarts(ms)
    ensures x in Rank(ms) <==> x in ms
  {
    assert x in Rank(ms) <==> x in multiset(Rank(ms));
  }

  /** The summary holds the view of every match in progress and nothing else. */
  lemma SummaryContents(ms: seq<Match>)
    requires DistinctStarts(ms)
    ensures forall p :: 0 <= p < |ms| ==> View(ms[p]) in Summary(ms)
    ensures forall i :: 0 <= i < |Summary(ms)| ==>
      exists p :: 0 <= p < |ms| && Summary(ms)[i] == View(ms[p])
  {
    var ranked, r := Rank(ms), Summary(ms);
    forall p | 0 <= p < |ms| ensures View(ms[p]) in r {
      RankSameElements(ms, ms[p]);
      var i :| 0 <= i < |ranked| && ranked[i] == ms[p];
      assert r[i] == View(ms[p]);
    }
    forall i | 0 <= i < |r| ensures exists p :: 0 <= p < |ms| && r[i] == View(ms[p]) {
      RankSameElements(ms, ranked[i]);
      var p :| 0 <= p < |ms| && ms[p] == ranked[i];
      assert r[i] == View(ms[p]);
    }
  }

  /** The summary lists total scores from highest to lowest. */
  lemma SummaryByTotal(ms: seq<Match>)
    requires DistinctStarts(ms)
    ensures forall i, j :: 0 <= i < j < |Summary(ms)| ==> ViewTotal(Summary(ms)[i]) >= ViewTotal(Summary(ms)[j])
  {

  }

  /** Of two matches in the summary with the same total, the one started later
      (later in start order `ms`) is listed first. */
  lemma SummaryTieBreak(ms: seq<Match>, i: nat, j: nat, p: nat, q: nat)
    requires TeamsDisjoint(ms) && InStartOrder(ms)
    requires i < j < |Summary(ms)| && p < |ms| && q < |ms|
    requires Summary(ms)[i] == View(ms[p]) && Summary(ms)[j] == View(ms[q])
    requires ViewTotal(Summary(ms)[i]) == ViewTotal(Summary(ms)[j])
    ensures q < p
  {
    var ranked := Rank(ms);
    RankSameElements(ms, ranked[i]);
    RankSameElements(ms, ranked[j]);
    var p' :| 0 <= p' < |ms| && ms[p'] == ranked[i];
    var q' :| 0 <= q' < |ms| && ms[q'] == ranked[j];
    ViewIdentifiesMatch(ms, p, p');
    ViewIdentifiesMatch(ms, q, q');
    assert Before(ranked[i], ranked[j]);
  }
}
