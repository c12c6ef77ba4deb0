# Live football scoreboard

A model of a live-match scoreboard library. The library's `IScoreboard`
interface keeps a registry of matches in progress. It has three mutators
(`StartMatch`, `UpdateScore`, `FinishMatch`) and one ordered report
(`GetScoreboardSummary`). Its doc comments are the contract. The one
implementation, `FootballScoreboard`, is a stub. It keeps a single
`FootballMatch` in a public field, and its `StartMatch` overwrites that field.

The project has four modules:

- `Matches` (`matches.dfy`) holds the values and the logic that needs no state:
  - `Match` is a match in progress. `started` is a logical start time.
  - `MatchView` is the `IScoreboardMatch` view: names and scores.
  - `Outcome` is `Ok | ArgumentError | InvalidOperation`. It stands for
    returning normally, `ArgumentException` and `InvalidOperationException`.
  - It also holds the registry invariant `WellFormed`, the exact-pair lookup
    `Find`, and the summary ranking `Rank` and `Summary`, with the lemmas
    about them.
- `Scoreboard` (`scoreboard.dfy`) holds the class `Scoreboard`. The class models
  the interface's contract over a `seq<Match>` kept in start order and a
  logical clock. Each mutator is a method with `modifies this`. It returns an
  `Outcome` and states the board's whole new state, and it leaves the board
  unchanged when it fails. `GetScoreboardSummary` is a function that reads
  the board and changes nothing.
- `Football` (`football.dfy`) is the stub as written: one field, initialised to
  a match with empty names and overwritten by `StartMatch` without any check.
- `Divergence` (`divergence.dfy`) holds small verified scenarios. They show
  where the stub departs from the contract (empty names, a repeated team):
  the stub accepts these calls and the contract rejects them. They also show
  a match day run under the contract.

Decisions:

- A null team name is modelled as the empty string. The contract rejects
  "null or empty" names. Some descriptions of the system also reject names of
  only whitespace, but the doc comments do not, and neither does the model.
- The "start date" used to break ties is the value of a counter. The counter
  increases by one on each successful start. Matches are kept in the order
  they started, so a later start time also means a later position.
- "A match does not currently exist" means that no match has exactly this
  home team and this away team. A match with the two teams in swapped roles
  does not count (`Divergence.SwappedRoles`).
- The doc comments do not say whether a team may play itself.
  `StartMatch("A", "A")` is accepted when `A` is not already playing.
- Scores are passed as 32-bit `int32` values, like C#'s `int`. They are
  stored as `nat` once the check for negative scores has passed.

## Model

| member | source | states |
|---|---|---|
| `Scoreboard.Scoreboard.StartMatch` | Scoreboard/Scoreboard/IScoreboard.cs:5-12 | `ArgumentError` exactly when either name is empty. `InvalidOperation` exactly when both names are present and either team already plays in some match, as home or away. On `Ok` one 0-0 match stamped with the clock is appended and the clock advances. On failure nothing changes. The invariant that no team is in two matches is kept. |
| `Scoreboard.Scoreboard.UpdateScore` | Scoreboard/Scoreboard/IScoreboard.cs:14-23 | `ArgumentError` exactly when a name is empty or a score is negative. `InvalidOperation` exactly when the arguments are valid and no match has this exact home/away pair. On `Ok` that match gets the given scores and every other match is unchanged. On failure nothing changes. |
| `Scoreboard.Scoreboard.FinishMatch` | Scoreboard/Scoreboard/IScoreboard.cs:25-32 | `ArgumentError` exactly when a name is empty. `InvalidOperation` exactly when the names are present and no match has this exact pair. On `Ok` exactly that match is removed: the rest keep their order, the board shrinks by one, and every other match remains. On failure nothing changes. |
| `Scoreboard.Scoreboard.GetScoreboardSummary` | Scoreboard/Scoreboard/IScoreboard.cs:34-45 | A read-only function of the board. It equals `Summary` of the matches in progress, whose properties are the `Summary*` lemmas. |
| `Matches.Summary` | Scoreboard/Scoreboard/IScoreboard.cs:40 | The summary has one entry per match in progress. It is empty exactly when no match is in progress. |
| `Matches.SummaryContents` | Scoreboard/Scoreboard/IScoreboard.cs:35 | Every match in progress appears in the summary, and every summary entry is the view of a match in progress. |
| `Matches.SummaryByTotal` | Scoreboard/Scoreboard/IScoreboard.cs:38 | Summary entries are ordered by total score (home plus away), highest first. |
| `Matches.SummaryTieBreak` | Scoreboard/Scoreboard/IScoreboard.cs:38-39 | Two summary entries may have equal totals. Then the one listed first belongs to the match started later. |
| `Matches.Rank` | Scoreboard/Scoreboard/IScoreboard.cs:38-39 | The ranking is a permutation of the matches. Each element precedes every later one: its total is higher, or the totals are equal and it started later. |
| `Matches.Insert` | Scoreboard/Scoreboard/IScoreboard.cs:38-39 | Inserting into a ranked sequence gives a ranked sequence with that one element added. |
| `Matches.RankedPermutationUnique` | Scoreboard/Scoreboard/IScoreboard.cs:38-39 | Two ranked permutations of the same matches are equal, so the stated order fully determines the summary. |
| `Matches.RankSameElements` | Scoreboard/Scoreboard/IScoreboard.cs:35 | A match is in the ranking exactly when it is in progress. |
| `Matches.Find` | Scoreboard/Scoreboard/IScoreboard.cs:22 | Finds the position of a match with exactly the given home and away teams. It finds none exactly when no such match exists. |
| `Matches.FindIsTheOnlyMatch` | Scoreboard/Scoreboard/IScoreboard.cs:22 | When no team plays twice, any match with the pair is the one `Find` reports. |
| `Matches.TeamInOneMatch` | Scoreboard/Scoreboard/IScoreboard.cs:11 | In a well-formed registry, two matches that involve the same team are the same match. |
| `Matches.ViewIdentifiesMatch` | Scoreboard/Scoreboard/IScoreboard.cs:48-54 | When no team plays twice, an `IScoreboardMatch` view determines the match it shows. |
| `Matches.AppendKeepsWellFormed` | Scoreboard/Scoreboard/IScoreboard.cs:10-11 | Adding a match keeps the registry well formed when its names are present, neither team is playing, and it is stamped with the clock. |
| `Matches.RescoreKeepsWellFormed` | Scoreboard/Scoreboard/IScoreboard.cs:14-23 | Changing one match's scores keeps the registry well formed. |
| `Matches.RemoveKeepsWellFormed` | Scoreboard/Scoreboard/IScoreboard.cs:25-32 | Removing one match keeps the registry well formed. |
| `Football.FootballScoreboard.constructor` | Scoreboard/Scoreboard/FootballScoreboard.cs:10 | A new stub holds a match value, never null, whose home and away names are both empty. |
| `Football.FootballScoreboard.StartMatch` | Scoreboard/Scoreboard/FootballScoreboard.cs:5-8 | Afterwards the stored match is exactly the one between the given home and away teams. This is what Scoreboard/Scoreboard.Tests/FootballScoreboardTests.cs:14-19 asserts. Any names are accepted and the earlier match is not kept. |
| `Football.FootballMatchEquality` | Scoreboard/Scoreboard/FootballScoreboard.cs:12 | Two `FootballMatch` records are equal exactly when their home names and their away names are equal. |
| `Divergence.EmptyNames` | Scoreboard/Scoreboard/FootballScoreboard.cs:5-8 | The stub stores a match with empty names. The contract (IScoreboard.cs:10) answers the same call with `ArgumentError`. |
| `Divergence.RepeatedTeam` | Scoreboard/Scoreboard/FootballScoreboard.cs:5-10 | A second start for a team that is playing replaces the stub's only match. The contract (IScoreboard.cs:11) answers it with `InvalidOperation`. |
| `Divergence.SwappedRoles` | Scoreboard/Scoreboard/IScoreboard.cs:22 | An update whose teams have swapped home and away roles finds no match and fails with `InvalidOperation`. |
| `Divergence.MatchDay` | Scoreboard/Scoreboard/IScoreboard.cs:34-45 | With two 0-0 matches, the one started later is listed first. After Austria–Switzerland becomes 1-3 it is listed first. After it finishes, only Spain–Portugal remains. |

## Left out

- Wall-clock start times (`DateTime`): a logical counter stands for them. It orders starts the same way and cannot give two matches the same start time.
- Thread safety: the source does not address concurrency, and the model is single-threaded.
- Exceptions: the errors are `Outcome` values, and a failing call changes nothing.
- .NET types: the returned `List<IScoreboardMatch>` is a `seq<MatchView>` of immutable values. The `IScoreboardMatch` interface is a datatype.
- Overflow of the summed score: the sum that orders the summary is unbounded here. The source has no implementation of the summary, so what a 32-bit overflow of `HomeScore + AwayScore` would do is not part of this model.
- `FootballScoreboard.UpdateScore`, `FinishMatch` and `GetScoreboardSummary`: the stub declares `IScoreboard` but does not have these members, so there is nothing of them to model for the stub. The contract's versions are modelled in `Scoreboard`.
- Scoreboard/Scoreboard.Tests/FootballScoreboardTests.cs is test scaffolding. It is not modelled; its assertions are part of the stub's `StartMatch` contract.
