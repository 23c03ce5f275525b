# Wavelength: scoring rule and player roster

This project models the two pieces of game logic in the Wavelength dial game.

- **Scoring** (`scoring.dfy`, module `Scoring`): `calculatePoints(angle, targetAngle, streak)`.
  It takes the absolute difference between the guessed angle and the target angle.
  That difference falls into one of four zones, each with an inclusive upper bound: 5, 13 and 23.
  The zones give 3, 2, 1 or 0 base points.
  The best zone adds one to the streak, and every other zone resets it to 0.
  The points are the base times the multiplier `1 + floor(newStreak / 2)`.
  The function is stateless, so the caller carries the streak from one guess to the next.
  `Play` models that caller loop, so the model can state what a run of guesses does to the streak.
- **Roster store** (`roster.dfy`, module `Roster`): the state behind `createGameStore`.
  This is an ordered list of `Player` records (`id`, `name`, `score`), held as the `players` field of class `GameStore`.
  The store can replace the list (`setPlayers`), append a player with id 0 and score 0 (`addPlayer`), and remove a player by position (`removePlayer`).
  It can also add a delta to one player's score, clamped at zero (`updatePlayerScore`), and clear the list (`reset`).
  An index outside the list is a silent no-op.
  Each transformation is a pure sequence function: `WithNewPlayer`, `WithoutPlayer` (a filter by position) and `WithScoreChange` (a map by position).
  The class methods install the result of these functions as the new state.

Angles are `real` because the source applies only `abs`, `-` and `<=` to them.
The streak, scores, deltas and indices are `int`.
For an integer streak, `Math.floor(n / 2)` equals Dafny's Euclidean `n / 2`, including for negative `n`.

Two consequences of the code are worth stating outright:

- The multiplier uses the streak after the hit.
  So five exact hits from streak 0 give 3, 6, 6, 9, 9 points (`Scoring.FiveExactHits`).
- `addPlayer`, `removePlayer`, `updatePlayerScore` and `reset` keep every score non-negative.
  `setPlayers` installs any list unchecked, so it can break that property (`Roster.SetPlayersMayBreakScoresNonNegative`).

## Model

| member | source | states |
|---|---|---|
| `Scoring.Abs` | src/lib/game/scoring.ts:10 | the distance is non-negative and is either the difference or its negation |
| `Scoring.BasePoints` | src/lib/game/scoring.ts:12-27 | the base points of a zone lie between 0 and 3 |
| `Scoring.Multiplier` | src/lib/game/scoring.ts:29 | for every integer streak, `2*(m-1) <= streak < 2*m`, so `m` is `1 + floor(streak / 2)`; for a non-negative streak the multiplier is at least 1 |
| `Scoring.CalculatePoints` | src/lib/game/scoring.ts:5-35 | the new streak is either 0 or the old streak plus one; for a non-negative streak it is the old plus one exactly when the distance is at most 5; for a non-negative streak the points and the new streak are non-negative |
| `Scoring.BestZoneResult` | src/lib/game/scoring.ts:15-33 | distance at most 5: the streak becomes `streak + 1` and the points are `3 * (1 + (streak + 1) / 2)` |
| `Scoring.YellowZoneResult` | src/lib/game/scoring.ts:18-33 | distance in (5, 13]: the result is 2 points and streak 0, whatever the input streak |
| `Scoring.RedZoneResult` | src/lib/game/scoring.ts:21-33 | distance in (13, 23]: the result is 1 point and streak 0, whatever the input streak |
| `Scoring.MissResult` | src/lib/game/scoring.ts:24-33 | distance above 23: the result is 0 points and streak 0 |
| `Scoring.ZoneBoundariesInclusive` | src/lib/game/scoring.ts:1-27 | distances 5, 13 and 23 fall in the 3-, 2- and 1-point zones; 5.0001, 13.0001 and 23.0001 fall in the next zone down |
| `Scoring.Symmetric` | src/lib/game/scoring.ts:10 | swapping the angle and the target angle gives the same result |
| `Scoring.Play` | src/lib/game/scoring.ts:13-33 | a run of guesses, each scored with the streak the previous one returned, gives one award per guess |
| `Scoring.TrailingHits` | src/lib/game/scoring.ts:15-17 | the number of best-zone hits at the end of a run is at most its length |
| `Scoring.HitRun` | src/lib/game/scoring.ts:15-33 | in a run of best-zone hits, the k-th award has streak `streak + k + 1` and points `3 * (1 + (streak + k + 1) / 2)` |
| `Scoring.StreakCountsTrailingHits` | src/lib/game/scoring.ts:13-27 | after a run, the streak is the number of consecutive hits since the last non-hit; if the run has no non-hit, it is the initial streak plus the run's length |
| `Scoring.FiveExactHits` | src/lib/game/scoring.ts:15-33 | five exact hits from streak 0 give streaks 1 to 5 and points 3, 6, 6, 9, 9 |
| `Roster.Max` | src/lib/game/gameStore.ts:36 | the maximum is at least both arguments and equal to one of them |
| `Roster.WithNewPlayer` | src/lib/game/gameStore.ts:18-24 | adding a player grows the list by one, keeps every earlier player in order, and puts `{id: 0, name, score: 0}` last |
| `Roster.ScoresNonNegative` | src/lib/game/types.ts:4 | no player in the list has a negative score; stated both by position and by membership |
| `Roster.KeepOtherPositions` | src/lib/game/gameStore.ts:29 | the position filter is one shorter than its input when the index lies in range, and the same length otherwise |
| `Roster.KeepOtherPositionsDropsOne` | src/lib/game/gameStore.ts:29 | the position filter removes exactly the element at the given position when it lies in range, and nothing otherwise |
| `Roster.WithoutPlayer` | src/lib/game/gameStore.ts:27-30 | a valid index gives `players[..i] + players[i+1..]`, which is one shorter; any other index leaves the list unchanged |
| `Roster.Rescored` | src/lib/game/gameStore.ts:36 | `id` and `name` are kept; the new score is `max(0, score + delta)`, so it is non-negative |
| `Roster.WithScoreChange` | src/lib/game/gameStore.ts:33-39 | the length is unchanged; every player at another position is unchanged; the player at a valid index is rescored |
| `Roster.UpdateSpec` | src/lib/game/gameStore.ts:33-39 | a valid index replaces exactly that player by its rescored copy (`players[..i] + [p'] + players[i+1..]`); any other index leaves the list unchanged |
| `Roster.AddKeepsScoresNonNegative` | src/lib/game/gameStore.ts:18-24 | adding a player keeps every score non-negative |
| `Roster.RemoveKeepsScoresNonNegative` | src/lib/game/gameStore.ts:27-30 | removing a player keeps every score non-negative |
| `Roster.UpdateKeepsScoresNonNegative` | src/lib/game/gameStore.ts:33-39 | updating a score keeps every score non-negative |
| `Roster.SetPlayersMayBreakScoresNonNegative` | src/lib/game/gameStore.ts:14-16 | a new store has no negative score; after `SetPlayers` with a list holding score -1 it has one, so `setPlayers` can break the property |
| `Roster.GameStore.constructor` | src/lib/game/gameStore.ts:4-9 | the store starts with an empty roster |
| `Roster.GameStore.SetPlayers` | src/lib/game/gameStore.ts:14-16 | the roster becomes exactly the given list, with no merge |
| `Roster.GameStore.AddPlayer` | src/lib/game/gameStore.ts:18-24 | the new roster is the old one with a new player appended; non-negative scores stay non-negative |
| `Roster.GameStore.RemovePlayer` | src/lib/game/gameStore.ts:27-30 | the new roster is the old one filtered by position; non-negative scores stay non-negative |
| `Roster.GameStore.UpdatePlayerScore` | src/lib/game/gameStore.ts:33-39 | the new roster is the old one mapped by position with the clamped score change; non-negative scores stay non-negative |
| `Roster.GameStore.Reset` | src/lib/game/gameStore.ts:42-44 | the roster is empty afterwards, whatever it held before |
| `Roster.Session` | src/lib/game/gameStore.ts:14-44 | a session on a new store: adding "Ana" gives `[{0, Ana, 0}]`; after setting two players, `updatePlayerScore(0, -10)` clamps Ana's 5 to 0; `removePlayer(5)` on two players changes nothing; `reset` empties the roster |

## Left out

- Roster.GameStore.SetPlayers: the roster is modelled as a value of type `seq<Player>`, so sharing is not captured. In the source, `setPlayers` stores the caller's own array, and the `map` in `updatePlayerScore` keeps the untouched player objects by reference. A caller that later mutates that array or one of those objects changes the roster without going through the store, which the model cannot express.
- `subscribe` and the observable container that notifies subscribers (src/lib/game/gameStore.ts:1, 5, 12) are not modelled. The notification mechanism is an external reactive-store library, so only the state transitions are modelled.
- The module-level singleton `gameStore` (src/lib/game/gameStore.ts:48) is not modelled. It is only an instance of the store.
- The `GameState` fields `currentPlayerIndex` and `round` (src/lib/game/types.ts:7-11) are not modelled. No code reads or writes them.
- Floating-point behaviour is not modelled. This covers NaN, infinities and rounding of angles, scores and deltas. Angles are exact reals, and streaks, scores, deltas and indices are integers.
- A fractional index is not modelled. In the source, such an index matches no position, so it is a no-op, just like an out-of-range integer index here.
- Angle wraparound is not modelled, because the source does not normalise angles either.
- The caller that reads the dial and threads the streak through repeated calls is not part of the source. `Scoring.Play` is its abstract stand-in.
