/**
 * The two stored record shapes: one row of the `player_stats` table per player and
 * game, and one row of the `games` table per game. Stored counter columns may be
 * null; every reader treats a missing counter as 0 (`row.column || 0`).
 */
module Records {
  import opened Counters

  /** A `player_stats` row. A counter absent from `columns` is a null column. */
  datatype StatRow = StatRow(
    gameId: nat, playerName: string, team: string,
    columns: map<Counter, nat>, totalPoints: nat)

  /** `row.column || 0`. */
  function Field(row: StatRow, k: Counter): (v: nat)
    ensures k !in row.columns ==> v == 0
    ensures k in row.columns ==> v == row.columns[k]
  {
    if k in row.columns then row.columns[k] else 0
  }

  /** The sum of one counter over rows, a missing value counting as 0. */
  function SumField(rows: seq<StatRow>, k: Counter): nat {
    if rows == [] then 0 else SumField(rows[..|rows| - 1], k) + Field(rows[|rows| - 1], k)
  }

  /** Points recomputed from a row's made shots: `two_point_made * 2 + three_point_made * 3`. */
  function RowPoints(row: StatRow): nat {
    Field(row, TwoPointMade) * 2 + Field(row, ThreePointMade) * 3
  }

  /** A `games` row: the date as stored (`YYYY-MM-DD`), team names and final scores. */
  datatype GameRow = GameRow(
    date: string, teamAName: string, teamBName: string,
    teamAScore: int, teamBScore: int)
}
