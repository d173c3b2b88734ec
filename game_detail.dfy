/**
 * The box score of one saved game: the team totals folded over the game's stored
 * player rows, the percentages derived from them, and the per-row figures of the table.
 */
module GameDetail {
  import opened Wrappers
  import opened Counters
  import opened Records
  import opened Decimal
  import opened Rounding

  /** `calculatePercentage(made, attempted)` on numbers is `PercentText`; with no more makes than attempts it shows at most 100.0. */
  lemma CalculatePercentageBounded(made: nat, attempted: nat)
    requires 0 < attempted && made <= attempted
    ensures PercentText(made, attempted) == FixedOne(TenthsPercent(made, attempted))
    ensures TenthsPercent(made, attempted) <= 1000
  {
    TenthsPercentBounded(made, attempted);
  }

  // ---- team totals ----

  /** One step of the `reduce`: every counter of the accumulator plus the row's value, a null counting 0. */
  function AddRow(acc: Tally, row: StatRow): (r: Tally)
    ensures forall k :: r.Get(k) == acc.Get(k) + Field(row, k)
  {
    Tally(
      acc.twoPointMade + Field(row, TwoPointMade), acc.twoPointAttempted + Field(row, TwoPointAttempted),
      acc.threePointMade + Field(row, ThreePointMade), acc.threePointAttempted + Field(row, ThreePointAttempted),
      acc.steals + Field(row, Steals), acc.offensiveRebounds + Field(row, OffensiveRebounds),
      acc.defensiveRebounds + Field(row, DefensiveRebounds), acc.assists + Field(row, Assists),
      acc.blocks + Field(row, Blocks), acc.turnovers + Field(row, Turnovers), acc.fouls + Field(row, Fouls))
  }

  /** The `reduce` over the rows from the all-zero record: each total is the column's sum over the rows. */
  function Totals(rows: seq<StatRow>): (t: Tally)
    ensures forall k :: t.Get(k) == SumField(rows, k)
  {
    if rows == [] then Zero else AddRow(Totals(rows[..|rows| - 1]), rows[|rows| - 1])
  }

  /** What `calculateTeamStats` returns for a non-empty game. */
  datatype TeamStats = TeamStats(
    totals: Tally, fieldGoalMade: nat, fieldGoalAttempted: nat, rebounds: nat,
    fg: string, twoP: string, threeP: string)

  /**
   * `calculateTeamStats`: null for a game without rows; otherwise the eleven column sums,
   * field goals as two- plus three-pointers, rebounds as offensive plus defensive, and the
   * three percentages of those sums.
   */
  function CalculateTeamStats(rows: seq<StatRow>): (r: Option<TeamStats>)
    ensures r.None? <==> |rows| == 0
    ensures r.Some? ==>
      && (forall k :: r.value.totals.Get(k) == SumField(rows, k))
      && r.value.fieldGoalMade == SumField(rows, TwoPointMade) + SumField(rows, ThreePointMade)
      && r.value.fieldGoalAttempted == SumField(rows, TwoPointAttempted) + SumField(rows, ThreePointAttempted)
      && r.value.rebounds == SumField(rows, OffensiveRebounds) + SumField(rows, DefensiveRebounds)
      && r.value.fg == PercentText(r.value.fieldGoalMade, r.value.fieldGoalAttempted)
      && r.value.twoP == PercentText(SumField(rows, TwoPointMade), SumField(rows, TwoPointAttempted))
      && r.value.threeP == PercentText(SumField(rows, ThreePointMade), SumField(rows, ThreePointAttempted))
  {
    if |rows| == 0 then None
    else
      var t := Totals(rows);
      var fgMade := t.twoPointMade + t.threePointMade;
      var fgAttempted := t.twoPointAttempted + t.threePointAttempted;
      Some(TeamStats(t, fgMade, fgAttempted, t.offensiveRebounds + t.defensiveRebounds,
        PercentText(fgMade, fgAttempted),
        PercentText(t.twoPointMade, t.twoPointAttempted),
        PercentText(t.threePointMade, t.threePointAttempted)))
  }

  /** A column that is never larger than another in any row is never larger in sum. */
  lemma {:induction false} SumFieldLe(rows: seq<StatRow>, a: Counter, b: Counter)
    requires forall i :: 0 <= i < |rows| ==> Field(rows[i], a) <= Field(rows[i], b)
    ensures SumField(rows, a) <= SumField(rows, b)
  {
    if rows != [] {
      SumFieldLe(rows[..|rows| - 1], a, b);
    }
  }

  /** No row has more makes than attempts. */
  predicate RowsConsistent(rows: seq<StatRow>) {
    forall i :: 0 <= i < |rows| ==>
      Field(rows[i], TwoPointMade) <= Field(rows[i], TwoPointAttempted)
      && Field(rows[i], ThreePointMade) <= Field(rows[i], ThreePointAttempted)
  }

  /** When no row has more makes than attempts, each team percentage lies in 0.0..100.0. */
  lemma TeamPercentagesBounded(rows: seq<StatRow>)
    requires RowsConsistent(rows) && |rows| > 0
    ensures var ts := CalculateTeamStats(rows).value;
      && ts.fieldGoalMade <= ts.fieldGoalAttempted
      && (ts.fieldGoalAttempted > 0 ==> TenthsPercent(ts.fieldGoalMade, ts.fieldGoalAttempted) <= 1000)
      && (ts.totals.twoPointAttempted > 0 ==> TenthsPercent(ts.totals.twoPointMade, ts.totals.twoPointAttempted) <= 1000)
      && (ts.totals.threePointAttempted > 0 ==> TenthsPercent(ts.totals.threePointMade, ts.totals.threePointAttempted) <= 1000)
  {
    var ts := CalculateTeamStats(rows).value;
    SumFieldLe(rows, TwoPointMade, TwoPointAttempted);
    SumFieldLe(rows, ThreePointMade, ThreePointAttempted);
    assert ts.totals.Get(TwoPointMade) <= ts.totals.Get(TwoPointAttempted);
    assert ts.totals.Get(ThreePointMade) <= ts.totals.Get(ThreePointAttempted);
    if ts.fieldGoalAttempted > 0 {
      TenthsPercentBounded(ts.fieldGoalMade, ts.fieldGoalAttempted);
    }
    if ts.totals.twoPointAttempted > 0 {
      TenthsPercentBounded(ts.totals.twoPointMade, ts.totals.twoPointAttempted);
    }
    if ts.totals.threePointAttempted > 0 {
      TenthsPercentBounded(ts.totals.threePointMade, ts.totals.threePointAttempted);
    }
  }

  /** Three rows with offensive rebounds 1, 2, 0 and defensive rebounds 3, 1, 2 total 9 rebounds. */
  lemma ReboundsExample()
    ensures var rows := [
        StatRow(1, "A", "H", map[OffensiveRebounds := 1, DefensiveRebounds := 3], 0),
        StatRow(1, "B", "H", map[OffensiveRebounds := 2, DefensiveRebounds := 1], 0),
        StatRow(1, "C", "H", map[OffensiveRebounds := 0, DefensiveRebounds := 2], 0)];
      CalculateTeamStats(rows).value.rebounds == 9
  {
    var rows := [
        StatRow(1, "A", "H", map[OffensiveRebounds := 1, DefensiveRebounds := 3], 0),
        StatRow(1, "B", "H", map[OffensiveRebounds := 2, DefensiveRebounds := 1], 0),
        StatRow(1, "C", "H", map[OffensiveRebounds := 0, DefensiveRebounds := 2], 0)];
    assert rows[..1][..0] == [] && rows[..2][..1] == rows[..1] && rows[..3][..2] == rows[..2] && rows[..3] == rows;
    assert SumField(rows[..1], OffensiveRebounds) == 1 && SumField(rows[..1], DefensiveRebounds) == 3;
    assert SumField(rows[..2], OffensiveRebounds) == 3 && SumField(rows[..2], DefensiveRebounds) == 4;
    assert SumField(rows, OffensiveRebounds) == 3;
    assert SumField(rows, DefensiveRebounds) == 6;
  }

  // ---- one row of the table ----

  /** A stored column as read: a number, or null. */
  function Column(row: StatRow, k: Counter): (v: Option<nat>)
    ensures v.Some? <==> k in row.columns
    ensures v.Some? ==> v.value == Field(row, k)
  {
    if k in row.columns then Some(row.columns[k]) else None
  }

  /**
   * The 2P% and 3P% cells as written: the raw columns go to `calculatePercentage`, so a
   * null attempts column (`null === 0` is false) divides by zero and prints "NaN" or
   * "Infinity"; a null makes column divides as 0.
   */
  function ShotCellAsWritten(made: Option<nat>, attempted: Option<nat>): (s: string)
    ensures attempted == Some(0) ==> s == "0"
    ensures attempted.None? ==> s == (if made.None? || made.value == 0 then "NaN" else "Infinity")
    ensures attempted.Some? && attempted.value > 0 ==>
      s == PercentText(if made.Some? then made.value else 0, attempted.value)
  {
    match attempted
    case None => if made.None? || made.value == 0 then "NaN" else "Infinity"
    case Some(a) => PercentText(if made.Some? then made.value else 0, a)
  }

  /** The 2P% or 3P% cell with a null column read as 0, as the field-goal cell beside it does. */
  function ShotCell(row: StatRow, shotType: int): (s: string)
    ensures s == "0" <==> Field(row, AttemptedKey(shotType)) == 0
    ensures s == PercentText(Field(row, MadeKey(shotType)), Field(row, AttemptedKey(shotType)))
  {
    PercentText(Field(row, MadeKey(shotType)), Field(row, AttemptedKey(shotType)))
  }

  /** The two cells agree whenever the attempts column is stored. */
  lemma ShotCellAgrees(row: StatRow, shotType: int)
    requires AttemptedKey(shotType) in row.columns
    ensures ShotCellAsWritten(Column(row, MadeKey(shotType)), Column(row, AttemptedKey(shotType))) == ShotCell(row, shotType)
  {
  }

  /** A row with one made two-pointer and a null attempts column: the cell as written shows "Infinity". */
  lemma ShotCellNullAttempts()
    ensures var row := StatRow(1, "A", "H", map[TwoPointMade := 1], 2);
      && ShotCellAsWritten(Column(row, TwoPointMade), Column(row, TwoPointAttempted)) == "Infinity"
      && ShotCell(row, 2) == "0"
  {
  }

  /** The per-row figures of the table. */
  datatype RowLine = RowLine(fieldGoalMade: nat, fieldGoalAttempted: nat, rebounds: nat, fg: string, twoP: string, threeP: string)

  /** One table row: field goals and rebounds as sums of the row's columns (nulls as 0) and its three percentages. */
  function RowLineOf(row: StatRow): (l: RowLine)
    ensures l.fieldGoalMade == Field(row, TwoPointMade) + Field(row, ThreePointMade)
    ensures l.fieldGoalAttempted == Field(row, TwoPointAttempted) + Field(row, ThreePointAttempted)
    ensures l.rebounds == Field(row, OffensiveRebounds) + Field(row, DefensiveRebounds)
    ensures l.fg == PercentText(l.fieldGoalMade, l.fieldGoalAttempted)
    ensures l.twoP == ShotCell(row, 2) && l.threeP == ShotCell(row, 3)
  {
    var made := Field(row, TwoPointMade) + Field(row, ThreePointMade);
    var attempted := Field(row, TwoPointAttempted) + Field(row, ThreePointAttempted);
    RowLine(made, attempted, Field(row, OffensiveRebounds) + Field(row, DefensiveRebounds),
      PercentText(made, attempted), ShotCell(row, 2), ShotCell(row, 3))
  }

  /** The table's one-row figures are the team totals of a one-row game. */
  lemma RowLineIsSingleGameTotal(row: StatRow)
    ensures var ts := CalculateTeamStats([row]).value;
      var l := RowLineOf(row);
      l.fieldGoalMade == ts.fieldGoalMade && l.fieldGoalAttempted == ts.fieldGoalAttempted
      && l.rebounds == ts.rebounds && l.fg == ts.fg
  {
    assert [row][..0] == [];
  }
}
