/**
 * Career statistics: every stored `player_stats` row is rolled up into one record per
 * player name (games played and summed counters), and the records are ranked by points.
 */
module PlayerAnalytics {
  import opened Counters
  import opened Sequences
  import opened Dicts
  import opened Records
  import opened Decimal
  import opened Rounding

  /**
   * One player's career record. The counters are those of a game record except fouls,
   * which the career record does not have: `tally.fouls` stays 0.
   */
  datatype Career = Career(playerName: string, games: nat, totalPoints: nat, tally: Tally)

  /** The record created the first time a name is met. */
  function NewCareer(name: string): Career {
    Career(name, 0, 0, Zero)
  }

  /** The name a row is grouped by. */
  function NameOf(row: StatRow): string {
    row.playerName
  }

  /**
   * The body of the `forEach` for an existing record: one more game, every counter but fouls
   * raised by the row's value (a null counting 0), the points recomputed from the row's makes.
   */
  function AddGame(c: Career, row: StatRow): (r: Career)
    ensures r.playerName == c.playerName && r.games == c.games + 1
    ensures r.totalPoints == c.totalPoints + Field(row, TwoPointMade) * 2 + Field(row, ThreePointMade) * 3
    ensures forall k :: k != Fouls ==> r.tally.Get(k) == c.tally.Get(k) + Field(row, k)
    ensures r.tally.fouls == c.tally.fouls
  {
    var t := c.tally;
    Career(c.playerName, c.games + 1, c.totalPoints + RowPoints(row),
      t.(twoPointMade := t.twoPointMade + Field(row, TwoPointMade),
         twoPointAttempted := t.twoPointAttempted + Field(row, TwoPointAttempted),
         threePointMade := t.threePointMade + Field(row, ThreePointMade),
         threePointAttempted := t.threePointAttempted + Field(row, ThreePointAttempted),
         steals := t.steals + Field(row, Steals),
         offensiveRebounds := t.offensiveRebounds + Field(row, OffensiveRebounds),
         defensiveRebounds := t.defensiveRebounds + Field(row, DefensiveRebounds),
         assists := t.assists + Field(row, Assists),
         blocks := t.blocks + Field(row, Blocks),
         turnovers := t.turnovers + Field(row, Turnovers)))
  }

  /** One pass of the loop: create the name's record if it is missing, then add the row to it. */
  function Step(aggregated: Dict<Career>, row: StatRow): (r: Dict<Career>)
    requires aggregated.Valid()
    ensures r.Valid()
  {
    var c := if row.playerName in aggregated.values then aggregated.values[row.playerName] else NewCareer(row.playerName);
    aggregated.Put(row.playerName, AddGame(c, row))
  }

  /** `aggregated` after the loop has seen `rows`. */
  function Aggregated(rows: seq<StatRow>): (d: Dict<Career>)
    ensures d.Valid()
  {
    if rows == [] then Dict([], map[]) else Step(Aggregated(rows[..|rows| - 1]), rows[|rows| - 1])
  }

  /** The aggregation loop of `loadPlayerStats`. */
  method AggregateCareers(data: seq<StatRow>) returns (aggregated: Dict<Career>)
    ensures aggregated == Aggregated(data)
  {
    aggregated := Dict([], map[]);
    for i := 0 to |data|
      invariant aggregated == Aggregated(data[..i])
    {
      var stat := data[i];
      assert data[..i + 1][..i] == data[..i];
      assert Aggregated(data[..i + 1]) == Step(aggregated, stat);
      var player := if stat.playerName in aggregated.values then aggregated.values[stat.playerName] else NewCareer(stat.playerName);
      player := AddGame(player, stat);
      aggregated := aggregated.Put(stat.playerName, player);
    }
    assert data[..|data|] == data;
  }

  // ---- the reference definition ----

  /** The recomputed points of the rows, added up. */
  function SumPoints(rows: seq<StatRow>): nat {
    if rows == [] then 0 else SumPoints(rows[..|rows| - 1]) + RowPoints(rows[|rows| - 1])
  }

  /** `c` is the career `name` has over the rows `mine`: their count, their summed points and columns. */
  ghost predicate CareerSums(c: Career, mine: seq<StatRow>, name: string) {
    && c.playerName == name
    && c.games == |mine|
    && c.totalPoints == SumPoints(mine)
    && (forall k :: k != Fouls ==> c.tally.Get(k) == SumField(mine, k))
    && c.tally.fouls == 0
  }

  /** The career of `name` over all the rows: the sums over the rows bearing that name. */
  ghost predicate IsCareerOf(c: Career, rows: seq<StatRow>, name: string) {
    CareerSums(c, Having(rows, NameOf, name), name)
  }

  /** Adding a game to a career adds the row to its group. */
  lemma AddGameSums(c: Career, mine: seq<StatRow>, row: StatRow)
    requires CareerSums(c, mine, c.playerName)
    ensures CareerSums(AddGame(c, row), mine + [row], c.playerName)
  {
    assert (mine + [row])[..|mine|] == mine;
  }

  /** One loop pass adds the row to the career of its own name. */
  lemma StepSameName(d: Dict<Career>, row: StatRow, mine: seq<StatRow>)
    requires d.Valid()
    requires row.playerName in d.values ==> CareerSums(d.values[row.playerName], mine, row.playerName)
    requires row.playerName !in d.values ==> mine == []
    ensures CareerSums(Step(d, row).values[row.playerName], mine + [row], row.playerName)
  {
    var c := if row.playerName in d.values then d.values[row.playerName] else NewCareer(row.playerName);
    assert Step(d, row).values[row.playerName] == AddGame(c, row);
    AddGameSums(c, mine, row);
  }

  /** A name without a record has no rows. */
  lemma UnseenNameHasNoRows(rows: seq<StatRow>, name: string)
    requires name !in Aggregated(rows).values
    ensures Having(rows, NameOf, name) == []
  {
    AggregatedKeys(rows);
    HavingEmpty(rows, NameOf, name);
  }

  /** The records are listed in the order their names first appear, each name once. */
  lemma {:induction false} AggregatedKeys(rows: seq<StatRow>)
    ensures Aggregated(rows).keys == FirstKeys(rows, NameOf)
    decreases |rows|
  {
    if rows != [] {
      var init := rows[..|rows| - 1];
      AggregatedKeys(init);
    }
  }

  /**
   * Each record is its name's career: games = its row count, counters and points = sums
   * over its rows (the stored `total_points` plays no part).
   */
  lemma {:induction false} AggregatedEntry(rows: seq<StatRow>, name: string)
    requires name in Aggregated(rows).values
    ensures IsCareerOf(Aggregated(rows).values[name], rows, name)
    decreases |rows|
  {
    var init, row := rows[..|rows| - 1], rows[|rows| - 1];
    var d := Aggregated(init);
    assert Aggregated(rows) == Step(d, row);
    if name == row.playerName {
      assert Having(rows, NameOf, name) == Having(init, NameOf, name) + [row];
      if name in d.values {
        AggregatedEntry(init, name);
      } else {
        UnseenNameHasNoRows(init, name);
      }
      StepSameName(d, row, Having(init, NameOf, name));
    } else {
      assert Aggregated(rows).values[name] == d.values[name];
      assert Having(rows, NameOf, name) == Having(init, NameOf, name);
      AggregatedEntry(init, name);
    }
  }

  /**
   * The aggregation is right: one record per distinct name, in first-appearance order, and
   * each record is that name's career.
   */
  lemma AggregatedCorrect(rows: seq<StatRow>)
    ensures Aggregated(rows).keys == FirstKeys(rows, NameOf)
    ensures forall name :: name in Aggregated(rows).values ==> IsCareerOf(Aggregated(rows).values[name], rows, name)
  {
    AggregatedKeys(rows);
    forall name | name in Aggregated(rows).values ensures IsCareerOf(Aggregated(rows).values[name], rows, name) {
      AggregatedEntry(rows, name);
    }
  }

  /** The games of all the records add up to the number of rows: no row lost or counted twice. */
  lemma GamesAddUp(rows: seq<StatRow>)
    ensures GamesOf(Aggregated(rows).keys, Aggregated(rows).values) == |rows|
  {
    AggregatedCorrect(rows);
    GamesAreGroupSizes(FirstKeys(rows, NameOf), rows, Aggregated(rows).values);
    GroupSizesTotal(rows, NameOf);
  }

  /** The games of the listed records, added up. */
  function GamesOf(names: seq<string>, values: map<string, Career>): nat {
    if names == [] then 0 else (if names[0] in values then values[names[0]].games else 0) + GamesOf(names[1..], values)
  }

  lemma {:induction false} GamesAreGroupSizes(names: seq<string>, rows: seq<StatRow>, values: map<string, Career>)
    requires forall name :: name in names ==> name in values && IsCareerOf(values[name], rows, name)
    ensures GamesOf(names, values) == GroupSizes(rows, NameOf, names)
  {
    if names != [] {
      assert names[0] in names;
      GamesAreGroupSizes(names[1..], rows, values);
    }
  }

  // ---- ranking and the card figures ----

  /** A record's sort key. */
  function PointsKey(c: Career): int {
    c.totalPoints
  }

  /** `Object.values(aggregated).sort((a, b) => b.totalPoints - a.totalPoints)`. */
  function Ranking(rows: seq<StatRow>): (ranked: seq<Career>)
    ensures SortedDesc(ranked, PointsKey)
    ensures multiset(ranked) == multiset(Aggregated(rows).Values())
  {
    SortDescCorrect(Aggregated(rows).Values(), PointsKey);
    SortDesc(Aggregated(rows).Values(), PointsKey)
  }

  /**
   * The ranking lists exactly the aggregated records, highest points first; records with
   * equal points keep their first-appearance order.
   */
  lemma RankingCorrect(rows: seq<StatRow>)
    ensures SortedDesc(Ranking(rows), PointsKey)
    ensures multiset(Ranking(rows)) == multiset(Aggregated(rows).Values())
    ensures forall v :: Having(Ranking(rows), PointsKey, v) == Having(Aggregated(rows).Values(), PointsKey, v)
    ensures |Ranking(rows)| == |FirstKeys(rows, NameOf)|
  {
    SortDescCorrect(Aggregated(rows).Values(), PointsKey);
    AggregatedCorrect(rows);
    assert |Ranking(rows)| == |multiset(Ranking(rows))|;
    assert |Aggregated(rows).Values()| == |multiset(Aggregated(rows).Values())|;
  }

  /**
   * The card's field-goal percentage, `calculatePercentage` of all makes over all attempts:
   * 0 with no attempts, else the half-up rounded percentage, at most 100 when no kind of
   * shot has more makes than attempts.
   */
  function FieldGoalPercentage(c: Career): (r: nat)
    ensures var made := c.tally.Get(TwoPointMade) + c.tally.Get(ThreePointMade);
      var attempted := c.tally.Get(TwoPointAttempted) + c.tally.Get(ThreePointAttempted);
      && (attempted == 0 ==> r == 0)
      && (attempted > 0 ==> 2 * attempted * r <= 200 * made + attempted < 2 * attempted * r + 2 * attempted)
    ensures c.tally.ShotsConsistent() ==> r <= 100
  {
    var made := c.tally.twoPointMade + c.tally.threePointMade;
    var attempted := c.tally.twoPointAttempted + c.tally.threePointAttempted;
    assert made <= attempted ==> RoundedPercent(made, attempted) <= 100 by {
      if made <= attempted {
        RoundedPercentBounded(made, attempted);
      }
    }
    RoundedPercent(made, attempted)
  }

  /** The card's average points: 0 without games, else points per game to one decimal. */
  function AveragePoints(c: Career): (s: string)
    ensures c.games == 0 <==> s == "0"
    ensures c.games > 0 ==> s == FixedOne(RoundHalfUp(10 * c.totalPoints, c.games))
  {
    AverageText(c.totalPoints, c.games)
  }

  /** The turnover line, present only with turnovers: turnovers per game to one decimal. */
  function TurnoverAverage(c: Career): (s: string)
    requires c.tally.turnovers > 0
    ensures c.games > 0 ==> s == FixedOne(RoundHalfUp(10 * c.tally.turnovers, c.games))
    ensures c.games == 0 ==> s == "Infinity"
  {
    if c.games > 0 then FixedOne(RoundHalfUp(10 * c.tally.turnovers, c.games)) else "Infinity"
  }

  /** Every aggregated record has played at least one game, so its averages are numbers. */
  lemma AggregatedHaveGames(rows: seq<StatRow>, name: string)
    requires name in Aggregated(rows).values
    ensures Aggregated(rows).values[name].games >= 1
    ensures AveragePoints(Aggregated(rows).values[name]) != "0"
  {
    AggregatedCorrect(rows);
    assert name in FirstKeys(rows, NameOf);
    HavingEmpty(rows, NameOf, name);
  }

  /** Two rows for "Alice", worth 10 and 20 points by their makes; the second row's stored `total_points` is wrong on purpose. */
  function AliceRows(): seq<StatRow> {
    [StatRow(1, "Alice", "H", map[TwoPointMade := 5], 10),
     StatRow(2, "Alice", "H", map[TwoPointMade := 4, ThreePointMade := 4], 99)]
  }

  lemma AliceKeys()
    ensures FirstKeys(AliceRows(), NameOf) == ["Alice"]
  {
    var rows := AliceRows();
    assert rows[..1][..0] == [];
    assert FirstKeys(rows[..1], NameOf) == ["Alice"];
  }

  lemma AliceGroup()
    ensures Having(AliceRows(), NameOf, "Alice") == AliceRows()
  {
    var rows := AliceRows();
    assert rows[..1][..0] == [];
    assert Having(rows[..1], NameOf, "Alice") == [rows[0]];
    assert [rows[0]] + [rows[1]] == rows;
  }

  lemma AlicePoints()
    ensures SumPoints(AliceRows()) == 30
  {
    var rows := AliceRows();
    assert rows[..1][..0] == [];
    assert RowPoints(rows[0]) == 10 && RowPoints(rows[1]) == 20;
    assert SumPoints(rows[..1]) == 10;
  }

  lemma AliceAggregate()
    ensures Aggregated(AliceRows()).keys == ["Alice"]
    ensures "Alice" in Aggregated(AliceRows()).values
    ensures Aggregated(AliceRows()).values["Alice"].games == 2
    ensures Aggregated(AliceRows()).values["Alice"].totalPoints == 30
  {
    AliceKeys();
    AliceGroup();
    AlicePoints();
    AggregatedCorrect(AliceRows());
    assert "Alice" in Aggregated(AliceRows()).keys;
  }

  /** The two "Alice" rows give one record: 2 games, 30 points, an average of "15.0". */
  lemma CareerExample()
    ensures var c := Aggregated(AliceRows()).values["Alice"];
      && Aggregated(AliceRows()).keys == ["Alice"]
      && c.games == 2 && c.totalPoints == 30 && AveragePoints(c) == "15.0"
  {
    AliceAggregate();
    AverageExample();
  }

  /** 30 points over 2 games print as "15.0". */
  lemma AverageExample()
    ensures AverageText(30, 2) == "15.0"
  {
    assert RoundHalfUp(300, 2) == 150;
    assert DigitChar(1) == '1' && DigitChar(5) == '5' && DigitChar(0) == '0';
    assert NatToString(15) == NatToString(1) + [DigitChar(5)] == "15";
  }
}
