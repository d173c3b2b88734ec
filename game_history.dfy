/**
 * The history screen: saved games grouped by date (dates in the order they first appear
 * in the loaded list), the win count of each date, the outcome badge of each game, and
 * the set of dates the user has expanded.
 */
module GameHistory {
  import opened Sequences
  import opened Dicts
  import opened Records

  /** The grouping key: the stored date string. */
  function DateOf(g: GameRow): string {
    g.date
  }

  /** One step of the grouping `reduce`: create the date's list when missing, then push the game. */
  function GroupStep(acc: Dict<seq<GameRow>>, g: GameRow): (r: Dict<seq<GameRow>>)
    requires acc.Valid()
    ensures r.Valid()
  {
    acc.Put(g.date, (if g.date in acc.values then acc.values[g.date] else []) + [g])
  }

  /** `gamesByDate`, as a left fold of `GroupStep` over the loaded games. */
  function Grouped(games: seq<GameRow>): (d: Dict<seq<GameRow>>)
    ensures d.Valid()
  {
    if games == [] then Dict([], map[]) else GroupStep(Grouped(games[..|games| - 1]), games[|games| - 1])
  }

  /** The grouping loop. */
  method GamesByDate(games: seq<GameRow>) returns (acc: Dict<seq<GameRow>>)
    ensures acc == Grouped(games)
  {
    acc := Dict([], map[]);
    for i := 0 to |games|
      invariant acc == Grouped(games[..i])
    {
      var game := games[i];
      var list := if game.date in acc.values then acc.values[game.date] else [];
      assert games[..i + 1][..i] == games[..i];
      acc := acc.Put(game.date, list + [game]);
    }
    assert games[..|games|] == games;
  }

  /** The dates are listed in the order they first appear, each once. */
  lemma {:induction false} GroupedKeys(games: seq<GameRow>)
    ensures Grouped(games).keys == FirstKeys(games, DateOf)
    decreases |games|
  {
    if games != [] {
      GroupedKeys(games[..|games| - 1]);
    }
  }

  /** Each date's list holds exactly the games of that date, in their loaded order. */
  lemma {:induction false} GroupedEntry(games: seq<GameRow>, date: string)
    requires date in Grouped(games).values
    ensures Grouped(games).values[date] == Having(games, DateOf, date)
    decreases |games|
  {
    var init, g := games[..|games| - 1], games[|games| - 1];
    var d := Grouped(init);
    assert Grouped(games) == GroupStep(d, g);
    if date == g.date {
      assert Having(games, DateOf, date) == Having(init, DateOf, date) + [g];
      if date in d.values {
        GroupedEntry(init, date);
      } else {
        GroupedKeys(init);
        HavingEmpty(init, DateOf, date);
      }
    } else {
      assert Having(games, DateOf, date) == Having(init, DateOf, date);
      GroupedEntry(init, date);
    }
  }

  /** The grouping is right: one list per distinct date in first-appearance order, each that date's games. */
  lemma GroupedCorrect(games: seq<GameRow>)
    ensures Grouped(games).keys == FirstKeys(games, DateOf)
    ensures forall date :: date in Grouped(games).values ==> Grouped(games).values[date] == Having(games, DateOf, date)
  {
    GroupedKeys(games);
    forall date | date in Grouped(games).values ensures Grouped(games).values[date] == Having(games, DateOf, date) {
      GroupedEntry(games, date);
    }
  }

  /** The "N 場比賽" counts of the listed dates, added up. */
  function ListedCount(dates: seq<string>, values: map<string, seq<GameRow>>): nat {
    if dates == [] then 0 else (if dates[0] in values then |values[dates[0]]| else 0) + ListedCount(dates[1..], values)
  }

  /** The per-date counts add up to the number of loaded games: no game is lost or shown twice. */
  lemma DateCountsAddUp(games: seq<GameRow>)
    ensures ListedCount(Grouped(games).keys, Grouped(games).values) == |games|
  {
    GroupedCorrect(games);
    ListedCountIsGroupSizes(FirstKeys(games, DateOf), games);
    GroupSizesTotal(games, DateOf);
  }

  lemma {:induction false} ListedCountIsGroupSizes(dates: seq<string>, games: seq<GameRow>)
    requires forall date :: date in dates ==> date in Grouped(games).values
    requires forall date :: date in Grouped(games).values ==> Grouped(games).values[date] == Having(games, DateOf, date)
    ensures ListedCount(dates, Grouped(games).values) == GroupSizes(games, DateOf, dates)
  {
    if dates != [] {
      assert dates[0] in dates;
      ListedCountIsGroupSizes(dates[1..], games);
    }
  }

  // ---- outcomes ----

  /** The three outcomes a game's badge distinguishes. */
  datatype Outcome = HomeWin | AwayWin | Draw

  function OutcomeOf(g: GameRow): Outcome {
    if g.teamAScore > g.teamBScore then HomeWin
    else if g.teamAScore < g.teamBScore then AwayWin
    else Draw
  }

  /** The same game seen from the other side: names and scores exchanged. */
  function SidesSwapped(g: GameRow): GameRow {
    g.(teamAName := g.teamBName, teamBName := g.teamAName, teamAScore := g.teamBScore, teamBScore := g.teamAScore)
  }

  /**
   * The outcome depends only on which side scored more: exchanging the sides turns a home win
   * into an away win and back, keeps a tie, and leaves the badge text as it was.
   */
  lemma OutcomeSymmetric(g: GameRow)
    ensures OutcomeOf(SidesSwapped(g)) == match OutcomeOf(g) { case HomeWin => AwayWin case AwayWin => HomeWin case Draw => Draw }
    ensures Badge(SidesSwapped(g)) == Badge(g)
  {
  }

  /** The badge text: the winner's name followed by " 勝", or "平手" for a tie. */
  function Badge(g: GameRow): (text: string)
    ensures OutcomeOf(g) == HomeWin ==> text == g.teamAName + " 勝"
    ensures OutcomeOf(g) == AwayWin ==> text == g.teamBName + " 勝"
    ensures OutcomeOf(g) != Draw ==> text[|text| - 1] == '勝'
    ensures OutcomeOf(g) == Draw <==> text == "平手"
  {
    if g.teamAScore > g.teamBScore then g.teamAName + " 勝"
    else if g.teamAScore < g.teamBScore then g.teamBName + " 勝"
    else "平手"
  }

  /** `dateGames.filter(g => g.team_a_score > g.team_b_score).length`. */
  function WinCount(games: seq<GameRow>): (n: nat)
    ensures n <= |games|
  {
    if games == [] then 0
    else WinCount(games[..|games| - 1]) + (if games[|games| - 1].teamAScore > games[|games| - 1].teamBScore then 1 else 0)
  }

  /** The win count is the number of games whose badge shows a home win. */
  lemma {:induction false} WinCountIsHomeWins(games: seq<GameRow>)
    ensures WinCount(games) == |Having(games, OutcomeOf, HomeWin)|
    decreases |games|
  {
    if games != [] {
      WinCountIsHomeWins(games[..|games| - 1]);
    }
  }

  /** Every game has exactly one outcome: wins, losses and ties add up to the games of the date. */
  lemma {:induction false} OutcomesAddUp(games: seq<GameRow>)
    ensures |Having(games, OutcomeOf, HomeWin)| + |Having(games, OutcomeOf, AwayWin)| + |Having(games, OutcomeOf, Draw)| == |games|
    decreases |games|
  {
    if games != [] {
      OutcomesAddUp(games[..|games| - 1]);
    }
  }

  /** A date's wins, losses and ties add up to the number of loaded games on that date. */
  lemma DateWinCount(games: seq<GameRow>, date: string)
    requires date in Grouped(games).values
    ensures WinCount(Grouped(games).values[date]) + |Having(Grouped(games).values[date], OutcomeOf, AwayWin)|
      + |Having(Grouped(games).values[date], OutcomeOf, Draw)| == |Having(games, DateOf, date)|
  {
    GroupedEntry(games, date);
    var group := Grouped(games).values[date];
    WinCountIsHomeWins(group);
    OutcomesAddUp(group);
  }

  // ---- expanded dates ----

  /** `expandedDates[date]` read as a boolean: a date never toggled is collapsed. */
  function IsExpanded(expanded: map<string, bool>, date: string): bool {
    date in expanded && expanded[date]
  }

  /** The map after `toggleDate(date)`. */
  function Toggled(expanded: map<string, bool>, date: string): (r: map<string, bool>)
    ensures IsExpanded(r, date) == !IsExpanded(expanded, date)
    ensures forall other :: other != date ==> IsExpanded(r, other) == IsExpanded(expanded, other)
  {
    expanded[date := !IsExpanded(expanded, date)]
  }

  /** Toggling the same date twice leaves every date as it was. */
  lemma ToggleTwice(expanded: map<string, bool>, date: string)
    ensures forall d :: IsExpanded(Toggled(Toggled(expanded, date), date), d) == IsExpanded(expanded, d)
  {
  }

  /** Toggles of two different dates commute. */
  lemma TogglesCommute(expanded: map<string, bool>, a: string, b: string)
    requires a != b
    ensures Toggled(Toggled(expanded, a), b) == Toggled(Toggled(expanded, b), a)
  {
  }

  class HistoryView {
    var expandedDates: map<string, bool>

    /** Every date starts collapsed. */
    constructor()
      ensures expandedDates == map[]
      ensures forall d :: !IsExpanded(expandedDates, d)
    {
      expandedDates := map[];
    }

    /** A click on a date header flips that date and no other. */
    method ToggleDate(date: string)
      modifies this
      ensures expandedDates == Toggled(old(expandedDates), date)
      ensures IsExpanded(expandedDates, date) == !IsExpanded(old(expandedDates), date)
    {
      expandedDates := expandedDates[date := !(date in expandedDates && expandedDates[date])];
    }
  }
}
