/**
 * The live statistics view: every home entry of the ledger (including players no longer
 * on the roster), ranked by points, with each player's field-goal percentage.
 */
module PlayerStats {
  import opened Wrappers
  import opened Counters
  import opened Sequences
  import opened Dicts
  import opened Rounding
  import opened GameSetup
  import opened Ledger
  import opened ScoreBoard

  /** `calculateFGPercentage`: 0 with no attempts, else the rounded percentage of all makes over all attempts. */
  function FieldGoalPercentage(st: Option<PlayerStat>): (r: nat)
    ensures var made := CurrentValue(st, TwoPointMade) + CurrentValue(st, ThreePointMade);
      var attempted := CurrentValue(st, TwoPointAttempted) + CurrentValue(st, ThreePointAttempted);
      && (attempted == 0 ==> r == 0)
      && (attempted > 0 ==> 2 * attempted * r <= 200 * made + attempted < 2 * attempted * r + 2 * attempted)
  {
    var made := CurrentValue(st, TwoPointMade) + CurrentValue(st, ThreePointMade);
    var attempted := CurrentValue(st, TwoPointAttempted) + CurrentValue(st, ThreePointAttempted);
    if attempted > 0 then RoundHalfUp(100 * made, attempted) else 0
  }

  /** For a player with no more makes than attempts the percentage lies in 0..100. */
  lemma FieldGoalPercentageBounded(st: PlayerStat)
    requires st.tally.ShotsConsistent()
    ensures FieldGoalPercentage(Some(st)) <= 100
  {
    var t := st.tally;
    var attempted := t.twoPointAttempted + t.threePointAttempted;
    if attempted > 0 {
      RoundHalfUpBounded(100 * (t.twoPointMade + t.threePointMade), attempted, 100);
    }
  }

  /** One line of the list. */
  datatype Entry = Entry(id: PlayerId, name: string, stat: PlayerStat, isOnCourt: bool)

  /** `teams.teamA.players.some(p => p.id === id)`. */
  predicate OnCourt(roster: seq<Player>, id: PlayerId) {
    exists i :: 0 <= i < |roster| && roster[i].id == id
  }

  /** The `map` step for one `[id, s]` pair. */
  function EntryOf(id: PlayerId, st: PlayerStat, roster: seq<Player>): Entry {
    Entry(id, st.name, st, OnCourt(roster, id))
  }

  /** `Object.entries(stats).filter(home).map(...)`, in the object's key order. */
  function HomeEntries(keys: seq<PlayerId>, values: map<PlayerId, PlayerStat>, roster: seq<Player>): (es: seq<Entry>)
    requires forall k :: k in keys ==> k in values
    ensures |es| <= |keys|
  {
    if keys == [] then []
    else
      var last := keys[|keys| - 1];
      HomeEntries(keys[..|keys| - 1], values, roster)
        + (if values[last].team == TeamA then [EntryOf(last, values[last], roster)] else [])
  }

  /** An entry is listed exactly when it is a home entry of the ledger, with its id, name and record. */
  lemma {:induction false} HomeEntriesMembers(keys: seq<PlayerId>, values: map<PlayerId, PlayerStat>, roster: seq<Player>)
    requires forall k :: k in keys ==> k in values
    ensures forall e :: e in HomeEntries(keys, values, roster) ==>
      e.id in keys && e.stat == values[e.id] && e.stat.team == TeamA && e.name == e.stat.name
      && (e.isOnCourt <==> OnCourt(roster, e.id))
    ensures forall id :: id in keys && values[id].team == TeamA ==>
      EntryOf(id, values[id], roster) in HomeEntries(keys, values, roster)
    decreases |keys|
  {
    if keys != [] {
      var init := keys[..|keys| - 1];
      assert forall k :: k in init ==> k in keys;
      HomeEntriesMembers(init, values, roster);
      assert forall id :: id in keys ==> id in init || id == keys[|keys| - 1];
    }
  }

  /** A line's sort key: the player's points. */
  function EntryPoints(e: Entry): int {
    TotalPoints(Some(e.stat))
  }

  /** `allPlayersWithStats`: the home entries sorted by points, highest first. */
  function AllPlayersWithStats(s: LedgerState): (list: seq<Entry>)
    requires s.stats.Valid()
    ensures SortedDesc(list, EntryPoints)
    ensures multiset(list) == multiset(HomeEntries(s.stats.keys, s.stats.values, s.teams.teamA.players))
    ensures |list| <= |s.stats.keys|
  {
    SortDescCorrect(HomeEntries(s.stats.keys, s.stats.values, s.teams.teamA.players), EntryPoints);
    assert |multiset(HomeEntries(s.stats.keys, s.stats.values, s.teams.teamA.players))| == |HomeEntries(s.stats.keys, s.stats.values, s.teams.teamA.players)|;
    SortDesc(HomeEntries(s.stats.keys, s.stats.values, s.teams.teamA.players), EntryPoints)
  }

  /**
   * The list is the filtered entries sorted by points, highest first: a permutation of
   * them in which lines with equal points keep the object's order.
   */
  lemma AllPlayersWithStatsSorted(s: LedgerState)
    requires s.stats.Valid()
    ensures var list := AllPlayersWithStats(s);
      var home := HomeEntries(s.stats.keys, s.stats.values, s.teams.teamA.players);
      && SortedDesc(list, EntryPoints)
      && multiset(list) == multiset(home)
      && (forall v :: Having(list, EntryPoints, v) == Having(home, EntryPoints, v))
  {
    SortDescCorrect(HomeEntries(s.stats.keys, s.stats.values, s.teams.teamA.players), EntryPoints);
  }

  /**
   * The list holds exactly the home entries of the ledger, each with its id and record, and
   * a line is marked on court exactly when its id is a current roster id.
   */
  lemma AllPlayersWithStatsMembers(s: LedgerState)
    requires s.stats.Valid()
    ensures var list := AllPlayersWithStats(s);
      && (forall e :: e in list ==>
            e.id in s.stats.values && e.stat == s.stats.values[e.id] && e.stat.team == TeamA
            && (e.isOnCourt <==> OnCourt(s.teams.teamA.players, e.id)))
      && (forall id :: id in s.stats.values && s.stats.values[id].team == TeamA ==>
            EntryOf(id, s.stats.values[id], s.teams.teamA.players) in list)
  {
    var home := HomeEntries(s.stats.keys, s.stats.values, s.teams.teamA.players);
    var list := AllPlayersWithStats(s);
    AllPlayersWithStatsSorted(s);
    HomeEntriesMembers(s.stats.keys, s.stats.values, s.teams.teamA.players);
    forall e | e in list ensures e in home {
      assert e in multiset(list);
    }
    forall id | id in s.stats.values && s.stats.values[id].team == TeamA
      ensures EntryOf(id, s.stats.values[id], s.teams.teamA.players) in list
    {
      assert EntryOf(id, s.stats.values[id], s.teams.teamA.players) in multiset(home);
    }
  }

  /** On a consistent ledger every current roster player is listed, marked as on court. */
  lemma RosterPlayersListedOnCourt(s: LedgerState, i: nat)
    requires Consistent(s) && i < |s.teams.teamA.players|
    ensures exists e :: e in AllPlayersWithStats(s) && e.id == s.teams.teamA.players[i].id && e.isOnCourt
  {
    var id := s.teams.teamA.players[i].id;
    AllPlayersWithStatsMembers(s);
    var e := EntryOf(id, s.stats.values[id], s.teams.teamA.players);
    assert e in AllPlayersWithStats(s);
    assert e.isOnCourt;
  }
}
