/**
 * The live game ledger of the application's top-level component: the per-player
 * `stats` object (home players only), the two team scores, and the handlers that
 * record and undo events. Each handler is one atomic update of that state.
 *
 * `LedgerState` is the value a render sees; the `After...` functions say what each
 * handler makes of it, and `GameLedger` is the mutable state the handlers update.
 */
module Ledger {
  import opened Counters
  import opened Sequences
  import opened Dicts
  import opened Records
  import opened GameSetup

  type PlayerId = string

  /** The `team` field of a stats entry: 'teamA' (home) or 'teamB' (away). */
  datatype Side = TeamA | TeamB

  /** One entry of `stats`. */
  datatype PlayerStat = PlayerStat(name: string, team: Side, tally: Tally)

  /** `scores`: one running total per side. */
  datatype Scores = Scores(teamA: int, teamB: int) {
    /** `scores[side]`. */
    function Of(side: Side): int {
      if side == TeamA then teamA else teamB
    }

    /** `{ ...scores, [side]: v }`. */
    function With(side: Side, v: int): (r: Scores)
      ensures r.Of(side) == v
      ensures forall o :: o != side ==> r.Of(o) == Of(o)
    {
      if side == TeamA then this.(teamA := v) else this.(teamB := v)
    }
  }

  /** Everything a render of the game screen reads. */
  datatype LedgerState = LedgerState(started: bool, teams: GameData, stats: Dict<PlayerStat>, scores: Scores)

  /** The state before any game: default team names, no players, no stats, 0 : 0. */
  const Initial := LedgerState(false, GameData(Team("主隊", []), Team("客隊", [])), Dict([], map[]), Scores(0, 0))

  function Max0(x: int): (r: nat)
    ensures r >= x && (r == 0 || r == x)
  {
    if x > 0 then x else 0
  }

  // ---- starting a game ----

  /** The entry a roster player starts with: home side, every counter 0. */
  function Fresh(p: Player): PlayerStat {
    PlayerStat(p.name, TeamA, Zero)
  }

  /** `initialStats` after the `forEach` over the first players: one entry per id, a later duplicate overwriting. */
  function ZeroStats(players: seq<Player>): (d: Dict<PlayerStat>)
    ensures d.Valid()
  {
    if players == [] then Dict([], map[])
    else
      var last := players[|players| - 1];
      ZeroStats(players[..|players| - 1]).Put(last.id, Fresh(last))
  }

  /** The stats `handleStartGame` builds have an entry exactly for each roster id, each on the home side with every counter 0. */
  lemma {:induction false} ZeroStatsEntries(players: seq<Player>)
    ensures forall id :: id in ZeroStats(players).values <==> id in Ids(players)
    ensures forall id :: id in ZeroStats(players).values ==>
      ZeroStats(players).values[id].team == TeamA && ZeroStats(players).values[id].tally == Zero
    decreases |players|
  {
    if players != [] {
      var init := players[..|players| - 1];
      ZeroStatsEntries(init);
      assert Ids(players) == Ids(init) + [players[|players| - 1].id];
    }
  }

  /** With distinct ids the entries are listed in roster order. */
  lemma {:induction false} ZeroStatsKeys(players: seq<Player>)
    requires Distinct(Ids(players))
    ensures ZeroStats(players).keys == Ids(players)
    decreases |players|
  {
    if players != [] {
      var init, last := players[..|players| - 1], players[|players| - 1];
      DistinctIdsInit(players);
      ZeroStatsKeys(init);
      assert last.id !in ZeroStats(init).values by {
        ZeroStatsEntries(init);
      }
      assert Ids(players) == Ids(init) + [last.id];
    }
  }

  /** With distinct ids each player's entry carries that player's name. */
  lemma {:induction false} ZeroStatsName(players: seq<Player>, i: nat)
    requires Distinct(Ids(players)) && i < |players|
    ensures players[i].id in ZeroStats(players).values
    ensures ZeroStats(players).values[players[i].id].name == players[i].name
    decreases |players|
  {
    var init, last := players[..|players| - 1], players[|players| - 1];
    if i < |init| {
      DistinctIdsInit(players);
      ZeroStatsName(init, i);
      assert players[i] == init[i];
      assert players[i].id != last.id by {
        assert Ids(init)[i] == players[i].id;
      }
    }
  }

  /** Dropping the last player keeps the ids distinct, and the last id is not among the others. */
  lemma DistinctIdsInit(players: seq<Player>)
    requires players != [] && Distinct(Ids(players))
    ensures Distinct(Ids(players[..|players| - 1]))
    ensures players[|players| - 1].id !in Ids(players[..|players| - 1])
  {
    var init := players[..|players| - 1];
    forall i, j | 0 <= i < j < |Ids(init)| ensures Ids(init)[i] != Ids(init)[j] {
      assert Ids(init)[i] == Ids(players)[i] && Ids(init)[j] == Ids(players)[j];
    }
  }

  /** The `forEach` loop of `handleStartGame` that fills `initialStats`. */
  method InitialStats(players: seq<Player>) returns (initialStats: Dict<PlayerStat>)
    ensures initialStats == ZeroStats(players)
  {
    initialStats := Dict([], map[]);
    var i := 0;
    while i < |players|
      invariant 0 <= i <= |players|
      invariant initialStats == ZeroStats(players[..i])
    {
      var player := players[i];
      assert players[..i + 1][..i] == players[..i];
      initialStats := initialStats.Put(player.id, Fresh(player));
      i := i + 1;
    }
    assert players[..|players|] == players;
  }

  /**
   * `handleStartGame`: the new teams and fresh stats, one home record with every counter at 0
   * for each roster id and no other record; the scores are left as they were.
   */
  function AfterStart(s: LedgerState, teamData: GameData): (r: LedgerState)
    ensures r.started && r.teams == teamData && r.scores == s.scores
    ensures r.stats.Valid()
    ensures forall id :: id in r.stats.values <==> id in Ids(teamData.teamA.players)
    ensures forall id :: id in r.stats.values ==> r.stats.values[id].team == TeamA && r.stats.values[id].tally == Zero
    ensures Distinct(Ids(teamData.teamA.players)) ==> r.stats.keys == Ids(teamData.teamA.players)
  {
    ZeroStatsEntries(teamData.teamA.players);
    ZeroStatsKeysWhenDistinct(teamData.teamA.players);
    LedgerState(true, teamData, ZeroStats(teamData.teamA.players), s.scores)
  }

  lemma ZeroStatsKeysWhenDistinct(players: seq<Player>)
    ensures Distinct(Ids(players)) ==> ZeroStats(players).keys == Ids(players)
  {
    if Distinct(Ids(players)) {
      ZeroStatsKeys(players);
    }
  }

  // ---- the record and undo handlers ----

  /** `r` differs from `s` at most in the counters of player `p` and in the scores. */
  ghost predicate OnlyPlayerChanged(s: LedgerState, r: LedgerState, p: PlayerId)
    requires p in s.stats.values
  {
    && r.started == s.started && r.teams == s.teams
    && r.stats.keys == s.stats.keys && r.stats.values.Keys == s.stats.values.Keys
    && (forall q :: q in s.stats.values && q != p ==> r.stats.values[q] == s.stats.values[q])
    && r.stats.values[p].name == s.stats.values[p].name
    && r.stats.values[p].team == s.stats.values[p].team
  }

  /**
   * `handleScore(p, k, points)`: counter `k` of `p` rises by one and no other counter
   * moves; `p`'s team gains `points` only when `points > 0`.
   */
  function AfterScore(s: LedgerState, p: PlayerId, k: Counter, points: int): (r: LedgerState)
    requires s.stats.Valid() && p in s.stats.values
    ensures OnlyPlayerChanged(s, r, p) && r.stats.Valid()
    ensures forall j :: (r.stats.values[p].tally.Get(j)
      == s.stats.values[p].tally.Get(j) + (if j == k then 1 else 0))
    ensures var team := s.stats.values[p].team;
      && r.scores.Of(team) == s.scores.Of(team) + (if points > 0 then points else 0)
      && forall o :: o != team ==> r.scores.Of(o) == s.scores.Of(o)
  {
    var st := s.stats.values[p];
    var stats := s.stats.Put(p, st.(tally := st.tally.Set(k, st.tally.Get(k) + 1)));
    if points > 0 then s.(stats := stats, scores := s.scores.With(st.team, s.scores.Of(st.team) + points))
    else s.(stats := stats)
  }

  /**
   * `handleUndo(p, k, points)`: nothing happens when counter `k` of `p` is 0; otherwise it
   * drops by one, and when `points > 0` the team's score drops by `points`, not below 0.
   */
  function AfterUndo(s: LedgerState, p: PlayerId, k: Counter, points: int): (r: LedgerState)
    requires s.stats.Valid() && p in s.stats.values
    ensures s.stats.values[p].tally.Get(k) == 0 ==> r == s
    ensures OnlyPlayerChanged(s, r, p) && r.stats.Valid()
    ensures s.stats.values[p].tally.Get(k) > 0 ==>
      forall j :: (r.stats.values[p].tally.Get(j)
        == s.stats.values[p].tally.Get(j) - (if j == k then 1 else 0))
    ensures var team := s.stats.values[p].team;
      && r.scores.Of(team) == (if s.stats.values[p].tally.Get(k) > 0 && points > 0
                               then Max0(s.scores.Of(team) - points) else s.scores.Of(team))
      && forall o :: o != team ==> r.scores.Of(o) == s.scores.Of(o)
  {
    var st := s.stats.values[p];
    if st.tally.Get(k) > 0 then
      var stats := s.stats.Put(p, st.(tally := st.tally.Set(k, st.tally.Get(k) - 1)));
      if points > 0 then s.(stats := stats, scores := s.scores.With(st.team, Max0(s.scores.Of(st.team) - points)))
      else s.(stats := stats)
    else
      assert s.stats.Put(p, st) == s.stats;
      s
  }

  /**
   * `handleShot(p, shotType, made)`: the attempts of that shot kind rise by one, the makes
   * by one exactly when `made`, nothing else moves; the team gains `shotType` exactly when `made`.
   */
  function AfterShot(s: LedgerState, p: PlayerId, shotType: int, made: bool): (r: LedgerState)
    requires s.stats.Valid() && p in s.stats.values
    ensures OnlyPlayerChanged(s, r, p) && r.stats.Valid()
    ensures var t, t' := s.stats.values[p].tally, r.stats.values[p].tally;
      && t'.Get(AttemptedKey(shotType)) == t.Get(AttemptedKey(shotType)) + 1
      && t'.Get(MadeKey(shotType)) == t.Get(MadeKey(shotType)) + (if made then 1 else 0)
      && forall j :: j != MadeKey(shotType) && j != AttemptedKey(shotType) ==> t'.Get(j) == t.Get(j)
    ensures var team := s.stats.values[p].team;
      && r.scores.Of(team) == s.scores.Of(team) + (if made then shotType else 0)
      && forall o :: o != team ==> r.scores.Of(o) == s.scores.Of(o)
  {
    var st := s.stats.values[p];
    var madeKey := MadeKey(shotType);
    var attemptedKey := AttemptedKey(shotType);
    var t := st.tally.Set(madeKey, st.tally.Get(madeKey) + (if made then 1 else 0))
                     .Set(attemptedKey, st.tally.Get(attemptedKey) + 1);
    var stats := s.stats.Put(p, st.(tally := t));
    if made then s.(stats := stats, scores := s.scores.With(st.team, s.scores.Of(st.team) + shotType))
    else s.(stats := stats)
  }

  /**
   * `handleUndoShot(p, shotType, wasMade)`: nothing happens when no shot of that kind was
   * attempted. Otherwise the attempts drop by one; when `wasMade` the makes drop by one
   * (not below 0) and the team's score drops by `shotType` (not below 0).
   */
  function AfterUndoShot(s: LedgerState, p: PlayerId, shotType: int, wasMade: bool): (r: LedgerState)
    requires s.stats.Valid() && p in s.stats.values
    ensures s.stats.values[p].tally.Get(AttemptedKey(shotType)) == 0 ==> r == s
    ensures OnlyPlayerChanged(s, r, p) && r.stats.Valid()
    ensures var t, t' := s.stats.values[p].tally, r.stats.values[p].tally;
      t.Get(AttemptedKey(shotType)) > 0 ==>
        && t'.Get(AttemptedKey(shotType)) == t.Get(AttemptedKey(shotType)) - 1
        && t'.Get(MadeKey(shotType)) == (if wasMade then Max0(t.Get(MadeKey(shotType)) - 1) else t.Get(MadeKey(shotType)))
        && forall j :: j != MadeKey(shotType) && j != AttemptedKey(shotType) ==> t'.Get(j) == t.Get(j)
    ensures var team := s.stats.values[p].team;
      && r.scores.Of(team) == (if s.stats.values[p].tally.Get(AttemptedKey(shotType)) > 0 && wasMade
                               then Max0(s.scores.Of(team) - shotType) else s.scores.Of(team))
      && forall o :: o != team ==> r.scores.Of(o) == s.scores.Of(o)
  {
    var st := s.stats.values[p];
    var madeKey := MadeKey(shotType);
    var attemptedKey := AttemptedKey(shotType);
    if st.tally.Get(attemptedKey) > 0 then
      var t := st.tally.Set(madeKey, Max0(st.tally.Get(madeKey) - (if wasMade then 1 else 0)))
                       .Set(attemptedKey, st.tally.Get(attemptedKey) - 1);
      var stats := s.stats.Put(p, st.(tally := t));
      if wasMade then s.(stats := stats, scores := s.scores.With(st.team, Max0(s.scores.Of(st.team) - shotType)))
      else s.(stats := stats)
    else
      assert s.stats.Put(p, st) == s.stats;
      s
  }

  /** `handleTeamBScore(points)`: the away score moves by `points`; nothing else changes. */
  function AfterTeamBScore(s: LedgerState, points: int): (r: LedgerState)
    ensures r.scores.teamB == s.scores.teamB + points
    ensures r.(scores := s.scores) == s && r.scores.teamA == s.scores.teamA
  {
    s.(scores := s.scores.(teamB := s.scores.teamB + points))
  }

  /** `handleTeamBUndo(points)`: the away score drops by `points` but never below 0; nothing else changes. */
  function AfterTeamBUndo(s: LedgerState, points: int): (r: LedgerState)
    ensures r.scores.teamB >= 0
    ensures r.scores.teamB == (if s.scores.teamB - points > 0 then s.scores.teamB - points else 0)
    ensures r.(scores := s.scores) == s && r.scores.teamA == s.scores.teamA
  {
    s.(scores := s.scores.(teamB := Max0(s.scores.teamB - points)))
  }

  /** The reset after a successful save (and after abandoning a game): no stats, 0 : 0, back to setup. */
  function AfterReset(s: LedgerState): (r: LedgerState)
    ensures !r.started && r.stats.keys == [] && r.stats.values == map[] && r.scores == Scores(0, 0)
    ensures r.teams == s.teams
  {
    s.(started := false, stats := Dict([], map[]), scores := Scores(0, 0))
  }

  // ---- the ledger invariant ----

  /** The points of the listed players, added up in list order. */
  function PointsOf(keys: seq<PlayerId>, values: map<PlayerId, PlayerStat>): nat {
    if keys == [] then 0
    else (if keys[0] in values then Points(values[keys[0]].tally) else 0) + PointsOf(keys[1..], values)
  }

  /** Σ over the stats entries of 2·twoPointMade + 3·threePointMade. */
  function HomePoints(stats: Dict<PlayerStat>): nat {
    PointsOf(stats.keys, stats.values)
  }

  lemma {:induction false} PointsOfOther(keys: seq<PlayerId>, values: map<PlayerId, PlayerStat>, p: PlayerId, st: PlayerStat)
    requires p !in keys
    ensures PointsOf(keys, values[p := st]) == PointsOf(keys, values)
  {
    if keys != [] {
      PointsOfOther(keys[1..], values, p, st);
    }
  }

  /** Replacing one listed player's entry moves the total by the change in that player's points. */
  lemma {:induction false} PointsOfUpdate(keys: seq<PlayerId>, values: map<PlayerId, PlayerStat>, p: PlayerId, st: PlayerStat)
    requires Distinct(keys) && p in keys && p in values
    ensures PointsOf(keys, values[p := st]) == PointsOf(keys, values) - Points(values[p].tally) + Points(st.tally)
    ensures PointsOf(keys, values) >= Points(values[p].tally)
  {
    if keys[0] == p {
      assert p !in keys[1..];
      PointsOfOther(keys[1..], values, p, st);
    } else {
      assert Distinct(keys[1..]) by {
        forall i, j | 0 <= i < j < |keys[1..]| ensures keys[1..][i] != keys[1..][j] {
          assert keys[1..][i] == keys[i + 1] && keys[1..][j] == keys[j + 1];
        }
      }
      PointsOfUpdate(keys[1..], values, p, st);
    }
  }

  /**
   * The ledger invariant: the stats object is well formed, every roster player has an
   * entry, every entry is a home player with no more makes than attempts, the home score
   * is the points of the entries, and the away score is not negative.
   */
  ghost predicate Consistent(s: LedgerState) {
    && s.stats.Valid()
    && (forall i :: 0 <= i < |s.teams.teamA.players| ==> s.teams.teamA.players[i].id in s.stats.values)
    && (forall id :: id in s.stats.values ==>
          s.stats.values[id].team == TeamA && s.stats.values[id].tally.ShotsConsistent())
    && s.scores.teamA == HomePoints(s.stats)
    && s.scores.teamB >= 0
  }

  /** A game started from 0 : 0 satisfies the invariant. */
  lemma StartConsistent(s: LedgerState, teamData: GameData)
    requires s.scores == Scores(0, 0)
    ensures Consistent(AfterStart(s, teamData))
  {
    var r := AfterStart(s, teamData);
    var players := teamData.teamA.players;
    assert forall i :: 0 <= i < |players| ==> players[i].id in r.stats.values by {
      forall i | 0 <= i < |players| ensures players[i].id in r.stats.values {
        assert Ids(players)[i] in Ids(players);
      }
    }
    assert forall id :: id in r.stats.values ==> r.stats.values[id].team == TeamA && r.stats.values[id].tally.ShotsConsistent() by {
      forall id | id in r.stats.values ensures r.stats.values[id].team == TeamA && r.stats.values[id].tally.ShotsConsistent() {
        assert r.stats.values[id].tally == Zero;
      }
    }
    assert r.scores.teamA == HomePoints(r.stats) by {
      ZeroPoints(r.stats.keys, r.stats.values);
    }
  }

  lemma {:induction false} ZeroPoints(keys: seq<PlayerId>, values: map<PlayerId, PlayerStat>)
    requires forall id :: id in values ==> values[id].tally == Zero
    ensures PointsOf(keys, values) == 0
  {
    if keys != [] {
      ZeroPoints(keys[1..], values);
    }
  }

  /** After a reset a new game can start consistently: the scores are back to 0 : 0. */
  lemma ResetThenStartConsistent(s: LedgerState, teamData: GameData)
    ensures Consistent(AfterStart(AfterReset(s), teamData))
  {
    StartConsistent(AfterReset(s), teamData);
  }

  // ---- undo restores ----

  /** A shot followed by the undo of the same shot restores the exact earlier state. */
  lemma ShotThenUndoRestores(s: LedgerState, p: PlayerId, shotType: int, made: bool)
    requires s.stats.Valid() && p in s.stats.values
    requires s.scores.teamA >= 0 && s.scores.teamB >= 0
    ensures AfterUndoShot(AfterShot(s, p, shotType, made), p, shotType, made) == s
  {
    var mid := AfterShot(s, p, shotType, made);
    var r := AfterUndoShot(mid, p, shotType, made);
    var st := s.stats.values[p];
    assert mid.stats.values[p].tally.Get(AttemptedKey(shotType)) > 0;
    assert r.stats.values[p] == st by {
      TallyExt(r.stats.values[p].tally, st.tally);
    }
    assert r.stats == s.stats by {
      assert r.stats.values == s.stats.values;
    }
    assert r.scores == s.scores by {
      assert r.scores.Of(TeamA) == s.scores.Of(TeamA) && r.scores.Of(TeamB) == s.scores.Of(TeamB);
    }
  }

  /** A counter event followed by its undo restores the exact earlier state. */
  lemma ScoreThenUndoRestores(s: LedgerState, p: PlayerId, k: Counter, points: int)
    requires s.stats.Valid() && p in s.stats.values
    requires s.scores.teamA >= 0 && s.scores.teamB >= 0
    ensures AfterUndo(AfterScore(s, p, k, points), p, k, points) == s
  {
    var mid := AfterScore(s, p, k, points);
    var r := AfterUndo(mid, p, k, points);
    var st := s.stats.values[p];
    var raised := st.(tally := st.tally.Set(k, st.tally.Get(k) + 1));
    assert mid.stats == s.stats.Put(p, raised);
    assert r.stats == mid.stats.Put(p, st) by {
      SetBack(st.tally, k, st.tally.Get(k) + 1);
    }
    assert r.stats == s.stats by {
      s.stats.PutTwice(p, raised, st);
      s.stats.PutSame(p);
    }
    assert r.scores == s.scores by {
      assert r.scores.Of(TeamA) == s.scores.Of(TeamA) && r.scores.Of(TeamB) == s.scores.Of(TeamB);
    }
  }

  /** An away score followed by the same undo restores the state. */
  lemma TeamBScoreThenUndoRestores(s: LedgerState, points: int)
    requires s.scores.teamB >= 0
    ensures AfterTeamBUndo(AfterTeamBScore(s, points), points) == s
  {
  }

  // ---- the save payload ----

  /** The `player_stats` row saved for one entry: every counter written, points recomputed. */
  function StatRowOf(st: PlayerStat, teams: GameData, gameId: nat): (row: StatRow)
    ensures row.gameId == gameId && row.playerName == st.name
    ensures row.team == (if st.team == TeamA then teams.teamA.name else teams.teamB.name)
    ensures forall k :: k in row.columns && Field(row, k) == st.tally.Get(k)
    ensures row.totalPoints == RowPoints(row) == 2 * st.tally.twoPointMade + 3 * st.tally.threePointMade
  {
    AllCountersComplete();
    var t := st.tally;
    StatRow(gameId, st.name, if st.team == TeamA then teams.teamA.name else teams.teamB.name,
            map k | k in AllCounters :: t.Get(k),
            t.twoPointMade * 2 + t.threePointMade * 3)
  }

  /** The rows for the listed entries, in list order. */
  function RowsFor(keys: seq<PlayerId>, values: map<PlayerId, PlayerStat>, teams: GameData, gameId: nat): (rows: seq<StatRow>)
    requires forall k :: k in keys ==> k in values
    ensures |rows| == |keys|
    ensures forall i :: 0 <= i < |keys| ==> rows[i] == StatRowOf(values[keys[i]], teams, gameId)
  {
    seq(|keys|, i requires 0 <= i < |keys| => StatRowOf(values[keys[i]], teams, gameId))
  }

  /** `playerStatsData`: `Object.values(stats).map(...)`, one row per entry in the object's order. */
  function PlayerStatsPayload(s: LedgerState, gameId: nat): (rows: seq<StatRow>)
    requires s.stats.Valid()
    ensures |rows| == |s.stats.keys|
    ensures forall i :: 0 <= i < |rows| ==> var st := s.stats.values[s.stats.keys[i]];
      && rows[i].gameId == gameId && rows[i].playerName == st.name
      && (forall k :: Field(rows[i], k) == st.tally.Get(k))
      && rows[i].totalPoints == Points(st.tally)
  {
    RowsFor(s.stats.keys, s.stats.values, s.teams, gameId)
  }

  /** The stored `total_points` of the rows, added up. */
  function SumStoredPoints(rows: seq<StatRow>): nat {
    if rows == [] then 0 else rows[0].totalPoints + SumStoredPoints(rows[1..])
  }

  /** The saved rows carry each entry's points, so their stored totals add up to the entries' points. */
  lemma RowsForPoints(keys: seq<PlayerId>, values: map<PlayerId, PlayerStat>, teams: GameData, gameId: nat)
    requires forall k :: k in keys ==> k in values
    ensures SumStoredPoints(RowsFor(keys, values, teams, gameId)) == PointsOf(keys, values)
  {
    StoredPointsMatch(RowsFor(keys, values, teams, gameId), keys, values);
  }

  /** Rows whose stored totals are the listed entries' points add up to those entries' points. */
  lemma {:induction false} StoredPointsMatch(rows: seq<StatRow>, keys: seq<PlayerId>, values: map<PlayerId, PlayerStat>)
    requires |rows| == |keys| && forall k :: k in keys ==> k in values
    requires forall i :: 0 <= i < |keys| ==> rows[i].totalPoints == Points(values[keys[i]].tally)
    ensures SumStoredPoints(rows) == PointsOf(keys, values)
    decreases |keys|
  {
    if keys != [] {
      var tailRows, tailKeys := rows[1..], keys[1..];
      assert forall k :: k in tailKeys ==> k in keys;
      forall i | 0 <= i < |tailKeys| ensures tailRows[i].totalPoints == Points(values[tailKeys[i]].tally) {
        assert tailRows[i] == rows[i + 1] && tailKeys[i] == keys[i + 1];
      }
      StoredPointsMatch(tailRows, tailKeys, values);
    }
  }

  /** For a consistent ledger the saved rows' `total_points` add up to the saved home score. */
  lemma SavedPointsMatchHomeScore(s: LedgerState, gameId: nat)
    requires Consistent(s)
    ensures SumStoredPoints(PlayerStatsPayload(s, gameId)) == GamePayload(s, "").teamAScore
  {
    RowsForPoints(s.stats.keys, s.stats.values, s.teams, gameId);
  }

  /** The `games` row saved at the end: date, both team names, both scores. */
  function GamePayload(s: LedgerState, date: string): (g: GameRow)
    ensures g.date == date && g.teamAName == s.teams.teamA.name && g.teamBName == s.teams.teamB.name
    ensures g.teamAScore == s.scores.teamA && g.teamBScore == s.scores.teamB
  {
    GameRow(date, s.teams.teamA.name, s.teams.teamB.name, s.scores.teamA, s.scores.teamB)
  }

  // ---- the mutable ledger ----

  /** The component state the handlers update: `gameStarted`, `teams`, `stats`, `scores`. */
  class GameLedger {
    var started: bool
    var teams: GameData
    var stats: Dict<PlayerStat>
    var scores: Scores

    /** An immutable copy of the current state. */
    function Snapshot(): LedgerState
      reads this
    {
      LedgerState(started, teams, stats, scores)
    }

    constructor ()
      ensures Snapshot() == Initial
    {
      started := false;
      teams := GameData(Team("主隊", []), Team("客隊", []));
      stats := Dict([], map[]);
      scores := Scores(0, 0);
    }

    method HandleStartGame(teamData: GameData)
      modifies this
      ensures Snapshot() == AfterStart(old(Snapshot()), teamData)
    {
      teams := teamData;
      var initialStats := InitialStats(teamData.teamA.players);
      stats := initialStats;
      started := true;
    }

    method HandleScore(playerId: PlayerId, statType: Counter, points: int)
      requires stats.Valid() && playerId in stats.values
      modifies this
      ensures Snapshot() == AfterScore(old(Snapshot()), playerId, statType, points)
    {
      var prev := stats.values[playerId];
      stats := stats.Put(playerId, prev.(tally := prev.tally.Set(statType, prev.tally.Get(statType) + 1)));
      if points > 0 {
        var team := prev.team;
        scores := scores.With(team, scores.Of(team) + points);
      }
    }

    method HandleUndo(playerId: PlayerId, statType: Counter, points: int)
      requires stats.Valid() && playerId in stats.values
      modifies this
      ensures Snapshot() == AfterUndo(old(Snapshot()), playerId, statType, points)
    {
      var prev := stats.values[playerId];
      if prev.tally.Get(statType) > 0 {
        stats := stats.Put(playerId, prev.(tally := prev.tally.Set(statType, prev.tally.Get(statType) - 1)));
        if points > 0 {
          var team := prev.team;
          scores := scores.With(team, Max0(scores.Of(team) - points));
        }
      }
    }

    method HandleShot(playerId: PlayerId, shotType: int, made: bool)
      requires stats.Valid() && playerId in stats.values
      modifies this
      ensures Snapshot() == AfterShot(old(Snapshot()), playerId, shotType, made)
    {
      var madeKey := MadeKey(shotType);
      var attemptedKey := AttemptedKey(shotType);
      var prev := stats.values[playerId];
      var tally := prev.tally.Set(madeKey, prev.tally.Get(madeKey) + (if made then 1 else 0));
      tally := tally.Set(attemptedKey, prev.tally.Get(attemptedKey) + 1);
      stats := stats.Put(playerId, prev.(tally := tally));
      if made {
        var team := prev.team;
        scores := scores.With(team, scores.Of(team) + shotType);
      }
    }

    method HandleUndoShot(playerId: PlayerId, shotType: int, wasMade: bool)
      requires stats.Valid() && playerId in stats.values
      modifies this
      ensures Snapshot() == AfterUndoShot(old(Snapshot()), playerId, shotType, wasMade)
    {
      var madeKey := MadeKey(shotType);
      var attemptedKey := AttemptedKey(shotType);
      var prev := stats.values[playerId];
      if prev.tally.Get(attemptedKey) > 0 {
        var tally := prev.tally.Set(madeKey, Max0(prev.tally.Get(madeKey) - (if wasMade then 1 else 0)));
        tally := tally.Set(attemptedKey, prev.tally.Get(attemptedKey) - 1);
        stats := stats.Put(playerId, prev.(tally := tally));
        if wasMade {
          var team := prev.team;
          scores := scores.With(team, Max0(scores.Of(team) - shotType));
        }
      }
    }

    method HandleTeamBScore(points: int)
      modifies this
      ensures Snapshot() == AfterTeamBScore(old(Snapshot()), points)
    {
      scores := scores.(teamB := scores.teamB + points);
    }

    method HandleTeamBUndo(points: int)
      modifies this
      ensures Snapshot() == AfterTeamBUndo(old(Snapshot()), points)
    {
      scores := scores.(teamB := Max0(scores.teamB - points));
    }

    /** The reset that follows a successful save. */
    method ResetAfterSave()
      modifies this
      ensures Snapshot() == AfterReset(old(Snapshot()))
    {
      started := false;
      scores := Scores(0, 0);
      stats := Dict([], map[]);
    }
  }
}
