/**
 * The home-team scoring panel: the player picker, the shot buttons with their undo
 * buttons, and the table of counter buttons. The panel holds only the selected player;
 * every click goes to the ledger, and the buttons' enabling conditions are what keep
 * the ledger invariant true.
 */
module ScoreBoard {
  import opened Wrappers
  import opened Counters
  import opened Dicts
  import opened Rounding
  import opened Ledger

  /** One entry of `statButtons`: the counter it records, its caption and the points it is worth. */
  datatype StatButton = StatButton(key: Counter, caption: string, points: nat)

  const StatButtons: seq<StatButton> := [
    StatButton(Steals, "抄截", 0),
    StatButton(OffensiveRebounds, "進攻籃板", 0),
    StatButton(DefensiveRebounds, "防守籃板", 0),
    StatButton(Assists, "助攻", 0),
    StatButton(Blocks, "阻攻", 0),
    StatButton(Turnovers, "失誤", 0),
    StatButton(Fouls, "犯規", 0)
  ]

  /** The table has one button per non-shot counter, and every button is worth 0 points. */
  lemma StatButtonsTable()
    ensures |StatButtons| == 7
    ensures forall b :: b in StatButtons ==> b.points == 0 && IsEventCounter(b.key)
    ensures forall k :: IsEventCounter(k) ==> exists i :: 0 <= i < |StatButtons| && StatButtons[i].key == k
  {
    forall k | IsEventCounter(k) ensures exists i :: 0 <= i < |StatButtons| && StatButtons[i].key == k {
      match k
      case Steals => assert StatButtons[0].key == k;
      case OffensiveRebounds => assert StatButtons[1].key == k;
      case DefensiveRebounds => assert StatButtons[2].key == k;
      case Assists => assert StatButtons[3].key == k;
      case Blocks => assert StatButtons[4].key == k;
      case Turnovers => assert StatButtons[5].key == k;
      case Fouls => assert StatButtons[6].key == k;
    }
  }

  /** What the table says of one of its buttons. */
  lemma StatButtonIsEvent(b: StatButton)
    requires b in StatButtons
    ensures b.points == 0 && IsEventCounter(b.key)
  {
    StatButtonsTable();
  }

  /** A counter button and its undo never move a score. */
  lemma StatButtonsNeverScore(s: LedgerState, p: PlayerId, b: StatButton)
    requires s.stats.Valid() && p in s.stats.values && b in StatButtons
    ensures AfterScore(s, p, b.key, b.points).scores == s.scores
    ensures AfterUndo(s, p, b.key, b.points).scores == s.scores
  {
    var team := s.stats.values[p].team;
    var r1, r2 := AfterScore(s, p, b.key, b.points), AfterUndo(s, p, b.key, b.points);
    assert r1.scores.Of(TeamA) == s.scores.Of(TeamA) && r1.scores.Of(TeamB) == s.scores.Of(TeamB);
    assert r2.scores.Of(TeamA) == s.scores.Of(TeamA) && r2.scores.Of(TeamB) == s.scores.Of(TeamB);
  }

  /** `stats[id]`, which is `undefined` for an id without an entry. */
  function Lookup(s: LedgerState, id: PlayerId): (st: Option<PlayerStat>)
    ensures st.Some? <==> id in s.stats.values
    ensures st.Some? ==> st.value == s.stats.values[id]
  {
    if id in s.stats.values then Some(s.stats.values[id]) else None
  }

  /** `calculateTotalPoints`: the points on a player's button; no entry counts as 0 points. */
  function TotalPoints(st: Option<PlayerStat>): (r: nat)
    ensures st.None? ==> r == 0
    ensures st.Some? ==> r == Points(st.value.tally)
  {
    match st
    case None => 0
    case Some(ps) => Points(ps.tally)
  }

  /** `stats[sel]?.[key] || 0`. */
  function CurrentValue(st: Option<PlayerStat>, k: Counter): (v: nat)
    ensures st.None? ==> v == 0
    ensures st.Some? ==> v == st.value.tally.Get(k)
  {
    if st.Some? then st.value.tally.Get(k) else 0
  }

  /** The undo-miss button is disabled when attempts equal makes (both `undefined` for no entry). */
  predicate UndoMissDisabled(st: Option<PlayerStat>, shotType: int) {
    st.None? || st.value.tally.Get(AttemptedKey(shotType)) == st.value.tally.Get(MadeKey(shotType))
  }

  /** The undo-make button is disabled when the makes are 0 (`undefined === 0` is false). */
  predicate UndoMakeDisabled(st: Option<PlayerStat>, shotType: int) {
    st.Some? && st.value.tally.Get(MadeKey(shotType)) == 0
  }

  /** A counter's undo button is disabled when the shown value is 0. */
  predicate CounterUndoDisabled(st: Option<PlayerStat>, k: Counter) {
    CurrentValue(st, k) == 0
  }

  /**
   * The percentage beside a shot's made/attempted figures: shown only when that kind was
   * attempted, and then the rounded percentage of made over attempted.
   */
  function ShotPercentLabel(st: Option<PlayerStat>, shotType: int): (shown: Option<nat>)
    ensures shown.Some? <==> st.Some? && st.value.tally.Get(AttemptedKey(shotType)) > 0
    ensures shown.Some? ==> shown.value == RoundedPercent(st.value.tally.Get(MadeKey(shotType)), st.value.tally.Get(AttemptedKey(shotType)))
  {
    if st.Some? && st.value.tally.Get(AttemptedKey(shotType)) > 0 then
      Some(RoundedPercent(st.value.tally.Get(MadeKey(shotType)), st.value.tally.Get(AttemptedKey(shotType))))
    else None
  }

  /** On a consistent ledger a shown percentage lies in 0..100. */
  lemma ShotPercentBounded(s: LedgerState, id: PlayerId, shotType: int)
    requires Consistent(s) && ShotPercentLabel(Lookup(s, id), shotType).Some?
    ensures ShotPercentLabel(Lookup(s, id), shotType).value <= 100
  {
    var t := s.stats.values[id].tally;
    assert t.ShotsConsistent();
    RoundedPercentBounded(t.Get(MadeKey(shotType)), t.Get(AttemptedKey(shotType)));
  }

  /**
   * Three missed three-pointers and then a made one, from no three-point shots: four
   * attempts, one make, a shown percentage of 25, and three points for the player's team.
   */
  lemma ThreeMissesThenAMake(s: LedgerState, p: PlayerId)
    requires s.stats.Valid() && p in s.stats.values
    requires s.stats.values[p].tally.Get(ThreePointAttempted) == 0 && s.stats.values[p].tally.Get(ThreePointMade) == 0
    ensures var r := AfterShot(AfterShot(AfterShot(AfterShot(s, p, 3, false), p, 3, false), p, 3, false), p, 3, true);
      && r.stats.values[p].tally.Get(ThreePointAttempted) == 4
      && r.stats.values[p].tally.Get(ThreePointMade) == 1
      && ShotPercentLabel(Lookup(r, p), 3) == Some(25)
      && r.scores.Of(s.stats.values[p].team) == s.scores.Of(s.stats.values[p].team) + 3
  {
    var s1 := AfterShot(s, p, 3, false);
    var s2 := AfterShot(s1, p, 3, false);
    var s3 := AfterShot(s2, p, 3, false);
    var r := AfterShot(s3, p, 3, true);
    assert s3.stats.values[p].tally.Get(ThreePointAttempted) == 3;
    assert s3.stats.values[p].tally.Get(ThreePointMade) == 0;
    assert s3.scores.Of(s.stats.values[p].team) == s.scores.Of(s.stats.values[p].team);
    assert RoundHalfUp(100, 4) == 25;
  }

  /** The counter-undo guard means an enabled undo always takes the counter down by one. */
  lemma CounterUndoNeverNoOp(s: LedgerState, p: PlayerId, b: StatButton)
    requires s.stats.Valid() && p in s.stats.values
    requires !CounterUndoDisabled(Lookup(s, p), b.key)
    ensures AfterUndo(s, p, b.key, b.points).stats.values[p].tally.Get(b.key) == s.stats.values[p].tally.Get(b.key) - 1
  {
  }

  /** A counter's undo button is disabled exactly when pressing it would leave the ledger as it is. */
  lemma CounterUndoGuard(s: LedgerState, p: PlayerId, k: Counter, points: int)
    requires s.stats.Valid() && p in s.stats.values
    ensures CounterUndoDisabled(Lookup(s, p), k) <==> AfterUndo(s, p, k, points) == s
  {
    var r := AfterUndo(s, p, k, points);
    if s.stats.values[p].tally.Get(k) > 0 {
      assert r.stats.values[p].tally.Get(k) != s.stats.values[p].tally.Get(k);
    }
  }

  /** The undo-make button is enabled exactly when the undo takes one make off the player's record. */
  lemma UndoMakeGuard(s: LedgerState, p: PlayerId, shotType: int)
    requires Consistent(s) && p in s.stats.values
    requires shotType == 2 || shotType == 3
    ensures var t, t' := s.stats.values[p].tally, AfterUndoShot(s, p, shotType, true).stats.values[p].tally;
      !UndoMakeDisabled(Lookup(s, p), shotType) <==> t'.Get(MadeKey(shotType)) == t.Get(MadeKey(shotType)) - 1
  {
    assert s.stats.values[p].tally.ShotsConsistent();
  }

  /**
   * The undo-miss button is enabled exactly when the undo changes the ledger and still leaves
   * the player no more makes than attempts, that is, when a miss is on record.
   */
  lemma UndoMissGuard(s: LedgerState, p: PlayerId, shotType: int)
    requires Consistent(s) && p in s.stats.values
    requires shotType == 2 || shotType == 3
    ensures var r := AfterUndoShot(s, p, shotType, false);
      !UndoMissDisabled(Lookup(s, p), shotType) <==> r != s && r.stats.values[p].tally.ShotsConsistent()
  {
    var t := s.stats.values[p].tally;
    var r := AfterUndoShot(s, p, shotType, false);
    assert t.ShotsConsistent();
    if t.Get(AttemptedKey(shotType)) != t.Get(MadeKey(shotType)) {
      UndoShotTally(t, shotType, false);
      assert r.stats.values[p].tally == t.Set(MadeKey(shotType), t.Get(MadeKey(shotType)))
                                         .Set(AttemptedKey(shotType), t.Get(AttemptedKey(shotType)) - 1) by {
        TallyExt(r.stats.values[p].tally, t.Set(MadeKey(shotType), t.Get(MadeKey(shotType)))
                                           .Set(AttemptedKey(shotType), t.Get(AttemptedKey(shotType)) - 1));
      }
      assert r.stats.values[p].tally.Get(AttemptedKey(shotType)) != t.Get(AttemptedKey(shotType));
    } else if t.Get(AttemptedKey(shotType)) > 0 {
      var t' := r.stats.values[p].tally;
      assert t'.Get(AttemptedKey(shotType)) < t'.Get(MadeKey(shotType));
    }
  }

  // ---- the ledger invariant under the enabled buttons ----

  /** An update of one home player's counters keeps the invariant when it keeps that player's shots consistent and moves the home score by the change in the player's points. */
  lemma {:induction false} PlayerUpdateConsistent(s: LedgerState, r: LedgerState, p: PlayerId)
    requires Consistent(s) && p in s.stats.values
    requires OnlyPlayerChanged(s, r, p) && r.stats.Valid()
    requires r.stats.values[p].tally.ShotsConsistent()
    requires r.scores.teamA == s.scores.teamA - Points(s.stats.values[p].tally) + Points(r.stats.values[p].tally)
    requires r.scores.teamB == s.scores.teamB
    ensures Consistent(r)
  {
    assert r.stats.values == s.stats.values[p := r.stats.values[p]];
    PointsOfUpdate(s.stats.keys, s.stats.values, p, r.stats.values[p]);
    assert r.stats.keys == s.stats.keys;
  }

  /** Any shot the board offers (2 or 3 points, made or missed) keeps the invariant. */
  lemma ShotPreservesConsistent(s: LedgerState, p: PlayerId, shotType: int, made: bool)
    requires Consistent(s) && p in s.stats.values
    requires shotType == 2 || shotType == 3
    ensures Consistent(AfterShot(s, p, shotType, made))
  {
    var r := AfterShot(s, p, shotType, made);
    var t, t' := s.stats.values[p].tally, r.stats.values[p].tally;
    assert t.ShotsConsistent();
    assert s.stats.values[p].team == TeamA;
    assert r.scores.Of(TeamA) == s.scores.Of(TeamA) + (if made then shotType else 0);
    assert r.scores.Of(TeamB) == s.scores.Of(TeamB);
    var madeKey := MadeKey(shotType);
    assert t' == t.Set(madeKey, t.Get(madeKey) + (if made then 1 else 0))
                  .Set(AttemptedKey(shotType), t.Get(AttemptedKey(shotType)) + 1);
    PointsOfMade(t, shotType, t.Get(madeKey) + (if made then 1 else 0));
    PointsIgnoreOtherCounters(t.Set(madeKey, t.Get(madeKey) + (if made then 1 else 0)), AttemptedKey(shotType), t.Get(AttemptedKey(shotType)) + 1);
    PlayerUpdateConsistent(s, r, p);
  }

  /**
   * An undo the board enables keeps the invariant: undo-make only when the makes are not 0,
   * undo-miss only when the attempts exceed the makes.
   */
  lemma UndoShotPreservesConsistent(s: LedgerState, p: PlayerId, shotType: int, wasMade: bool)
    requires Consistent(s) && p in s.stats.values
    requires shotType == 2 || shotType == 3
    requires wasMade ==> !UndoMakeDisabled(Lookup(s, p), shotType)
    requires !wasMade ==> !UndoMissDisabled(Lookup(s, p), shotType)
    ensures Consistent(AfterUndoShot(s, p, shotType, wasMade))
  {
    var r := AfterUndoShot(s, p, shotType, wasMade);
    var t := s.stats.values[p].tally;
    assert t.ShotsConsistent();
    assert s.stats.values[p].team == TeamA;
    UndoShotTally(t, shotType, wasMade);
    PointsOfUpdate(s.stats.keys, s.stats.values, p, r.stats.values[p]);
    assert r.scores.Of(TeamA) == s.scores.Of(TeamA) - (if wasMade then shotType else 0);
    assert r.stats.values[p].tally == t.Set(MadeKey(shotType), Max0(t.Get(MadeKey(shotType)) - (if wasMade then 1 else 0)))
                                       .Set(AttemptedKey(shotType), t.Get(AttemptedKey(shotType)) - 1);
    PlayerUpdateConsistent(s, r, p);
  }

  /** The counters an enabled shot undo leaves: still consistent, with the make's points taken off. */
  lemma UndoShotTally(t: Tally, shotType: int, wasMade: bool)
    requires t.ShotsConsistent() && (shotType == 2 || shotType == 3)
    requires wasMade ==> t.Get(MadeKey(shotType)) > 0
    requires !wasMade ==> t.Get(AttemptedKey(shotType)) != t.Get(MadeKey(shotType))
    ensures t.Get(AttemptedKey(shotType)) > 0
    ensures var u := t.Set(MadeKey(shotType), Max0(t.Get(MadeKey(shotType)) - (if wasMade then 1 else 0)))
                      .Set(AttemptedKey(shotType), t.Get(AttemptedKey(shotType)) - 1);
      u.ShotsConsistent() && Points(u) == Points(t) - (if wasMade then shotType else 0)
  {
    var newMade := t.Get(MadeKey(shotType)) - (if wasMade then 1 else 0);
    PointsOfMade(t, shotType, newMade);
    PointsIgnoreOtherCounters(t.Set(MadeKey(shotType), newMade), AttemptedKey(shotType), t.Get(AttemptedKey(shotType)) - 1);
  }

  /** A counter button keeps the invariant. */
  lemma StatButtonPreservesConsistent(s: LedgerState, p: PlayerId, b: StatButton)
    requires Consistent(s) && p in s.stats.values && b in StatButtons
    ensures Consistent(AfterScore(s, p, b.key, b.points))
  {
    StatButtonIsEvent(b);
    StatButtonsNeverScore(s, p, b);
    var t := s.stats.values[p].tally;
    var r := AfterScore(s, p, b.key, b.points);
    assert r.stats.values[p].tally == t.Set(b.key, t.Get(b.key) + 1) by {
      TallyExt(r.stats.values[p].tally, t.Set(b.key, t.Get(b.key) + 1));
    }
    PointsIgnoreOtherCounters(t, b.key, t.Get(b.key) + 1);
    PlayerUpdateConsistent(s, r, p);
  }

  /** A counter button's undo keeps the invariant. */
  lemma StatUndoPreservesConsistent(s: LedgerState, p: PlayerId, b: StatButton)
    requires Consistent(s) && p in s.stats.values && b in StatButtons
    ensures Consistent(AfterUndo(s, p, b.key, b.points))
  {
    StatButtonIsEvent(b);
    StatButtonsNeverScore(s, p, b);
    var t := s.stats.values[p].tally;
    var r := AfterUndo(s, p, b.key, b.points);
    if t.Get(b.key) > 0 {
      assert r.stats.values[p].tally == t.Set(b.key, t.Get(b.key) - 1) by {
        TallyExt(r.stats.values[p].tally, t.Set(b.key, t.Get(b.key) - 1));
      }
      PointsIgnoreOtherCounters(t, b.key, t.Get(b.key) - 1);
      PlayerUpdateConsistent(s, r, p);
    }
  }

  /** Without the undo-miss guard the invariant breaks: undoing a miss when every attempt was made leaves more makes than attempts. */
  lemma UnguardedUndoMissBreaksShots()
    ensures var st := PlayerStat("A", TeamA, Zero.(twoPointMade := 1, twoPointAttempted := 1));
      var s := LedgerState(true, Initial.teams, Dict(["p"], map["p" := st]), Scores(2, 0));
      && Consistent(s) && UndoMissDisabled(Lookup(s, "p"), 2)
      && !Consistent(AfterUndoShot(s, "p", 2, false))
  {
    var st := PlayerStat("A", TeamA, Zero.(twoPointMade := 1, twoPointAttempted := 1));
    var s := LedgerState(true, Initial.teams, Dict(["p"], map["p" := st]), Scores(2, 0));
    assert Points(st.tally) == 2;
    SinglePoints("p", s.stats.values);
    var r := AfterUndoShot(s, "p", 2, false);
    assert r.stats.values["p"].tally.twoPointAttempted == 0;
    assert r.stats.values["p"].tally.twoPointMade == 1;
  }

  /** Without the undo-make guard the invariant breaks: undoing a make when none was made lowers the score while the points stay. */
  lemma UnguardedUndoMakeBreaksScore()
    ensures var st := PlayerStat("A", TeamA, Zero.(twoPointAttempted := 1, threePointMade := 1, threePointAttempted := 1));
      var s := LedgerState(true, Initial.teams, Dict(["p"], map["p" := st]), Scores(3, 0));
      && Consistent(s) && UndoMakeDisabled(Lookup(s, "p"), 2)
      && !Consistent(AfterUndoShot(s, "p", 2, true))
  {
    var st := PlayerStat("A", TeamA, Zero.(twoPointAttempted := 1, threePointMade := 1, threePointAttempted := 1));
    var s := LedgerState(true, Initial.teams, Dict(["p"], map["p" := st]), Scores(3, 0));
    assert Points(st.tally) == 3;
    SinglePoints("p", s.stats.values);
    var r := AfterUndoShot(s, "p", 2, true);
    assert r.scores.teamA == 1;
    assert r.stats.values["p"] == st.(tally := st.tally.(twoPointAttempted := 0));
    SinglePoints("p", r.stats.values);
    assert r.stats.keys == ["p"];
  }

  lemma SinglePoints(id: PlayerId, values: map<PlayerId, PlayerStat>)
    requires id in values
    ensures PointsOf([id], values) == Points(values[id].tally)
  {
    assert [id][1..] == [];
  }

  // ---- the panel ----

  /** A selection is truthy when some non-empty id is selected. */
  predicate Truthy(selected: Option<PlayerId>) {
    selected.Some? && selected.value != ""
  }

  /** The scoring panel: its one piece of state, `selectedPlayer`, and the ledger its clicks update. */
  class ScoreBoardView {
    var selectedPlayer: Option<PlayerId>
    const ledger: GameLedger

    /** Nothing is selected at first. */
    constructor (ledger: GameLedger)
      ensures selectedPlayer == None && this.ledger == ledger
    {
      selectedPlayer := None;
      this.ledger := ledger;
    }

    /** A click on a player's button selects that player. */
    method SelectPlayer(id: PlayerId)
      modifies this
      ensures selectedPlayer == Some(id)
    {
      selectedPlayer := Some(id);
    }

    /** `handleStatClick`: a counter button records its event only while a player is selected. */
    method HandleStatClick(b: StatButton)
      requires b in StatButtons
      requires Truthy(selectedPlayer) ==> ledger.stats.Valid() && selectedPlayer.value in ledger.stats.values
      modifies ledger
      ensures ledger.Snapshot() == (if Truthy(selectedPlayer)
        then AfterScore(old(ledger.Snapshot()), selectedPlayer.value, b.key, b.points)
        else old(ledger.Snapshot()))
      ensures Consistent(old(ledger.Snapshot())) ==> Consistent(ledger.Snapshot())
    {
      if Truthy(selectedPlayer) {
        ghost var before := ledger.Snapshot();
        if Consistent(before) {
          StatButtonPreservesConsistent(before, selectedPlayer.value, b);
        }
        ledger.HandleScore(selectedPlayer.value, b.key, b.points);
      }
    }

    /** `handleStatUndo`: a counter's undo acts only while a player is selected. */
    method HandleStatUndo(b: StatButton)
      requires b in StatButtons
      requires Truthy(selectedPlayer) ==> ledger.stats.Valid() && selectedPlayer.value in ledger.stats.values
      modifies ledger
      ensures ledger.Snapshot() == (if Truthy(selectedPlayer)
        then AfterUndo(old(ledger.Snapshot()), selectedPlayer.value, b.key, b.points)
        else old(ledger.Snapshot()))
      ensures Consistent(old(ledger.Snapshot())) ==> Consistent(ledger.Snapshot())
    {
      if Truthy(selectedPlayer) {
        ghost var before := ledger.Snapshot();
        if Consistent(before) {
          StatUndoPreservesConsistent(before, selectedPlayer.value, b);
        }
        ledger.HandleUndo(selectedPlayer.value, b.key, b.points);
      }
    }

    /** `handleShootClick`: a shot button records its shot only while a player is selected. */
    method HandleShootClick(shotType: int, made: bool)
      requires shotType == 2 || shotType == 3
      requires Truthy(selectedPlayer) ==> ledger.stats.Valid() && selectedPlayer.value in ledger.stats.values
      modifies ledger
      ensures ledger.Snapshot() == (if Truthy(selectedPlayer)
        then AfterShot(old(ledger.Snapshot()), selectedPlayer.value, shotType, made)
        else old(ledger.Snapshot()))
      ensures Consistent(old(ledger.Snapshot())) ==> Consistent(ledger.Snapshot())
    {
      if Truthy(selectedPlayer) {
        ghost var before := ledger.Snapshot();
        if Consistent(before) {
          ShotPreservesConsistent(before, selectedPlayer.value, shotType, made);
        }
        ledger.HandleShot(selectedPlayer.value, shotType, made);
      }
    }

    /**
     * A press on an undo-shot button. The buttons exist only while a player is selected,
     * and a disabled button does nothing.
     */
    method PressUndoShot(shotType: int, wasMade: bool)
      requires shotType == 2 || shotType == 3
      requires Truthy(selectedPlayer) ==> ledger.stats.Valid() && selectedPlayer.value in ledger.stats.values
      modifies ledger
      ensures ledger.Snapshot() == (if Truthy(selectedPlayer) && !UndoShotDisabled(Lookup(old(ledger.Snapshot()), selectedPlayer.value), shotType, wasMade)
        then AfterUndoShot(old(ledger.Snapshot()), selectedPlayer.value, shotType, wasMade)
        else old(ledger.Snapshot()))
      ensures Consistent(old(ledger.Snapshot())) ==> Consistent(ledger.Snapshot())
    {
      if Truthy(selectedPlayer) {
        ghost var before := ledger.Snapshot();
        var st := if selectedPlayer.value in ledger.stats.values then Some(ledger.stats.values[selectedPlayer.value]) else None;
        if !UndoShotDisabled(st, shotType, wasMade) {
          if Consistent(before) {
            UndoShotPreservesConsistent(before, selectedPlayer.value, shotType, wasMade);
          }
          ledger.HandleUndoShot(selectedPlayer.value, shotType, wasMade);
        }
      }
    }
  }

  /** The `disabled` condition of the undo-make (`wasMade`) or undo-miss button. */
  predicate UndoShotDisabled(st: Option<PlayerStat>, shotType: int, wasMade: bool) {
    if wasMade then UndoMakeDisabled(st, shotType) else UndoMissDisabled(st, shotType)
  }
}
