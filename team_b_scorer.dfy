/**
 * The away-team quick scorer: three score buttons, three undo buttons, and the
 * condition that disables an undo larger than the current score.
 */
module TeamBScorer {
  import opened Ledger

  /** One entry of `scoreButtons`. */
  datatype ScoreButton = ScoreButton(points: int, caption: string)

  const ScoreButtons: seq<ScoreButton> := [ScoreButton(1, "+1"), ScoreButton(2, "+2"), ScoreButton(3, "+3")]

  /** The buttons offer exactly 1, 2 and 3 points, in that order. */
  lemma ScoreButtonsOffer()
    ensures |ScoreButtons| == 3
    ensures forall i :: 0 <= i < |ScoreButtons| ==> ScoreButtons[i].points == i + 1
    ensures forall b :: b in ScoreButtons <==> b.points in {1, 2, 3} && b.caption == ['+', "0123"[b.points]]
  {
  }

  /** The undo button of `points` is disabled while the score is below `points`. */
  predicate UndoDisabled(score: int, points: int) {
    score < points
  }

  /** An undo button is disabled exactly when subtracting its points would have to stop at 0. */
  lemma UndoGuard(s: LedgerState, b: ScoreButton)
    requires b in ScoreButtons
    ensures UndoDisabled(s.scores.teamB, b.points) <==> AfterTeamBUndo(s, b.points).scores.teamB != s.scores.teamB - b.points
  {
  }

  /** A press on a score button: `onScore(btn.points)`. */
  function PressScore(s: LedgerState, b: ScoreButton): (r: LedgerState)
    requires b in ScoreButtons
    ensures r.scores.teamB > s.scores.teamB
    ensures r.scores.teamB == s.scores.teamB + b.points
    ensures r.(scores := s.scores) == s && r.scores.teamA == s.scores.teamA
  {
    AfterTeamBScore(s, b.points)
  }

  /** A press on an undo button: nothing while it is disabled, else `onUndo(btn.points)`. */
  function PressUndo(s: LedgerState, b: ScoreButton): (r: LedgerState)
    requires b in ScoreButtons
    ensures UndoDisabled(s.scores.teamB, b.points) ==> r == s
    ensures !UndoDisabled(s.scores.teamB, b.points) ==> r == AfterTeamBUndo(s, b.points)
  {
    if UndoDisabled(s.scores.teamB, b.points) then s else AfterTeamBUndo(s, b.points)
  }

  /** An enabled undo subtracts exactly its points: the clamp at 0 never acts. */
  lemma EnabledUndoNeverClamps(s: LedgerState, b: ScoreButton)
    requires b in ScoreButtons && !UndoDisabled(s.scores.teamB, b.points)
    ensures PressUndo(s, b).scores.teamB == s.scores.teamB - b.points
  {
  }

  /** From a non-negative score, pressing a score button and then its undo gives back the state: the undo is enabled and undoes exactly. */
  lemma ScoreThenUndoIdentity(s: LedgerState, b: ScoreButton)
    requires b in ScoreButtons && s.scores.teamB >= 0
    ensures !UndoDisabled(PressScore(s, b).scores.teamB, b.points)
    ensures PressUndo(PressScore(s, b), b) == s
  {
  }

  /** An enabled undo followed by the same score gives back the state. */
  lemma UndoThenScoreIdentity(s: LedgerState, b: ScoreButton)
    requires b in ScoreButtons && !UndoDisabled(s.scores.teamB, b.points)
    ensures PressScore(PressUndo(s, b), b) == s
  {
  }

  /** From a non-negative score, no press makes the away score negative. */
  lemma PressesKeepScoreNonNegative(s: LedgerState, b: ScoreButton)
    requires b in ScoreButtons && s.scores.teamB >= 0
    ensures PressScore(s, b).scores.teamB >= 0
    ensures PressUndo(s, b).scores.teamB >= 0
  {
  }

  /** Both presses keep the ledger invariant. */
  lemma PressesPreserveConsistent(s: LedgerState, b: ScoreButton)
    requires b in ScoreButtons && Consistent(s)
    ensures Consistent(PressScore(s, b))
    ensures Consistent(PressUndo(s, b))
  {
    assert PressScore(s, b).stats == s.stats && PressUndo(s, b).stats == s.stats;
  }
}
