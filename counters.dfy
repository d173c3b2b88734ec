/** The eleven per-player counters a game keeps, and the points they are worth. */
module Counters {

  /** The names of the counters of one player's game record. */
  datatype Counter =
    | TwoPointMade | TwoPointAttempted | ThreePointMade | ThreePointAttempted
    | Steals | OffensiveRebounds | DefensiveRebounds | Assists | Blocks | Turnovers | Fouls

  /** The counters that are not shots: the ones the stat buttons record. */
  predicate IsEventCounter(k: Counter) {
    !(k.TwoPointMade? || k.TwoPointAttempted? || k.ThreePointMade? || k.ThreePointAttempted?)
  }

  /** Every counter. */
  const AllCounters: set<Counter> := {
    TwoPointMade, TwoPointAttempted, ThreePointMade, ThreePointAttempted,
    Steals, OffensiveRebounds, DefensiveRebounds, Assists, Blocks, Turnovers, Fouls }

  lemma AllCountersComplete()
    ensures forall k :: k in AllCounters
  {
    forall k ensures k in AllCounters {
      match k
      case TwoPointMade =>
      case _ =>
    }
  }

  /** One player's counters; every one of them is a non-negative count. */
  datatype Tally = Tally(
    twoPointMade: nat, twoPointAttempted: nat,
    threePointMade: nat, threePointAttempted: nat,
    steals: nat, offensiveRebounds: nat, defensiveRebounds: nat,
    assists: nat, blocks: nat, turnovers: nat, fouls: nat)
  {
    /** The counter named `k` (the source's `stats[id][k]`). */
    function Get(k: Counter): nat {
      match k
      case TwoPointMade => twoPointMade
      case TwoPointAttempted => twoPointAttempted
      case ThreePointMade => threePointMade
      case ThreePointAttempted => threePointAttempted
      case Steals => steals
      case OffensiveRebounds => offensiveRebounds
      case DefensiveRebounds => defensiveRebounds
      case Assists => assists
      case Blocks => blocks
      case Turnovers => turnovers
      case Fouls => fouls
    }

    /** The record `{ ...this, [k]: v }`. */
    function Set(k: Counter, v: nat): (t: Tally)
      ensures t.Get(k) == v
      ensures forall j :: j != k ==> t.Get(j) == Get(j)
    {
      match k
      case TwoPointMade => this.(twoPointMade := v)
      case TwoPointAttempted => this.(twoPointAttempted := v)
      case ThreePointMade => this.(threePointMade := v)
      case ThreePointAttempted => this.(threePointAttempted := v)
      case Steals => this.(steals := v)
      case OffensiveRebounds => this.(offensiveRebounds := v)
      case DefensiveRebounds => this.(defensiveRebounds := v)
      case Assists => this.(assists := v)
      case Blocks => this.(blocks := v)
      case Turnovers => this.(turnovers := v)
      case Fouls => this.(fouls := v)
    }

    /** Neither kind of shot has more makes than attempts. */
    predicate ShotsConsistent() {
      twoPointMade <= twoPointAttempted && threePointMade <= threePointAttempted
    }
  }

  /** A record is determined by its counters. */
  lemma TallyExt(a: Tally, b: Tally)
    requires forall k :: a.Get(k) == b.Get(k)
    ensures a == b
  {
    assert a.Get(TwoPointMade) == b.Get(TwoPointMade) && a.Get(TwoPointAttempted) == b.Get(TwoPointAttempted);
    assert a.Get(ThreePointMade) == b.Get(ThreePointMade) && a.Get(ThreePointAttempted) == b.Get(ThreePointAttempted);
    assert a.Get(Steals) == b.Get(Steals) && a.Get(OffensiveRebounds) == b.Get(OffensiveRebounds);
    assert a.Get(DefensiveRebounds) == b.Get(DefensiveRebounds) && a.Get(Assists) == b.Get(Assists);
    assert a.Get(Blocks) == b.Get(Blocks) && a.Get(Turnovers) == b.Get(Turnovers) && a.Get(Fouls) == b.Get(Fouls);
  }

  /** Writing a counter's old value back undoes a write to it. */
  lemma SetBack(t: Tally, k: Counter, v: nat)
    ensures t.Set(k, v).Set(k, t.Get(k)) == t
  {
    TallyExt(t.Set(k, v).Set(k, t.Get(k)), t);
  }

  /** The record every roster player starts a game with. */
  const Zero := Tally(0, 0, 0, 0, 0, 0, 0, 0, 0, 0, 0)

  lemma ZeroIsZero()
    ensures forall k :: Zero.Get(k) == 0
  {
  }

  /** Points scored: two per made two-pointer, three per made three-pointer. */
  function Points(t: Tally): (r: nat)
    ensures r == 2 * t.Get(TwoPointMade) + 3 * t.Get(ThreePointMade)
  {
    t.twoPointMade * 2 + t.threePointMade * 3
  }

  /** Changing a counter other than the two "made" counters leaves the points alone. */
  lemma PointsIgnoreOtherCounters(t: Tally, k: Counter, v: nat)
    requires k != TwoPointMade && k != ThreePointMade
    ensures Points(t.Set(k, v)) == Points(t)
  {
  }

  /** The "made" counter a shot of `shotType` points updates: 2 for a two, anything else a three. */
  function MadeKey(shotType: int): (k: Counter)
    ensures k == TwoPointMade || k == ThreePointMade
    ensures k.TwoPointMade? <==> shotType == 2
  {
    if shotType == 2 then TwoPointMade else ThreePointMade
  }

  /** The "attempted" counter a shot of `shotType` points updates. */
  function AttemptedKey(shotType: int): (k: Counter)
    ensures k == TwoPointAttempted || k == ThreePointAttempted
    ensures k.TwoPointAttempted? <==> shotType == 2
  {
    if shotType == 2 then TwoPointAttempted else ThreePointAttempted
  }

  /** A shot of value `shotType` moves the points by `shotType` per make, for the two values the board offers. */
  lemma PointsOfMade(t: Tally, shotType: int, v: nat)
    requires shotType == 2 || shotType == 3
    ensures Points(t.Set(MadeKey(shotType), v)) == Points(t) + shotType * (v - t.Get(MadeKey(shotType)))
  {
  }
}
