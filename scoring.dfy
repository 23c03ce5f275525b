/**
 * The scoring rule of the Wavelength dial game: a guess (an angle on the dial)
 * is compared with the hidden target angle, the absolute difference picks one
 * of four zones, and the zone gives base points and decides the hit streak.
 * The streak turns into a multiplier that grows by one every two consecutive
 * best-zone hits.
 */
module Scoring {

  /** Inclusive upper bounds of the three scoring zones, in the dial's angle units. */
  const RedZone: real := 23.0
  const YellowZone: real := 13.0
  const BlueZone: real := 5.0

  /** What one guess earns: the points and the streak to carry into the next guess. */
  datatype Award = Award(points: int, streak: int)

  /** One guess: where the dial was left and where the target was. */
  datatype Guess = Guess(angle: real, target: real)

  function Abs(x: real): (r: real)
    ensures r >= 0.0 && (r == x || r == -x)
  {
    if x < 0.0 then -x else x
  }

  /** Base points of a zone, by the absolute angular difference. */
  function BasePoints(diff: real): (b: int)
    ensures 0 <= b <= 3
  {
    if diff <= BlueZone then 3
    else if diff <= YellowZone then 2
    else if diff <= RedZone then 1
    else 0
  }

  /** The streak multiplier: one more for every two consecutive best-zone hits. */
  function Multiplier(streak: int): (m: int)
    ensures streak >= 0 ==> m >= 1
    ensures 2 * (m - 1) <= streak < 2 * m
  {
    1 + streak / 2
  }

  /**
   * calculatePoints: the streak goes up by one in the best zone and drops to
   * zero in every other zone; the points are the zone's base points times the
   * multiplier of the new streak.
   */
  function CalculatePoints(angle: real, targetAngle: real, streak: int): (r: Award)
    ensures r.streak == 0 || r.streak == streak + 1
    ensures streak >= 0 ==> (r.streak == streak + 1 <==> Abs(angle - targetAngle) <= BlueZone)
    ensures streak >= 0 ==> r.streak >= 0 && r.points >= 0
  {
    var diff := Abs(angle - targetAngle);
    var newStreak := if diff <= BlueZone then streak + 1 else 0;
    Award(BasePoints(diff) * Multiplier(newStreak), newStreak)
  }

  lemma BestZoneResult(angle: real, targetAngle: real, streak: int)
    requires Abs(angle - targetAngle) <= BlueZone
    ensures CalculatePoints(angle, targetAngle, streak)
         == Award(3 * (1 + (streak + 1) / 2), streak + 1)
  {
  }

  lemma YellowZoneResult(angle: real, targetAngle: real, streak: int)
    requires BlueZone < Abs(angle - targetAngle) <= YellowZone
    ensures CalculatePoints(angle, targetAngle, streak) == Award(2, 0)
  {
  }

  lemma RedZoneResult(angle: real, targetAngle: real, streak: int)
    requires YellowZone < Abs(angle - targetAngle) <= RedZone
    ensures CalculatePoints(angle, targetAngle, streak) == Award(1, 0)
  {
  }

  lemma MissResult(angle: real, targetAngle: real, streak: int)
    requires Abs(angle - targetAngle) > RedZone
    ensures CalculatePoints(angle, targetAngle, streak) == Award(0, 0)
  {
  }

  /** Every zone includes its upper bound; just past it the next zone starts. */
  lemma ZoneBoundariesInclusive(streak: int)
    ensures CalculatePoints(5.0, 0.0, streak).streak == streak + 1
    ensures CalculatePoints(13.0, 0.0, streak) == Award(2, 0)
    ensures CalculatePoints(23.0, 0.0, streak) == Award(1, 0)
    ensures CalculatePoints(5.0001, 0.0, streak) == Award(2, 0)
    ensures CalculatePoints(13.0001, 0.0, streak) == Award(1, 0)
    ensures CalculatePoints(23.0001, 0.0, streak) == Award(0, 0)
  {
  }

  /** Only the distance counts, not which of the two angles is larger. */
  lemma Symmetric(angle: real, targetAngle: real, streak: int)
    ensures CalculatePoints(angle, targetAngle, streak)
         == CalculatePoints(targetAngle, angle, streak)
  {
  }

  /**
   * The caller's loop: each guess is scored with the streak the previous one
   * returned.
   */
  function Play(guesses: seq<Guess>, streak: int): (awards: seq<Award>)
    ensures |awards| == |guesses|
  {
    if guesses == [] then []
    else
      var a := CalculatePoints(guesses[0].angle, guesses[0].target, streak);
      [a] + Play(guesses[1..], a.streak)
  }

  predicate IsHit(g: Guess) {
    Abs(g.angle - g.target) <= BlueZone
  }

  /** How many guesses at the end of the sequence are best-zone hits in a row. */
  function TrailingHits(guesses: seq<Guess>): (n: nat)
    ensures n <= |guesses|
  {
    if guesses == [] || !IsHit(guesses[|guesses| - 1]) then 0
    else 1 + TrailingHits(guesses[..|guesses| - 1])
  }

  /**
   * A run of best-zone hits grows the streak by one per hit, and the k-th
   * hit earns three points times the multiplier of its streak.
   */
  lemma {:induction false} HitRun(guesses: seq<Guess>, streak: int, k: nat)
    requires forall i :: 0 <= i < |guesses| ==> IsHit(guesses[i])
    requires k < |guesses|
    ensures Play(guesses, streak)[k]
         == Award(3 * (1 + (streak + k + 1) / 2), streak + k + 1)
  {
    if k > 0 {
      var a := CalculatePoints(guesses[0].angle, guesses[0].target, streak);
      assert IsHit(guesses[0]);
      HitRun(guesses[1..], a.streak, k - 1);
    }
  }

  /**
   * The streak counts consecutive best-zone hits: after a sequence of guesses
   * that contains a non-hit, the streak is the number of hits after the last
   * non-hit; with no non-hit at all, every hit was added to the initial streak.
   */
  lemma {:induction false} StreakCountsTrailingHits(guesses: seq<Guess>, streak: int)
    requires guesses != []
    ensures var last := Play(guesses, streak)[|guesses| - 1].streak;
            if TrailingHits(guesses) < |guesses| then last == TrailingHits(guesses)
            else last == streak + |guesses|
  {
    var n := |guesses|;
    var a := CalculatePoints(guesses[0].angle, guesses[0].target, streak);
    if n == 1 {
      assert Play(guesses, streak) == [a];
    } else {
      var rest := guesses[1..];
      StreakCountsTrailingHits(rest, a.streak);
      assert Play(guesses, streak)[n - 1] == Play(rest, a.streak)[n - 2];
      TrailingHitsOfTail(guesses);
    }
  }

  /** Dropping the first guess leaves the trailing hits alone, unless every guess is a hit. */
  lemma {:induction false} TrailingHitsOfTail(guesses: seq<Guess>)
    requires |guesses| >= 2
    ensures var t := TrailingHits(guesses[1..]);
            if t < |guesses| - 1 then TrailingHits(guesses) == t
            else TrailingHits(guesses) == t + (if IsHit(guesses[0]) then 1 else 0)
  {
    var n := |guesses|;
    assert guesses[1..][..n - 2] == guesses[..n - 1][1..];
    if IsHit(guesses[n - 1]) && n > 2 {
      TrailingHitsOfTail(guesses[..n - 1]);
    } else if IsHit(guesses[n - 1]) {
      assert guesses[..n - 1] == [guesses[0]];
      assert guesses[1..][..n - 2] == [];
      assert guesses[..n - 1][..0] == [];
    }
  }

  /**
   * Five exact hits from a zero streak give streaks 1 to 5 and points
   * 3, 6, 6, 9, 9: the multiplier is taken from the streak after the hit, so
   * the second hit already doubles.
   */
  lemma FiveExactHits(angle: real)
    ensures Play(seq(5, _ => Guess(angle, angle)), 0)
         == [Award(3, 1), Award(6, 2), Award(6, 3), Award(9, 4), Award(9, 5)]
  {
    var gs := seq(5, _ => Guess(angle, angle));
    var awards := Play(gs, 0);
    forall k | 0 <= k < 5
      ensures awards[k] == Award(3 * (1 + (k + 1) / 2), k + 1)
    {
      HitRun(gs, 0, k);
    }
    assert awards[0] == Award(3, 1) && awards[1] == Award(6, 2) && awards[2] == Award(6, 3);
    assert awards[3] == Award(9, 4) && awards[4] == Award(9, 5);
  }
}
