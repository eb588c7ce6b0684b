/**
 * The leveling curve (lib/data/levels.ts): a participant's check-in count,
 * read as experience, mapped to a level and the XP bounds of that level.
 * Level 1 covers [0, 1); levels 2 to 5 span 2 XP each; from level 6 on
 * every level spans 3 XP.
 */
module Levels {
  import opened Wrappers

  /** `LevelDetails` */
  datatype LevelDetails = LevelDetails(level: int, currentLevelAt: int, nextLevelAt: int, total: int)

  /**
   * `max(0, floor(experience ?? 0))`: a missing count is 0, a negative one is 0,
   * a fractional one is rounded down.
   */
  function NormalizeExperience(experience: Option<real>): (total: nat)
    ensures experience.None? ==> total == 0
    ensures experience.Some? && experience.value < 1.0 ==> total == 0
    ensures experience.Some? && experience.value >= 0.0 ==>
              total as real <= experience.value < total as real + 1.0
  {
    match experience
    case None => 0
    case Some(x) => if x.Floor < 0 then 0 else x.Floor
  }

  /**
   * The XP at which `level` starts: the reference curve the function below
   * is checked against (L1 at 0, L2 at 1, L3 at 3, L4 at 5, L5 at 7, then +3).
   */
  function LevelStart(level: int): int
    requires level >= 1
  {
    if level == 1 then 0
    else if level <= 6 then 1 + (level - 2) * 2
    else 9 + (level - 6) * 3
  }

  /** The curve itself, written as `getLevelFromExperience` computes it once the input is normalised. */
  function LevelFromTotal(total: nat): (d: LevelDetails)
    ensures d.total == total
    ensures d.level >= 1
    ensures d.currentLevelAt == LevelStart(d.level)
    ensures d.nextLevelAt == LevelStart(d.level + 1)
    ensures d.currentLevelAt <= total < d.nextLevelAt
  {
    if total <= 0 then
      LevelDetails(1, 0, 1, total)
    else
      var levels2to5 := (total - 1) / 2;
      var level := Min(5, 2 + levels2to5);
      var currentLevelAt := 1 + (level - 2) * 2;
      var nextLevelAt := currentLevelAt + 2;
      if level == 5 && total >= nextLevelAt then
        var extraLevels := (total - nextLevelAt) / 3 + 1;
        var currentLevelAt' := nextLevelAt + (extraLevels - 1) * 3;
        LevelDetails(5 + extraLevels, currentLevelAt', currentLevelAt' + 3, total)
      else
        LevelDetails(level, currentLevelAt, nextLevelAt, total)
  }

  /** `getLevelFromExperience(experience)` */
  function LevelFromExperience(experience: Option<real>): (d: LevelDetails)
    ensures d.total == NormalizeExperience(experience)
    ensures d.total >= 0
    ensures d.currentLevelAt <= d.total < d.nextLevelAt
  {
    LevelFromTotal(NormalizeExperience(experience))
  }

  /** No experience at all gives exactly level 1 with bounds 0 and 1. */
  lemma NoExperience(experience: Option<real>)
    requires experience.None? || experience.value < 1.0
    ensures LevelFromExperience(experience) == LevelDetails(1, 0, 1, 0)
  {
  }

  /** The width of a level: 1 for level 1, 2 for levels 2 to 5, 3 from level 6 on. */
  lemma LevelSpan(total: nat)
    ensures var d := LevelFromTotal(total);
      d.nextLevelAt - d.currentLevelAt ==
        if d.level == 1 then 1 else if d.level <= 5 then 2 else 3
  {
  }

  /** Level starts strictly increase, so the bracket of a total is unique. */
  lemma {:induction false} LevelStartIncreasing(a: int, b: int)
    requires 1 <= a < b
    ensures LevelStart(a) < LevelStart(b)
    decreases b - a
  {
    if a + 1 < b {
      LevelStartIncreasing(a + 1, b);
    }
  }

  /** The only level whose bracket holds `total` is the one the curve returns. */
  lemma LevelUnique(total: nat, level: int)
    requires level >= 1
    requires LevelStart(level) <= total < LevelStart(level + 1)
    ensures LevelFromTotal(total).level == level
  {
    var l := LevelFromTotal(total).level;
    if l < level {
      LevelStartIncreasing(l, level);
      if l + 1 < level { LevelStartIncreasing(l + 1, level); }
    } else if l > level {
      LevelStartIncreasing(level, l);
      if level + 1 < l { LevelStartIncreasing(level + 1, l); }
    }
  }

  /** More experience never means a lower level. */
  lemma LevelMonotone(x: nat, y: nat)
    requires x <= y
    ensures LevelFromTotal(x).level <= LevelFromTotal(y).level
  {
    var lx, ly := LevelFromTotal(x).level, LevelFromTotal(y).level;
    if ly < lx {
      if ly + 1 < lx { LevelStartIncreasing(ly + 1, lx); }
    }
  }

  /** Monotonicity stated on the raw, un-normalised input. */
  lemma ExperienceMonotone(x: real, y: real)
    requires x <= y
    ensures LevelFromExperience(Some(x)).level <= LevelFromExperience(Some(y)).level
  {
    LevelMonotone(NormalizeExperience(Some(x)), NormalizeExperience(Some(y)));
  }

  /**
   * An independent reading of the curve: start at `level` and climb one level
   * at a time while the next level's start is still within `total`.
   */
  function LevelByClimbing(total: nat, level: int): (l: int)
    requires level >= 1 && LevelStart(level) <= total
    decreases total - LevelStart(level)
  {
    if total < LevelStart(level + 1) then level else LevelByClimbing(total, level + 1)
  }

  /** Climbing from any level at or below the answer reaches the curve's level. */
  lemma {:induction false} ClimbingAgrees(total: nat, level: int)
    requires level >= 1 && LevelStart(level) <= total
    ensures LevelByClimbing(total, level) == LevelFromTotal(total).level
    decreases total - LevelStart(level)
  {
    if total < LevelStart(level + 1) {
      LevelUnique(total, level);
    } else {
      ClimbingAgrees(total, level + 1);
    }
  }

  /** The curve agrees with climbing from level 1 for every total. */
  lemma CurveIsClimbing(total: nat)
    ensures LevelFromTotal(total).level == LevelByClimbing(total, 1)
  {
    ClimbingAgrees(total, 1);
  }

  /** The worked values up to level 5: 0, 1, 3, 5 and 7 check-ins. */
  lemma Examples()
    ensures LevelFromTotal(0) == LevelDetails(1, 0, 1, 0)
    ensures LevelFromTotal(1) == LevelDetails(2, 1, 3, 1)
    ensures LevelFromTotal(3) == LevelDetails(3, 3, 5, 3)
    ensures LevelFromTotal(5) == LevelDetails(4, 5, 7, 5)
    ensures LevelFromTotal(7) == LevelDetails(5, 7, 9, 7)
  {
  }

  /** The worked values past level 5: 9 and 12 check-ins, three apart. */
  lemma ExamplesPastLevelFive()
    ensures LevelFromTotal(9) == LevelDetails(6, 9, 12, 9)
    ensures LevelFromTotal(12) == LevelDetails(7, 12, 15, 12)
  {
  }
}
