/**
 * The leveling rules of src/utils/leveling.ts: the quadratic cost of a
 * level, the two loops converting between total experience and level, the
 * leaderboard range, and what a level-up does (the notice and the role
 * tiers). Experience and levels are integers: every gain is a whole number,
 * and Math.pow of a whole level is exact.
 */
module Leveling {
  import opened Text
  import Config

  // ---------------------------------------------------------------------------
  // Experience per level

  /** calculateExpToNextLevel: floor((2L² + 50L + 100) / 10). Dafny's
      division by a positive number rounds down, as Math.floor does. */
  function ExpToNextLevel(level: int): int {
    (2 * level * level + 50 * level + 100) / 10
  }

  /** The first three levels cost 10, 15 and 20. */
  lemma ExpToNextLevelFirstValues()
    ensures ExpToNextLevel(0) == 10 && ExpToNextLevel(1) == 15 && ExpToNextLevel(2) == 20
  {
  }

  /** No level from 0 up costs less than 10. */
  lemma ExpToNextLevelAtLeastTen(level: int)
    requires level >= 0
    ensures ExpToNextLevel(level) >= 10
  {
    assert level * level >= 0;
  }

  /** Each level costs at least 5 more than the one before. */
  lemma ExpToNextLevelStep(level: int)
    requires level >= 0
    ensures ExpToNextLevel(level + 1) >= ExpToNextLevel(level) + 5
  {
    var q := 2 * level * level + 50 * level + 100;
    assert 2 * (level + 1) * (level + 1) + 50 * (level + 1) + 100 == q + 4 * level + 52;
    assert (q + 4 * level + 52) / 10 >= (q + 50) / 10 == q / 10 + 5;
  }

  /** The cost of a level grows strictly with the level. */
  lemma {:induction false} ExpToNextLevelIncreasing(a: int, b: int)
    requires 0 <= a < b
    ensures ExpToNextLevel(a) < ExpToNextLevel(b)
    decreases b - a
  {
    ExpToNextLevelStep(a);
    if a + 1 < b {
      ExpToNextLevelIncreasing(a + 1, b);
    }
  }

  /** The experience that reaching level n takes: the costs of levels 0 to
      n - 1 added up. */
  function CumulativeExp(n: nat): int {
    if n == 0 then 0 else CumulativeExp(n - 1) + ExpToNextLevel(n - 1)
  }

  /** Every level reached takes at least 10 more experience. */
  lemma {:induction false} CumulativeExpGrows(a: nat, b: nat)
    requires a <= b
    ensures CumulativeExp(a) + 10 * (b - a) <= CumulativeExp(b)
    decreases b - a
  {
    if a < b {
      CumulativeExpGrows(a, b - 1);
      ExpToNextLevelAtLeastTen(b - 1);
    }
  }

  // ---------------------------------------------------------------------------
  // The two loops

  /** level is the level of total experience: the largest n whose cumulative
      experience total reaches (0 when total does not reach level 1). */
  predicate IsLevel(total: int, level: nat) {
    (level == 0 || CumulativeExp(level) <= total) && total < CumulativeExp(level + 1)
  }

  /** calculateLevelFromExperience: climbs while the next level's cost still
      fits in what is left. Every climb consumes at least 10, so the loop
      ends. */
  method LevelFromExperience(total: int) returns (level: nat)
    ensures IsLevel(total, level)
  {
    level := 0;
    var accumulated := 0;
    while true
      invariant accumulated == CumulativeExp(level) && (level == 0 || accumulated <= total)
      decreases total - accumulated
    {
      var needed := ExpToNextLevel(level);
      if accumulated + needed <= total {
        ExpToNextLevelAtLeastTen(level);
        accumulated := accumulated + needed;
        level := level + 1;
      } else {
        break;
      }
    }
  }

  /** calculateExperienceFromLevel: the cumulative experience of the level,
      0 for a level of 0 or less. */
  method ExperienceFromLevel(level: int) returns (accumulated: int)
    ensures accumulated == if level <= 0 then 0 else CumulativeExp(level)
  {
    accumulated := 0;
    var current := 0;
    while true
      invariant 0 <= current && (current <= level || current == 0) && accumulated == CumulativeExp(current)
      decreases level - current
    {
      var needed := ExpToNextLevel(current);
      if current + 1 <= level {
        accumulated := accumulated + needed;
        current := current + 1;
      } else {
        break;
      }
    }
  }

  /** Each total experience has one level. */
  lemma LevelUnique(total: int, a: nat, b: nat)
    requires IsLevel(total, a) && IsLevel(total, b)
    ensures a == b
  {
    if a < b {
      CumulativeExpGrows(a + 1, b);
    } else if b < a {
      CumulativeExpGrows(b + 1, a);
    }
  }

  /** The level is the largest n whose cumulative experience is reached: n is
      at most the level exactly when the total covers n's experience. */
  lemma LevelIsLargest(total: int, level: nat, n: nat)
    requires total >= 0 && IsLevel(total, level)
    ensures n <= level <==> CumulativeExp(n) <= total
  {
    if n <= level {
      CumulativeExpGrows(n, level);
    } else {
      CumulativeExpGrows(level + 1, n);
    }
  }

  /** More experience never means a lower level. */
  lemma LevelMonotone(e1: int, e2: int, l1: nat, l2: nat)
    requires e1 <= e2 && IsLevel(e1, l1) && IsLevel(e2, l2)
    ensures l1 <= l2
  {
    if l2 < l1 {
      CumulativeExpGrows(l2 + 1, l1);
    }
  }

  /** Less than 10 experience is level 0. */
  lemma LevelBelowTen(total: int, level: nat)
    requires total < 10 && IsLevel(total, level)
    ensures level == 0
  {
    if level > 0 {
      CumulativeExpGrows(1, level);
    }
  }

  /** Round trip: the level of level n's experience is n. */
  lemma LevelRoundTrip(n: nat)
    ensures IsLevel(CumulativeExp(n), n)
  {
    ExpToNextLevelAtLeastTen(n);
  }

  // ---------------------------------------------------------------------------
  // Leaderboard range

  /** A stored experience record. */
  datatype UserExperience = UserExperience(userId: string, experience: int, id: nat)

  /** Highest experience first. */
  predicate Descending(users: seq<UserExperience>) {
    forall i, j :: 0 <= i < j < |users| ==> users[i].experience >= users[j].experience
  }

  /** Puts u, which came before every record of sorted, in front of the
      first record with less experience. */
  function Insert(u: UserExperience, sorted: seq<UserExperience>): (r: seq<UserExperience>)
    ensures |r| == |sorted| + 1 && multiset(r) == multiset(sorted) + multiset{u}
  {
    if sorted == [] || u.experience >= sorted[0].experience then [u] + sorted
    else
      assert sorted == [sorted[0]] + sorted[1..];
      [sorted[0]] + Insert(u, sorted[1..])
  }

  /** No record has more experience than e. */
  predicate AtMost(e: int, users: seq<UserExperience>) {
    forall k :: 0 <= k < |users| ==> users[k].experience <= e
  }

  /** A record with at least the experience of every record of a
      descending list heads a descending list. */
  lemma DescendingCons(u: UserExperience, users: seq<UserExperience>)
    requires Descending(users) && AtMost(u.experience, users)
    ensures Descending([u] + users)
  {
    var r := [u] + users;
    forall i, j | 0 <= i < j < |r|
      ensures r[i].experience >= r[j].experience
    {
      assert r[j] == users[j - 1];
      if i > 0 {
        assert r[i] == users[i - 1];
      }
    }
  }

  /** Inserting keeps a bound on the experience. */
  lemma {:induction false} InsertAtMost(u: UserExperience, sorted: seq<UserExperience>, e: int)
    requires AtMost(e, sorted) && u.experience <= e
    ensures AtMost(e, Insert(u, sorted))
    decreases |sorted|
  {
    if !(sorted == [] || u.experience >= sorted[0].experience) {
      InsertAtMost(u, sorted[1..], e);
      var rest := Insert(u, sorted[1..]);
      assert Insert(u, sorted) == [sorted[0]] + rest;
      assert forall k :: 0 < k < |rest| + 1 ==> ([sorted[0]] + rest)[k] == rest[k - 1];
    }
  }

  /** Inserting into a descending list keeps it descending. */
  lemma {:induction false} InsertDescending(u: UserExperience, sorted: seq<UserExperience>)
    requires Descending(sorted)
    ensures Descending(Insert(u, sorted))
    decreases |sorted|
  {
    if sorted == [] || u.experience >= sorted[0].experience {
      DescendingCons(u, sorted);
    } else {
      var rest := sorted[1..];
      assert forall k :: 0 <= k < |rest| ==> rest[k] == sorted[k + 1];
      InsertDescending(u, rest);
      InsertAtMost(u, rest, sorted[0].experience);
      DescendingCons(sorted[0], Insert(u, rest));
    }
  }

  /** users.sort((a, b) => b.experience - a.experience): the records by
      descending experience, those with equal experience in their stored
      order (Array.prototype.sort is stable). */
  function SortByExperience(users: seq<UserExperience>): (r: seq<UserExperience>)
    ensures Descending(r) && multiset(r) == multiset(users)
  {
    if users == [] then []
    else
      assert users == [users[0]] + users[1..];
      var rest := SortByExperience(users[1..]);
      InsertDescending(users[0], rest);
      Insert(users[0], rest)
  }

  /** slice(x, y + 1) of a descending list, for 0 <= x <= y: positions x
      to y, fewer when the list is shorter, still descending and holding
      nothing the list does not. */
  lemma RangeOfDescending(sorted: seq<UserExperience>, x: int, y: int)
    requires 0 <= x <= y && Descending(sorted)
    ensures var r := Slice(sorted, x, y + 1);
            && |r| <= y - x + 1 && |r| == (if x >= |sorted| then 0 else Min(y + 1, |sorted|) - x)
            && (forall i :: 0 <= i < |r| ==> r[i] == sorted[x + i])
            && Descending(r) && multiset(r) <= multiset(sorted)
  {
    SliceFromStart(sorted, x, y + 1);
    if x < |sorted| {
      var hi := if y + 1 <= |sorted| then y + 1 else |sorted|;
      SubrangeMultiset(sorted, x, hi);
      DescendingSubrange(sorted, x, hi);
    }
  }

  lemma SubrangeMultiset(s: seq<UserExperience>, lo: nat, hi: nat)
    requires lo <= hi <= |s|
    ensures multiset(s[lo..hi]) <= multiset(s)
  {
    assert s == s[..lo] + s[lo..hi] + s[hi..];
  }

  lemma DescendingSubrange(s: seq<UserExperience>, lo: nat, hi: nat)
    requires lo <= hi <= |s| && Descending(s)
    ensures Descending(s[lo..hi])
  {
    forall i, j | 0 <= i < j < hi - lo
      ensures s[lo..hi][i].experience >= s[lo..hi][j].experience
    {
      assert s[lo..hi][i] == s[lo + i] && s[lo..hi][j] == s[lo + j];
    }
  }

  const InvalidIndices := "Invalid indices: x must be >= 0 and y must be >= x."

  /** getUsersByExperienceRange over the stored records: positions x to y
      of the leaderboard, fewer when it is shorter. */
  function UsersByExperienceRange(users: seq<UserExperience>, x: int, y: int): (r: Result<seq<UserExperience>>)
    ensures r.Failure? <==> x < 0 || y < x
    ensures r.Failure? ==> r.error == InvalidIndices
    ensures r.Success? ==> |r.value| <= y - x + 1 && |r.value| == if x >= |users| then 0 else Min(y + 1, |users|) - x
    ensures r.Success? ==> forall i :: 0 <= i < |r.value| ==> r.value[i] == SortByExperience(users)[x + i]
    ensures r.Success? ==> Descending(r.value) && multiset(r.value) <= multiset(users)
  {
    if x < 0 || y < x then Failure(InvalidIndices)
    else
      var sorted := SortByExperience(users);
      RangeOfDescending(sorted, x, y);
      Success(Slice(sorted, x, y + 1))
  }

  function Min(a: int, b: int): int {
    if a <= b then a else b
  }

  // ---------------------------------------------------------------------------
  // Level-up

  /** The four level roles of the guild. */
  datatype Role = Level10 | Level20 | Level40 | Level60

  /** A role given or taken away. */
  datatype RoleOp = Add(role: Role) | Remove(role: Role)

  /** The level a role stands for. */
  function Threshold(r: Role): nat {
    match r
    case Level10 => 10
    case Level20 => 20
    case Level40 => 40
    case Level60 => 60
  }

  const Tiers: seq<Role> := [Level10, Level20, Level40, Level60]

  /** The role changes after a level-up to level, in the order they are
      made. */
  function RoleUpdate(level: int): (ops: seq<RoleOp>)
    ensures |ops| == 4
    ensures forall k :: 0 <= k < 4 ==> ops[k].role == Tiers[k] && (ops[k].Add? <==> level >= Threshold(Tiers[k]))
  {
    if level >= 60 then [Add(Level10), Add(Level20), Add(Level40), Add(Level60)]
    else if level >= 40 then [Add(Level10), Add(Level20), Add(Level40), Remove(Level60)]
    else if level >= 20 then [Add(Level10), Add(Level20), Remove(Level40), Remove(Level60)]
    else if level >= 10 then [Add(Level10), Remove(Level20), Remove(Level40), Remove(Level60)]
    else [Remove(Level10), Remove(Level20), Remove(Level40), Remove(Level60)]
  }

  /** A member holds the roles of every tier the level reaches after the
      update, and no other level role. */
  lemma RoleUpdateHolds(level: int, r: Role)
    ensures Add(r) in RoleUpdate(level) <==> level >= Threshold(r)
    ensures Remove(r) in RoleUpdate(level) <==> level < Threshold(r)
  {
    var ops := RoleUpdate(level);
    var k := match r case Level10 => 0 case Level20 => 1 case Level40 => 2 case Level60 => 3;
    assert Tiers[k] == r && ops[k].role == r;
    assert forall j :: 0 <= j < 4 && j != k ==> ops[j].role != r;
  }

  /** JavaScript truthiness of a stored setting (NaN is not modelled). */
  predicate Truthy(v: Config.Value) {
    match v
    case Str(s) => s != ""
    case Num(n) => n != 0.0
    case Bool(b) => b
    case Obj(_) => true
  }

  /** What a level-up produces: the notice's level, experience and the
      experience of the next level, whether it is sent by DM, and the role
      changes. */
  datatype LevelUp = LevelUp(level: nat, experience: int, nextLevelExp: int, notify: bool, roles: seq<RoleOp>)

  /** The level rule of prettyExpGain, for a member with currentExperience
      who gains expGain; setting is the member's leveling.levelupmessaging
      value (None when unset). */
  method PrettyExpGain(currentExperience: int, expGain: int, setting: Option<Config.Value>)
    returns (newExperience: int, oldLevel: nat, newLevel: nat, up: Option<LevelUp>)
    ensures newExperience == currentExperience + expGain
    ensures IsLevel(currentExperience, oldLevel) && IsLevel(newExperience, newLevel)
    ensures up.Some? <==> newLevel > oldLevel
    ensures up.Some? ==> up.value == LevelUp(newLevel, newExperience, CumulativeExp(newLevel + 1),
                                             setting.None? || Truthy(setting.value), RoleUpdate(newLevel))
  {
    newExperience := currentExperience + expGain;
    oldLevel := LevelFromExperience(currentExperience);
    newLevel := LevelFromExperience(newExperience);
    if newLevel > oldLevel {
      var next := ExperienceFromLevel(newLevel + 1);
      var notify := if setting.None? then true else Truthy(setting.value);
      up := Some(LevelUp(newLevel, newExperience, next, notify, RoleUpdate(newLevel)));
    } else {
      up := None;
    }
  }

  /** A gain of zero or more never lowers the level, so a level-up happens
      exactly when the new experience reaches the next level. */
  lemma LevelUpIffNextReached(currentExperience: int, expGain: int, oldLevel: nat, newLevel: nat)
    requires expGain >= 0 && IsLevel(currentExperience, oldLevel) && IsLevel(currentExperience + expGain, newLevel)
    ensures oldLevel <= newLevel
    ensures newLevel > oldLevel <==> currentExperience + expGain >= CumulativeExp(oldLevel + 1)
  {
    LevelMonotone(currentExperience, currentExperience + expGain, oldLevel, newLevel);
    if newLevel > oldLevel {
      CumulativeExpGrows(oldLevel + 1, newLevel);
    }
  }
}
