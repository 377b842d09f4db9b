/** The pet's profile and the XP / leveling rule of `addXP`
    (js/app.js:210-238), with the fixed awards its callers pass.

    Leveling threshold: a profile at level L levels up once its xp reaches
    L * 100. The code applies that rule ONCE per award (a single `if`, not a
    loop), so one award raises the level by at most one. The lemmas at the
    end show that for every award the application actually makes (at most
    200 XP) the single step lands where the repeated "staircase" rule would. */
module Progression {

  import opened Wrappers

  /** The `userProfile` document. Numbers are unbounded integers. The
      creation timestamp is optional: the default built by `addXP` has none. */
  datatype Profile = Profile(
    id: string,
    petType: string,
    petName: string,
    level: int,
    xp: int,
    totalXP: int,
    achievements: seq<string>,
    customizations: seq<string>,
    createdAt: Option<string>)

  const XPPerLevel: int := 100

  /** The xp needed to leave a level (`xpForNextLevel`): a whole number of
      hundreds, at least 100 from level 1 on. */
  function Threshold(level: int): (t: int)
    ensures t % XPPerLevel == 0
    ensures level >= 1 ==> t >= XPPerLevel
  {
    level * XPPerLevel
  }

  /** The default profile: level 1, no xp, a cat called Barbaura. */
  function NewProfile(createdAt: Option<string>): (p: Profile)
    ensures p.level == 1 && p.xp == 0 && p.totalXP == 0
    ensures p.petType == "cat" && p.petName == "Barbaura" && p.id == "1"
    ensures p.achievements == [] && p.customizations == [] && p.createdAt == createdAt
  {
    Profile("1", "cat", "Barbaura", 1, 0, 0, [], [], createdAt)
  }

  /** The profile invariant: xp is within the current level's band, below
      the threshold of leaving it. */
  ghost predicate Settled(p: Profile)
  {
    p.level >= 1 && 0 <= p.xp < Threshold(p.level)
  }

  /** The xp consumed by climbing from level 1 to `level`:
      100 + 200 + ... + (level - 1) * 100. */
  function Cost(level: int): (c: int)
    requires level >= 1
    ensures c >= 0
  {
    if level == 1 then 0 else Cost(level - 1) + Threshold(level - 1)
  }

  /** All xp a profile has ever been credited with, as the level reached
      plus what is left over in the current level. */
  function Progress(p: Profile): int
    requires p.level >= 1
  {
    Cost(p.level) + p.xp
  }

  /** The profile after one award (the arithmetic of js/app.js:225-232):
      both counters grow by the amount, and the level rises by one exactly
      when the xp reaches the current level's threshold, that threshold
      being spent. No other field moves. */
  function GainXP(p: Profile, amount: int): (q: Profile)
    ensures q.totalXP == p.totalXP + amount
    ensures q.level == p.level + 1 <==> p.xp + amount >= Threshold(p.level)
    ensures q.level == p.level <==> p.xp + amount < Threshold(p.level)
    ensures q.level == p.level + 1 ==> q.xp == p.xp + amount - Threshold(p.level)
    ensures q.level == p.level ==> q.xp == p.xp + amount
    ensures p.level >= 1 ==> q.level >= 1
    ensures q.(level := p.level, xp := p.xp, totalXP := p.totalXP) == p
  {
    var gained := p.(xp := p.xp + amount, totalXP := p.totalXP + amount);
    if gained.xp >= Threshold(gained.level) then
      gained.(xp := gained.xp - Threshold(gained.level), level := gained.level + 1)
    else
      gained
  }

  /** The fixed awards of the actions that call `addXP`. */
  datatype Action = LogTransaction | LogWorkout | LogMeal | LogMood | HabitDone | StartMeditation

  function Award(a: Action): (amount: int)
    ensures 0 < amount <= 50
  {
    match a
    case LogTransaction => 20
    case LogWorkout => 50
    case LogMeal => 10
    case LogMood => 15
    case HabitDone => 10
    case StartMeditation => 30
  }

  /** The awards of a sequence of actions, in order. */
  function Awards(actions: seq<Action>): (amounts: seq<int>)
    ensures |amounts| == |actions|
    ensures forall i :: 0 <= i < |actions| ==> amounts[i] == Award(actions[i])
  {
    if actions == [] then [] else [Award(actions[0])] + Awards(actions[1..])
  }

  function Sum(amounts: seq<int>): int
  {
    if amounts == [] then 0 else amounts[0] + Sum(amounts[1..])
  }

  /** Successive `addXP` calls, in order: each call climbs at most one
      level and none moves any field but the three counters. */
  function GainAll(p: Profile, amounts: seq<int>): (r: Profile)
    ensures p.level <= r.level <= p.level + |amounts|
    ensures r.(level := p.level, xp := p.xp, totalXP := p.totalXP) == p
    decreases amounts
  {
    if amounts == [] then p else GainAll(GainXP(p, amounts[0]), amounts[1..])
  }

  /** The repeat-while leveling rule (level up while xp reaches the
      threshold, each time against the new level), as a reference: from
      level `level` with `xp` unspent, the level and leftover it settles at. */
  function Staircase(level: int, xp: int): (r: (int, int))
    requires level >= 1 && xp >= 0
    decreases xp
  {
    if xp >= Threshold(level) then Staircase(level + 1, xp - Threshold(level)) else (level, xp)
  }

  // ----- single award -----

  /** A single award raises the level by at most one and never lowers it,
      whatever the amount. */
  lemma AtMostOneLevel(p: Profile, amount: int)
    ensures p.level <= GainXP(p, amount).level <= p.level + 1
  {
  }

  /** 250 XP on a fresh profile gives level 2 with 150 xp left: the
      threshold of level 2 is 200, so the staircase stops there too. */
  lemma OneStepOn250()
    ensures GainXP(NewProfile(None), 250).level == 2
    ensures GainXP(NewProfile(None), 250).xp == 150
    ensures Staircase(1, 250) == (2, 150)
  {
    var p := NewProfile(None);
    assert p.xp + 250 >= Threshold(p.level);
    assert Staircase(2, 150) == (2, 150);
  }

  /** Below 300 XP a single award on a fresh profile lands where the
      staircase does... */
  lemma AgreeBelow300(amount: int)
    requires 0 <= amount < 300
    ensures var q := GainXP(NewProfile(None), amount); (q.level, q.xp) == Staircase(1, amount)
  {
    if amount >= 100 {
      assert Staircase(2, amount - 100) == (2, amount - 100);
    }
  }

  /** ...and at 300 the two rules part: the single step stops at level 2
      with 200 xp, out of its band, ... */
  lemma OneStepOn300()
    ensures GainXP(NewProfile(None), 300).level == 2
    ensures GainXP(NewProfile(None), 300).xp == 200
    ensures !Settled(GainXP(NewProfile(None), 300))
  {
    var p := NewProfile(None);
    assert p.xp + 300 >= Threshold(p.level);
  }

  /** ...where the staircase reaches level 3 with nothing left over. */
  lemma StaircaseOn300()
    ensures Staircase(1, 300) == (3, 0)
  {
    assert Staircase(3, 0) == (3, 0);
    assert Staircase(2, 200) == Staircase(3, 0);
  }

  /** 350 XP on a fresh profile crosses two thresholds: the single step
      stops at level 2 with 250 xp, out of its band... */
  lemma OneStepOn350()
    ensures GainXP(NewProfile(None), 350).level == 2
    ensures GainXP(NewProfile(None), 350).xp == 250
    ensures !Settled(GainXP(NewProfile(None), 350))
  {
    var p := NewProfile(None);
    assert p.xp + 350 >= Threshold(p.level);
  }

  /** ...where the staircase reaches level 3 with 50. */
  lemma StaircaseOn350()
    ensures Staircase(1, 350) == (3, 50)
  {
    assert Staircase(3, 50) == (3, 50);
    assert Staircase(2, 250) == Staircase(3, 50);
  }

  /** No xp is lost in leveling up: what the award adds is either still in
      xp or was spent on the threshold of the level left behind. */
  lemma GainConservesProgress(p: Profile, amount: int)
    requires p.level >= 1
    ensures Progress(GainXP(p, amount)) == Progress(p) + amount
  {
  }

  /** Bounded awards keep the profile invariant. */
  lemma BoundedAwardKeepsSettled(p: Profile, amount: int)
    requires Settled(p) && 0 <= amount <= 200
    ensures Settled(GainXP(p, amount))
  {
  }

  /** The bound of 200 cannot be raised: at level 1 with 99 xp, an award of
      201 leaves the profile out of its band. */
  lemma BoundIsTight()
    ensures Settled(NewProfile(None).(xp := 99))
    ensures !Settled(GainXP(NewProfile(None).(xp := 99), 201))
  {
  }

  // ----- the staircase reference -----

  /** The cost of levels grows: climbing past level a to a later level b
      costs at least the threshold of a. */
  lemma {:induction false} CostGrows(a: int, b: int)
    requires 1 <= a < b
    ensures Cost(a) + Threshold(a) <= Cost(b)
  {
    if b > a + 1 {
      CostGrows(a, b - 1);
    }
  }

  /** The staircase settles within a band and conserves the xp. */
  lemma {:induction false} StaircaseSettles(level: int, xp: int)
    requires level >= 1 && xp >= 0
    ensures Staircase(level, xp).0 >= level
    ensures 0 <= Staircase(level, xp).1 < Threshold(Staircase(level, xp).0)
    ensures Cost(Staircase(level, xp).0) + Staircase(level, xp).1 == Cost(level) + xp
    decreases xp
  {
    if xp >= Threshold(level) {
      StaircaseSettles(level + 1, xp - Threshold(level));
    }
  }

  /** A settled profile is determined by how much xp it has been credited:
      two settled (level, xp) pairs with equal progress are equal. */
  lemma SettledIsUnique(l1: int, x1: int, l2: int, x2: int)
    requires l1 >= 1 && 0 <= x1 < Threshold(l1)
    requires l2 >= 1 && 0 <= x2 < Threshold(l2)
    requires Cost(l1) + x1 == Cost(l2) + x2
    ensures l1 == l2 && x1 == x2
  {
    if l1 < l2 {
      CostGrows(l1, l2);
    } else if l2 < l1 {
      CostGrows(l2, l1);
    }
  }

  // ----- sequences of awards -----

  /** totalXP accounting: over any sequence of calls, totalXP grows by
      exactly the sum of the amounts. */
  lemma {:induction false} TotalIsSum(p: Profile, amounts: seq<int>)
    decreases amounts
    ensures GainAll(p, amounts).totalXP == p.totalXP + Sum(amounts)
  {
    if amounts != [] {
      TotalIsSum(GainXP(p, amounts[0]), amounts[1..]);
    }
  }

  /** Every award within [0, 200] keeps the invariant and conserves progress
      over a whole sequence of calls. */
  lemma {:induction false} BoundedAwardsKeepSettled(p: Profile, amounts: seq<int>)
    requires Settled(p)
    requires forall i :: 0 <= i < |amounts| ==> 0 <= amounts[i] <= 200
    ensures Settled(GainAll(p, amounts))
    ensures Progress(GainAll(p, amounts)) == Progress(p) + Sum(amounts)
    decreases amounts
  {
    if amounts != [] {
      BoundedAwardKeepsSettled(p, amounts[0]);
      GainConservesProgress(p, amounts[0]);
      BoundedAwardsKeepSettled(GainXP(p, amounts[0]), amounts[1..]);
    }
  }

  /** A settled profile sits where the staircase puts its progress. */
  lemma SettledIsStaircase(q: Profile)
    requires Settled(q)
    ensures Progress(q) >= 0
    ensures Staircase(1, Progress(q)) == (q.level, q.xp)
  {
    var total := Progress(q);
    StaircaseSettles(1, total);
    var r := Staircase(1, total);
    SettledIsUnique(q.level, q.xp, r.0, r.1);
  }

  /** From any profile with no progress, bounded awards end where the
      staircase puts their total. */
  lemma FromNothingMatchesStaircase(p: Profile, amounts: seq<int>)
    requires p.level == 1 && p.xp == 0
    requires forall i :: 0 <= i < |amounts| ==> 0 <= amounts[i] <= 200
    ensures Sum(amounts) >= 0
    ensures Settled(GainAll(p, amounts))
    ensures GainAll(p, amounts).totalXP == p.totalXP + Sum(amounts)
    ensures Staircase(1, Sum(amounts)) == (GainAll(p, amounts).level, GainAll(p, amounts).xp)
  {
    assert Progress(p) == 0;
    BoundedAwardsKeepSettled(p, amounts);
    TotalIsSum(p, amounts);
    SettledIsStaircase(GainAll(p, amounts));
  }

  /** For awards of at most 200 each, starting from a fresh profile, the
      single-step rule ends at exactly the level and leftover that the
      staircase rule gives for the total: the two rules cannot be told
      apart by the application's own callers. */
  lemma SingleStepMatchesStaircase(createdAt: Option<string>, amounts: seq<int>)
    requires forall i :: 0 <= i < |amounts| ==> 0 <= amounts[i] <= 200
    ensures Sum(amounts) >= 0
    ensures var q := GainAll(NewProfile(createdAt), amounts);
      Settled(q) && q.totalXP == Sum(amounts) && (q.level, q.xp) == Staircase(1, Sum(amounts))
  {
    FromNothingMatchesStaircase(NewProfile(createdAt), amounts);
  }

  /** The same for any sequence of the application's actions. */
  lemma ActionsMatchStaircase(createdAt: Option<string>, actions: seq<Action>)
    ensures Sum(Awards(actions)) >= 0
    ensures var q := GainAll(NewProfile(createdAt), Awards(actions));
      Settled(q) && q.totalXP == Sum(Awards(actions)) && (q.level, q.xp) == Staircase(1, Sum(Awards(actions)))
  {
    SingleStepMatchesStaircase(createdAt, Awards(actions));
  }
}
