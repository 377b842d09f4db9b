/** Habits, their completions and the streak counter (`calculateStreak`,
    js/app.js:606-626), the "completed today" test (js/app.js:586) and the
    list update of `completeHabit` (js/app.js:628-643).

    Calendar dates are abstracted to integer day numbers: the day of a
    completion and "today" (a parameter, since the code reads the clock)
    are days, and the `diffDays` of the code is `today - date`. */
module Habits {

  import opened Wrappers

  type Day = int

  /** One completion: its date, and the timestamp text of when it was made. */
  datatype Completion = Completion(date: Day, completedAt: string)

  datatype Habit = Habit(id: string, name: string, completions: seq<Completion>, createdAt: string)

  // ----- the streak -----

  /** Most recent first: the order the code sorts completions into. */
  ghost predicate NewestFirst(s: seq<Completion>)
  {
    forall i, j :: 0 <= i < j < |s| ==> s[i].date >= s[j].date
  }

  /** The scan of js/app.js:614-623 from the point where `streak` is
      `expected`: count while each entry is exactly `expected`, then
      `expected + 1`, ... days before today, and stop at the first entry
      that is not. */
  function StreakFrom(s: seq<Completion>, today: Day, expected: nat): (r: nat)
    ensures r <= |s|
    ensures r > 0 ==> today - s[0].date == expected
    decreases |s|
  {
    if s == [] then 0
    else if today - s[0].date == expected then 1 + StreakFrom(s[1..], today, expected + 1)
    else 0
  }

  /** The value `calculateStreak` returns for completions in the order given:
      the first `r` entries are today, yesterday, ..., and the next entry
      (if any) breaks that pattern. */
  function StreakOf(s: seq<Completion>, today: Day): (r: nat)
    ensures r <= |s|
    ensures forall i :: 0 <= i < r ==> today - s[i].date == i
    ensures r < |s| ==> today - s[r].date != r
  {
    StreakFromIsRun(s, today, 0);
    StreakFrom(s, today, 0)
  }

  /** The first n entries are exactly offset, offset + 1, ..., offset + n - 1
      days before today. */
  ghost predicate RunFrom(s: seq<Completion>, today: Day, offset: int, n: nat)
  {
    n <= |s| && forall i :: 0 <= i < n ==> today - s[i].date == offset + i
  }

  lemma {:induction false} StreakFromIsRun(s: seq<Completion>, today: Day, expected: nat)
    ensures RunFrom(s, today, expected, StreakFrom(s, today, expected))
    ensures StreakFrom(s, today, expected) < |s| ==>
      today - s[StreakFrom(s, today, expected)].date != expected + StreakFrom(s, today, expected)
    decreases |s|
  {
    if s != [] && today - s[0].date == expected {
      var rest := s[1..];
      StreakFromIsRun(rest, today, expected + 1);
      var n := StreakFrom(rest, today, expected + 1);
      forall i | 0 <= i < n + 1
        ensures today - s[i].date == expected + i
      {
        if i > 0 {
          assert s[i] == rest[i - 1];
        }
      }
    }
  }

  /** Characterisation: the streak is the largest n such that the first n
      entries are 0, 1, ..., n - 1 days before today. It is n exactly when
      those n entries match and the entry after them (if any) does not. */
  lemma StreakIsLongestRun(s: seq<Completion>, today: Day, n: nat)
    ensures StreakOf(s, today) == n <==> RunFrom(s, today, 0, n) && (n < |s| ==> today - s[n].date != n)
    ensures RunFrom(s, today, 0, n) ==> n <= StreakOf(s, today)
  {
    StreakFromIsRun(s, today, 0);
    var k := StreakOf(s, today);
    if RunFrom(s, today, 0, n) && n > k {
      assert false;
    }
    if RunFrom(s, today, 0, n) && (n < |s| ==> today - s[n].date != n) && n < k {
      assert false;
    }
  }

  /** The streak never exceeds the number of completions. */
  lemma StreakAtMostLength(s: seq<Completion>, today: Day)
    ensures StreakOf(s, today) <= |s|
  {
    StreakFromIsRun(s, today, 0);
  }

  /** An empty list gives 0. */
  lemma StreakOfEmpty(today: Day)
    ensures StreakOf([], today) == 0
  {
  }

  /** `habit.completions.some(c => c.date === today)`. */
  function CompletedToday(s: seq<Completion>, today: Day): (b: bool)
    ensures b <==> exists i :: 0 <= i < |s| && s[i].date == today
  {
    if s == [] then false
    else if s[0].date == today then true
    else
      var rest := CompletedToday(s[1..], today);
      assert rest <==> exists i :: 0 <= i < |s| && i > 0 && s[i].date == today by {
        forall i | 0 < i < |s| ensures s[i] == s[1..][i - 1] { }
      }
      rest
  }

  /** With no completion dated today the very first comparison fails, in
      whatever order the completions are. */
  lemma NotTodayMeansZero(s: seq<Completion>, today: Day)
    requires !CompletedToday(s, today)
    ensures StreakOf(s, today) == 0
  {
    if s != [] {
      assert s[0].date != today;
    }
  }

  /** Conversely, once sorted with nothing dated after today, a completion
      today starts the streak. */
  lemma TodayStartsStreak(s: seq<Completion>, today: Day)
    requires NewestFirst(s)
    requires forall i :: 0 <= i < |s| ==> s[i].date <= today
    requires CompletedToday(s, today)
    ensures StreakOf(s, today) >= 1
  {
    var i :| 0 <= i < |s| && s[i].date == today;
    assert s[0].date >= s[i].date;
  }

  /** A duplicate entry for one day ends the count: two equal dates at
      positions j and j + 1 cannot both be counted, since their day offsets
      repeat instead of growing. */
  lemma DuplicateEndsStreak(s: seq<Completion>, today: Day, j: nat)
    requires j + 1 < |s| && s[j].date == s[j + 1].date
    ensures StreakOf(s, today) <= j + 1
  {
    StreakFromIsRun(s, today, 0);
    var k := StreakOf(s, today);
    if k > j + 1 {
      assert false;
    }
  }

  /** Today twice and yesterday once: the code gives a streak of 1, although
      two consecutive days are covered. */
  lemma DuplicateTodayExample(today: Day)
    ensures StreakOf([Completion(today, "a"), Completion(today, "b"), Completion(today - 1, "c")], today) == 1
  {
    var s := [Completion(today, "a"), Completion(today, "b"), Completion(today - 1, "c")];
    assert s[1..] == [Completion(today, "b"), Completion(today - 1, "c")];
    assert StreakFrom(s[1..], today, 1) == 0;
  }

  /** The days on which some completion was made. */
  function Dates(s: seq<Completion>): set<Day>
  {
    set i | 0 <= i < |s| :: s[i].date
  }

  /** The n days from today backwards: today, today - 1, ..., today - n + 1. */
  function DaysBack(today: Day, n: nat): (days: set<Day>)
    ensures |days| == n
    ensures forall d :: d in days <==> today - n < d <= today
  {
    if n == 0 then {} else DaysBack(today, n - 1) + {today - (n - 1)}
  }

  /** The streak never exceeds the number of distinct days completed. */
  lemma StreakAtMostDistinctDays(s: seq<Completion>, today: Day)
    ensures StreakOf(s, today) <= |Dates(s)|
  {
    StreakFromIsRun(s, today, 0);
    var n := StreakOf(s, today);
    var covered := DaysBack(today, n);
    forall d | d in covered ensures d in Dates(s) {
      var i := today - d;
      assert 0 <= i < n && today - s[i].date == i;
    }
    assert covered <= Dates(s);
    SubsetCardinality(covered, Dates(s));
  }

  /** Proof helper: a subset of a set of days is no larger than the set. */
  lemma SubsetCardinality(a: set<Day>, b: set<Day>)
    requires a <= b
    ensures |a| <= |b|
  {
    assert b == a + (b - a);
  }

  /** The streak as a count of calendar days, against the code's scan: when
      the completions are sorted, fall on distinct days and none is dated
      after today, the streak n is the number of consecutive days, walking
      back from today, on which a completion exists, so that today, ...,
      today - n + 1 are completed and today - n is not. */
  lemma StreakCountsCompletedDays(s: seq<Completion>, today: Day)
    requires NewestFirst(s)
    requires forall i, j :: 0 <= i < j < |s| ==> s[i].date != s[j].date
    requires forall i :: 0 <= i < |s| ==> s[i].date <= today
    ensures DaysBack(today, StreakOf(s, today)) <= Dates(s)
    ensures today - StreakOf(s, today) !in Dates(s)
  {
    StreakFromIsRun(s, today, 0);
    var n := StreakOf(s, today);
    forall d | d in DaysBack(today, n) ensures d in Dates(s) {
      var i := today - d;
      assert 0 <= i < n && today - s[i].date == i;
    }
    forall j | 0 <= j < |s| ensures s[j].date != today - n {
      if j < n {
        assert today - s[j].date == j;
      } else if n == 0 {
        assert s[0].date >= s[j].date && s[0].date != today;
      } else {
        assert today - s[n - 1].date == n - 1;
        assert s[n].date < s[n - 1].date && s[n].date >= s[j].date;
      }
    }
  }

  // ----- the in-place sort and the scan -----

  /** The comparator-driven in-place sort of js/app.js:609, newest first.
      An insertion sort: an entry moves left only past strictly older
      entries, so entries of equal date keep their order. */
  method SortNewestFirst(a: array<Completion>)
    modifies a
    ensures NewestFirst(a[..])
    ensures multiset(a[..]) == multiset(old(a[..]))
  {
    var i := 0;
    while i < a.Length
      invariant 0 <= i <= a.Length
      invariant NewestFirst(a[..i])
      invariant multiset(a[..]) == multiset(old(a[..]))
    {
      InsertNewest(a, i);
      i := i + 1;
    }
    assert a[..a.Length] == a[..];
  }

  /** While a[j] travels left: a[..i + 1] is newest first apart from a[j],
      which is newer than everything after it, and its neighbours are in
      order with each other. */
  ghost predicate Inserting(s: seq<Completion>, i: nat, j: nat)
    requires j <= i < |s|
  {
    && (forall p, q :: 0 <= p < q <= i && p != j && q != j ==> s[p].date >= s[q].date)
    && (forall q :: j < q <= i ==> s[j].date >= s[q].date)
    && (0 < j < i ==> s[j - 1].date >= s[j + 1].date)
  }

  /** One insertion step: a[i] joins the sorted prefix a[..i]. */
  method InsertNewest(a: array<Completion>, i: nat)
    requires i < a.Length && NewestFirst(a[..i])
    modifies a
    ensures NewestFirst(a[..i + 1])
    ensures multiset(a[..]) == multiset(old(a[..]))
    ensures a[i + 1..] == old(a[i + 1..])
  {
    var j := i;
    while j > 0 && a[j - 1].date < a[j].date
      invariant 0 <= j <= i
      invariant Inserting(a[..], i, j)
      invariant multiset(a[..]) == multiset(old(a[..]))
      invariant a[i + 1..] == old(a[i + 1..])
    {
      SwapAdjacent(a, j);
      j := j - 1;
    }
  }

  /** Exchanges a[j - 1] and a[j]. */
  method SwapAdjacent(a: array<Completion>, j: nat)
    requires 0 < j < a.Length
    modifies a
    ensures a[..] == old(a[..])[j - 1 := old(a[j])][j := old(a[j - 1])]
    ensures multiset(a[..]) == multiset(old(a[..]))
  {
    a[j - 1], a[j] := a[j], a[j - 1];
  }

  /** `calculateStreak(completions)`: sorts the array newest first, in
      place, then scans it. */
  method CalculateStreak(completions: array<Completion>, today: Day) returns (streak: nat)
    modifies completions
    ensures NewestFirst(completions[..])
    ensures multiset(completions[..]) == multiset(old(completions[..]))
    ensures streak == StreakOf(completions[..], today)
    ensures streak <= completions.Length
  {
    if completions.Length == 0 {
      return 0;
    }
    SortNewestFirst(completions);
    streak := 0;
    for i := 0 to completions.Length
      invariant streak == i
      invariant RunFrom(completions[..], today, 0, streak)
    {
      var diffDays := today - completions[i].date;
      if diffDays == streak {
        streak := streak + 1;
      } else {
        break;
      }
    }
    StreakIsLongestRun(completions[..], today, streak);
  }

  // ----- completing a habit -----

  /** `habits.find(h => h.id === id)`, as the index of the first habit with
      that id. */
  function FindHabit(hs: seq<Habit>, id: string): (r: Option<nat>)
    ensures r.Some? ==> r.value < |hs| && hs[r.value].id == id
    ensures r.Some? ==> forall j :: 0 <= j < r.value ==> hs[j].id != id
    ensures r.None? ==> forall j :: 0 <= j < |hs| ==> hs[j].id != id
  {
    if hs == [] then None
    else if hs[0].id == id then Some(0)
    else match FindHabit(hs[1..], id)
      case None => None
      case Some(k) => Some(k + 1)
  }

  /** The list after `completeHabit` (js/app.js:629-637): the first habit with
      the id gets `c` appended to its completions; every other habit, and
      every other field, is as it was. With no such habit nothing changes. */
  function WithCompletion(hs: seq<Habit>, id: string, c: Completion): (r: seq<Habit>)
    ensures |r| == |hs|
    ensures forall j :: 0 <= j < |hs| ==> r[j].(completions := hs[j].completions) == hs[j]
    ensures forall j :: 0 <= j < |hs| && Some(j) != FindHabit(hs, id) ==> r[j] == hs[j]
    ensures FindHabit(hs, id).Some? ==>
      r[FindHabit(hs, id).value].completions == hs[FindHabit(hs, id).value].completions + [c]
  {
    match FindHabit(hs, id)
    case None => hs
    case Some(i) => hs[i := hs[i].(completions := hs[i].completions + [c])]
  }

  /** All completions of all habits. */
  function TotalCompletions(hs: seq<Habit>): nat
  {
    if hs == [] then 0 else |hs[0].completions| + TotalCompletions(hs[1..])
  }

  /** Exactly one completion is added, and only when the id is known. */
  lemma {:induction false} OneCompletionAdded(hs: seq<Habit>, id: string, c: Completion)
    ensures TotalCompletions(WithCompletion(hs, id, c)) ==
      TotalCompletions(hs) + (if FindHabit(hs, id).Some? then 1 else 0)
    decreases |hs|
  {
    if hs != [] {
      var r := WithCompletion(hs, id, c);
      if hs[0].id == id {
        assert r[1..] == hs[1..];
      } else {
        OneCompletionAdded(hs[1..], id, c);
        assert r[1..] == WithCompletion(hs[1..], id, c);
      }
    }
  }

  /** Completing a habit on a day makes it "completed today". */
  lemma CompletionMakesCompletedToday(hs: seq<Habit>, id: string, today: Day, stamp: string)
    requires FindHabit(hs, id).Some?
    ensures CompletedToday(WithCompletion(hs, id, Completion(today, stamp))[FindHabit(hs, id).value].completions, today)
  {
    var i := FindHabit(hs, id).value;
    var cs := WithCompletion(hs, id, Completion(today, stamp))[i].completions;
    assert cs[|cs| - 1].date == today;
  }
}
