/** The plain record lists (transactions, workouts, meals, moods, journal
    entries, goals, meditations) and the pure helpers applied to them:
    `deleteTransaction`'s filter (js/app.js:417-420), the "last n, newest
    first" view `slice(-n).reverse()` (js/app.js:398, 667) and the label
    lookups with fallback (js/app.js:479-489, 530-538). */
module Records {

  /** A record of one of the flat lists: its id, and its other fields
      (type, amount, category, ...) as text the core never inspects. */
  datatype Record = Record(id: string, fields: map<string, string>)

  // ----- deleteTransaction -----

  /** `records.filter(t => t.id !== id)`. */
  function WithoutId(rs: seq<Record>, id: string): (r: seq<Record>)
    ensures |r| <= |rs|
    ensures forall k :: 0 <= k < |r| ==> r[k].id != id
  {
    if rs == [] then []
    else if rs[0].id == id then WithoutId(rs[1..], id)
      else [rs[0]] + WithoutId(rs[1..], id)
  }

  /** Every record without the id survives with its multiplicity. */
  lemma {:induction false} WithoutIdKeepsOthers(rs: seq<Record>, id: string, t: Record)
    requires t.id != id
    ensures multiset(WithoutId(rs, id))[t] == multiset(rs)[t]
    decreases |rs|
  {
    if rs != [] {
      assert rs == [rs[0]] + rs[1..];
      WithoutIdKeepsOthers(rs[1..], id, t);
    }
  }

  /** a occurs in b in order, possibly with gaps. */
  ghost predicate IsSubsequence(a: seq<Record>, b: seq<Record>)
    decreases |b|
  {
    a == [] || (b != [] && ((a[0] == b[0] && IsSubsequence(a[1..], b[1..])) || IsSubsequence(a, b[1..])))
  }

  /** The records that survive keep their relative order. */
  lemma {:induction false} WithoutIdKeepsOrder(rs: seq<Record>, id: string)
    ensures IsSubsequence(WithoutId(rs, id), rs)
    decreases |rs|
  {
    if rs != [] {
      WithoutIdKeepsOrder(rs[1..], id);
      if rs[0].id != id {
        assert WithoutId(rs, id)[1..] == WithoutId(rs[1..], id);
      }
    }
  }

  /** Deleting twice is deleting once. */
  lemma {:induction false} WithoutIdIdempotent(rs: seq<Record>, id: string)
    ensures WithoutId(WithoutId(rs, id), id) == WithoutId(rs, id)
    decreases |rs|
  {
    if rs != [] {
      WithoutIdIdempotent(rs[1..], id);
      if rs[0].id != id {
        assert WithoutId(rs, id)[1..] == WithoutId(rs[1..], id);
      }
    }
  }

  /** Nothing is deleted exactly when no record carries the id. */
  lemma {:induction false} WithoutAbsentId(rs: seq<Record>, id: string)
    ensures WithoutId(rs, id) == rs <==> forall k :: 0 <= k < |rs| ==> rs[k].id != id
    decreases |rs|
  {
    if rs != [] {
      WithoutAbsentId(rs[1..], id);
      if rs[0].id == id {
        assert |WithoutId(rs, id)| < |rs| by {
          assert |WithoutId(rs[1..], id)| <= |rs[1..]|;
        }
      } else {
        assert forall k :: 0 < k < |rs| ==> rs[k] == rs[1..][k - 1];
      }
    }
  }

  /** Filtering distributes over concatenation. */
  lemma {:induction false} WithoutIdAppend(a: seq<Record>, b: seq<Record>, id: string)
    ensures WithoutId(a + b, id) == WithoutId(a, id) + WithoutId(b, id)
    decreases |a|
  {
    if a != [] {
      assert (a + b)[1..] == a[1..] + b;
      WithoutIdAppend(a[1..], b, id);
    } else {
      assert a + b == b;
    }
  }

  // ----- slice(-n).reverse() -----

  function Reverse<T>(s: seq<T>): (r: seq<T>)
    ensures |r| == |s|
    ensures forall i :: 0 <= i < |s| ==> r[i] == s[|s| - 1 - i]
  {
    if s == [] then [] else Reverse(s[1..]) + [s[0]]
  }

  /** `s.slice(-n)`: the last n entries, or all of them when there are
      fewer; `slice(-0)` is `slice(0)`, the whole list. */
  function Tail<T>(s: seq<T>, n: nat): (r: seq<T>)
    ensures n == 0 || n >= |s| ==> r == s
    ensures 0 < n < |s| ==> |r| == n
    ensures r == s[|s| - |r|..]
  {
    if n == 0 || n >= |s| then s else s[|s| - n..]
  }

  /** `s.slice(-n).reverse()`: the newest min(n, |s|) entries of a list kept
      in insertion order, newest first. */
  function NewestFirstView<T>(s: seq<T>, n: nat): (r: seq<T>)
    ensures n > 0 ==> |r| == if n < |s| then n else |s|
    ensures n == 0 ==> |r| == |s|
    ensures forall i :: 0 <= i < |r| ==> r[i] == s[|s| - 1 - i]
  {
    Reverse(Tail(s, n))
  }

  /** Appending a record puts it at the head of the view. */
  lemma NewestRecordFirst<T>(s: seq<T>, x: T, n: nat)
    ensures NewestFirstView(s + [x], n)[0] == x
  {
  }

  // ----- label lookups -----

  const WorkoutTypeNames: map<string, string> := map[
    "hiit" := "HIIT",
    "forca" := "Força",
    "yoga" := "Yoga",
    "pilates" := "Pilates",
    "cardio" := "Cardio",
    "alongamento" := "Alongamento"]

  const MealTypeNames: map<string, string> := map[
    "cafe" := "Café da Manhã",
    "almoco" := "Almoço",
    "lanche" := "Lanche",
    "jantar" := "Jantar"]

  /** `names[type] || type`: the label of a known code, the code itself
      otherwise (every label is non-empty, so the fallback is taken only
      for unknown codes). */
  function Label(names: map<string, string>, code: string): (r: string)
    ensures code in names && names[code] != "" ==> r == names[code]
    ensures code !in names || names[code] == "" ==> r == code
  {
    if code in names && names[code] != "" then names[code] else code
  }

  /** `getWorkoutTypeName`: the label of one of the six workout codes, the
      code itself for any other. */
  function WorkoutTypeName(code: string): (r: string)
    ensures code in WorkoutTypeNames ==> r == WorkoutTypeNames[code]
    ensures code !in WorkoutTypeNames ==> r == code
  {
    Label(WorkoutTypeNames, code)
  }

  /** `getMealTypeName`: the label of one of the four meal codes, the code
      itself for any other. */
  function MealTypeName(code: string): (r: string)
    ensures code in MealTypeNames ==> r == MealTypeNames[code]
    ensures code !in MealTypeNames ==> r == code
  {
    Label(MealTypeNames, code)
  }

  /** No label is itself a code, so a label is displayed unchanged and the
      lookup is idempotent. */
  lemma LabelsAreNotCodes()
    ensures forall c :: c in WorkoutTypeNames ==> WorkoutTypeNames[c] !in WorkoutTypeNames
    ensures forall c :: c in MealTypeNames ==> MealTypeNames[c] !in MealTypeNames
  {
  }

  lemma WorkoutTypeNameIdempotent(code: string)
    ensures WorkoutTypeName(WorkoutTypeName(code)) == WorkoutTypeName(code)
    ensures WorkoutTypeName(code) == code || WorkoutTypeName(code) in WorkoutTypeNames.Values
  {
    LabelsAreNotCodes();
  }

  lemma MealTypeNameIdempotent(code: string)
    ensures MealTypeName(MealTypeName(code)) == MealTypeName(code)
    ensures MealTypeName(code) == code || MealTypeName(code) in MealTypeNames.Values
  {
    LabelsAreNotCodes();
  }
}
