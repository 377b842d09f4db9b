/** The operations of js/app.js that read, change and write back the
    documents of the store: `loadUserProfile`, `addXP`, `completeHabit`,
    `deleteTransaction`, and the append-then-award effect of the form
    handlers. Every operation re-reads its documents from the store,
    changes a copy and writes it back; rendering and notifications are not
    modelled. Clock readings are parameters: `now` is the timestamp text of
    the moment, `today` its day number. */
module App {

  import opened Wrappers
  import opened Persistence
  import opened Progression
  import opened Habits
  import opened Records

  /** The documents the application stores. `NullDoc` is the JSON `null`. */
  datatype Doc =
    | NullDoc
    | ProfileDoc(profile: Profile)
    | HabitsDoc(habits: seq<Habit>)
    | RecordsDoc(records: seq<Record>)

  const ProfileKey: string := "userProfile"
  const HabitsKey: string := "habits"
  const TransactionsKey: string := "transactions"

  /** The flat record lists and their keys. */
  datatype Category = Transactions | Goals | Workouts | Calories | Moods | Journal | Meditations

  function Key(c: Category): (k: string)
    ensures k != ProfileKey && k != HabitsKey
    ensures c == Transactions <==> k == TransactionsKey
  {
    match c
    case Transactions => TransactionsKey
    case Goals => "finance-goals"
    case Workouts => "workouts"
    case Calories => "calories"
    case Moods => "moods"
    case Journal => "journal"
    case Meditations => "meditations"
  }

  /** The action whose award a new record of the category earns, if any:
      creating a goal or a journal entry earns nothing. */
  function Earns(c: Category): (r: Option<Action>)
    ensures r.None? <==> c == Goals || c == Journal
  {
    match c
    case Transactions => Some(LogTransaction)
    case Goals => None
    case Workouts => Some(LogWorkout)
    case Calories => Some(LogMeal)
    case Moods => Some(LogMood)
    case Journal => None
    case Meditations => Some(StartMeditation)
  }

  /** Keys are distinct, so the documents are independent. */
  lemma KeysAreDistinct(c: Category, d: Category)
    ensures c != d ==> Key(c) != Key(d)
    ensures ProfileKey != HabitsKey
  {
  }

  // ----- the profile -----

  /** What `Storage.get('userProfile', null)` gives the caller: a profile, a
      falsy value (the key is missing, unreadable, or holds `null`), or a
      document of another shape. */
  datatype Loaded = Found(p: Profile) | Missing | Misshapen

  function StoredProfile(m: Contents<Doc>): (r: Loaded)
    ensures r == Missing <==> Read(m, ProfileKey, NullDoc) == NullDoc
    ensures r.Found? <==> Read(m, ProfileKey, NullDoc).ProfileDoc?
    ensures r.Found? ==> Read(m, ProfileKey, NullDoc) == ProfileDoc(r.p)
  {
    match Read(m, ProfileKey, NullDoc)
    case ProfileDoc(p) => Found(p)
    case NullDoc => Missing
    case _ => Misshapen
  }

  /** The profile `addXP(amount)` builds from the store's contents: the
      stored profile, or the default made without a creation time, after one
      award. With a document of another shape under the key there is no
      profile to award (the code's arithmetic on it yields NaN fields). */
  function AwardedProfile(m: Contents<Doc>, amount: int): (r: Option<Profile>)
    ensures StoredProfile(m).Misshapen? <==> r.None?
    ensures StoredProfile(m).Missing? ==> r == Some(GainXP(NewProfile(None), amount))
    ensures StoredProfile(m).Found? ==> r == Some(GainXP(StoredProfile(m).p, amount))
  {
    match StoredProfile(m)
    case Found(p) => Some(GainXP(p, amount))
    case Missing => Some(GainXP(NewProfile(None), amount))
    case Misshapen => None
  }

  /** The awarded profile's totals: its totalXP is the stored one (0 for a
      new profile) plus the amount, and one award climbs at most one level. */
  lemma AwardAccounting(m: Contents<Doc>, amount: int)
    ensures AwardedProfile(m, amount).Some? ==>
      var q := AwardedProfile(m, amount).value;
      var p := if StoredProfile(m).Found? then StoredProfile(m).p else NewProfile(None);
      q.totalXP == p.totalXP + amount && p.level <= q.level <= p.level + 1
  {
  }

  /** `addXP(amount, action)`: load or default the profile, add the amount to
      xp and totalXP, level up at most once, write the profile back and
      return it. The action tag only labels the call and is not modelled. */
  method AddXP(store: Storage<Doc>, amount: int) returns (profile: Option<Profile>)
    modifies store
    ensures profile == AwardedProfile(old(store.entries), amount)
    ensures profile.Some? ==> WrittenOrKept(old(store.entries), store.entries, ProfileKey, ProfileDoc(profile.value))
    ensures profile.None? ==> store.entries == old(store.entries)
    ensures UnchangedExcept(old(store.entries), store.entries, {ProfileKey})
  {
    var doc := store.Get(ProfileKey, NullDoc);
    var p: Profile;
    match doc {
      case ProfileDoc(stored) =>
        p := stored;
      case NullDoc =>
        p := NewProfile(None);
      case _ =>
        // the code writes the same document back
        var _ := store.Set(ProfileKey, doc);
        return None;
    }
    p := p.(xp := p.xp + amount);
    p := p.(totalXP := p.totalXP + amount);
    var xpForNextLevel := Threshold(p.level);
    if p.xp >= xpForNextLevel {
      p := p.(xp := p.xp - xpForNextLevel);
      p := p.(level := p.level + 1);
    }
    var _ := store.Set(ProfileKey, ProfileDoc(p));
    profile := Some(p);
  }

  /** `loadUserProfile()`: the stored profile, or a default created now and
      written to the store. The global `currentUser` it also sets is
      replaced by the returned value. */
  method LoadUserProfile(store: Storage<Doc>, now: string) returns (profile: Option<Profile>)
    modifies store
    ensures StoredProfile(old(store.entries)).Found? ==>
      profile == Some(StoredProfile(old(store.entries)).p) && store.entries == old(store.entries)
    ensures StoredProfile(old(store.entries)).Missing? ==>
      profile == Some(NewProfile(Some(now))) &&
      WrittenOrKept(old(store.entries), store.entries, ProfileKey, ProfileDoc(NewProfile(Some(now))))
    ensures StoredProfile(old(store.entries)).Misshapen? ==>
      profile == None && store.entries == old(store.entries)
    ensures UnchangedExcept(old(store.entries), store.entries, {ProfileKey})
  {
    var doc := store.Get(ProfileKey, NullDoc);
    match doc {
      case ProfileDoc(stored) =>
        profile := Some(stored);
      case NullDoc =>
        var created := NewProfile(Some(now));
        var _ := store.Set(ProfileKey, ProfileDoc(created));
        profile := Some(created);
      case _ =>
        profile := None;
    }
  }

  /** Loading twice: once the first load's profile is in the store (`mid`
      is the store between the loads) the second load returns it and writes
      nothing; only if the medium refused the first write are both defaults,
      differing at most in their creation time. Only `userProfile` changes. */
  method LoadUserProfileTwice(store: Storage<Doc>, now1: string, now2: string)
    returns (first: Option<Profile>, second: Option<Profile>, ghost mid: Contents<Doc>)
    modifies store
    ensures second == first ||
      (first == Some(NewProfile(Some(now1))) && second == Some(NewProfile(Some(now2))))
    ensures now1 == now2 ==> first == second
    ensures first.Some? && StoredProfile(mid) == Found(first.value) ==> second == first && store.entries == mid
    ensures first.Some? ==> StoredProfile(mid) == Found(first.value) || StoredProfile(mid) == Missing
    ensures UnchangedExcept(old(store.entries), store.entries, {ProfileKey})
  {
    ghost var before := store.entries;
    first := LoadUserProfile(store, now1);
    mid := store.entries;
    second := LoadUserProfile(store, now2);
    UnchangedExceptCompose(before, mid, store.entries, {ProfileKey}, {ProfileKey});
    assert {ProfileKey} + {ProfileKey} == {ProfileKey};
  }

  // ----- habits -----

  /** The habit list under `habits` (absent or unreadable reads as empty);
      None for a document of another shape, on which the code throws. */
  function StoredHabits(m: Contents<Doc>): (r: Option<seq<Habit>>)
    ensures r.Some? <==> Read(m, HabitsKey, HabitsDoc([])).HabitsDoc?
    ensures r.Some? ==> Read(m, HabitsKey, HabitsDoc([])) == HabitsDoc(r.value)
    ensures HabitsKey !in m ==> r == Some([])
  {
    match Read(m, HabitsKey, HabitsDoc([]))
    case HabitsDoc(hs) => Some(hs)
    case _ => None
  }

  /** The list `completeHabit` writes, if it finds the habit. */
  function CompletedHabits(m: Contents<Doc>, id: string, c: Completion): (r: Option<seq<Habit>>)
    ensures r.Some? <==> StoredHabits(m).Some? && FindHabit(StoredHabits(m).value, id).Some?
    ensures r.Some? ==> r.value == WithCompletion(StoredHabits(m).value, id, c)
  {
    match StoredHabits(m)
    case Some(hs) => if FindHabit(hs, id).Some? then Some(WithCompletion(hs, id, c)) else None
    case None => None
  }

  /** `completeHabit(id)`: append a completion dated today to the first
      habit with the id, write the list back and award the habit XP. With
      no such habit nothing is written and no XP is awarded. */
  method CompleteHabit(store: Storage<Doc>, id: string, today: Day, now: string) returns (completed: bool)
    modifies store
    ensures completed <==> CompletedHabits(old(store.entries), id, Completion(today, now)).Some?
    ensures !completed ==> store.entries == old(store.entries)
    ensures completed ==> WrittenOrKept(old(store.entries), store.entries, HabitsKey,
      HabitsDoc(CompletedHabits(old(store.entries), id, Completion(today, now)).value))
    ensures completed && AwardedProfile(old(store.entries), Award(HabitDone)).Some? ==>
      WrittenOrKept(old(store.entries), store.entries, ProfileKey,
        ProfileDoc(AwardedProfile(old(store.entries), Award(HabitDone)).value))
    ensures completed && AwardedProfile(old(store.entries), Award(HabitDone)).None? ==>
      SameAt(old(store.entries), store.entries, ProfileKey)
    ensures UnchangedExcept(old(store.entries), store.entries, {HabitsKey, ProfileKey})
  {
    ghost var before := store.entries;
    var doc := store.Get(HabitsKey, HabitsDoc([]));
    completed := false;
    match doc {
      case HabitsDoc(habits) =>
        match FindHabit(habits, id) {
          case Some(i) =>
            var updated := habits[i := habits[i].(completions := habits[i].completions + [Completion(today, now)])];
            assert updated == WithCompletion(habits, id, Completion(today, now));
            var _ := store.Set(HabitsKey, HabitsDoc(updated));
            ghost var mid := store.entries;
            assert SameAt(before, mid, ProfileKey);
            assert StoredProfile(mid) == StoredProfile(before);
            var _ := AddXP(store, Award(HabitDone));
            assert SameAt(mid, store.entries, HabitsKey);
            UnchangedExceptCompose(before, mid, store.entries, {HabitsKey}, {ProfileKey});
            completed := true;
          case None =>
        }
      case _ =>
    }
  }

  /** The habit form's effect: append a new habit, with the given id and
      name, no completions and created `now`, and write the list back. */
  method AddHabit(store: Storage<Doc>, id: string, name: string, now: string) returns (added: bool)
    modifies store
    ensures added <==> StoredHabits(old(store.entries)).Some?
    ensures added ==> WrittenOrKept(old(store.entries), store.entries, HabitsKey,
      HabitsDoc(StoredHabits(old(store.entries)).value + [Habit(id, name, [], now)]))
    ensures !added ==> store.entries == old(store.entries)
    ensures UnchangedExcept(old(store.entries), store.entries, {HabitsKey})
  {
    var doc := store.Get(HabitsKey, HabitsDoc([]));
    added := false;
    match doc {
      case HabitsDoc(habits) =>
        var habit := Habit(id, name, [], now);
        var _ := store.Set(HabitsKey, HabitsDoc(habits + [habit]));
        added := true;
      case _ =>
    }
  }

  // ----- record lists -----

  /** The record list under a category's key (absent or unreadable reads as
      empty); None for a document of another shape, on which the code throws. */
  function StoredRecords(m: Contents<Doc>, c: Category): (r: Option<seq<Record>>)
    ensures r.Some? <==> Read(m, Key(c), RecordsDoc([])).RecordsDoc?
    ensures r.Some? ==> Read(m, Key(c), RecordsDoc([])) == RecordsDoc(r.value)
    ensures Key(c) !in m ==> r == Some([])
  {
    match Read(m, Key(c), RecordsDoc([]))
    case RecordsDoc(rs) => Some(rs)
    case _ => None
  }

  /** `deleteTransaction(id)`: write back the transactions without any that
      carries the id. */
  method DeleteTransaction(store: Storage<Doc>, id: string)
    modifies store
    ensures StoredRecords(old(store.entries), Transactions).Some? ==>
      WrittenOrKept(old(store.entries), store.entries, TransactionsKey,
        RecordsDoc(WithoutId(StoredRecords(old(store.entries), Transactions).value, id)))
    ensures StoredRecords(old(store.entries), Transactions).None? ==> store.entries == old(store.entries)
    ensures UnchangedExcept(old(store.entries), store.entries, {TransactionsKey})
  {
    var doc := store.Get(TransactionsKey, RecordsDoc([]));
    match doc {
      case RecordsDoc(transactions) =>
        var filtered := WithoutId(transactions, id);
        var _ := store.Set(TransactionsKey, RecordsDoc(filtered));
      case _ =>
    }
  }

  /** A form handler's effect (js/app.js:246-260 and its siblings): append the
      new record to its category's list, write the list back, then award the
      category's XP if it earns any. */
  method LogRecord(store: Storage<Doc>, c: Category, rec: Record) returns (logged: bool, profile: Option<Profile>)
    modifies store
    ensures logged <==> StoredRecords(old(store.entries), c).Some?
    ensures !logged ==> store.entries == old(store.entries) && profile == None
    ensures logged ==> WrittenOrKept(old(store.entries), store.entries, Key(c),
      RecordsDoc(StoredRecords(old(store.entries), c).value + [rec]))
    ensures logged && Earns(c).Some? ==> profile == AwardedProfile(old(store.entries), Award(Earns(c).value))
    ensures Earns(c).None? ==> profile == None
    ensures logged && profile.Some? ==>
      WrittenOrKept(old(store.entries), store.entries, ProfileKey, ProfileDoc(profile.value))
    ensures logged && profile.None? ==> SameAt(old(store.entries), store.entries, ProfileKey)
    ensures UnchangedExcept(old(store.entries), store.entries, {Key(c), ProfileKey})
  {
    ghost var before := store.entries;
    var doc := store.Get(Key(c), RecordsDoc([]));
    logged, profile := false, None;
    match doc {
      case RecordsDoc(records) =>
        var _ := store.Set(Key(c), RecordsDoc(records + [rec]));
        ghost var mid := store.entries;
        assert SameAt(before, mid, ProfileKey);
        assert StoredProfile(mid) == StoredProfile(before);
        match Earns(c) {
          case Some(a) =>
            profile := AddXP(store, Award(a));
            assert SameAt(mid, store.entries, Key(c));
            UnchangedExceptCompose(before, mid, store.entries, {Key(c)}, {ProfileKey});
          case None =>
        }
        logged := true;
      case _ =>
    }
  }
}
