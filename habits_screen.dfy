/** The lookups of app/screens/onboarding/performanceHabitsScreen.tsx over the selected
    performance habits, and the guard on its Continue button. */
module HabitsScreen {
  import opened Wrappers
  import opened Lists
  import opened Types
  import opened StoreModel

  /** `isHabitSelected`: some selected habit has that name. */
  predicate IsHabitSelected(habits: seq<PerformanceHabit>, name: string) {
    HasKey(habits, HabitName, name)
  }

  /** `getHabitTime`: the time of the first habit with that name, `''` when there is
      no such habit or it has no time. */
  function GetHabitTime(habits: seq<PerformanceHabit>, name: string): string {
    var h := Find(habits, HabitName, name);
    if h.Some? && h.value.time.Some? then h.value.time.value else ""
  }

  /** `hasReminder`: the reminder flag of the first habit with that name, false when
      there is no such habit or it has no flag. */
  predicate HasReminder(habits: seq<PerformanceHabit>, name: string) {
    var h := Find(habits, HabitName, name);
    h.Some? && h.value.reminder == Some(true)
  }

  /** Continue is enabled once at least one habit is selected. */
  predicate ContinueEnabled(habits: seq<PerformanceHabit>) {
    |habits| != 0
  }

  /** A habit that has just been toggled on has no time and no reminder yet. */
  lemma ToggledOnHabitIsBlank(s: StoreState, name: string)
    requires !IsHabitSelected(s.performanceHabits, name)
    ensures IsHabitSelected(TogglePerformanceHabit(s, name).performanceHabits, name)
    ensures GetHabitTime(TogglePerformanceHabit(s, name).performanceHabits, name) == ""
    ensures !HasReminder(TogglePerformanceHabit(s, name).performanceHabits, name)
  {
    var hs := s.performanceHabits;
    var added := PerformanceHabit(name, None, None);
    var r := hs + [added];
    TogglePerformanceHabitFlips(s, name, name);
    var f := Find(r, HabitName, name);
    var i :| FirstWithKey(r, HabitName, name, i) && r[i] == f.value;
  }

  /** Editing a habit's time shows the new time for that habit, changes the time shown
      for no other name, and selects or deselects nothing. */
  lemma UpdateHabitTimeShown(s: StoreState, name: string, time: string, other: string)
    ensures var r := UpdateHabitTime(s, name, time).performanceHabits;
      (IsHabitSelected(r, other) <==> IsHabitSelected(s.performanceHabits, other)) &&
      (IsHabitSelected(s.performanceHabits, name) ==> GetHabitTime(r, name) == time) &&
      (other != name ==> GetHabitTime(r, other) == GetHabitTime(s.performanceHabits, other)) &&
      (other != name ==> (HasReminder(r, other) <==> HasReminder(s.performanceHabits, other)))
  {
    var hs, r := s.performanceHabits, UpdateHabitTime(s, name, time).performanceHabits;
    HabitEditsKeepNames(s, name, time);
    SameKeysSameSelection(hs, r, other);
    FindSameKeys(hs, r, HabitName, name);
    FindSameKeys(hs, r, HabitName, other);
  }

  /** Ticking a habit's reminder flips the reminder shown for that habit, changes the
      reminder shown for no other name, and selects or deselects nothing. */
  lemma ToggleHabitReminderShown(s: StoreState, name: string, other: string)
    ensures var r := ToggleHabitReminder(s, name).performanceHabits;
      (IsHabitSelected(r, other) <==> IsHabitSelected(s.performanceHabits, other)) &&
      (IsHabitSelected(s.performanceHabits, name) ==>
        (HasReminder(r, name) <==> !HasReminder(s.performanceHabits, name))) &&
      (other != name ==> (HasReminder(r, other) <==> HasReminder(s.performanceHabits, other))) &&
      GetHabitTime(r, other) == GetHabitTime(s.performanceHabits, other)
  {
    var hs, r := s.performanceHabits, ToggleHabitReminder(s, name).performanceHabits;
    HabitEditsKeepNames(s, name, "");
    SameKeysSameSelection(hs, r, other);
    FindSameKeys(hs, r, HabitName, name);
    FindSameKeys(hs, r, HabitName, other);
  }

  lemma SameKeysSameSelection(hs: seq<PerformanceHabit>, r: seq<PerformanceHabit>, name: string)
    requires |hs| == |r|
    requires forall i :: 0 <= i < |hs| ==> r[i].name == hs[i].name
    ensures IsHabitSelected(r, name) <==> IsHabitSelected(hs, name)
  {
    if IsHabitSelected(r, name) {
      var i :| 0 <= i < |r| && HabitName(r[i]) == name;
      assert HabitName(hs[i]) == name;
    }
    if IsHabitSelected(hs, name) {
      var i :| 0 <= i < |hs| && HabitName(hs[i]) == name;
      assert HabitName(r[i]) == name;
    }
  }

  /** The Continue guard lives only in the screen: the store's `completeBoosters`
      moves to step 2 even with no habit selected. */
  lemma ContinueGuardOnlyInScreen(s: StoreState)
    requires s.performanceHabits == []
    ensures !ContinueEnabled(s.performanceHabits)
    ensures CompleteBoosters(s).currentStep == 2
  {
  }
}
