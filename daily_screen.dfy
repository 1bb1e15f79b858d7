/** The daily screen of app/screens/dailyScreen.tsx: the `progress` summary over the
    user's actions, the per-goal action lists, and the debugging button that opens the
    share modal on a made-up action. */
module DailyScreen {
  import opened Wrappers
  import opened Lists
  import opened Types
  import StoreModel
  import SkipSetup
  import AppStore

  lemma MulMono(a: int, b: int, n: nat)
    requires a <= b
    ensures n * a <= n * b
  {
  }

  /** `Math.round(c / n * 100)` for `n > 0`, in exact integer arithmetic with halves
      rounded up, and 0 for an empty denominator. */
  function RoundPercent(c: nat, n: nat): (r: nat)
    ensures n == 0 ==> r == 0
    ensures n > 0 ==> 200 * c - n < 2 * n * r <= 200 * c + n
    ensures c <= n ==> r <= 100
  {
    if n == 0 then 0
    else
      var x, d := 200 * c + n, 2 * n;
      var r := x / d;
      assert x == d * r + x % d;
      assert c <= n ==> r <= 100 by {
        if c <= n && r > 100 {
          MulMono(101, r, d);
        }
      }
      r
  }

  /** The percentage of no completions is 0 and of all completions is 100. */
  lemma RoundPercentEnds(n: nat)
    requires n > 0
    ensures RoundPercent(0, n) == 0 && RoundPercent(n, n) == 100
  {
    var a, b := RoundPercent(0, n), RoundPercent(n, n);
    if a > 0 { MulMono(1, a, 2 * n); }
    if b < 100 { MulMono(b, 99, 2 * n); }
  }

  /** The `progress` memo. */
  datatype DailyProgress = DailyProgress(goal: nat, performance: nat, overall: nat, completed: nat, total: nat)

  /** The summary: completions among goal actions and among habits, each as a rounded
      percentage, and overall. */
  function Progress(actions: seq<UserAction>, checked: map<string, bool>): DailyProgress {
    var goalActions := Filter(actions, IsGoalAction);
    var performanceActions := Filter(actions, IsPerformanceAction);
    var goalCompleted := Count(goalActions, CheckedIn(checked));
    var performanceCompleted := Count(performanceActions, CheckedIn(checked));
    DailyProgress(
      RoundPercent(goalCompleted, |goalActions|),
      RoundPercent(performanceCompleted, |performanceActions|),
      RoundPercent(goalCompleted + performanceCompleted, |actions|),
      goalCompleted + performanceCompleted,
      |actions|)
  }

  /** `completed` is the number of actions whose checked flag is true, whatever their
      type, out of `total`, all the actions, where an action without an entry in
      `checkedActions` counts as unchecked. */
  lemma ProgressCounts(actions: seq<UserAction>, checked: map<string, bool>)
    ensures Progress(actions, checked).completed == Count(actions, CheckedIn(checked))
    ensures Progress(actions, checked).total == |actions|
    ensures Progress(actions, checked).completed <= Progress(actions, checked).total
    ensures forall i :: 0 <= i < |actions| && actions[i].id !in checked ==>
      actions[i] !in Filter(actions, CheckedIn(checked))
  {
    FilterSplitCount(actions, IsGoalAction, IsPerformanceAction, CheckedIn(checked));
  }

  /** Each percentage is 0 for an empty group and lies in 0..100 otherwise. */
  lemma ProgressPercentages(actions: seq<UserAction>, checked: map<string, bool>)
    ensures Progress(actions, checked).goal <= 100 && Progress(actions, checked).performance <= 100
    ensures Progress(actions, checked).overall <= 100
    ensures Count(actions, IsGoalAction) == 0 ==> Progress(actions, checked).goal == 0
    ensures Count(actions, IsPerformanceAction) == 0 ==> Progress(actions, checked).performance == 0
    ensures actions == [] ==> Progress(actions, checked).overall == 0
  {
    var p := Progress(actions, checked);
    ProgressCounts(actions, checked);
    assert p.completed <= |actions|;
  }

  /** The actions listed under the goal with id `goalId`. */
  function ActionsForGoal(actions: seq<UserAction>, goalId: string): seq<UserAction> {
    Filter(actions, BelongsTo(goalId))
  }

  /** Exactly the actions with that `goalId` are listed, each other action kept out,
      and in the order of `userActions`: listing a concatenation lists each part in
      turn. */
  lemma ActionsForGoalSpec(actions: seq<UserAction>, more: seq<UserAction>, goalId: string)
    ensures forall i :: 0 <= i < |ActionsForGoal(actions, goalId)| ==>
      ActionsForGoal(actions, goalId)[i] in actions && ActionsForGoal(actions, goalId)[i].goalId == goalId
    ensures forall i :: 0 <= i < |actions| && actions[i].goalId == goalId ==> actions[i] in ActionsForGoal(actions, goalId)
    ensures ActionsForGoal(actions + more, goalId) == ActionsForGoal(actions, goalId) + ActionsForGoal(more, goalId)
  {
    FilterConcat(actions, more, BelongsTo(goalId));
  }

  /** Right after setup every user action is listed, in order, under the one new goal;
      after the skip all four mock actions are listed under the mock goal. */
  lemma FreshGoalListsAllActions(s: StoreModel.StoreState, now: nat, localeDate: Date -> string, loaded: Date)
    ensures var t := StoreModel.CompleteSetup(s, now, localeDate);
      ActionsForGoal(t.userActions, t.userGoals[0].id) == t.userActions
    ensures var t := SkipSetup.Skip(s, loaded);
      ActionsForGoal(t.userActions, t.userGoals[0].id) == t.userActions
  {
    var t := StoreModel.CompleteSetup(s, now, localeDate);
    StoreModel.CompleteSetupGoal(s, now, localeDate);
    StoreModel.CompleteSetupActions(s, now, localeDate);
    FilterKeepsAll(t.userActions, BelongsTo(t.userGoals[0].id));
    SkipSetup.MockActionsGoal();
    FilterKeepsAll(SkipSetup.Skip(s, loaded).userActions, BelongsTo("mock-goal-1"));
  }

  /** The debugging button: opens the share modal on a made-up goal action that is
      not among the user's actions. */
  const TEST_ACTION: UserAction := UserAction("test-action", "test-goal", GoalAction, "Test Action for Debugging", None, None)

  method TestShareModalPressed(store: AppStore.Store)
    modifies store
    ensures store.State() == old(store.State()).(shareAction := Some(TEST_ACTION), showShareModal := true)
  {
    store.share := store.share.(shareAction := Some(TEST_ACTION), showShareModal := true);
  }
}
