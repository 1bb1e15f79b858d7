/** The profile screen of app/screens/profileScreen.v2.tsx: its `stats` summary of the
    user's goals and habits. */
module ProfileScreen {
  import opened Lists
  import opened Types
  import StoreModel
  import SkipSetup

  /** The `stats` object. */
  datatype ProfileStats = ProfileStats(totalGoals: nat, activeGoals: nat, completedGoals: nat, totalHabits: nat)

  /** `stats`: the finished goals are an empty list, so nothing is ever completed, and
      the habits are the user actions of type `'performance'`. */
  function Stats(goals: seq<UserGoal>, actions: seq<UserAction>): ProfileStats {
    var finishedGoals: seq<UserGoal> := [];
    var performanceHabits := Filter(actions, IsPerformanceAction);
    ProfileStats(|goals| + |finishedGoals|, |goals|, |finishedGoals|, |performanceHabits|)
  }

  /** Every goal counts as active and none as completed; the habits are the
      performance actions, so together with the goal actions they make up all the
      user's actions. */
  lemma StatsSpec(goals: seq<UserGoal>, actions: seq<UserAction>)
    ensures Stats(goals, actions).totalGoals == Stats(goals, actions).activeGoals == |goals|
    ensures Stats(goals, actions).completedGoals == 0
    ensures Stats(goals, actions).totalHabits + Count(actions, IsGoalAction) == |actions|
  {
    FilterSplitCount(actions, IsPerformanceAction, IsGoalAction, Always);
    FilterKeepsAll(Filter(actions, IsPerformanceAction), Always);
    FilterKeepsAll(Filter(actions, IsGoalAction), Always);
    FilterKeepsAll(actions, Always);
  }

  predicate Always(a: UserAction) {
    true
  }

  /** A list none of whose elements passes the filter filters to nothing. */
  lemma FilterNone(s: seq<UserAction>, p: UserAction -> bool)
    requires forall i :: 0 <= i < |s| ==> !p(s[i])
    ensures Filter(s, p) == []
  {
  }

  /** Goal actions first and habits after them: the habits are the tail. */
  lemma {:induction false} HabitsAfterGoalActions(actions: seq<UserAction>, n: nat)
    requires n <= |actions|
    requires forall i :: 0 <= i < n ==> actions[i].kind == GoalAction
    requires forall i :: n <= i < |actions| ==> actions[i].kind == PerformanceAction
    ensures Count(actions, IsPerformanceAction) == |actions| - n
  {
    var goalPart, habitPart := actions[..n], actions[n..];
    assert actions == goalPart + habitPart;
    FilterConcat(goalPart, habitPart, IsPerformanceAction);
    assert forall i :: 0 <= i < |goalPart| ==> !IsPerformanceAction(goalPart[i]) by {
      forall i | 0 <= i < |goalPart| ensures !IsPerformanceAction(goalPart[i]) {
        assert goalPart[i] == actions[i];
      }
    }
    FilterNone(goalPart, IsPerformanceAction);
    assert forall j :: 0 <= j < |habitPart| ==> IsPerformanceAction(habitPart[j]) by {
      forall j | 0 <= j < |habitPart| ensures IsPerformanceAction(habitPart[j]) {
        assert habitPart[j] == actions[n + j];
      }
    }
    FilterKeepsAll(habitPart, IsPerformanceAction);
  }

  /** After setup the profile shows the one new goal and one habit per selected
      performance habit. */
  lemma SetupProfileStats(s: StoreModel.StoreState, now: nat, localeDate: Date -> string)
    ensures var t := StoreModel.CompleteSetup(s, now, localeDate);
      Stats(t.userGoals, t.userActions) == ProfileStats(1, 1, 0, |s.performanceHabits|)
  {
    var t := StoreModel.CompleteSetup(s, now, localeDate);
    StoreModel.CompleteSetupGoal(s, now, localeDate);
    StoreModel.CompleteSetupActions(s, now, localeDate);
    var n := |s.actions|;
    assert forall i :: n <= i < |t.userActions| ==> t.userActions[i].kind == PerformanceAction by {
      forall i | n <= i < |t.userActions| ensures t.userActions[i].kind == PerformanceAction {
        var j := i - n;
        assert t.userActions[n + j].kind == PerformanceAction;
      }
    }
    HabitsAfterGoalActions(t.userActions, n);
  }

  /** After the skip the profile shows the mock goal and its two habits. */
  lemma SkipProfileStats(s: StoreModel.StoreState, loaded: Date)
    ensures var t := SkipSetup.Skip(s, loaded);
      Stats(t.userGoals, t.userActions) == ProfileStats(1, 1, 0, 2)
  {
    SkipSetup.SkipSpec(s, loaded);
    SkipSetup.MockActionsKinds();
  }
}
