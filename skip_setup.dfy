/** app/hooks/useSkipSetup.ts: skipping onboarding merges the mock goal and actions of
    app/constants/mockData.ts into the store. */
module SkipSetup {
  import opened Wrappers
  import opened Lists
  import opened Types
  import opened Constants
  import opened StoreModel
  import AppStore

  /** `setState(MOCK_APP_STATE)`: four fields replaced, all others kept. The mock data
      is dated relative to the instant `loaded` the constants were evaluated. */
  function Skip(s: StoreState, loaded: Date): StoreState {
    s.(appState := Main, currentStep := 0, userGoals := [MockGoal(loaded)], userActions := MOCK_ACTIONS)
  }

  /** The four mock actions are all attached to `mock-goal-1`. */
  lemma MockActionsGoal()
    ensures |MOCK_ACTIONS| == 4
    ensures forall i :: 0 <= i < |MOCK_ACTIONS| ==> MOCK_ACTIONS[i].goalId == "mock-goal-1"
  {
  }

  /** Two mock actions are of goal type and two are habits. */
  lemma MockActionsKinds()
    ensures Count(MOCK_ACTIONS, IsGoalAction) == 2 && Count(MOCK_ACTIONS, IsPerformanceAction) == 2
  {
    var m := MOCK_ACTIONS;
    var t1, t2, t3 := m[1..], m[2..], m[3..];
    assert t3[1..] == [];
    assert t2[1..] == t3 && t1[1..] == t2 && m[1..] == t1;
    assert Filter(t3, IsGoalAction) == [];
    assert Filter(t2, IsGoalAction) == [];
    assert Filter(t1, IsGoalAction) == [m[1]];
    assert Filter(t2, IsPerformanceAction) == t2;
    assert Filter(t1, IsPerformanceAction) == t2;
  }

  /** No two mock actions share an id. */
  lemma MockActionIdsDistinct()
    ensures DistinctKeys(MOCK_ACTIONS, ActionId)
  {
    var m := MOCK_ACTIONS;
    assert m[0].id[7] == '1' && m[1].id[7] == '2';
    assert m[2].id[6] == '1' && m[3].id[6] == '2';
    assert m[0].id[0] == 'a' && m[1].id[0] == 'a' && m[2].id[0] == 'h' && m[3].id[0] == 'h';
  }

  /** After skipping, the app is on its main screens with the mock goal `mock-goal-1`
      as its one goal and the mock actions as its actions; every other field, the
      checked flags and the feed included, is as it was. */
  lemma SkipSpec(s: StoreState, loaded: Date)
    ensures var r := Skip(s, loaded);
      r.appState == Main && r.currentStep == 0 &&
      |r.userGoals| == 1 && r.userGoals[0].id == "mock-goal-1" && r.userActions == MOCK_ACTIONS &&
      (forall i :: 0 <= i < |r.userActions| ==> r.userActions[i].goalId == r.userGoals[0].id) &&
      r.checkedActions == s.checkedActions && r.feedPosts == s.feedPosts &&
      r.(appState := s.appState, currentStep := s.currentStep, userGoals := s.userGoals, userActions := s.userActions) == s
  {
    MockActionsGoal();
  }

  method SkipSetupPressed(store: AppStore.Store, loaded: Date)
    modifies store
    ensures store.State() == Skip(old(store.State()), loaded)
  {
    store.nav := store.nav.(appState := Main, currentStep := 0);
    store.progress := store.progress.(userGoals := [MockGoal(loaded)], userActions := MOCK_ACTIONS);
  }
}
