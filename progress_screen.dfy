/** The progress screen of app/screens/progressScreen.v2.tsx: the `userStats` summary,
    the per-goal `keyMetrics`, the tab buttons and the expand toggle of a goal card. */
module ProgressScreen {
  import opened Wrappers
  import opened Lists
  import opened Types
  import DailyScreen
  import StoreModel
  import AppStore

  /** The ids of a list of actions. */
  function IdSet(actions: seq<UserAction>): (r: set<string>)
    ensures |r| <= |actions|
  {
    if actions == [] then {} else {actions[0].id} + IdSet(actions[1..])
  }

  /** An id is in the set exactly when one of the actions has it. */
  lemma {:induction false} IdSetMembers(actions: seq<UserAction>, id: string)
    ensures id in IdSet(actions) <==> exists i :: 0 <= i < |actions| && actions[i].id == id
  {
    if actions != [] {
      IdSetMembers(actions[1..], id);
      if id in IdSet(actions[1..]) {
        var j :| 0 <= j < |actions[1..]| && actions[1..][j].id == id;
        assert actions[j + 1].id == id;
      }
      if exists i :: 0 <= i < |actions| && actions[i].id == id {
        var i :| 0 <= i < |actions| && actions[i].id == id;
        if i > 0 {
          assert actions[1..][i - 1].id == id;
        }
      }
    }
  }

  /** `Object.values(checkedActions).filter(Boolean)`, as the keys it comes from. */
  function CheckedKeys(checked: map<string, bool>): set<string> {
    set k | k in checked.Keys && checked[k]
  }

  /** The `userStats` memo. */
  datatype UserStats = UserStats(
    totalActions: nat,
    completedActions: nat,
    completionRate: nat,
    streak: nat,
    bestStreak: nat)

  /** The constants shown as the current and the best streak. */
  const STREAK: nat := 7
  const BEST_STREAK: nat := 14

  /** The summary as written: every true entry of `checkedActions` counts as a
      completed action, whether or not an action of the user has that id. */
  function UserStatsOf(actions: seq<UserAction>, checked: map<string, bool>): UserStats {
    var total := |actions|;
    var completed := |CheckedKeys(checked)|;
    UserStats(total, completed,
      if total > 0 then DailyScreen.RoundPercent(completed, total) else 0,
      STREAK, BEST_STREAK)
  }

  /** The summary counts all actions and all true entries, shows the constant streaks,
      and a completion rate of 0 without actions; the rate stays within 100 when every
      checked id is the id of one of the user's actions. */
  lemma UserStatsSpec(actions: seq<UserAction>, checked: map<string, bool>)
    ensures UserStatsOf(actions, checked).totalActions == |actions|
    ensures UserStatsOf(actions, checked).completedActions == |CheckedKeys(checked)|
    ensures UserStatsOf(actions, checked).streak == 7 && UserStatsOf(actions, checked).bestStreak == 14
    ensures actions == [] ==> UserStatsOf(actions, checked).completionRate == 0
    ensures CheckedKeys(checked) <= IdSet(actions) ==> UserStatsOf(actions, checked).completionRate <= 100
  {
    if CheckedKeys(checked) <= IdSet(actions) {
      SubsetCard(CheckedKeys(checked), IdSet(actions));
    }
  }

  lemma {:induction false} SubsetCard(a: set<string>, b: set<string>)
    requires a <= b
    ensures |a| <= |b|
  {
    if a != {} {
      var x :| x in a;
      SubsetCard(a - {x}, b - {x});
    }
  }

  /** One action of the user, "1", is checked, and so is the debugging action of the
      daily screen, which is not one of the user's actions: the as-written rate is
      200%. */
  lemma CompletionRateExceeds100()
    ensures var a := UserAction("1", "g", GoalAction, "Run", None, None);
      UserStatsOf([a], map["1" := true, DailyScreen.TEST_ACTION.id := true]).completionRate == 200
  {
    var checked := map["1" := true, DailyScreen.TEST_ACTION.id := true];
    assert "1" != DailyScreen.TEST_ACTION.id by {
      assert DailyScreen.TEST_ACTION.id[0] == 't';
    }
    assert CheckedKeys(checked) == {"1", DailyScreen.TEST_ACTION.id};
    assert |CheckedKeys(checked)| == 2;
    var r := DailyScreen.RoundPercent(2, 1);
    assert 400 - 1 < 2 * r <= 400 + 1;
  }

  /** The summary as intended: the completed actions are the user's actions that are
      checked, as on the daily screen. */
  function CorrectedUserStats(actions: seq<UserAction>, checked: map<string, bool>): UserStats {
    var total := |actions|;
    var completed := Count(actions, CheckedIn(checked));
    UserStats(total, completed,
      if total > 0 then DailyScreen.RoundPercent(completed, total) else 0,
      STREAK, BEST_STREAK)
  }

  /** The corrected rate never exceeds 100 and is 100 when all actions are checked; a
      rate of 100 only says that at least 99.5% of them are (`FullRateShortOfAll`); and
      it is what the as-written summary shows whenever the checked ids are ids of the
      user's actions, which are distinct. */
  lemma CorrectedUserStatsSpec(actions: seq<UserAction>, checked: map<string, bool>)
    ensures CorrectedUserStats(actions, checked).completedActions <= |actions|
    ensures CorrectedUserStats(actions, checked).completionRate <= 100
    ensures actions == [] ==> CorrectedUserStats(actions, checked).completionRate == 0
    ensures actions != [] && Count(actions, CheckedIn(checked)) == |actions| ==>
      CorrectedUserStats(actions, checked).completionRate == 100
    ensures actions != [] && CorrectedUserStats(actions, checked).completionRate == 100 ==>
      199 * |actions| <= 200 * Count(actions, CheckedIn(checked))
    ensures DistinctKeys(actions, ActionId) && CheckedKeys(checked) <= IdSet(actions) ==>
      CorrectedUserStats(actions, checked) == UserStatsOf(actions, checked)
  {
    if actions != [] {
      DailyScreen.RoundPercentEnds(|actions|);
    }
    if DistinctKeys(actions, ActionId) && CheckedKeys(checked) <= IdSet(actions) {
      CheckedAmongCount(actions, checked);
      assert CheckedKeys(checked) * IdSet(actions) == CheckedKeys(checked);
      assert |CheckedKeys(checked)| == Count(actions, CheckedIn(checked));
    }
  }

  /** The rounding shows 100% before every action is checked: 199 of 200 already
      round up to it. */
  lemma FullRateShortOfAll()
    ensures DailyScreen.RoundPercent(199, 200) == 100
    ensures DailyScreen.RoundPercent(198, 200) == 99
  {
  }

  /** With distinct ids, the checked ids among the actions are as many as the checked
      actions. */
  lemma {:induction false} CheckedAmongCount(actions: seq<UserAction>, checked: map<string, bool>)
    requires DistinctKeys(actions, ActionId)
    ensures |CheckedKeys(checked) * IdSet(actions)| == Count(actions, CheckedIn(checked))
  {
    if actions != [] {
      var a, t := actions[0], actions[1..];
      DistinctKeysTail(actions, ActionId);
      CheckedAmongCount(t, checked);
      FreshIdNotInTail(actions);
      var k := CheckedKeys(checked);
      SplitIntersection(k, a.id, IdSet(t));
      assert Count(actions, CheckedIn(checked)) ==
        (if CheckedIn(checked)(a) then 1 else 0) + Count(t, CheckedIn(checked));
      assert CheckedIn(checked)(a) <==> a.id in k;
    }
  }

  /** With distinct ids, the head's id is not among the tail's. */
  lemma FreshIdNotInTail(actions: seq<UserAction>)
    requires actions != [] && DistinctKeys(actions, ActionId)
    ensures actions[0].id !in IdSet(actions[1..])
  {
    IdSetMembers(actions[1..], actions[0].id);
    forall j | 0 <= j < |actions[1..]| ensures actions[1..][j].id != actions[0].id {
      assert ActionId(actions[0]) != ActionId(actions[j + 1]);
    }
  }

  /** Intersecting with a set extended by a fresh element adds one element exactly when
      that element is in the intersected set. */
  lemma SplitIntersection(k: set<string>, x: string, rest: set<string>)
    requires x !in rest
    ensures |k * ({x} + rest)| == (if x in k then 1 else 0) + |k * rest|
  {
    if x in k {
      assert k * ({x} + rest) == {x} + k * rest;
    } else {
      assert k * ({x} + rest) == k * rest;
    }
  }

  /** One entry of `keyMetrics`; `daysLeft` is not modelled. */
  datatype KeyMetric = KeyMetric(
    goalId: string,
    title: string,
    progress: nat,
    milestones: seq<Milestone>,
    actions: seq<UserAction>)

  /** The metric of one goal: its actions, and their checked share as a percentage. */
  function MetricFor(goal: UserGoal, actions: seq<UserAction>, checked: map<string, bool>): KeyMetric {
    var goalActions := DailyScreen.ActionsForGoal(actions, goal.id);
    var done := Count(goalActions, CheckedIn(checked));
    KeyMetric(goal.id, goal.title,
      if |goalActions| > 0 then DailyScreen.RoundPercent(done, |goalActions|) else 0,
      goal.milestones, goalActions)
  }

  /** `userGoals.map(...)`. */
  function KeyMetrics(goals: seq<UserGoal>, actions: seq<UserAction>, checked: map<string, bool>): seq<KeyMetric> {
    seq(|goals|, i requires 0 <= i < |goals| => MetricFor(goals[i], actions, checked))
  }

  /** One metric per goal, in goal order, carrying the goal's id, title and milestones;
      its actions are exactly the user's actions with that goal id, and its progress is
      0 for a goal without actions and lies in 0..100 otherwise. */
  lemma KeyMetricsSpec(goals: seq<UserGoal>, actions: seq<UserAction>, checked: map<string, bool>, i: int)
    requires 0 <= i < |goals|
    ensures |KeyMetrics(goals, actions, checked)| == |goals|
    ensures var m := KeyMetrics(goals, actions, checked)[i];
      m.goalId == goals[i].id && m.title == goals[i].title && m.milestones == goals[i].milestones
    ensures var m := KeyMetrics(goals, actions, checked)[i];
      (forall j :: 0 <= j < |m.actions| ==> m.actions[j] in actions && m.actions[j].goalId == goals[i].id) &&
      (forall j :: 0 <= j < |actions| && actions[j].goalId == goals[i].id ==> actions[j] in m.actions)
    ensures var m := KeyMetrics(goals, actions, checked)[i];
      m.progress <= 100 && (m.actions == [] ==> m.progress == 0)
  {
    DailyScreen.ActionsForGoalSpec(actions, [], goals[i].id);
  }

  /** The card tap: `setExpandedGoalId(isExpanded ? null : goalId)`. */
  function ExpandedAfterTap(expanded: Option<string>, goalId: string): (r: Option<string>)
    ensures r == Some(goalId) <==> expanded != Some(goalId)
    ensures r == None <==> expanded == Some(goalId)
  {
    if expanded == Some(goalId) then None else Some(goalId)
  }

  /** The store after a card tap: `setExpandedGoalId` assigns the field of the store's
      current state object, and the value it assigns is computed from `shown`, the
      `expandedGoalId` of the screen's last drawing. The assignment bypasses `set`, so
      it does not draw the screen again. */
  function TapWrite(s: StoreModel.StoreState, shown: Option<string>, goalId: string): (r: StoreModel.StoreState)
    ensures r.expandedGoalId == Some(goalId) <==> shown != Some(goalId)
    ensures r.expandedGoalId == None <==> shown == Some(goalId)
    ensures r.(expandedGoalId := s.expandedGoalId) == s
  {
    s.(expandedGoalId := ExpandedAfterTap(shown, goalId))
  }

  /** Without a drawing in between, a second tap on a card reads the same drawn value
      as the first, so it writes the same value again: from a view with that card
      closed, both taps open it and nothing ever collapses it. */
  lemma TapsFromOneDrawing(s: StoreModel.StoreState, shown: Option<string>, goalId: string)
    ensures TapWrite(TapWrite(s, shown, goalId), shown, goalId) == TapWrite(s, shown, goalId)
    ensures shown != Some(goalId) ==>
      TapWrite(TapWrite(s, shown, goalId), shown, goalId).expandedGoalId == Some(goalId)
  {
  }

  /** When some `set` draws the screen again between two taps on a card, the second
      tap reads the first one's write: the card is collapsed again from any state but
      the one where only that card was open; and a tap on another card after a
      drawing moves the expansion there. */
  lemma TapTwiceWithDrawing(s: StoreModel.StoreState, goalId: string, other: string)
    ensures var t := TapWrite(s, s.expandedGoalId, goalId);
      TapWrite(t, t.expandedGoalId, goalId).expandedGoalId ==
        (if s.expandedGoalId == Some(goalId) then Some(goalId) else None)
    ensures var t := TapWrite(s, s.expandedGoalId, goalId);
      other != goalId ==> TapWrite(t, t.expandedGoalId, other).expandedGoalId == Some(other)
  {
  }

  /** A card tap, given the `expandedGoalId` the card was drawn with. */
  method TapGoalCard(store: AppStore.Store, shown: Option<string>, goalId: string)
    modifies store
    ensures store.State() == TapWrite(old(store.State()), shown, goalId)
  {
    store.feed := store.feed.(expandedGoalId := if shown == Some(goalId) then None else Some(goalId));
  }

  /** A tab button press: `setState({progressTab: id})`. */
  method PressProgressTab(store: AppStore.Store, tab: ProgressTab)
    modifies store
    ensures store.State() == old(store.State()).(progressTab := tab)
  {
    store.feed := store.feed.(progressTab := tab);
  }
}
