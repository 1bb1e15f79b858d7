/** The application store of app/state/appStore.ts as a value: one record holding
    every field of the store, and one transition per store operation that returns
    the record the operation's `set` calls leave behind. The `AppStore.Store` class
    performs these transitions in place. An operation that reads the clock takes the
    instant `now` as a parameter; an operation that formats a date takes the locale
    formatter `localeDate` as one. */
module StoreModel {
  import opened Wrappers
  import opened Text
  import opened Lists
  import opened Types

  datatype StoreState = StoreState(
    appState: AppPhase,
    currentStep: int,
    currentScreen: Screen,
    selectedGoal: string,
    goalMetric: string,
    goalDeadline: Date,
    goalWhy: string,
    selectedSharingOption: SharingOption,
    performanceHabits: seq<PerformanceHabit>,
    milestones: seq<Milestone>,
    selectedActionType: Option<ActionType>,
    actions: seq<Action>,
    user: User,
    userGoals: seq<UserGoal>,
    userActions: seq<UserAction>,
    checkedActions: map<string, bool>,
    feedPosts: seq<FeedPost>,
    progressTab: ProgressTab,
    expandedGoalId: Option<string>,
    showShareModal: bool,
    shareAction: Option<UserAction>,
    sharePrivacy: SharePrivacy,
    shareNote: string,
    showGoalAnnouncement: bool,
    showSMSFlow: bool,
    smsStep: int,
    currentActionIndex: int,
    smsAnswers: seq<SMSAnswer>,
    actionReviewResults: map<string, ReviewResult>,
    showPostComposer: bool,
    selectedPromptId: Option<string>)

  const INITIAL_USER: User := User("1", "Alex", "alex@example.com", 7, 1250, Some("👤"))

  /** The two posts the feed starts with, an hour and two hours before `now`. */
  function MockFeedPosts(now: Date): seq<FeedPost> {
    [ FeedPost("1", "2", "Sarah", Some("👩"), Checkin,
        "Just completed my morning run! Feeling energized 💪", now - 3600000,
        map["🔥" := 5, "👏" := 3], None, None, None),
      FeedPost("2", "3", "Mike", Some("👨"), GoalAnnouncement,
        "Starting my journey to learn Spanish! 🇪🇸", now - 7200000,
        map["🎯" := 7, "💪" := 4], Some("Learn Spanish"), None, None) ]
  }

  /** The store as created at instant `now`. */
  function InitialState(now: Date): StoreState {
    StoreState(
      Setup, 0, SocialScreen,
      "", "", now + 90 * DAY_MS, "", PublicSharing,
      [], [], None, [],
      INITIAL_USER, [], [], map[],
      MockFeedPosts(now), PersonalTab, None,
      false, None, ShareWithGroup, "",
      false, false, 0, 0, [], map[],
      false, None)
  }

  /** The store starts in onboarding at its first step, with nothing to review and the
      feed holding the two sample posts, newest first. */
  lemma InitialStateFacts(now: Date)
    ensures InitialState(now).appState == Setup && InitialState(now).currentStep == 0
    ensures InitialState(now).goalDeadline - now == 90 * 24 * 3600 * 1000
    ensures Missed(InitialState(now).userActions, InitialState(now).checkedActions) == []
    ensures |InitialState(now).feedPosts| == 2
    ensures InitialState(now).feedPosts[0].timestamp > InitialState(now).feedPosts[1].timestamp
    ensures InitialState(now).shareAction.None? && !InitialState(now).showShareModal
  {
  }

  // ---------------------------------------------------------------------------
  // Onboarding steps

  /** `lockInGoal`: moves to step 1 once a goal and a metric are entered. The deadline
      is a `Date` object, which is always truthy, so it never blocks the step. */
  function LockInGoal(s: StoreState): StoreState {
    if s.selectedGoal != "" && s.goalMetric != "" then s.(currentStep := 1) else s
  }

  function CompleteBoosters(s: StoreState): StoreState {
    s.(currentStep := 2)
  }

  function CompleteMilestones(s: StoreState): StoreState {
    s.(currentStep := 3)
  }

  /** `addAnotherAction`: back to the actions step with no type chosen; the saved
      actions stay. */
  function AddAnotherAction(s: StoreState): StoreState {
    s.(currentStep := 3, selectedActionType := None)
  }

  function FinishSetup(s: StoreState): StoreState {
    s.(appState := Main, showGoalAnnouncement := false)
  }

  /** `lockInGoal` moves on exactly when goal and metric are both non-empty, and
      otherwise leaves the whole store as it was. */
  lemma LockInGoalGuard(s: StoreState)
    ensures LockInGoal(s).currentStep == 1 || LockInGoal(s) == s
    ensures LockInGoal(s) != s <==> s.selectedGoal != "" && s.goalMetric != "" && s.currentStep != 1
    ensures LockInGoal(s).(currentStep := s.currentStep) == s
  {
  }

  /** The onboarding walk: with a goal and a metric entered, locking in the goal,
      finishing the boosters and finishing the milestones reach step 3, and the step
      only ever goes up along the way. */
  lemma OnboardingWalk(s: StoreState)
    requires s.currentStep == 0 && s.selectedGoal != "" && s.goalMetric != ""
    ensures LockInGoal(s).currentStep == 1
    ensures CompleteBoosters(LockInGoal(s)).currentStep == 2
    ensures CompleteMilestones(CompleteBoosters(LockInGoal(s))).currentStep == 3
    ensures CompleteMilestones(CompleteBoosters(LockInGoal(s))).(currentStep := 0) == s
  {
  }

  // ---------------------------------------------------------------------------
  // Performance habits, milestones and actions

  function HabitName(h: PerformanceHabit): string {
    h.name
  }

  /** `togglePerformanceHabit`: drops every habit named `n` when there is one, and
      otherwise appends a fresh habit named `n`. */
  function TogglePerformanceHabit(s: StoreState, n: string): StoreState {
    s.(performanceHabits := ToggleKeyed(s.performanceHabits, HabitName, n, PerformanceHabit(n, None, None)))
  }

  /** `updateHabitTime`: every habit named `n` gets time `t`. */
  function UpdateHabitTime(s: StoreState, n: string, t: string): StoreState {
    var hs := s.performanceHabits;
    s.(performanceHabits := seq(|hs|, i requires 0 <= i < |hs| =>
      if hs[i].name == n then hs[i].(time := Some(t)) else hs[i]))
  }

  /** `toggleHabitReminder`: every habit named `n` gets `reminder: !h.reminder`, where
      a missing flag negates to true. */
  function ToggleHabitReminder(s: StoreState, n: string): StoreState {
    var hs := s.performanceHabits;
    s.(performanceHabits := seq(|hs|, i requires 0 <= i < |hs| =>
      if hs[i].name == n then hs[i].(reminder := Some(hs[i].reminder != Some(true))) else hs[i]))
  }

  function AddMilestone(s: StoreState, m: Milestone): StoreState {
    s.(milestones := s.milestones + [m])
  }

  function SelectActionType(s: StoreState, t: ActionType): StoreState {
    s.(selectedActionType := Some(t))
  }

  /** `saveAction`: appends the action with the currently selected type, which is
      copied as it is, even when no type is selected. */
  function SaveAction(s: StoreState, a: Action): StoreState {
    s.(actions := s.actions + [a.(kind := s.selectedActionType)])
  }

  /** After a toggle, a habit named `n` is selected exactly when none was before, and
      every other name is selected exactly as before. */
  lemma TogglePerformanceHabitFlips(s: StoreState, n: string, other: string)
    ensures HasKey(TogglePerformanceHabit(s, n).performanceHabits, HabitName, n) <==>
      !HasKey(s.performanceHabits, HabitName, n)
    ensures other != n ==>
      (HasKey(TogglePerformanceHabit(s, n).performanceHabits, HabitName, other) <==>
       HasKey(s.performanceHabits, HabitName, other))
    ensures TogglePerformanceHabit(s, n).(performanceHabits := s.performanceHabits) == s
  {
    ToggleKeyedMembership(s.performanceHabits, HabitName, n, PerformanceHabit(n, None, None), other);
  }

  /** Toggling a name that is not selected, twice, gives back the same habit list. */
  lemma TogglePerformanceHabitTwice(s: StoreState, n: string)
    requires !HasKey(s.performanceHabits, HabitName, n)
    ensures TogglePerformanceHabit(TogglePerformanceHabit(s, n), n) == s
  {
    ToggleKeyedTwiceRestores(s.performanceHabits, HabitName, n, PerformanceHabit(n, None, None));
  }

  /** A habit list without repeated names keeps that property under every habit
      operation. */
  lemma HabitOperationsKeepNamesDistinct(s: StoreState, n: string, t: string)
    requires DistinctKeys(s.performanceHabits, HabitName)
    ensures DistinctKeys(TogglePerformanceHabit(s, n).performanceHabits, HabitName)
    ensures DistinctKeys(UpdateHabitTime(s, n, t).performanceHabits, HabitName)
    ensures DistinctKeys(ToggleHabitReminder(s, n).performanceHabits, HabitName)
  {
    ToggleKeyedKeepsDistinct(s.performanceHabits, HabitName, n, PerformanceHabit(n, None, None));
    HabitEditsKeepNames(s, n, t);
  }

  /** Editing a time or a reminder keeps the list's length, each position's name, and
      every habit with another name; only habits named `n` change, and only in the
      edited field. */
  lemma HabitEditsKeepNames(s: StoreState, n: string, t: string)
    ensures |UpdateHabitTime(s, n, t).performanceHabits| == |s.performanceHabits|
    ensures |ToggleHabitReminder(s, n).performanceHabits| == |s.performanceHabits|
    ensures forall i :: 0 <= i < |s.performanceHabits| ==>
      var h, h1, h2 := s.performanceHabits[i],
        UpdateHabitTime(s, n, t).performanceHabits[i], ToggleHabitReminder(s, n).performanceHabits[i];
      h1.name == h.name && h2.name == h.name && h1.reminder == h.reminder && h2.time == h.time &&
      (h.name != n ==> h1 == h && h2 == h) &&
      (h.name == n ==> h1.time == Some(t) && (h2.reminder == Some(true) <==> h.reminder != Some(true)))
    ensures UpdateHabitTime(s, n, t).(performanceHabits := s.performanceHabits) == s
    ensures ToggleHabitReminder(s, n).(performanceHabits := s.performanceHabits) == s
  {
  }

  /** `addMilestone` and `saveAction` append at the end without looking for
      duplicates; the saved action's type is whatever type is selected. */
  lemma AppendsAtEnd(s: StoreState, m: Milestone, a: Action)
    ensures AddMilestone(s, m).milestones[..|s.milestones|] == s.milestones
    ensures AddMilestone(s, m).milestones[|s.milestones|] == m
    ensures |AddMilestone(s, m).milestones| == |s.milestones| + 1
    ensures SaveAction(s, a).actions[..|s.actions|] == s.actions
    ensures |SaveAction(s, a).actions| == |s.actions| + 1
    ensures SaveAction(s, a).actions[|s.actions|].kind == s.selectedActionType
    ensures SaveAction(s, a).actions[|s.actions|].(kind := a.kind) == a
  {
  }

  // ---------------------------------------------------------------------------
  // completeSetup

  /** The schedule text of a goal action: the locale date of a one-time action, and
      the joined frequency of any other action, including one saved with no type. */
  function ActionSchedule(a: Action, localeDate: Date -> string): Option<string> {
    if a.kind == Some(OneTime) then
      (if a.date.Some? then Some(localeDate(a.date.value)) else None)
    else
      (if a.frequency.Some? then Some(Join(a.frequency.value, ", ")) else None)
  }

  /** `habit.time || 'Daily'`. */
  function HabitSchedule(h: PerformanceHabit): string {
    if h.time.Some? && h.time.value != "" then h.time.value else "Daily"
  }

  function GoalActionId(stamp: string, i: nat): string {
    "action-" + stamp + "-" + NatToString(i)
  }

  function HabitActionId(stamp: string, i: nat): string {
    "habit-" + stamp + "-" + NatToString(i)
  }

  function GoalActions(actions: seq<Action>, stamp: string, goalId: string, localeDate: Date -> string): seq<UserAction> {
    seq(|actions|, i requires 0 <= i < |actions| =>
      UserAction(GoalActionId(stamp, i), goalId, GoalAction, actions[i].name, ActionSchedule(actions[i], localeDate), None))
  }

  function HabitActions(habits: seq<PerformanceHabit>, stamp: string, goalId: string): seq<UserAction> {
    seq(|habits|, i requires 0 <= i < |habits| =>
      UserAction(HabitActionId(stamp, i), goalId, PerformanceAction, habits[i].name, Some(HabitSchedule(habits[i])), None))
  }

  /** The goal `completeSetup` creates at instant `now`. */
  function NewGoal(s: StoreState, now: nat): UserGoal {
    UserGoal(NatToString(now), s.selectedGoal, s.goalMetric, s.goalDeadline, Some(s.goalWhy),
      s.selectedSharingOption == PublicSharing, s.milestones, 0, now)
  }

  /** `completeSetup`: replaces the goals with the new goal and the user actions with
      one action per saved action followed by one per habit; a public goal stays in
      setup to show the announcement, a private one goes straight to the main app. */
  function CompleteSetup(s: StoreState, now: nat, localeDate: Date -> string): StoreState {
    var goal := NewGoal(s, now);
    var stamp := NatToString(now);
    var public := s.selectedSharingOption == PublicSharing;
    s.(userGoals := [goal],
       userActions := GoalActions(s.actions, stamp, goal.id, localeDate) + HabitActions(s.performanceHabits, stamp, goal.id),
       showGoalAnnouncement := public,
       appState := if public then Setup else Main)
  }

  /** The single goal `completeSetup` leaves carries the entered title, metric,
      deadline, reason and milestones, starts at progress 0 and is public exactly when
      public sharing was chosen. */
  lemma CompleteSetupGoal(s: StoreState, now: nat, localeDate: Date -> string)
    ensures |CompleteSetup(s, now, localeDate).userGoals| == 1
    ensures var g := CompleteSetup(s, now, localeDate).userGoals[0];
      g.title == s.selectedGoal && g.metric == s.goalMetric && g.deadline == s.goalDeadline &&
      g.why == Some(s.goalWhy) && g.milestones == s.milestones && g.progress == 0 &&
      (g.isPublic <==> s.selectedSharingOption == PublicSharing)
  {
  }

  /** The user actions are the saved actions, in order, then the habits, in order,
      each attached to the new goal, with the schedule its kind calls for. */
  lemma CompleteSetupActions(s: StoreState, now: nat, localeDate: Date -> string)
    ensures var r := CompleteSetup(s, now, localeDate);
      |r.userActions| == |s.actions| + |s.performanceHabits| &&
      (forall i :: 0 <= i < |r.userActions| ==> r.userActions[i].goalId == r.userGoals[0].id) &&
      (forall i :: 0 <= i < |s.actions| ==>
        r.userActions[i].kind == GoalAction && r.userActions[i].name == s.actions[i].name &&
        r.userActions[i].schedule == ActionSchedule(s.actions[i], localeDate)) &&
      (forall j :: 0 <= j < |s.performanceHabits| ==>
        var a := r.userActions[|s.actions| + j];
        a.kind == PerformanceAction && a.name == s.performanceHabits[j].name &&
        a.schedule == Some(HabitSchedule(s.performanceHabits[j])))
  {
  }

  /** A habit's schedule is its time when one was entered and "Daily" otherwise. */
  lemma HabitScheduleDefault(h: PerformanceHabit)
    ensures HabitSchedule(h) != ""
    ensures h.time.Some? && h.time.value != "" ==> HabitSchedule(h) == h.time.value
    ensures HabitSchedule(h) == "Daily" <==> h.time.None? || h.time.value in {"", "Daily"}
  {
  }

  /** The announcement is shown exactly for a public goal, the app reaches the main
      screens straight away exactly for a private one, and nothing outside the goals,
      the user actions and those two flags changes. */
  lemma CompleteSetupPhase(s: StoreState, now: nat, localeDate: Date -> string)
    ensures CompleteSetup(s, now, localeDate).showGoalAnnouncement <==> s.selectedSharingOption == PublicSharing
    ensures CompleteSetup(s, now, localeDate).appState == Main <==> s.selectedSharingOption == PrivateSharing
    ensures CompleteSetup(s, now, localeDate).(userGoals := s.userGoals, userActions := s.userActions,
      showGoalAnnouncement := s.showGoalAnnouncement, appState := s.appState) == s
  {
  }

  lemma {:induction false} PrefixCancel(p: string, x: string, y: string)
    requires p + x == p + y
    ensures x == y
  {
    assert x == (p + x)[|p|..];
    assert y == (p + y)[|p|..];
  }

  /** Identifiers built from different indices differ. */
  lemma {:induction false} IndexedIdsDiffer(prefix: string, i: nat, j: nat)
    requires i != j
    ensures prefix + NatToString(i) != prefix + NatToString(j)
  {
    if prefix + NatToString(i) == prefix + NatToString(j) {
      PrefixCancel(prefix, NatToString(i), NatToString(j));
      NatToStringInjective(i, j);
    }
  }

  /** The id `completeSetup` gives the `k`-th user action it creates, when the first
      `n` of them come from saved actions. */
  function CreatedId(stamp: string, n: nat, k: nat): string {
    if k < n then GoalActionId(stamp, k) else HabitActionId(stamp, k - n)
  }

  lemma {:induction false} CreatedIdsDiffer(stamp: string, n: nat, i: nat, j: nat)
    requires i != j
    ensures CreatedId(stamp, n, i) != CreatedId(stamp, n, j)
  {
    if i < n && j < n {
      IndexedIdsDiffer("action-" + stamp + "-", i, j);
    } else if n <= i && n <= j {
      IndexedIdsDiffer("habit-" + stamp + "-", i - n, j - n);
    } else {
      assert CreatedId(stamp, n, i)[0] != CreatedId(stamp, n, j)[0];
    }
  }

  /** Every action `completeSetup` creates has its own id, and none of them equals the
      id of the new goal, which is made of digits only. */
  lemma {:induction false} CompleteSetupIdsDistinct(s: StoreState, now: nat, localeDate: Date -> string)
    ensures DistinctKeys(CompleteSetup(s, now, localeDate).userActions, ActionId)
    ensures forall i :: 0 <= i < |CompleteSetup(s, now, localeDate).userActions| ==>
      CompleteSetup(s, now, localeDate).userActions[i].id != CompleteSetup(s, now, localeDate).userGoals[0].id
  {
    var stamp := NatToString(now);
    var ga := GoalActions(s.actions, stamp, stamp, localeDate);
    var ha := HabitActions(s.performanceHabits, stamp, stamp);
    var ua := ga + ha;
    var n := |ga|;
    assert CompleteSetup(s, now, localeDate).userActions == ua;
    assert CompleteSetup(s, now, localeDate).userGoals[0].id == stamp;
    assert forall k :: 0 <= k < |ua| ==> ua[k].id == CreatedId(stamp, n, k) by {
      forall k | 0 <= k < |ua| ensures ua[k].id == CreatedId(stamp, n, k) {
        if k < n { assert ua[k] == ga[k]; } else { assert ua[k] == ha[k - n]; }
      }
    }
    forall i, j | 0 <= i < j < |ua| ensures ActionId(ua[i]) != ActionId(ua[j]) {
      CreatedIdsDiffer(stamp, n, i, j);
    }
    forall k | 0 <= k < |ua| ensures ua[k].id != stamp {
      assert ua[k].id[0] == 'a' || ua[k].id[0] == 'h';
    }
  }

  // ---------------------------------------------------------------------------
  // Daily actions

  /** `userActions.filter(a => !checkedActions[a.id])`: the actions not checked off,
      in their order. */
  function Missed(actions: seq<UserAction>, checked: map<string, bool>): (r: seq<UserAction>)
    ensures |r| <= |actions|
    ensures forall i :: 0 <= i < |r| ==> r[i] in actions && !IsChecked(checked, r[i].id)
    ensures forall i :: 0 <= i < |actions| && !IsChecked(checked, actions[i].id) ==> actions[i] in r
  {
    Filter(actions, UncheckedIn(checked))
  }

  /** `toggleAction`: a goal-type action opens the share modal for that action; any
      other id, including one of no action at all, has its checked flag flipped. */
  function ToggleAction(s: StoreState, id: string): StoreState {
    var found := Find(s.userActions, ActionId, id);
    if found.Some? && found.value.kind == GoalAction then
      s.(shareAction := found, showShareModal := true)
    else
      s.(checkedActions := s.checkedActions[id := !IsChecked(s.checkedActions, id)])
  }

  /** The map `m2` agrees with `m1` on every key but `k`. */
  ghost predicate SameExcept<V>(m1: map<string, V>, m2: map<string, V>, k: string) {
    forall x :: x != k ==> (x in m1 <==> x in m2) && (x in m1 ==> m1[x] == m2[x])
  }

  /** When the first action with the id is of goal type, `toggleAction` opens the
      share modal on that action and changes nothing else, the checked flags included. */
  lemma ToggleActionOpensShare(s: StoreState, id: string, i: int)
    requires FirstWithKey(s.userActions, ActionId, id, i) && s.userActions[i].kind == GoalAction
    ensures ToggleAction(s, id).shareAction == Some(s.userActions[i]) && ToggleAction(s, id).showShareModal
    ensures ToggleAction(s, id).(shareAction := s.shareAction, showShareModal := s.showShareModal) == s
  {
    var found := Find(s.userActions, ActionId, id);
    var i' :| FirstWithKey(s.userActions, ActionId, id, i') && s.userActions[i'] == found.value;
    assert i' == i;
  }

  /** In every other case, an id of no action included, `toggleAction` flips that id's
      checked flag, keeps every other flag, and changes nothing else. */
  lemma ToggleActionFlips(s: StoreState, id: string)
    requires forall i :: FirstWithKey(s.userActions, ActionId, id, i) ==> s.userActions[i].kind != GoalAction
    ensures IsChecked(ToggleAction(s, id).checkedActions, id) <==> !IsChecked(s.checkedActions, id)
    ensures SameExcept(s.checkedActions, ToggleAction(s, id).checkedActions, id)
    ensures ToggleAction(s, id).(checkedActions := s.checkedActions) == s
  {
    var found := Find(s.userActions, ActionId, id);
    if found.Some? {
      var i :| FirstWithKey(s.userActions, ActionId, id, i) && s.userActions[i] == found.value;
    }
  }

  /** Toggling a habit (or an unknown id) twice leaves it checked exactly as before. */
  lemma ToggleActionTwice(s: StoreState, id: string)
    requires forall i :: 0 <= i < |s.userActions| && s.userActions[i].id == id ==> s.userActions[i].kind != GoalAction
    ensures IsChecked(ToggleAction(ToggleAction(s, id), id).checkedActions, id) == IsChecked(s.checkedActions, id)
    ensures SameExcept(s.checkedActions, ToggleAction(ToggleAction(s, id), id).checkedActions, id)
  {
    var f := Find(s.userActions, ActionId, id);
    if f.Some? {
      var i :| FirstWithKey(s.userActions, ActionId, id, i) && s.userActions[i] == f.value;
    }
  }

  // ---------------------------------------------------------------------------
  // Feed

  /** `reactions[e] || 0`: the count shown for emoji `e` on a post. */
  function ReactionCount(p: FeedPost, e: string): int {
    if e in p.reactions then p.reactions[e] else 0
  }

  function React(p: FeedPost, e: string): FeedPost {
    p.(reactions := p.reactions[e := ReactionCount(p, e) + 1])
  }

  /** `handleReaction`: one more `e` on every post with id `postId`. */
  function HandleReaction(s: StoreState, postId: string, e: string): StoreState {
    var ps := s.feedPosts;
    s.(feedPosts := seq(|ps|, i requires 0 <= i < |ps| => if ps[i].id == postId then React(ps[i], e) else ps[i]))
  }

  /** A reaction raises the count of that emoji by exactly one on the posts with that
      id, starting from zero when the emoji had none; every other emoji count, every
      other field of those posts and every other post stays as it was. */
  lemma HandleReactionCounts(s: StoreState, postId: string, e: string)
    ensures var r := HandleReaction(s, postId, e);
      |r.feedPosts| == |s.feedPosts| &&
      r.(feedPosts := s.feedPosts) == s &&
      forall i :: 0 <= i < |s.feedPosts| ==>
        var p, q := s.feedPosts[i], r.feedPosts[i];
        (p.id != postId ==> q == p) &&
        (p.id == postId ==>
          ReactionCount(q, e) == ReactionCount(p, e) + 1 &&
          (forall e' :: e' != e ==> ReactionCount(q, e') == ReactionCount(p, e')) &&
          q.(reactions := p.reactions) == p)
  {
  }

  /** A post of the signed-in user with no reactions and no prompt. */
  function OwnPost(u: User, kind: PostType, content: string, now: nat, goalTitle: Option<string>): FeedPost {
    FeedPost(NatToString(now), u.id, u.name, u.avatar, kind, content, now, map[], goalTitle, None, None)
  }

  /** `publishPost`: the post goes to the front of the feed. */
  function PublishPost(s: StoreState, content: string, now: nat): StoreState {
    s.(feedPosts := [OwnPost(s.user, Prompted, content, now, None)] + s.feedPosts)
  }

  /** Publishing puts exactly one new prompted post with that content, the user's name
      and no reactions in front of the unchanged feed; the post carries no prompt id. */
  lemma PublishPostPrepends(s: StoreState, content: string, now: nat)
    ensures var r := PublishPost(s, content, now);
      |r.feedPosts| == |s.feedPosts| + 1 && r.feedPosts[1..] == s.feedPosts &&
      r.feedPosts[0].kind == Prompted && r.feedPosts[0].content == content &&
      r.feedPosts[0].reactions == map[] && r.feedPosts[0].promptId.None? &&
      r.feedPosts[0].userId == s.user.id && r.feedPosts[0].userName == s.user.name &&
      r.(feedPosts := s.feedPosts) == s
  {
  }

  // ---------------------------------------------------------------------------
  // Share modal

  /** The text of a check-in post: the note, or "Completed: <name>" when it is empty. */
  function CheckinContent(note: string, a: UserAction): string {
    if note != "" then note else "Completed: " + a.name
  }

  /** The three `set` calls of `handleShareAction`, in order. */
  function HandleShareAction(s: StoreState, now: nat): StoreState {
    if s.shareAction.None? then s
    else
      var a := s.shareAction.value;
      var s1 := s.(checkedActions := s.checkedActions[a.id := true]);
      var s2 := if s.sharePrivacy == ShareWithGroup
        then s1.(feedPosts := [OwnPost(s.user, Checkin, CheckinContent(s.shareNote, a), now, None)] + s1.feedPosts)
        else s1;
      s2.(showShareModal := false, shareAction := None, shareNote := "", sharePrivacy := ShareWithGroup)
  }

  /** Completing a shared action with no action selected changes nothing. Otherwise the
      action is checked and no other flag moves, the modal ends closed, with no action,
      an empty note and group privacy again, and nothing but the feed and those fields
      changes. */
  lemma HandleShareActionState(s: StoreState, now: nat)
    ensures s.shareAction.None? ==> HandleShareAction(s, now) == s
    ensures s.shareAction.Some? ==>
      var r, a := HandleShareAction(s, now), s.shareAction.value;
      IsChecked(r.checkedActions, a.id) && SameExcept(s.checkedActions, r.checkedActions, a.id) &&
      !r.showShareModal && r.shareAction.None? && r.shareNote == "" && r.sharePrivacy == ShareWithGroup &&
      r.(checkedActions := s.checkedActions, feedPosts := s.feedPosts, showShareModal := s.showShareModal,
         shareAction := s.shareAction, shareNote := s.shareNote, sharePrivacy := s.sharePrivacy) == s
  {
    if s.shareAction.Some? {
      var a := s.shareAction.value;
      var c := s.checkedActions[a.id := true];
      var s1 := s.(checkedActions := c);
      var feed := HandleShareAction(s, now).feedPosts;
      assert HandleShareAction(s, now) ==
        s1.(feedPosts := feed, showShareModal := false, shareAction := None, shareNote := "", sharePrivacy := ShareWithGroup);
      assert SameExcept(s.checkedActions, c, a.id);
    }
  }

  /** With an action selected, the feed gains one check-in post in front, with empty
      reactions and the note or "Completed: <name>" as its text, exactly when sharing
      with the group; a private completion leaves the feed alone. */
  lemma HandleShareActionFeed(s: StoreState, now: nat)
    requires s.shareAction.Some?
    ensures var r, a := HandleShareAction(s, now), s.shareAction.value;
      (s.sharePrivacy == ShareWithGroup ==>
        |r.feedPosts| == |s.feedPosts| + 1 && r.feedPosts[1..] == s.feedPosts &&
        r.feedPosts[0].kind == Checkin && r.feedPosts[0].reactions == map[] &&
        r.feedPosts[0].content == (if s.shareNote == "" then "Completed: " + a.name else s.shareNote)) &&
      (s.sharePrivacy == KeepPrivate ==> r.feedPosts == s.feedPosts)
  {
    var r, a := HandleShareAction(s, now), s.shareAction.value;
    var s1 := s.(checkedActions := s.checkedActions[a.id := true]);
    if s.sharePrivacy == ShareWithGroup {
      var post := OwnPost(s.user, Checkin, CheckinContent(s.shareNote, a), now, None);
      var feed := [post] + s.feedPosts;
      assert r == s1.(feedPosts := feed, showShareModal := false, shareAction := None, shareNote := "",
        sharePrivacy := ShareWithGroup);
      assert feed[1..] == s.feedPosts;
    } else {
      assert r == s1.(showShareModal := false, shareAction := None, shareNote := "", sharePrivacy := ShareWithGroup);
    }
  }

  // ---------------------------------------------------------------------------
  // Review ("SMS") cursor

  function OpenSMSFlow(s: StoreState): StoreState {
    s.(showSMSFlow := true, smsStep := 0, currentActionIndex := 0)
  }

  function CompleteSMS(s: StoreState): StoreState {
    s.(showSMSFlow := false, smsStep := 0, currentActionIndex := 0, smsAnswers := [], actionReviewResults := map[])
  }

  /** The cursor move of `nextActionOrStep` over `missed` unchecked actions: the next
      action while there is one, else the next step with the action index back at 0. */
  function CursorNext(missed: int, step: int, index: int): (int, int) {
    if index < missed - 1 then (step, index + 1) else (step + 1, 0)
  }

  function NextActionOrStep(s: StoreState): StoreState {
    var m := |Missed(s.userActions, s.checkedActions)|;
    var next := CursorNext(m, s.smsStep, s.currentActionIndex);
    s.(smsStep := next.0, currentActionIndex := next.1)
  }

  /** `nextActionOrStep` advances the index while it is below the number of unchecked
      actions minus one, and otherwise moves one step on with the index at 0; what it
      does to the index never depends on the step, and it changes nothing else. */
  lemma NextActionOrStepCursor(s: StoreState, step': int)
    ensures var r, m := NextActionOrStep(s), |Missed(s.userActions, s.checkedActions)|;
      (s.currentActionIndex < m - 1 ==> r.smsStep == s.smsStep && r.currentActionIndex == s.currentActionIndex + 1) &&
      (s.currentActionIndex >= m - 1 ==> r.smsStep == s.smsStep + 1 && r.currentActionIndex == 0) &&
      r.(smsStep := s.smsStep, currentActionIndex := s.currentActionIndex) == s
    ensures var r, r' := NextActionOrStep(s), NextActionOrStep(s.(smsStep := step'));
      r'.currentActionIndex == r.currentActionIndex && r'.smsStep - step' == r.smsStep - s.smsStep
  {
  }

  /** Opening and completing the review both put the cursor back at its start;
      completing it also forgets the answers and the action results. */
  lemma ReviewResets(s: StoreState)
    ensures OpenSMSFlow(s).smsStep == 0 && OpenSMSFlow(s).currentActionIndex == 0 && OpenSMSFlow(s).showSMSFlow
    ensures CompleteSMS(s).smsStep == 0 && CompleteSMS(s).currentActionIndex == 0 && !CompleteSMS(s).showSMSFlow
    ensures CompleteSMS(s).smsAnswers == [] && CompleteSMS(s).actionReviewResults == map[]
    ensures OpenSMSFlow(s).smsAnswers == s.smsAnswers && OpenSMSFlow(s).userActions == s.userActions
    ensures CompleteSMS(s).checkedActions == s.checkedActions
  {
  }

  // ---------------------------------------------------------------------------
  // Post composer

  function OpenPostComposer(s: StoreState, promptId: Option<string>): StoreState {
    s.(showPostComposer := true, selectedPromptId := promptId)
  }

  function ClosePostComposer(s: StoreState): StoreState {
    s.(showPostComposer := false, selectedPromptId := None)
  }
}
