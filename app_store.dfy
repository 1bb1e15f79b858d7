/** The store of app/state/appStore.ts as an object. The store's fields are kept in
    the eight groups the `AppState` interface lays them out in (navigation, goal form,
    onboarding lists, user progress, feed, share modal, review, composer); each store
    operation is a method that overwrites, in place, the fields its `set` calls name.
    `State()` reads the groups back as one `StoreModel.StoreState`, and every method
    is specified by the matching transition of `StoreModel`, whose properties are
    proved there. */
module AppStore {
  import opened Wrappers
  import opened Text
  import opened Types
  import Lists
  import StoreModel

  datatype Navigation = Navigation(appState: AppPhase, currentStep: int, currentScreen: Screen)

  datatype GoalForm = GoalForm(
    selectedGoal: string, goalMetric: string, goalDeadline: Date, goalWhy: string,
    selectedSharingOption: SharingOption)

  datatype Plan = Plan(
    performanceHabits: seq<PerformanceHabit>, milestones: seq<Milestone>,
    selectedActionType: Option<ActionType>, actions: seq<Action>)

  datatype Progress = Progress(
    user: User, userGoals: seq<UserGoal>, userActions: seq<UserAction>, checkedActions: map<string, bool>)

  datatype Feed = Feed(feedPosts: seq<FeedPost>, progressTab: ProgressTab, expandedGoalId: Option<string>)

  datatype ShareModal = ShareModal(
    showShareModal: bool, shareAction: Option<UserAction>, sharePrivacy: SharePrivacy, shareNote: string)

  datatype Review = Review(
    showGoalAnnouncement: bool, showSMSFlow: bool, smsStep: int, currentActionIndex: int,
    smsAnswers: seq<SMSAnswer>, actionReviewResults: map<string, ReviewResult>)

  datatype Composer = Composer(showPostComposer: bool, selectedPromptId: Option<string>)

  class Store {
    var nav: Navigation
    var goal: GoalForm
    var plan: Plan
    var progress: Progress
    var feed: Feed
    var share: ShareModal
    var review: Review
    var composer: Composer

    /** All the store's fields as one record. */
    function State(): StoreModel.StoreState
      reads this
    {
      StoreModel.StoreState(
        nav.appState, nav.currentStep, nav.currentScreen,
        goal.selectedGoal, goal.goalMetric, goal.goalDeadline, goal.goalWhy, goal.selectedSharingOption,
        plan.performanceHabits, plan.milestones, plan.selectedActionType, plan.actions,
        progress.user, progress.userGoals, progress.userActions, progress.checkedActions,
        feed.feedPosts, feed.progressTab, feed.expandedGoalId,
        share.showShareModal, share.shareAction, share.sharePrivacy, share.shareNote,
        review.showGoalAnnouncement, review.showSMSFlow, review.smsStep, review.currentActionIndex,
        review.smsAnswers, review.actionReviewResults,
        composer.showPostComposer, composer.selectedPromptId)
    }

    /** The store as created at instant `now`. */
    constructor (now: Date)
      ensures State() == StoreModel.InitialState(now)
    {
      nav := Navigation(Setup, 0, SocialScreen);
      goal := GoalForm("", "", now + 90 * DAY_MS, "", PublicSharing);
      plan := Plan([], [], None, []);
      progress := Progress(StoreModel.INITIAL_USER, [], [], map[]);
      feed := Feed(StoreModel.MockFeedPosts(now), PersonalTab, None);
      share := ShareModal(false, None, ShareWithGroup, "");
      review := Review(false, false, 0, 0, [], map[]);
      composer := Composer(false, None);
    }

    method SetAppState(phase: AppPhase)
      modifies this
      ensures State() == old(State()).(appState := phase)
    {
      nav := nav.(appState := phase);
    }

    method SetCurrentStep(step: int)
      modifies this
      ensures State() == old(State()).(currentStep := step)
    {
      nav := nav.(currentStep := step);
    }

    method SetCurrentScreen(screen: Screen)
      modifies this
      ensures State() == old(State()).(currentScreen := screen)
    {
      nav := nav.(currentScreen := screen);
    }

    method SetSelectedGoal(title: string)
      modifies this
      ensures State() == old(State()).(selectedGoal := title)
    {
      goal := goal.(selectedGoal := title);
    }

    method SetGoalMetric(metric: string)
      modifies this
      ensures State() == old(State()).(goalMetric := metric)
    {
      goal := goal.(goalMetric := metric);
    }

    method SetGoalDeadline(date: Date)
      modifies this
      ensures State() == old(State()).(goalDeadline := date)
    {
      goal := goal.(goalDeadline := date);
    }

    method SetGoalWhy(why: string)
      modifies this
      ensures State() == old(State()).(goalWhy := why)
    {
      goal := goal.(goalWhy := why);
    }

    method SetSelectedSharingOption(option: SharingOption)
      modifies this
      ensures State() == old(State()).(selectedSharingOption := option)
    {
      goal := goal.(selectedSharingOption := option);
    }

    method TogglePerformanceHabit(name: string)
      modifies this
      ensures State() == StoreModel.TogglePerformanceHabit(old(State()), name)
    {
      var habits := plan.performanceHabits;
      if Lists.HasKey(habits, StoreModel.HabitName, name) {
        habits := Lists.Filter(habits, Lists.KeyIsNot(StoreModel.HabitName, name));
      } else {
        habits := habits + [PerformanceHabit(name, None, None)];
      }
      plan := plan.(performanceHabits := habits);
    }

    method UpdateHabitTime(name: string, time: string)
      modifies this
      ensures State() == StoreModel.UpdateHabitTime(old(State()), name, time)
    {
      plan := plan.(performanceHabits := StoreModel.UpdateHabitTime(State(), name, time).performanceHabits);
    }

    method ToggleHabitReminder(name: string)
      modifies this
      ensures State() == StoreModel.ToggleHabitReminder(old(State()), name)
    {
      plan := plan.(performanceHabits := StoreModel.ToggleHabitReminder(State(), name).performanceHabits);
    }

    method AddMilestone(m: Milestone)
      modifies this
      ensures State() == StoreModel.AddMilestone(old(State()), m)
    {
      plan := plan.(milestones := plan.milestones + [m]);
    }

    method SelectActionType(t: ActionType)
      modifies this
      ensures State() == StoreModel.SelectActionType(old(State()), t)
    {
      plan := plan.(selectedActionType := Some(t));
    }

    method SaveAction(a: Action)
      modifies this
      ensures State() == StoreModel.SaveAction(old(State()), a)
    {
      plan := plan.(actions := plan.actions + [a.(kind := plan.selectedActionType)]);
    }

    method LockInGoal()
      modifies this
      ensures State() == StoreModel.LockInGoal(old(State()))
    {
      if goal.selectedGoal != "" && goal.goalMetric != "" {
        nav := nav.(currentStep := 1);
      }
    }

    method CompleteBoosters()
      modifies this
      ensures State() == StoreModel.CompleteBoosters(old(State()))
    {
      nav := nav.(currentStep := 2);
    }

    method CompleteMilestones()
      modifies this
      ensures State() == StoreModel.CompleteMilestones(old(State()))
    {
      nav := nav.(currentStep := 3);
    }

    method AddAnotherAction()
      modifies this
      ensures State() == StoreModel.AddAnotherAction(old(State()))
    {
      nav := nav.(currentStep := 3);
      plan := plan.(selectedActionType := None);
    }

    method CompleteSetup(now: nat, localeDate: Date -> string)
      modifies this
      ensures State() == StoreModel.CompleteSetup(old(State()), now, localeDate)
    {
      var newGoal := StoreModel.NewGoal(State(), now);
      var stamp := NatToString(now);
      var goalActions := StoreModel.GoalActions(plan.actions, stamp, newGoal.id, localeDate);
      var habitActions := StoreModel.HabitActions(plan.performanceHabits, stamp, newGoal.id);
      var public := goal.selectedSharingOption == PublicSharing;
      progress := progress.(userGoals := [newGoal], userActions := goalActions + habitActions);
      review := review.(showGoalAnnouncement := public);
      nav := nav.(appState := if public then Setup else Main);
    }

    method ToggleAction(id: string)
      modifies this
      ensures State() == StoreModel.ToggleAction(old(State()), id)
    {
      var found := Lists.Find(progress.userActions, ActionId, id);
      if found.Some? && found.value.kind == GoalAction {
        share := share.(shareAction := found, showShareModal := true);
      } else {
        var checked := progress.checkedActions;
        progress := progress.(checkedActions := checked[id := !IsChecked(checked, id)]);
      }
    }

    method HandleReaction(postId: string, emoji: string)
      modifies this
      ensures State() == StoreModel.HandleReaction(old(State()), postId, emoji)
    {
      feed := feed.(feedPosts := StoreModel.HandleReaction(State(), postId, emoji).feedPosts);
    }

    /** The three `set` calls in their order: check the action, post to the group, then
        close the modal. */
    method HandleShareAction(now: nat)
      modifies this
      ensures State() == StoreModel.HandleShareAction(old(State()), now)
    {
      if share.shareAction.Some? {
        var a := share.shareAction.value;
        progress := progress.(checkedActions := progress.checkedActions[a.id := true]);
        if share.sharePrivacy == ShareWithGroup {
          var user := progress.user;
          var post := StoreModel.OwnPost(user, Checkin, StoreModel.CheckinContent(share.shareNote, a), now, None);
          feed := feed.(feedPosts := [post] + feed.feedPosts);
        }
        share := ShareModal(false, None, ShareWithGroup, "");
      }
    }

    method SetSharePrivacy(privacy: SharePrivacy)
      modifies this
      ensures State() == old(State()).(sharePrivacy := privacy)
    {
      share := share.(sharePrivacy := privacy);
    }

    method SetShareNote(note: string)
      modifies this
      ensures State() == old(State()).(shareNote := note)
    {
      share := share.(shareNote := note);
    }

    method OpenSMSFlow()
      modifies this
      ensures State() == StoreModel.OpenSMSFlow(old(State()))
    {
      review := review.(showSMSFlow := true, smsStep := 0, currentActionIndex := 0);
    }

    method CompleteSMS()
      modifies this
      ensures State() == StoreModel.CompleteSMS(old(State()))
    {
      review := review.(showSMSFlow := false, smsStep := 0, currentActionIndex := 0,
        smsAnswers := [], actionReviewResults := map[]);
    }

    method NextActionOrStep()
      modifies this
      ensures State() == StoreModel.NextActionOrStep(old(State()))
    {
      var missed := StoreModel.Missed(progress.userActions, progress.checkedActions);
      var r := review;
      if r.currentActionIndex < |missed| - 1 {
        review := r.(currentActionIndex := r.currentActionIndex + 1);
      } else {
        review := r.(smsStep := r.smsStep + 1, currentActionIndex := 0);
      }
    }

    method FinishSetup()
      modifies this
      ensures State() == StoreModel.FinishSetup(old(State()))
    {
      nav := nav.(appState := Main);
      review := review.(showGoalAnnouncement := false);
    }

    method OpenPostComposer(promptId: Option<string>)
      modifies this
      ensures State() == StoreModel.OpenPostComposer(old(State()), promptId)
    {
      composer := Composer(true, promptId);
    }

    method ClosePostComposer()
      modifies this
      ensures State() == StoreModel.ClosePostComposer(old(State()))
    {
      composer := Composer(false, None);
    }

    method PublishPost(content: string, now: nat)
      modifies this
      ensures State() == StoreModel.PublishPost(old(State()), content, now)
    {
      var post := StoreModel.OwnPost(progress.user, Prompted, content, now, None);
      feed := feed.(feedPosts := [post] + feed.feedPosts);
    }
  }
}
