# A verified model of the goal-tracking app's client state

The app walks a new user through onboarding:
- a goal with a metric and a deadline;
- performance habits;
- milestones;
- goal actions;
- a public or private commitment.

It then gives them three main screens:
- a daily checklist of those actions;
- a social feed of posts with emoji reactions;
- progress and profile summaries.

All of this runs on one client-side store (`app/state/appStore.ts`). Each store operation rewrites some of its fields. The screens and modals add guards, local form state and derived views on top.

This project models that store and those handlers in Dafny and proves what they promise.

- **`StoreModel`** (`store_model.dfy`) holds the store as a value, `StoreState`, with one pure transition per store operation. The lemmas about these transitions cover:
  - the onboarding steps;
  - the keyed habit toggle;
  - setup creating the goal and its actions;
  - checking an action off versus opening the share modal;
  - reactions and prepended posts;
  - the share flow;
  - the review cursor.
- **`AppStore.Store`** (`app_store.dfy`) is the store as a mutable object. It has one method per operation, and each method's postcondition ties the new state to the old state through the `StoreModel` transition. `HandleShareAction` performs its three updates in sequence, as the source does.
- **One module per screen or modal** holds the component's local React state as a class where it has one, its handlers as methods on the store, and its derived views as functions with their properties proved:
  - `HabitsScreen`, `MilestonesScreen`, `ActionsSetupScreen`;
  - `GoalAnnouncement`, `SkipSetup`, `AppNavigator`;
  - `DailyScreen`, `ShareModal`, `DailyReview`, `DailyReflection`;
  - `ProgressScreen`, `ProfileScreen`, `SocialScreen`;
  - `QuickCompose`, `PromptComposer`, `PostComposer`.
- **`Types`, `Constants`, `Lists`, `Text`, `Wrappers`** hold the records, the prompt and mock-data tables, and the JavaScript array and string operations the code relies on: `filter`, `find`, the remove-or-append toggle, `trim`, `split`/`join` and `Date.now().toString()`.

Clock values are parameters: `now` for `Date.now()` and `Date` values for `new Date()`. Locale date formatting is a function parameter `localeDate`, and the random order of the prompt carousel is a parameter `shuffled`.

## Model

| member | source | states |
|---|---|---|
| StoreModel.InitialStateFacts | app/state/appStore.ts:188-226 | the store starts in onboarding at step 0, the default deadline is 90 days after the instant it is created, nothing is waiting for review, the feed holds the two sample posts newest first, and no share is pending |
| StoreModel.LockInGoalGuard | app/state/appStore.ts:273-278 | locking in a goal either moves to step 1 or changes nothing; it changes the store exactly when a goal and a metric are entered and the step was not already 1, and it never touches anything but the step |
| StoreModel.OnboardingWalk | app/state/appStore.ts:273-281 | from step 0 with a goal and a metric, locking in, finishing the boosters and finishing the milestones reach steps 1, 2 and 3 in turn, with every other field as it started |
| StoreModel.TogglePerformanceHabitFlips | app/state/appStore.ts:238-249 | after a toggle a habit with that name is selected exactly when none was before, every other name is selected exactly as before, and only the habit list changes |
| StoreModel.TogglePerformanceHabitTwice | app/state/appStore.ts:238-249 | toggling a name that is not selected twice restores the store |
| StoreModel.HabitOperationsKeepNamesDistinct | app/state/appStore.ts:238-261 | a habit list without repeated names keeps that property under toggling, setting a time and toggling a reminder |
| StoreModel.HabitEditsKeepNames | app/state/appStore.ts:251-261 | setting a time or toggling a reminder keeps the list's length, each position's name and every other field; the habits with that name get the new time, or the negated reminder, and the others are unchanged |
| StoreModel.AppendsAtEnd | app/state/appStore.ts:263-271 | adding a milestone or saving an action appends exactly one entry after the old list; the saved action carries the currently selected type and is otherwise the action given |
| StoreModel.CompleteSetupGoal | app/state/appStore.ts:284-296 | setup leaves exactly one goal, carrying the entered title, metric, deadline, reason and milestones, at progress 0, and public exactly when public sharing was chosen |
| StoreModel.CompleteSetupActions | app/state/appStore.ts:298-314 | the user actions are the saved actions in order and then the habits in order, all attached to the new goal; goal actions carry the locale date or the joined frequency, habits their time or "Daily" |
| StoreModel.HabitScheduleDefault | app/state/appStore.ts:308-313 | a habit's schedule is never empty: its time when one was entered, and "Daily" exactly when none (or an empty one, or "Daily" itself) was |
| StoreModel.CompleteSetupPhase | app/state/appStore.ts:316-321 | the announcement is shown exactly for public sharing, the main screens are reached straight away exactly for private sharing, and nothing but the goals, the user actions and those two fields changes |
| StoreModel.CompleteSetupIdsDistinct | app/state/appStore.ts:298-314 | every user action setup creates has its own id, and none of them is the goal's id |
| StoreModel.Missed | app/state/appStore.ts:407-410 | the unchecked actions: a sub-list of the user actions that holds every action not checked off and nothing checked |
| StoreModel.ToggleActionOpensShare | app/state/appStore.ts:324-333 | when the first action with the id is of goal type, toggling opens the share modal on that action and changes nothing else |
| StoreModel.ToggleActionFlips | app/state/appStore.ts:334-340 | in every other case (a habit, or an id no action has) toggling flips that id's checked flag, keeps every other flag, and changes nothing else |
| StoreModel.ToggleActionTwice | app/state/appStore.ts:334-340 | toggling such an id twice leaves every checked flag as it was |
| StoreModel.HandleReactionCounts | app/state/appStore.ts:343-352 | a reaction raises that emoji's count by exactly one, from zero when it had none, on every post with the id; all other counts, fields and posts stay as they were |
| StoreModel.PublishPostPrepends | app/state/appStore.ts:431-448 | publishing puts exactly one prompted post in front of the unchanged feed, with the content given, the user's id and name, no reactions and no prompt id, and nothing else changes |
| StoreModel.HandleShareActionState | app/state/appStore.ts:354-392 | with no action selected nothing changes; otherwise the action ends checked with no other flag moved, the modal ends closed with no action, an empty note and group privacy, and nothing else but the feed changes |
| StoreModel.HandleShareActionFeed | app/state/appStore.ts:362-382 | with an action selected: shared with the group, one check-in post with no reactions and the note, or "Completed: " and the name for an empty note, goes in front of the feed; kept private, the feed is unchanged |
| StoreModel.NextActionOrStepCursor | app/state/appStore.ts:407-417 | the index advances while it is below the number of unchecked actions minus one, otherwise the step advances and the index returns to 0; the index move does not depend on the step, and nothing else changes |
| StoreModel.ReviewResets | app/state/appStore.ts:397-405 | opening and completing the review both put the cursor at step 0, index 0; completing it hides the review and forgets the answers and results but keeps the checked flags; opening keeps the answers |
| AppStore.Store.constructor | app/state/appStore.ts:188-226 | the new store is the initial store at the creation instant |
| AppStore.Store.SetAppState | app/state/appStore.ts:228 | only the app phase changes, to the value given |
| AppStore.Store.SetCurrentStep | app/state/appStore.ts:229 | only the onboarding step changes |
| AppStore.Store.SetCurrentScreen | app/state/appStore.ts:230 | only the current screen changes |
| AppStore.Store.SetSelectedGoal | app/state/appStore.ts:232 | only the goal title changes |
| AppStore.Store.SetGoalMetric | app/state/appStore.ts:233 | only the metric changes |
| AppStore.Store.SetGoalDeadline | app/state/appStore.ts:234 | only the deadline changes |
| AppStore.Store.SetGoalWhy | app/state/appStore.ts:235 | only the reason changes |
| AppStore.Store.SetSelectedSharingOption | app/state/appStore.ts:236 | only the sharing option changes |
| AppStore.Store.TogglePerformanceHabit | app/state/appStore.ts:238-249 | the new state is the habit toggle of the old state, whose properties `TogglePerformanceHabitFlips` and `TogglePerformanceHabitTwice` prove |
| AppStore.Store.UpdateHabitTime | app/state/appStore.ts:251-255 | the new state is the time update of the old state (see `HabitEditsKeepNames`) |
| AppStore.Store.ToggleHabitReminder | app/state/appStore.ts:257-261 | the new state is the reminder toggle of the old state (see `HabitEditsKeepNames`) |
| AppStore.Store.AddMilestone | app/state/appStore.ts:263-265 | the milestone is appended (see `AppendsAtEnd`) |
| AppStore.Store.SelectActionType | app/state/appStore.ts:267 | only the selected action type changes |
| AppStore.Store.SaveAction | app/state/appStore.ts:269-271 | the action is appended with the selected type (see `AppendsAtEnd`) |
| AppStore.Store.LockInGoal | app/state/appStore.ts:273-278 | the new state is the guarded step change of `LockInGoalGuard` |
| AppStore.Store.CompleteBoosters | app/state/appStore.ts:280 | only the step changes, to 2 |
| AppStore.Store.CompleteMilestones | app/state/appStore.ts:281 | only the step changes, to 3 |
| AppStore.Store.AddAnotherAction | app/state/appStore.ts:282 | back to step 3 with no action type selected |
| AppStore.Store.CompleteSetup | app/state/appStore.ts:284-322 | the new state is the setup transition, whose goal, actions, ids and phase are proved in `CompleteSetupGoal`, `CompleteSetupActions`, `CompleteSetupIdsDistinct` and `CompleteSetupPhase` |
| AppStore.Store.ToggleAction | app/state/appStore.ts:324-341 | the new state is the toggle transition (see `ToggleActionOpensShare` and `ToggleActionFlips`) |
| AppStore.Store.HandleReaction | app/state/appStore.ts:343-352 | the new state is the reaction transition (see `HandleReactionCounts`) |
| AppStore.Store.HandleShareAction | app/state/appStore.ts:354-392 | the three updates in order give the share transition (see `HandleShareActionState` and `HandleShareActionFeed`) |
| AppStore.Store.SetSharePrivacy | app/state/appStore.ts:394 | only the share privacy changes |
| AppStore.Store.SetShareNote | app/state/appStore.ts:395 | only the share note changes |
| AppStore.Store.OpenSMSFlow | app/state/appStore.ts:397 | the review opens at its start (see `ReviewResets`) |
| AppStore.Store.CompleteSMS | app/state/appStore.ts:399-405 | the review closes and forgets its answers and results (see `ReviewResets`) |
| AppStore.Store.NextActionOrStep | app/state/appStore.ts:407-417 | the cursor moves as `NextActionOrStepCursor` states |
| AppStore.Store.FinishSetup | app/state/appStore.ts:419 | the main screens are shown and the announcement hidden |
| AppStore.Store.OpenPostComposer | app/state/appStore.ts:421-424 | the composer opens on the prompt id given |
| AppStore.Store.ClosePostComposer | app/state/appStore.ts:426-429 | the composer closes and forgets its prompt |
| AppStore.Store.PublishPost | app/state/appStore.ts:431-448 | the post goes in front of the feed (see `PublishPostPrepends`) |
| Constants.ComposedContentSpec | app/components/QuickCompose.tsx:67-69 | a composed post always ends with the text as typed: exactly the text for the free-form prompt, the prompt's emoji, a space, its full text and a blank line before the text for any other |
| PostComposer.AllPromptIdsDistinct | app/constants/prompts.ts:8-51 | the six social prompts and the free-form prompt have seven different ids |
| PostComposer.SelectedPromptSpec | app/screens/modals/postComposerModal.tsx:33-35 | a found prompt carries the id asked for and is one of the known prompts; the lookup comes back undefined exactly for a non-empty id no prompt has; every known prompt is found by its own id |
| PostComposer.PlaceholderSpec | app/screens/modals/postComposerModal.tsx:124 | the prompted placeholder shows exactly when the modal was opened with the id of a known prompt, and the free one for no prompt id and for an unknown one |
| PostComposer.Form.constructor | app/screens/modals/postComposerModal.tsx:29 | the text box starts empty |
| PostComposer.Form.ChangeText | app/screens/modals/postComposerModal.tsx:127 | the box holds what was typed |
| PostComposer.Form.HandlePublish | app/screens/modals/postComposerModal.tsx:68-73 | it publishes exactly when the content is not blank, the content trimmed, and then clears the box; otherwise neither the store nor the box changes |
| PostComposer.Form.Cancel | app/screens/modals/postComposerModal.tsx:110 | the composer closes in the store and the box keeps its text |
| PostComposer.PublishKeepsModalOpen | app/screens/modals/postComposerModal.tsx:68-73 | publishing leaves the modal open on the same prompt, and the new post's content neither starts nor ends with whitespace, so trimming it again changes nothing |
| PostComposer.CloseThenOpen | app/state/appStore.ts:421-429 | closing hides the modal and forgets its prompt, and opening after closing is the same as opening directly |
| PromptComposer.SocialPromptIds | app/constants/prompts.ts:8-51 | the social prompt ids are pairwise different and none is the free-form id |
| PromptComposer.CarouselPromptsSpec | app/components/PromptComposer.tsx:53-57 | for any order of the social prompts the carousel has four pages: three social prompts and then the free-form prompt, which appears nowhere else |
| PromptComposer.CarouselPromptsDistinct | app/components/PromptComposer.tsx:53-57 | the four pages show four different prompts |
| PromptComposer.ShuffleHasNoRepeats | app/components/PromptComposer.tsx:54 | any reordering of the social prompts repeats no prompt |
| PromptComposer.Carousel.constructor | app/components/PromptComposer.tsx:25-57 | the carousel is fixed on mount, on its first page with an empty text |
| PromptComposer.Carousel.CurrentPrompt | app/components/PromptComposer.tsx:58 | there is a current prompt exactly when the page index is inside the carousel, and it is that page's prompt |
| PromptComposer.Carousel.ScrollEnd | app/components/PromptComposer.tsx:79-83 | the page index becomes the snapped page and the text is kept |
| PromptComposer.Carousel.ChangeText | app/components/PromptComposer.tsx:26 | the text is replaced and the page kept |
| PromptComposer.Carousel.HandlePost | app/components/PromptComposer.tsx:67-77 | it posts exactly when the text is not blank, the composed content for the current page, and clears the text; otherwise nothing changes; the page never moves |
| PromptComposer.CarouselPagesSpec | app/components/PromptComposer.tsx:60-65 | of the four pages, exactly the last shows the free-form placeholder |
| QuickCompose.PostAcceptedSpec | app/components/QuickCompose.tsx:65-66 | a post is accepted exactly when some character is not whitespace and a prompt is selected |
| QuickCompose.PlaceholderTellsStates | app/components/QuickCompose.tsx:77-81 | equal placeholders mean the same state: no prompt, the free-form prompt, or some other prompt |
| QuickCompose.Composer.constructor | app/components/QuickCompose.tsx:28-29 | collapsed with no text, on the prompt it was given |
| QuickCompose.Composer.PromptChanged | app/components/QuickCompose.tsx:36-63 | selecting a prompt expands the box and keeps the text; deselecting collapses it and clears the text |
| QuickCompose.Composer.ChangeText | app/components/QuickCompose.tsx:121 | the text is replaced, nothing else changes |
| QuickCompose.Composer.AppendEmoji | app/components/QuickCompose.tsx:137-151 | a space and the emoji are appended to the text |
| QuickCompose.Composer.HandlePost | app/components/QuickCompose.tsx:65-75 | it posts and asks to close exactly when the post is accepted, the composed content, and clears the text; otherwise nothing changes |
| QuickCompose.PostedContent | app/components/QuickCompose.tsx:67-71 | after a free-form post the feed starts with the text as typed, whitespace included; after any other it starts with the prompt's header and then the text |
| ProfileScreen.StatsSpec | app/screens/profileScreen.v2.tsx:58-66 | every goal is active and none completed; the habits are the performance actions, and with the goal actions they make up every action |
| ProfileScreen.HabitsAfterGoalActions | app/screens/profileScreen.v2.tsx:59 | in a list of goal actions followed by habits, the habit count is the length of the tail |
| ProfileScreen.SetupProfileStats | app/screens/profileScreen.v2.tsx:58-66 | after setup the profile shows one goal, one active, none completed, and one habit per selected performance habit |
| ProfileScreen.SkipProfileStats | app/screens/profileScreen.v2.tsx:58-66 | after the skip the profile shows the mock goal, active, and its two habits |
| DailyScreen.RoundPercent | app/screens/dailyScreen.tsx:67-80 | a percentage of an empty group is 0; otherwise it lies within half a point of c/n·100, and it never exceeds 100 when c ≤ n |
| DailyScreen.RoundPercentEnds | app/screens/dailyScreen.tsx:67-80 | no completions give 0% and all completions give 100% |
| DailyScreen.ProgressCounts | app/screens/dailyScreen.tsx:60-83 | "completed" counts the checked actions of either type, "total" counts every action, so completed ≤ total; an action without a checked entry counts as unchecked |
| DailyScreen.ProgressPercentages | app/screens/dailyScreen.tsx:67-80 | every percentage lies in 0..100, and a group with no actions shows 0% |
| DailyScreen.ActionsForGoalSpec | app/screens/dailyScreen.tsx:273-275 | a goal lists exactly the user's actions that carry its id, in their order, and listing a concatenation lists its two parts in turn |
| DailyScreen.FreshGoalListsAllActions | app/screens/dailyScreen.tsx:273-275 | right after setup, and right after the skip, the one goal lists every user action in order |
| DailyScreen.TestShareModalPressed | app/screens/dailyScreen.tsx:328-338 | the debugging button opens the share modal on the made-up goal action and changes nothing else |
| GoalAnnouncement.AnnounceSpec | app/screens/modals/goalAnnouncementModal.tsx:27-45 | announcing puts exactly one goal-announcement post, titled with the goal, with the committing text and no reactions, in front of the unchanged feed, reaches the main screens and hides the modal; nothing else changes |
| GoalAnnouncement.KeepQuietSpec | app/screens/modals/goalAnnouncementModal.tsx:47-49 | keeping quiet leaves the feed alone, reaches the main screens and hides the modal, and changes nothing else |
| GoalAnnouncement.SetupThenAnnouncement | app/state/appStore.ts:316-321 | after setup the modal is visible exactly for a public goal, and either exit reaches the main screens with the goals and actions as set up |
| GoalAnnouncement.HandleAnnounce | app/screens/modals/goalAnnouncementModal.tsx:27-45 | the store takes the announcing transition of `AnnounceSpec` |
| GoalAnnouncement.HandleKeepQuiet | app/screens/modals/goalAnnouncementModal.tsx:47-49 | the store takes the quiet transition of `KeepQuietSpec` |
| ShareModal.HandleCloseSpec | app/screens/modals/shareActionModal.tsx:28-34 | cancelling closes the modal with no action and no note, keeps the privacy, checks nothing and posts nothing, and changes nothing else |
| ShareModal.NoteFieldFollowsPrivacy | app/screens/modals/shareActionModal.tsx:100-110 | choosing the group brings up the note field whenever the modal is rendered, choosing private takes it away, and no note field is left after either exit |
| ShareModal.CancelKeepsPrivacy | app/screens/modals/shareActionModal.tsx:28-34 | a private choice survives a cancel but completing resets it to the group; both close the modal |
| ShareModal.TapThenCancelChecksNothing | app/screens/modals/shareActionModal.tsx:28-34 | tapping a goal action and cancelling leaves every checked flag as it was, while completing checks that action |
| ShareModal.HandleClosePressed | app/screens/modals/shareActionModal.tsx:28-34 | the store takes the cancel transition |
| ShareModal.CompletePressed | app/screens/modals/shareActionModal.tsx:125 | the store takes the share transition of `HandleShareActionState` |
| SkipSetup.MockActionsGoal | app/constants/mockData.ts:27-56 | there are four mock actions, all attached to the mock goal |
| SkipSetup.MockActionsKinds | app/constants/mockData.ts:27-56 | two mock actions are of goal type and two are habits |
| SkipSetup.MockActionIdsDistinct | app/constants/mockData.ts:27-56 | no two mock actions share an id |
| SkipSetup.SkipSpec | app/hooks/useSkipSetup.ts:11-14 | after the skip the app is on its main screens at step 0 with the mock goal as its one goal and the mock actions, all attached to it; the checked flags, the feed and every other field stay as they were |
| SkipSetup.SkipSetupPressed | app/hooks/useSkipSetup.ts:11-14 | the store takes the skip transition of `SkipSpec` |
| ActionsSetupScreen.SavedActionShape | app/screens/onboarding/actionsSetupScreen.tsx:35-43 | an action saved from the form has the picked type, a date exactly when it is one-time and a frequency exactly when it is a commitment, and the name and milestone entered |
| ActionsSetupScreen.SummaryStaysAfterSave | app/screens/onboarding/actionsSetupScreen.tsx:77 | once an action is saved the picker is gone, and "add another" clears the type but keeps the saved actions, so the picker does not come back |
| ActionsSetupScreen.ActionForm.constructor | app/screens/onboarding/actionsSetupScreen.tsx:29-33 | a blank form dated when it opens |
| ActionsSetupScreen.ActionForm.HandleSaveAction | app/screens/onboarding/actionsSetupScreen.tsx:35-51 | with a name and a milestone entered it saves the form's action for the selected type and clears all five fields; otherwise neither the store nor the form changes |
| ActionsSetupScreen.ActionForm.ToggleFrequencyPressed | app/screens/onboarding/actionsSetupScreen.tsx:53-59 | a day chip removes that day from the picks when present and appends it otherwise, and touches no other field |
| HabitsScreen.ToggledOnHabitIsBlank | app/screens/onboarding/performanceHabitsScreen.tsx:27-40 | a habit just toggled on is selected, shows no time and no reminder |
| HabitsScreen.UpdateHabitTimeShown | app/screens/onboarding/performanceHabitsScreen.tsx:27-35 | after a time edit the edited habit shows the new time, every other name shows the time and reminder it showed, and no habit is selected or deselected |
| HabitsScreen.ToggleHabitReminderShown | app/screens/onboarding/performanceHabitsScreen.tsx:27-40 | after ticking a reminder the habit's reminder shows flipped, every other name shows the reminder it showed, times are unchanged, and no habit is selected or deselected |
| HabitsScreen.SameKeysSameSelection | app/screens/onboarding/performanceHabitsScreen.tsx:27-29 | two habit lists with the same names position by position select the same names |
| HabitsScreen.ContinueGuardOnlyInScreen | app/screens/onboarding/performanceHabitsScreen.tsx:109-110 | with no habit selected Continue is disabled, though the store's own step change would still go to step 2 |
| MilestonesScreen.MilestoneForm.constructor | app/screens/onboarding/milestonesScreen.tsx:27-29 | a blank form dated when it opens |
| MilestonesScreen.MilestoneForm.HandleAddMilestone | app/screens/onboarding/milestonesScreen.tsx:31-42 | with a name and a metric entered it appends the milestone to the store and clears the form; otherwise neither the store nor the form changes |
| MilestonesScreen.Continue | app/screens/onboarding/milestonesScreen.tsx:179 | Continue moves to step 3 however many milestones there are |
| MilestonesScreen.InsertByDate | app/screens/onboarding/milestonesScreen.tsx:44-46 | inserting into a list sorted by date keeps it sorted and adds exactly the one milestone |
| MilestonesScreen.SortedMilestones | app/screens/onboarding/milestonesScreen.tsx:44-46 | the list shown is sorted by date and is a reordering of the stored milestones |
| MilestonesScreen.InsertByDateStable | app/screens/onboarding/milestonesScreen.tsx:44-46 | inserting a milestone puts it ahead of the milestones with its date and keeps the milestones of every date in their order |
| MilestonesScreen.SortedMilestonesStable | app/screens/onboarding/milestonesScreen.tsx:44-46 | the sort is stable: the milestones of any one date are shown in the order the store holds them |
| MilestonesScreen.SortedMilestonesKeepsSorted | app/screens/onboarding/milestonesScreen.tsx:44-46 | a list already in date order is shown as it is |
| AppNavigator.OnboardingScreenFor | app/navigation/appNavigator.tsx:146-153 | steps 0 to 3 show the goal, habits, milestones and actions screens in that order, and any other step shows no screen |
| AppNavigator.OnboardingScreensDistinct | app/navigation/appNavigator.tsx:146-153 | two steps that show the same screen are the same step |
| AppNavigator.OnboardingStepsShowNextScreen | app/navigation/appNavigator.tsx:146-153 | after locking in a complete goal the habits screen shows; after the boosters, the milestones; after the milestones or "add another", the actions setup |
| AppNavigator.RootScreen | app/navigation/appNavigator.tsx:320-324 | the onboarding stack shows exactly while the app is in its setup phase |
| AppNavigator.SetupExitsShowMain | app/navigation/appNavigator.tsx:320-324 | setup reaches the main tabs straight away exactly for private sharing; finishing the setup and skipping it always reach them |
| AppNavigator.InitialRouteMatchesListeners | app/navigation/appNavigator.tsx:264-301 | the initial tab chosen from the current screen and the screen each tab's listener writes are inverse to each other |
| AppNavigator.TabLabelFallback | app/navigation/appNavigator.tsx:190-194 | a tab's label is its own label when set, else its title when set; with neither set, which is the case for all four tabs, it is the route name, and two tabs show the same label only when they are the same tab |
| AppNavigator.PressTab | app/navigation/appNavigator.tsx:198-208 | a press writes that tab's screen into the store and changes nothing else; it navigates exactly when the tab is not focused and the default was not prevented |
| DailyReflection.IndicatorStepSpec | app/screens/modals/dailyReflectionModal.tsx:132-133 | in the journal the indicator shows its last dot; during the check-in on a missed action it shows one of the dots before it |
| DailyReflection.CurrentAction | app/screens/modals/dailyReflectionModal.tsx:58-59 | there is a current action exactly when the index lies inside the missed actions; it is the missed action at that place, one of the user's actions, and not checked off |
| DailyReflection.CheckOffSplits | app/screens/modals/dailyReflectionModal.tsx:83-88 | once an id is checked off, an action is unchecked exactly when it was unchecked before and has another id |
| DailyReflection.YesRemovesAnsweredAction | app/screens/modals/dailyReflectionModal.tsx:79-88 | with distinct ids, answering "Yes" takes exactly the answered action out of the missed actions and keeps the rest in order |
| DailyReflection.YesShiftsCurrentAction | app/screens/modals/dailyReflectionModal.tsx:79-88 | so after a "Yes" the same index already points at the action after the answered one |
| DailyReflection.AddedTodosSpec | app/screens/modals/dailyReflectionModal.tsx:115-123 | a to-do is added exactly when the input is not all whitespace; it goes last, trimmed, so it neither starts with whitespace nor changes when trimmed again, and the earlier to-dos stay |
| DailyReflection.RemovedTodoSpec | app/screens/modals/dailyReflectionModal.tsx:125-130 | removing the to-do at a position shortens the list by one, keeps the others in order, and takes out exactly that entry |
| DailyReflection.ReflectionModal.constructor | app/screens/modals/dailyReflectionModal.tsx:50-53 | no answer, no reason, no emoji and no to-do input |
| DailyReflection.ReflectionModal.ResetForNext | app/screens/modals/dailyReflectionModal.tsx:102-107 | the answer, the reason and the emojis are cleared and the to-do input kept |
| DailyReflection.ReflectionModal.HandleActionResponse | app/screens/modals/dailyReflectionModal.tsx:79-93 | "Yes" checks off the current action, resets the form and asks for the next action; "No" only records the answer, leaving the store and the form otherwise as they were |
| DailyReflection.ReflectionModal.HandleBlockerSubmit | app/screens/modals/dailyReflectionModal.tsx:95-100 | with a reason or an emoji it asks to record the blocker, with that reason and those emojis, for the current missed action `missedActions[index]`, and resets the form; otherwise nothing happens |
| DailyReflection.ReflectionModal.ToggleEmoji | app/screens/modals/dailyReflectionModal.tsx:109-113 | an emoji is removed from the picks when present and appended otherwise; the other fields stay |
| DailyReflection.ReflectionModal.AddTodo | app/screens/modals/dailyReflectionModal.tsx:115-123 | it asks for the list of `AddedTodosSpec` and clears the input exactly when that list exists; otherwise nothing changes |
| DailyReview.MissedConcat | app/screens/modals/dailyReviewModal.tsx:33-35 | the missed actions keep the order of the user's actions: those of a concatenation are those of each part in turn |
| DailyReview.CurrentAction | app/screens/modals/dailyReviewModal.tsx:37 | there is an action under review exactly when the index lies inside the missed actions, and it is one of the user's actions that is not checked off |
| DailyReview.CurrentQuestion | app/screens/modals/dailyReviewModal.tsx:38 | there is a question exactly at steps 1 to 5, and it is that step's day-review question |
| DailyReview.RenderPhaseCases | app/screens/modals/dailyReviewModal.tsx:80-135 | the action review shows at step 0 while the index points at a missed action, a question at steps 1 to 5, and nothing at step 0 with no missed action |
| DailyReview.ActionResult | app/screens/modals/dailyReviewModal.tsx:45-48 | a result keeps the answer given, and carries the reason exactly when the action was not completed |
| DailyReview.ReviewActionSpec | app/screens/modals/dailyReviewModal.tsx:40-56 | reviewing records the result under the action's id, checks nothing off, and moves the cursor as the store does over the unchanged missed actions; nothing else changes |
| DailyReview.ReviewRunEnds | app/state/appStore.ts:407-417 | reviewing every missed action from any point of the action review reaches the first question with the index back at 0, with the checked flags unchanged |
| DailyReview.ReviewRunKeeps | app/screens/modals/dailyReviewModal.tsx:42-50 | a result already recorded is still there at the end of the action review |
| DailyReview.ReviewRunRecords | app/screens/modals/dailyReviewModal.tsx:40-56 | every missed action from the cursor on has a result recorded at the end of the action review |
| DailyReview.ReviewRunStep | app/state/appStore.ts:407-417 | one review step keeps the missed actions and the results, records the action under review, and moves to the next action, or to the first question after the last one |
| DailyReview.AnswerQuestionSpec | app/screens/modals/dailyReviewModal.tsx:58-78 | before the last question the answer is appended with its question's text and the cursor moves on over the unchanged missed actions; the last answer completes the review, which throws every answer and result away |
| DailyReview.AnswerButtonTitleSpec | app/screens/modals/dailyReviewModal.tsx:202 | the button reads "Complete" exactly on the last question, which is exactly when answering completes the review |
| DailyReview.QuestionRunFollowsCursor | app/screens/modals/dailyReviewModal.tsx:58-78 | the questions answered in a row are determined by the cursor and the number of missed actions alone |
| DailyReview.Rep | app/state/appStore.ts:407-417 | n copies of a step: n entries all equal to it |
| DailyReview.AnsweredStepsRound | app/state/appStore.ts:407-417 | a question before the last is answered once per index still ahead (once when no action is missed), and then the next question starts at index 0 |
| DailyReview.AnsweredStepsRounds | app/state/appStore.ts:407-417 | from the first question, questions 1 to 4 each come round once per missed action and question 5 once |
| DailyReview.QuestionLoop | app/screens/modals/dailyReviewModal.tsx:58-78 | answering from the first question asks questions 1 to 4 once per missed action each (once when none is missed) and question 5 once: 4k + 1 answers in all |
| DailyReview.ReviewModal.constructor | app/screens/modals/dailyReviewModal.tsx:29-31 | no answer, no choice and no reason |
| DailyReview.ReviewModal.HandleActionReview | app/screens/modals/dailyReviewModal.tsx:40-56 | once yes or no is chosen the store takes the review step of `ReviewActionSpec` and the choice and the reason are cleared; before that nothing changes |
| DailyReview.ReviewModal.HandleQuestionAnswer | app/screens/modals/dailyReviewModal.tsx:58-78 | with a non-empty answer, or on a yes/no question, the store takes the answer step of `AnswerQuestionSpec` and the answer is cleared; otherwise nothing changes |
| DailyReview.ClosePressed | app/screens/modals/dailyReviewModal.tsx:220 | closing completes the review |
| ProgressScreen.UserStatsSpec | app/screens/progressScreen.v2.tsx:55-68 | the summary counts every action and every true checked entry, shows the constant streaks 7 and 14 and a 0% rate without actions; the rate stays within 100 when every checked id belongs to one of the user's actions |
| ProgressScreen.CompletionRateExceeds100 | app/screens/progressScreen.v2.tsx:57-64 | with one action checked and the debugging action of the daily screen also checked, the rate as written is 200% |
| ProgressScreen.CorrectedUserStatsSpec | app/screens/progressScreen.v2.tsx:55-68 | counting only the user's own checked actions, the rate never exceeds 100, is 0 without actions and 100 when all are checked, a rate of 100 means at least 199 in 200 are checked, and it agrees with the summary as written whenever the ids are distinct and every checked id belongs to an action |
| ProgressScreen.KeyMetricsSpec | app/screens/progressScreen.v2.tsx:70-87 | one metric per goal, in goal order, with the goal's id, title and milestones; its actions are exactly the user's actions for that goal, and its progress lies in 0..100 and is 0 without actions |
| ProgressScreen.ExpandedAfterTap | app/screens/progressScreen.v2.tsx:214-231 | a tap opens the tapped card exactly when it was not the open one, and closes everything exactly when it was |
| ProgressScreen.FullRateShortOfAll | app/screens/progressScreen.v2.tsx:64 | 199 checked of 200 already show as 100%, and 198 of 200 as 99% |
| ProgressScreen.TapWrite | app/screens/progressScreen.v2.tsx:34 | a tap opens the tapped card exactly when the drawn view did not show it open, closes every card exactly when it did, and changes no other field of the store |
| ProgressScreen.TapsFromOneDrawing | app/screens/progressScreen.v2.tsx:214-231 | two taps on a card with no drawing in between write the same value, so from a view with that card closed both taps open it |
| ProgressScreen.TapTwiceWithDrawing | app/screens/progressScreen.v2.tsx:214-231 | when the screen is drawn again between two taps on a card, the second tap undoes the first, unless only that card was open; a tap on another card after a drawing moves the expansion there |
| ProgressScreen.TapGoalCard | app/screens/progressScreen.v2.tsx:231 | the tap writes into the store the value computed from the `expandedGoalId` the card was drawn with, and changes nothing else |
| ProgressScreen.PressProgressTab | app/screens/progressScreen.v2.tsx:115 | only the progress tab changes, to the one pressed |
| SocialScreen.CapitalizeAll | app/screens/socialScreen.tsx:134 | capitalizing the segments succeeds exactly when no segment is empty, and then gives one capitalized word per segment |
| SocialScreen.CharLabel | app/screens/socialScreen.tsx:134 | the reference label is as long as the id |
| SocialScreen.PromptLabelSpec | app/screens/socialScreen.tsx:134 | the label renders exactly for ids that are not empty, neither start nor end with a hyphen and have no two hyphens in a row; it is then the reference label, as long as the id with a space for each hyphen |
| SocialScreen.WellFormedJoin | app/screens/socialScreen.tsx:134 | hyphen-free segments joined with hyphens give a well-formed id exactly when no segment is empty |
| SocialScreen.WellFormedAround | app/screens/socialScreen.tsx:134 | a hyphen-free word, a hyphen and a rest form a well-formed id exactly when the word is not empty and the rest is well formed |
| SocialScreen.LabelOfJoin | app/screens/socialScreen.tsx:134 | the capitalized words joined with spaces are the reference label of the hyphen-joined segments |
| SocialScreen.PromptIdsRender | app/constants/prompts.ts:8-45 | every social prompt's id is well formed, so its badge label always renders |
| SocialScreen.FreeFormLabel | app/constants/prompts.ts:47-51 | the free-form id is well formed and labelled "Free Form" |
| SocialScreen.PromptBadgeSpec | app/screens/socialScreen.tsx:131-137 | a prompt badge shows exactly for a prompted post with a non-empty prompt id; rendering fails exactly for an id that is not well formed; otherwise it shows the emoji, a space and the reference label |
| SocialScreen.OwnPostBadges | app/screens/socialScreen.tsx:120-137 | posts the app writes never show a prompt badge and show the goal badge exactly for a goal announcement; a published post is prompted but shows neither badge |
| SocialScreen.ReactionButtonsSpec | app/screens/socialScreen.tsx:165-189 | a post has a pill for exactly each emoji it has a count for, and always the four quick buttons, all reacting on that post |
| SocialScreen.PressRaisesCount | app/screens/socialScreen.tsx:165-189 | pressing any button of a post raises that post's count of its emoji by exactly one |
| SocialScreen.PressReaction | app/screens/socialScreen.tsx:169 | the store takes the reaction transition of `HandleReactionCounts` |
| Lists.Filter | app/screens/dailyScreen.tsx:61-65 | a filter keeps only elements that pass, all of them from the list, and never drops one that passes |
| Lists.FilterConcat | app/screens/dailyScreen.tsx:273-275 | filtering a concatenation filters each part in turn, so kept elements keep their order |
| Lists.FilterKeepsOrderedPairs | app/screens/modals/dailyReflectionModal.tsx:58 | a relation between every earlier and later element still holds after filtering |
| Lists.Find | app/screens/onboarding/performanceHabitsScreen.tsx:32 | the lookup finds nothing exactly when no element has the key, and otherwise returns the first element that has it |
| Lists.FindDistinct | app/screens/modals/postComposerModal.tsx:34 | with distinct keys the lookup returns the one element with the key |
| Lists.ToggleKeyedMembership | app/state/appStore.ts:238-249 | after the toggle the key is present exactly when it was absent, and every other key is present exactly as before |
| Lists.ToggleKeyedTwiceRestores | app/state/appStore.ts:238-249 | toggling an absent key twice gives back the list |
| Lists.ToggleKeyedKeepsDistinct | app/state/appStore.ts:238-249 | a list without repeated keys keeps that property under the toggle |
| Lists.ToggleIncludedFlips | app/screens/onboarding/actionsSetupScreen.tsx:53-59 | after the toggle the value is present exactly when it was absent, every other value exactly as before, and toggling an absent value twice restores the list |
| Lists.DropIndexSpec | app/screens/modals/dailyReflectionModal.tsx:125-130 | removing a position within the list drops exactly that element and keeps the others in order; any other position removes nothing |
| Text.TrimStart | app/screens/modals/postComposerModal.tsx:69-70 | only leading whitespace is removed, and the rest starts with a character that is not whitespace |
| Text.TrimEnd | app/screens/modals/postComposerModal.tsx:69-70 | only trailing whitespace is removed, and the rest ends with a character that is not whitespace |
| Text.TrimIsInnerSlice | app/screens/modals/postComposerModal.tsx:69-70 | the trimmed text is a contiguous piece of the input with whitespace only on either side cut away, and it starts and ends with a character that is not whitespace |
| Text.TrimEmptyIffAllWhitespace | app/screens/modals/postComposerModal.tsx:144 | a text trims to nothing exactly when all its characters are whitespace |
| Text.TrimIdempotent | app/screens/modals/dailyReflectionModal.tsx:116-119 | trimming twice is trimming once |
| Text.JoinSplit | app/screens/socialScreen.tsx:134 | splitting on a character and joining on it gives back the text |
| Text.NatToStringInjective | app/state/appStore.ts:287 | different timestamps render as different ids |

## Left out

- Animation, styling, focus and blur, and the `Animated` callbacks: presentation only, with no effect on state.
- Zustand subscriptions and re-rendering, and react-navigation internals, are library behaviour. `AppNavigator.PressTab` returns whether the press navigates instead of navigating.
- `ProgressScreen.TapGoalCard`: `setExpandedGoalId` (`app/screens/progressScreen.v2.tsx:34`) assigns the field on the state object without going through `set`, so the screen is not drawn again. The card's handler computes its value from the `isExpanded` of the last drawing, so the model passes that drawn value in as `shown`. When the screen is drawn again is decided by the subscriptions, which are not modelled; `TapsFromOneDrawing` and `TapTwiceWithDrawing` state both cases.
- Clocks: every `Date.now()` and `new Date()` inside one operation is taken as one instant `now`. Ids are `NatToString(now)`, as `Date.now().toString()` renders them. A new goal's `createdAt` and a published post's `timestamp` are that instant. Not computed are the clock reads made while rendering: the daily screen's date header (`app/screens/dailyScreen.tsx:172`), its days left per goal (`app/screens/dailyScreen.tsx:263`), the progress screen's `daysLeft` (`app/screens/progressScreen.v2.tsx:82`), and the feed's time of a post with `toLocaleTimeString` (`app/screens/socialScreen.tsx:108`).
- Only `ActionSchedule`, the schedule text that `completeSetup` writes into a one-time action, goes through `toLocaleDateString`, modelled as the function parameter `localeDate` because the locale is outside the program. The date texts that screens only display are not modelled. These are the announcement's target date (`app/screens/modals/goalAnnouncementModal.tsx:89`), the milestone screen's deadline and milestone dates (`app/screens/onboarding/milestonesScreen.tsx:75`, `:139`, `:163`), the saved-action summary (`app/screens/onboarding/actionsSetupScreen.tsx:200`), the profile's due date and post date (`app/screens/profileScreen.v2.tsx:292`, `:358`), and the progress screen's milestone dates (`app/screens/progressScreen.v2.tsx:286`).
- `DailyScreen.RoundPercent`: `Math.round` of a floating-point ratio is modelled as exact rounding half up, `(200c + n) / (2n)`. Floating-point error in the ratio times 100 is not modelled.
- `SocialScreen.CharLabel`: `toUpperCase` is modelled on ASCII letters only. Other characters are kept unchanged, and no prompt id contains any.
- `PromptComposer.CarouselPrompts`: the random order from `sort(() => Math.random() - 0.5)` is the parameter `shuffled`, a reordering of the social prompts. In the source that `sort` also reorders the shared `SOCIAL_PROMPTS` array in place. The model keeps the table fixed, which changes no lookup by id because the ids are distinct.
- `PromptComposer.Carousel.ScrollEnd` receives the snapped page index. The floating-point `Math.round(offset / CARD_WIDTH)` that produces it is not modelled.
- `PromptComposer.Carousel.HandlePost` requires a current prompt, because rendering the placeholder already reads `currentPrompt.id` and the component cannot render without one.
- The daily reflection's store members are not defined by the store interface (`app/state/appStore.ts:74-153`). These are `nextReflectionAction`, `setActionBlocker`, `updateDailyReflection`, the reflection step and index, and the journal. So:
  - the step and index arrive as parameters;
  - `DailyReflection.ReflectionModal.HandleActionResponse`, `HandleBlockerSubmit` and `AddTodo` return the request they make of those members instead of performing it.
- `DailyReflection.ReflectionModal.HandleActionResponse` and `DailyReflection.ReflectionModal.HandleBlockerSubmit` require a current action. The check-in screen, which holds their buttons and the blocker form, renders only when one exists (`app/screens/modals/dailyReflectionModal.tsx:156`).
- `app/screens/modals/dailyReflectionModal.tsx` opens its backdrop with `<TouchableOpacity>` (line 393) and closes it with `</View>` (line 413). That is a JSX syntax error, so, going by the text alone, neither the modal nor the daily screen that mounts it can be bundled as written. The `DailyReflection` members model the handlers as written, as they would behave once the markup is corrected.
- The 300 ms `setTimeout` before `resetAndNext` is taken as immediate.
- `DailyReview.ReviewModal.HandleActionReview` and `DailyReview.ReviewModal.HandleQuestionAnswer` require the phase that renders their button (`app/screens/modals/dailyReviewModal.tsx:81,135`).
- `QuickCompose.Composer.HandlePost` returns whether it calls `onClose` instead of calling the parent's callback.
- `AppStore.Store` groups the store's fields into a few record-valued fields: navigation, goal entry, the setup plan, progress, feed, share, review and composer. `State()` joins them back into the one record `StoreModel.StoreState`.
- The mock goal's milestones have no metric, and the mock data is dated relative to the instant `loaded` at which the constants are evaluated.
- `isDevMode` (`app/hooks/useSkipSetup.ts:18`) only mirrors the build flag `__DEV__` and is not modelled.
- `StoreModel.LockInGoal` treats the deadline test as always passing: the deadline is a `Date` object, always present and always truthy.
- The navigator imports the non-v2 progress and profile screens (`app/navigation/appNavigator.tsx:29-30`). The model follows `progressScreen.v2.tsx` and `profileScreen.v2.tsx`.
- The group tab's statistics on the progress screen are constants shown as they are. They are not modelled.
- The `maxLength` of text inputs is enforced by the platform text field and is not modelled.
- The home screen, the old daily screen and the goal setup screens are outside the modelled core. Their logic is either the same as modelled code or absent from the store.

## Findings

| source | as written | input that shows it | evidently intended | confidence | as-written member | corrected member |
|---|---|---|---|---|---|---|
| app/screens/progressScreen.v2.tsx:57-64 | `completedActions` counts every true entry of `checkedActions`, including ids that belong to no current user action, and the completion rate divides that count by the number of user actions | one user action "1" checked, plus the daily screen's debugging action completed through the share modal: `checkedActions` is `{"1": true, "test-action": true}`, so the rate is 200%. Skipping setup also keeps old checked ids while replacing the actions. | count the user's own checked actions, as the daily screen does (`app/screens/dailyScreen.tsx:64-65`), so the rate lies in 0..100 | medium, not executed | `ProgressScreen.UserStatsOf`, `ProgressScreen.CompletionRateExceeds100` | `ProgressScreen.CorrectedUserStats`, `ProgressScreen.CorrectedUserStatsSpec` |
