/** The navigator of app/navigation/appNavigator.tsx: which onboarding screen a step
    shows, which stack the app phase shows, the initial tab, the tab bar's label
    fallback and its press logic, and the tab listeners that write `currentScreen`. */
module AppNavigator {
  import opened Wrappers
  import opened Types
  import StoreModel
  import SkipSetup
  import AppStore

  datatype OnboardingScreen = GoalSetup | PerformanceHabits | Milestones | ActionsSetup

  /** The onboarding screens, indexed by `currentStep`. */
  const ONBOARDING_SCREENS: seq<OnboardingScreen> := [GoalSetup, PerformanceHabits, Milestones, ActionsSetup]

  /** `screens[currentStep]`: undefined, so nothing is rendered, outside steps 0..3. */
  function OnboardingScreenFor(step: int): (r: Option<OnboardingScreen>)
    ensures r.Some? <==> 0 <= step <= 3
    ensures step == 0 ==> r == Some(GoalSetup)
    ensures step == 1 ==> r == Some(PerformanceHabits)
    ensures step == 2 ==> r == Some(Milestones)
    ensures step == 3 ==> r == Some(ActionsSetup)
  {
    if 0 <= step < |ONBOARDING_SCREENS| then Some(ONBOARDING_SCREENS[step]) else None
  }

  /** Different steps show different screens: the lookup is one-to-one on 0..3. */
  lemma OnboardingScreensDistinct(i: int, j: int)
    requires OnboardingScreenFor(i).Some? && OnboardingScreenFor(i) == OnboardingScreenFor(j)
    ensures i == j
  {
  }

  /** Each onboarding operation of the store leaves the navigator on the screen of the
      next stage: locking in a goal shows the habits, finishing the boosters shows the
      milestones, and finishing the milestones or asking for another action shows the
      actions setup. */
  lemma OnboardingStepsShowNextScreen(s: StoreModel.StoreState)
    ensures s.selectedGoal != "" && s.goalMetric != "" ==>
      OnboardingScreenFor(StoreModel.LockInGoal(s).currentStep) == Some(PerformanceHabits)
    ensures OnboardingScreenFor(StoreModel.CompleteBoosters(s).currentStep) == Some(Milestones)
    ensures OnboardingScreenFor(StoreModel.CompleteMilestones(s).currentStep) == Some(ActionsSetup)
    ensures OnboardingScreenFor(StoreModel.AddAnotherAction(s).currentStep) == Some(ActionsSetup)
  {
  }

  datatype RootRoute = Onboarding | MainRoute

  /** The root stack shows onboarding during setup and the tabs otherwise. */
  function RootScreen(phase: AppPhase): (r: RootRoute)
    ensures r == Onboarding <==> phase == Setup
  {
    match phase
    case Setup => Onboarding
    case Main => MainRoute
  }

  /** Every way out of onboarding lands on the tabs: a private setup, both exits of the
      announcement, and the skip. A public setup stays on onboarding until the
      announcement is answered. */
  lemma SetupExitsShowMain(s: StoreModel.StoreState, now: nat, localeDate: Date -> string, loaded: Date)
    ensures RootScreen(StoreModel.CompleteSetup(s, now, localeDate).appState) == MainRoute <==>
      s.selectedSharingOption == PrivateSharing
    ensures RootScreen(StoreModel.FinishSetup(s).appState) == MainRoute
    ensures RootScreen(SkipSetup.Skip(s, loaded).appState) == MainRoute
  {
    StoreModel.CompleteSetupPhase(s, now, localeDate);
  }

  datatype TabRoute = Social | Daily | Progress | Profile

  /** `initialRouteName`: the tab matching `currentScreen`, with Profile as the
      fallback. */
  function InitialRoute(screen: Screen): TabRoute {
    if screen == SocialScreen then Social
    else if screen == DailyScreen then Daily
    else if screen == ProgressScreen then Progress
    else Profile
  }

  /** The `currentScreen` value a tab's press listener writes. */
  function ListenerScreen(route: TabRoute): Screen {
    match route
    case Social => SocialScreen
    case Daily => DailyScreen
    case Progress => ProgressScreen
    case Profile => ProfileScreen
  }

  /** The listeners and the initial route agree: pressing a tab and rebuilding the
      navigator starts on that tab, and every screen value is the one its own initial
      tab writes. */
  lemma InitialRouteMatchesListeners(route: TabRoute, screen: Screen)
    ensures InitialRoute(ListenerScreen(route)) == route
    ensures ListenerScreen(InitialRoute(screen)) == screen
  {
  }

  /** The route name React Navigation gives each tab. */
  function RouteName(route: TabRoute): string {
    match route
    case Social => "Social"
    case Daily => "Daily"
    case Progress => "Progress"
    case Profile => "Profile"
  }

  /** The tab bar's label: `tabBarLabel` if defined, else `title`, else the route
      name. */
  function TabLabel(tabBarLabel: Option<string>, title: Option<string>, routeName: string): string {
    if tabBarLabel.Some? then tabBarLabel.value
    else if title.Some? then title.value
    else routeName
  }

  /** The label is `tabBarLabel` if set, else `title` if set; and since none of the
      four tabs sets either option, each shows its route name, and no two tabs show
      the same label. */
  lemma TabLabelFallback(tabBarLabel: Option<string>, title: Option<string>, route: TabRoute, other: TabRoute)
    ensures tabBarLabel.Some? ==> TabLabel(tabBarLabel, title, RouteName(route)) == tabBarLabel.value
    ensures tabBarLabel.None? && title.Some? ==> TabLabel(tabBarLabel, title, RouteName(route)) == title.value
    ensures TabLabel(None, None, RouteName(route)) == RouteName(route)
    ensures TabLabel(None, None, RouteName(route)) == TabLabel(None, None, RouteName(other)) <==> route == other
  {
    assert |RouteName(Social)| == 6 && |RouteName(Daily)| == 5;
    assert |RouteName(Progress)| == 8 && |RouteName(Profile)| == 7;
  }

  /** A tab press: the `tabPress` event reaches the tab's listener, which writes
      `currentScreen`; the navigator then switches tabs only when the pressed tab is
      not focused and no listener prevented the default. The result says whether it
      navigated. */
  method PressTab(store: AppStore.Store, route: TabRoute, isFocused: bool, defaultPrevented: bool)
      returns (navigates: bool)
    modifies store
    ensures store.State() == old(store.State()).(currentScreen := ListenerScreen(route))
    ensures navigates <==> !isFocused && !defaultPrevented
  {
    store.nav := store.nav.(currentScreen := ListenerScreen(route));
    navigates := !isFocused && !defaultPrevented;
  }
}
