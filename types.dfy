/** The records the store keeps (the interfaces of app/state/appStore.ts), with the
    optional fields of those interfaces as `Option`s and dates as millisecond instants. */
module Types {
  import opened Wrappers

  /** A JavaScript `Date`, as its millisecond instant. */
  type Date = int

  /** Milliseconds in a day. */
  const DAY_MS: int := 24 * 60 * 60 * 1000

  datatype User = User(
    id: string,
    name: string,
    email: string,
    todayStreak: int,
    totalPoints: int,
    avatar: Option<string>)

  datatype PerformanceHabit = PerformanceHabit(
    name: string,
    time: Option<string>,
    reminder: Option<bool>)

  /** `metric` is a required field of the interface, but the mock milestones leave it
      out, so the value can be missing. */
  datatype Milestone = Milestone(
    name: string,
    metric: Option<string>,
    date: Date,
    completed: Option<bool>)

  datatype ActionType = OneTime | Commitment

  /** `kind` is optional because `saveAction` copies `selectedActionType`, which may be
      null when the action is saved. */
  datatype Action = Action(
    kind: Option<ActionType>,
    name: string,
    why: Option<string>,
    milestone: string,
    date: Option<Date>,
    frequency: Option<seq<string>>)

  datatype UserGoal = UserGoal(
    id: string,
    title: string,
    metric: string,
    deadline: Date,
    why: Option<string>,
    isPublic: bool,
    milestones: seq<Milestone>,
    progress: int,
    createdAt: Date)

  datatype UserActionType = GoalAction | PerformanceAction

  datatype UserAction = UserAction(
    id: string,
    goalId: string,
    kind: UserActionType,
    name: string,
    schedule: Option<string>,
    completed: Option<bool>)

  datatype PostType = Checkin | GoalAnnouncement | Prompted

  datatype FeedPost = FeedPost(
    id: string,
    userId: string,
    userName: string,
    userAvatar: Option<string>,
    kind: PostType,
    content: string,
    timestamp: Date,
    reactions: map<string, int>,
    goalTitle: Option<string>,
    promptId: Option<string>,
    promptEmoji: Option<string>)

  datatype SMSAnswer = SMSAnswer(question: string, answer: string)

  datatype ReviewResult = ReviewResult(completed: bool, reason: Option<string>)

  datatype AppPhase = Setup | Main

  datatype Screen = SocialScreen | DailyScreen | ProgressScreen | ProfileScreen

  datatype SharingOption = PublicSharing | PrivateSharing

  datatype SharePrivacy = ShareWithGroup | KeepPrivate

  datatype ProgressTab = PersonalTab | GroupTab

  /** `checkedActions[id]` read as a boolean: a missing entry is unchecked. */
  predicate IsChecked(checked: map<string, bool>, id: string) {
    id in checked && checked[id]
  }

  /** The id of a user action, as a function value for the list helpers. */
  function ActionId(a: UserAction): string {
    a.id
  }

  /** The `goalId` of a user action. */
  function ActionGoalId(a: UserAction): string {
    a.goalId
  }

  predicate IsGoalAction(a: UserAction) {
    a.kind == GoalAction
  }

  predicate IsPerformanceAction(a: UserAction) {
    a.kind == PerformanceAction
  }

  /** The filter predicate `a => checkedActions[a.id]`. */
  function CheckedIn(checked: map<string, bool>): UserAction -> bool {
    (a: UserAction) => IsChecked(checked, a.id)
  }

  /** The filter predicate `a => !checkedActions[a.id]`. */
  function UncheckedIn(checked: map<string, bool>): UserAction -> bool {
    (a: UserAction) => !IsChecked(checked, a.id)
  }

  /** The filter predicate `a => a.goalId === goalId`. */
  function BelongsTo(goalId: string): UserAction -> bool {
    (a: UserAction) => a.goalId == goalId
  }
}
