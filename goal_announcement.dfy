/** app/screens/modals/goalAnnouncementModal.tsx: the modal shown after a public goal
    is set up, which either announces the goal on the feed or keeps quiet, and in both
    cases finishes the setup. */
module GoalAnnouncement {
  import opened Wrappers
  import opened Types
  import opened StoreModel
  import AppStore

  /** The announcement text for a goal title. */
  function AnnouncementContent(title: string): string {
    "I'm committing to " + title + "! Join me on this journey 🚀"
  }

  /** `handleAnnounce`: the announcement post goes to the front of the feed, then
      `finishSetup` runs. */
  function Announce(s: StoreState, now: nat): StoreState {
    var post := OwnPost(s.user, GoalAnnouncement, AnnouncementContent(s.selectedGoal), now, Some(s.selectedGoal));
    FinishSetup(s.(feedPosts := [post] + s.feedPosts))
  }

  /** `handleKeepQuiet`: only `finishSetup`. */
  function KeepQuiet(s: StoreState): StoreState {
    FinishSetup(s)
  }

  /** The modal is visible exactly while `showGoalAnnouncement` is set. */
  predicate Visible(s: StoreState) {
    s.showGoalAnnouncement
  }

  /** Announcing puts exactly one goal-announcement post, titled with the goal, with the
      committing text and no reactions, in front of the unchanged feed, and ends the
      setup with the modal hidden. */
  lemma AnnounceSpec(s: StoreState, now: nat)
    ensures var r := Announce(s, now);
      |r.feedPosts| == |s.feedPosts| + 1 && r.feedPosts[1..] == s.feedPosts &&
      r.feedPosts[0].kind == GoalAnnouncement && r.feedPosts[0].goalTitle == Some(s.selectedGoal) &&
      r.feedPosts[0].reactions == map[] &&
      r.feedPosts[0].content == "I'm committing to " + s.selectedGoal + "! Join me on this journey 🚀" &&
      r.appState == Main && !Visible(r) &&
      r.(feedPosts := s.feedPosts, appState := s.appState, showGoalAnnouncement := s.showGoalAnnouncement) == s
  {
  }

  /** Keeping quiet leaves the feed alone and also ends the setup with the modal hidden. */
  lemma KeepQuietSpec(s: StoreState)
    ensures KeepQuiet(s).feedPosts == s.feedPosts
    ensures KeepQuiet(s).appState == Main && !Visible(KeepQuiet(s))
    ensures KeepQuiet(s).(appState := s.appState, showGoalAnnouncement := s.showGoalAnnouncement) == s
  {
  }

  /** After `completeSetup` the modal appears exactly for a public goal, and either of
      its exits then reaches the main screens with the goals and actions as set up. */
  lemma SetupThenAnnouncement(s: StoreState, now: nat, later: nat, localeDate: Date -> string)
    ensures Visible(CompleteSetup(s, now, localeDate)) <==> s.selectedSharingOption == PublicSharing
    ensures var c := CompleteSetup(s, now, localeDate);
      Announce(c, later).appState == Main && KeepQuiet(c).appState == Main &&
      Announce(c, later).userActions == c.userActions && KeepQuiet(c).userGoals == c.userGoals
  {
  }

  method HandleAnnounce(store: AppStore.Store, now: nat)
    modifies store
    ensures store.State() == Announce(old(store.State()), now)
  {
    var title := store.goal.selectedGoal;
    var post := OwnPost(store.progress.user, GoalAnnouncement, AnnouncementContent(title), now, Some(title));
    store.feed := store.feed.(feedPosts := [post] + store.feed.feedPosts);
    store.FinishSetup();
  }

  method HandleKeepQuiet(store: AppStore.Store)
    modifies store
    ensures store.State() == KeepQuiet(old(store.State()))
  {
    store.FinishSetup();
  }
}
