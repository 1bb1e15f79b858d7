/** app/screens/modals/shareActionModal.tsx: the modal that completes a goal action,
    optionally posting it to the group, or is cancelled. */
module ShareModal {
  import opened Wrappers
  import opened Lists
  import opened Types
  import opened StoreModel
  import AppStore

  /** Nothing is rendered while no action is being shared. */
  predicate Rendered(s: StoreState) {
    s.shareAction.Some?
  }

  /** The note field is offered only when sharing with the group. */
  predicate NoteFieldShown(s: StoreState) {
    Rendered(s) && s.sharePrivacy == ShareWithGroup
  }

  /** `handleClose`: closes the modal and forgets the action and the note. */
  function HandleClose(s: StoreState): StoreState {
    s.(showShareModal := false, shareAction := None, shareNote := "")
  }

  /** Cancelling closes the modal with no action and no note, but, unlike completing,
      keeps the chosen privacy and neither checks the action nor posts anything. */
  lemma HandleCloseSpec(s: StoreState)
    ensures !HandleClose(s).showShareModal && !Rendered(HandleClose(s)) && HandleClose(s).shareNote == ""
    ensures HandleClose(s).sharePrivacy == s.sharePrivacy
    ensures HandleClose(s).checkedActions == s.checkedActions && HandleClose(s).feedPosts == s.feedPosts
    ensures HandleClose(s).(showShareModal := s.showShareModal, shareAction := s.shareAction, shareNote := s.shareNote) == s
  {
  }

  /** The group button brings up the note field whenever the modal is rendered, the
      private button takes it away, and neither exit leaves it shown. */
  lemma NoteFieldFollowsPrivacy(s: StoreState, now: nat)
    ensures NoteFieldShown(s.(sharePrivacy := ShareWithGroup)) <==> Rendered(s)
    ensures !NoteFieldShown(s.(sharePrivacy := KeepPrivate))
    ensures !NoteFieldShown(HandleClose(s)) && !NoteFieldShown(HandleShareAction(s, now))
  {
  }

  /** Both exits close the modal, but a private choice survives only a cancel:
      completing resets the privacy to the group, cancelling keeps it. */
  lemma CancelKeepsPrivacy(s: StoreState, now: nat)
    requires Rendered(s) && s.sharePrivacy == KeepPrivate
    ensures HandleClose(s).sharePrivacy == KeepPrivate
    ensures HandleShareAction(s, now).sharePrivacy == ShareWithGroup
    ensures !HandleClose(s).showShareModal && !HandleShareAction(s, now).showShareModal
  {
  }

  /** Tapping a goal action and then cancelling leaves its checked flag, and every
      other one, as it was; only completing checks it. */
  lemma TapThenCancelChecksNothing(s: StoreState, id: string, i: int, now: nat)
    requires FirstWithKey(s.userActions, ActionId, id, i) && s.userActions[i].kind == GoalAction
    ensures HandleClose(ToggleAction(s, id)).checkedActions == s.checkedActions
    ensures IsChecked(HandleShareAction(ToggleAction(s, id), now).checkedActions, id)
  {
    ToggleActionOpensShare(s, id, i);
  }

  method HandleClosePressed(store: AppStore.Store)
    modifies store
    ensures store.State() == HandleClose(old(store.State()))
  {
    store.share := store.share.(showShareModal := false, shareAction := None, shareNote := "");
  }

  /** The Complete button. */
  method CompletePressed(store: AppStore.Store, now: nat)
    modifies store
    ensures store.State() == HandleShareAction(old(store.State()), now)
  {
    store.HandleShareAction(now);
  }
}
