/** app/screens/onboarding/actionsSetupScreen.tsx: the action form, its frequency
    picker, and the choice between the form and the summary of saved actions. */
module ActionsSetupScreen {
  import opened Wrappers
  import opened Lists
  import opened Types
  import opened StoreModel
  import AppStore

  /** The action the form saves for the selected type: a date only for a one-time
      action, a frequency only for a commitment. */
  function FormAction(kind: Option<ActionType>, name: string, why: string, milestone: string,
    date: Date, frequency: seq<string>): Action
  {
    Action(kind, name, Some(why), milestone,
      if kind == Some(OneTime) then Some(date) else None,
      if kind == Some(Commitment) then Some(frequency) else None)
  }

  /** The type picker and the form are shown while no action is saved; the form itself
      also needs a type to be picked. */
  predicate PickerShown(s: StoreState) {
    |s.actions| == 0
  }

  predicate FormShown(s: StoreState) {
    PickerShown(s) && s.selectedActionType.Some?
  }

  /** Saving from the form stores an action whose type is the picked one, with a date
      exactly for a one-time action and a frequency exactly for a commitment. */
  lemma SavedActionShape(s: StoreState, name: string, why: string, milestone: string, date: Date, frequency: seq<string>)
    requires FormShown(s)
    ensures var r := SaveAction(s, FormAction(s.selectedActionType, name, why, milestone, date, frequency));
      var a := r.actions[|r.actions| - 1];
      a.kind == s.selectedActionType && a.kind.Some? &&
      (a.date.Some? <==> a.kind == Some(OneTime)) &&
      (a.frequency.Some? <==> a.kind == Some(Commitment)) &&
      a.name == name && a.milestone == milestone
  {
  }

  /** Once an action is saved the summary replaces the form for good: `addAnotherAction`
      clears the type but keeps the saved actions, so the picker does not come back. */
  lemma SummaryStaysAfterSave(s: StoreState, a: Action)
    ensures !PickerShown(SaveAction(s, a))
    ensures !PickerShown(AddAnotherAction(SaveAction(s, a)))
    ensures AddAnotherAction(SaveAction(s, a)).actions == SaveAction(s, a).actions
  {
  }

  /** The form's local state. */
  class ActionForm {
    var actionName: string
    var actionWhy: string
    var selectedMilestone: string
    var actionDate: Date
    var selectedFrequency: seq<string>

    /** A blank form dated at the instant `now` it is opened. */
    constructor (now: Date)
      ensures actionName == "" && actionWhy == "" && selectedMilestone == ""
      ensures actionDate == now && selectedFrequency == []
    {
      actionName, actionWhy, selectedMilestone := "", "", "";
      actionDate, selectedFrequency := now, [];
    }

    /** `handleSaveAction`: with a name and a milestone entered, saves the action for the
        selected type and clears all five fields, dating the form at `now`; otherwise
        does nothing. */
    method HandleSaveAction(store: AppStore.Store, now: Date)
      modifies this, store
      ensures old(actionName) != "" && old(selectedMilestone) != "" ==>
        store.State() == SaveAction(old(store.State()),
          FormAction(old(store.State()).selectedActionType, old(actionName), old(actionWhy),
            old(selectedMilestone), old(actionDate), old(selectedFrequency))) &&
        actionName == "" && actionWhy == "" && selectedMilestone == "" &&
        actionDate == now && selectedFrequency == []
      ensures old(actionName) == "" || old(selectedMilestone) == "" ==>
        store.State() == old(store.State()) && unchanged(this)
    {
      if actionName != "" && selectedMilestone != "" {
        var kind := store.plan.selectedActionType;
        store.SaveAction(FormAction(kind, actionName, actionWhy, selectedMilestone, actionDate, selectedFrequency));
        actionName, actionWhy, selectedMilestone := "", "", "";
        actionDate, selectedFrequency := now, [];
      }
    }

    /** `toggleFrequency`: a day chip removes the day from the picks when it is there
        and appends it otherwise (see `Lists.ToggleIncludedFlips`). */
    method ToggleFrequencyPressed(v: string)
      modifies this
      ensures selectedFrequency == ToggleIncluded(old(selectedFrequency), v)
      ensures actionName == old(actionName) && actionWhy == old(actionWhy)
      ensures selectedMilestone == old(selectedMilestone) && actionDate == old(actionDate)
    {
      if v in selectedFrequency {
        InAsHasKey(selectedFrequency, v);
        selectedFrequency := Filter(selectedFrequency, KeyIsNot(Identity, v));
      } else {
        InAsHasKey(selectedFrequency, v);
        selectedFrequency := selectedFrequency + [v];
      }
    }
  }
}
