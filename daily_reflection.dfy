/** The daily reflection of app/screens/modals/dailyReflectionModal.tsx: a check-in
    over the missed actions, then a journal with a to-do list for tomorrow. The
    reflection's own store members (its step, its action index, the journal record
    and the operations on them) are not defined by the store, so the modal's step and
    index are parameters here, and each handler returns the request it makes of those
    members instead of performing it. */
module DailyReflection {
  import opened Wrappers
  import opened Text
  import opened Lists
  import opened Types
  import opened StoreModel
  import AppStore

  /** `reflectionStep`: `'checkin'`, or the journal. */
  datatype ReflectionStep = CheckinStep | JournalStep

  /** `missedActions.length + 1`: one dot per missed action and one for the journal. */
  function TotalSteps(s: StoreState): nat {
    |Missed(s.userActions, s.checkedActions)| + 1
  }

  /** The step the progress indicator shows. */
  function IndicatorStep(step: ReflectionStep, index: int, total: int): int {
    if step == CheckinStep then index + 1 else total
  }

  /** During the check-in on a missed action the indicator shows that action's place
      among the first `totalSteps - 1` dots; in the journal it shows the last dot. */
  lemma IndicatorStepSpec(s: StoreState, step: ReflectionStep, index: int)
    ensures step == JournalStep ==> IndicatorStep(step, index, TotalSteps(s)) == TotalSteps(s)
    ensures step == CheckinStep && CurrentAction(s, index).Some? ==>
      1 <= IndicatorStep(step, index, TotalSteps(s)) < TotalSteps(s)
  {
  }

  /** `missedActions[currentReflectionActionIndex]`; the check-in screen renders nothing
      without one. */
  function CurrentAction(s: StoreState, index: int): (r: Option<UserAction>)
    ensures r.Some? <==> 0 <= index < |Missed(s.userActions, s.checkedActions)|
    ensures r.Some? ==> r.value == Missed(s.userActions, s.checkedActions)[index]
    ensures r.Some? ==> r.value in s.userActions && !IsChecked(s.checkedActions, r.value.id)
  {
    var missed := Missed(s.userActions, s.checkedActions);
    if 0 <= index < |missed| then Some(missed[index]) else None
  }

  /** Checking off the id `id` leaves unchecked exactly the actions that were
      unchecked before and have another id. */
  lemma CheckOffSplits(actions: seq<UserAction>, checked: map<string, bool>, id: string)
    ensures forall i :: 0 <= i < |actions| ==>
      (UncheckedIn(checked[id := true])(actions[i]) <==>
        UncheckedIn(checked)(actions[i]) && KeyIsNot(ActionId, id)(actions[i]))
  {
    forall i | 0 <= i < |actions|
      ensures UncheckedIn(checked[id := true])(actions[i]) <==>
        UncheckedIn(checked)(actions[i]) && KeyIsNot(ActionId, id)(actions[i])
    {
      var x := actions[i];
      assert UncheckedIn(checked[id := true])(x) == !IsChecked(checked[id := true], x.id);
      assert UncheckedIn(checked)(x) == !IsChecked(checked, x.id);
      assert KeyIsNot(ActionId, id)(x) == (ActionId(x) != id);
      if x.id == id {
        assert IsChecked(checked[id := true], x.id);
      } else {
        assert IsChecked(checked[id := true], x.id) == IsChecked(checked, x.id);
      }
    }
  }

  /** With distinct action ids, answering "Yes" for the action at `index` takes exactly
      that action out of the missed actions. */
  lemma YesRemovesAnsweredAction(s: StoreState, index: int)
    requires DistinctKeys(s.userActions, ActionId)
    requires CurrentAction(s, index).Some?
    ensures var m, a := Missed(s.userActions, s.checkedActions), CurrentAction(s, index).value;
      Missed(s.userActions, s.checkedActions[a.id := true]) == m[..index] + m[index + 1..]
  {
    var m, a := Missed(s.userActions, s.checkedActions), CurrentAction(s, index).value;
    CheckOffSplits(s.userActions, s.checkedActions, a.id);
    FilterFilter(s.userActions, UncheckedIn(s.checkedActions), KeyIsNot(ActionId, a.id),
      UncheckedIn(s.checkedActions[a.id := true]));
    FilterKeepsOrderedPairs(s.userActions, UncheckedIn(s.checkedActions), (x: UserAction, y: UserAction) => x.id != y.id);
    assert DistinctKeys(m, ActionId);
    FilterOutUnique(m, ActionId, index);
  }

  /** So after a "Yes" the reflection's index already points at the action after the
      answered one. */
  lemma YesShiftsCurrentAction(s: StoreState, index: int)
    requires DistinctKeys(s.userActions, ActionId)
    requires CurrentAction(s, index).Some?
    requires index + 1 < |Missed(s.userActions, s.checkedActions)|
    ensures var a := CurrentAction(s, index).value;
      CurrentAction(s.(checkedActions := s.checkedActions[a.id := true]), index) ==
        Some(Missed(s.userActions, s.checkedActions)[index + 1])
  {
    YesRemovesAnsweredAction(s, index);
  }

  /** A blocker for an action the user did not finish: `setActionBlocker(id, reason,
      emojis)`. */
  datatype BlockerRequest = BlockerRequest(actionId: string, reason: string, emojis: seq<string>)

  /** The Continue button of the blocker form is enabled with a reason or an emoji. */
  predicate BlockerAccepted(reason: string, emojis: seq<string>) {
    reason != "" || |emojis| > 0
  }

  /** `addTodo`: the to-do list with the trimmed input appended, or nothing for an
      input of whitespace only. */
  function AddedTodos(todos: seq<string>, input: string): Option<seq<string>> {
    if Trim(input) != "" then Some(todos + [Trim(input)]) else None
  }

  /** A to-do is added exactly when the input holds something besides whitespace; it
      goes last, as the input without its surrounding whitespace, and adding it again
      as input would add the same text. */
  lemma AddedTodosSpec(todos: seq<string>, input: string)
    ensures AddedTodos(todos, input).None? <==> AllWhitespace(input)
    ensures AddedTodos(todos, input).Some? ==>
      var r := AddedTodos(todos, input).value;
      |r| == |todos| + 1 && r[..|todos|] == todos && r[|todos|] == Trim(input) &&
      !IsWhitespace(r[|todos|][0]) && Trim(r[|todos|]) == r[|todos|]
  {
    TrimEmptyIffAllWhitespace(input);
    TrimIsInnerSlice(input);
    TrimIdempotent(input);
    if AddedTodos(todos, input).Some? {
      var r := AddedTodos(todos, input).value;
      assert r[..|todos|] == todos;
    }
  }

  /** `removeTodo(index)`: the list without the entry at `index`. */
  function RemovedTodo(todos: seq<string>, index: int): seq<string> {
    DropIndex(todos, index)
  }

  /** Removing an entry shortens the list by one, keeps the others in order, and
      takes out exactly the entry at that position. */
  lemma RemovedTodoSpec(todos: seq<string>, index: int)
    requires 0 <= index < |todos|
    ensures |RemovedTodo(todos, index)| == |todos| - 1
    ensures RemovedTodo(todos, index) == todos[..index] + todos[index + 1..]
    ensures multiset(RemovedTodo(todos, index)) + multiset{todos[index]} == multiset(todos)
  {
    DropIndexSpec(todos, index);
    assert todos == todos[..index] + [todos[index]] + todos[index + 1..];
  }

  /** The modal's local state. */
  class ReflectionModal {
    var actionResponse: Option<bool>
    var blockerReason: string
    var selectedEmojis: seq<string>
    var todoInput: string

    constructor ()
      ensures actionResponse == None && blockerReason == "" && selectedEmojis == [] && todoInput == ""
    {
      actionResponse, blockerReason, selectedEmojis, todoInput := None, "", [], "";
    }

    /** `resetAndNext` without its call of the reflection's `nextReflectionAction`,
        which the caller makes. */
    method ResetForNext()
      modifies this
      ensures actionResponse == None && blockerReason == "" && selectedEmojis == [] && todoInput == old(todoInput)
    {
      actionResponse, blockerReason, selectedEmojis := None, "", [];
    }

    /** Yes or No on the check-in of the action at `index`. "Yes" checks that action
        off in the store and resets the form for the next action, asking for
        `nextReflectionAction` (the 300 ms delay is taken as immediate); "No" only
        records the answer, which opens the blocker form. */
    method HandleActionResponse(store: AppStore.Store, index: int, response: bool) returns (next: bool)
      requires CurrentAction(store.State(), index).Some?
      modifies this, store
      ensures next == response
      ensures response ==>
        store.State() == old(store.State()).(checkedActions :=
          old(store.State()).checkedActions[CurrentAction(old(store.State()), index).value.id := true]) &&
        actionResponse == None && blockerReason == "" && selectedEmojis == [] && todoInput == old(todoInput)
      ensures !response ==>
        store.State() == old(store.State()) && actionResponse == Some(false) &&
        blockerReason == old(blockerReason) && selectedEmojis == old(selectedEmojis) && todoInput == old(todoInput)
    {
      var action := CurrentAction(store.State(), index).value;
      actionResponse := Some(response);
      if response {
        var p := store.progress;
        store.progress := p.(checkedActions := p.checkedActions[action.id := true]);
        ResetForNext();
      }
      next := response;
    }

    /** Continue on the blocker form for the action at `index` of the state `s`: with
        a reason or an emoji, asks for the blocker to be recorded for that current
        missed action and resets the form for the next action; otherwise does
        nothing. */
    method HandleBlockerSubmit(s: StoreState, index: int) returns (request: Option<BlockerRequest>)
      requires CurrentAction(s, index).Some?
      modifies this
      ensures BlockerAccepted(old(blockerReason), old(selectedEmojis)) ==>
        request == Some(BlockerRequest(CurrentAction(s, index).value.id, old(blockerReason), old(selectedEmojis))) &&
        actionResponse == None && blockerReason == "" && selectedEmojis == [] && todoInput == old(todoInput)
      ensures !BlockerAccepted(old(blockerReason), old(selectedEmojis)) ==> request == None && unchanged(this)
    {
      if blockerReason != "" || |selectedEmojis| > 0 {
        var action := CurrentAction(s, index).value;
        request := Some(BlockerRequest(action.id, blockerReason, selectedEmojis));
        ResetForNext();
      } else {
        request := None;
      }
    }

    /** `toggleEmoji`: an emoji is deselected when selected and appended otherwise
        (see `Lists.ToggleIncludedFlips`). */
    method ToggleEmoji(emoji: string)
      modifies this
      ensures selectedEmojis == ToggleIncluded(old(selectedEmojis), emoji)
      ensures actionResponse == old(actionResponse) && blockerReason == old(blockerReason) && todoInput == old(todoInput)
    {
      if emoji in selectedEmojis {
        InAsHasKey(selectedEmojis, emoji);
        selectedEmojis := Filter(selectedEmojis, KeyIsNot(Identity, emoji));
      } else {
        InAsHasKey(selectedEmojis, emoji);
        selectedEmojis := selectedEmojis + [emoji];
      }
    }

    /** `addTodo` on the to-do list `todos`: with a non-blank input, asks for the list
        with the trimmed input appended and clears the input; otherwise does nothing. */
    method AddTodo(todos: seq<string>) returns (update: Option<seq<string>>)
      modifies this
      ensures update == AddedTodos(todos, old(todoInput))
      ensures update.Some? ==> todoInput == ""
      ensures actionResponse == old(actionResponse) && blockerReason == old(blockerReason)
      ensures selectedEmojis == old(selectedEmojis)
      ensures update.None? ==> unchanged(this)
    {
      var item := Trim(todoInput);
      if item != "" {
        update := Some(todos + [item]);
        todoInput := "";
      } else {
        update := None;
      }
    }
  }
}
