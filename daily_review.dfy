/** The daily review of app/screens/modals/dailyReviewModal.tsx: first each missed
    action is reviewed, then the five day-review questions are answered, with the
    store's `nextActionOrStep` moving the cursor after every answer. Because that
    cursor walks the missed actions at every step, each of the first four questions
    is asked once per missed action. */
module DailyReview {
  import opened Wrappers
  import Lists
  import opened Types
  import opened Constants
  import opened StoreModel
  import AppStore

  /** `userActions.filter(action => !checkedActions[action.id])`. */
  function MissedActions(s: StoreState): seq<UserAction> {
    Missed(s.userActions, s.checkedActions)
  }

  /** The missed actions keep the order of `userActions`: the missed actions of a
      concatenation are those of each part in turn. */
  lemma MissedConcat(a: seq<UserAction>, b: seq<UserAction>, checked: map<string, bool>)
    ensures Missed(a + b, checked) == Missed(a, checked) + Missed(b, checked)
  {
    Lists.FilterConcat(a, b, UncheckedIn(checked));
  }

  /** `missedActions[currentActionIndex]`, undefined outside the list. */
  function CurrentAction(s: StoreState): (r: Option<UserAction>)
    ensures r.Some? <==> 0 <= s.currentActionIndex < |MissedActions(s)|
    ensures r.Some? ==> r.value in s.userActions && !IsChecked(s.checkedActions, r.value.id)
  {
    var missed := MissedActions(s);
    if 0 <= s.currentActionIndex < |missed| then Some(missed[s.currentActionIndex]) else None
  }

  /** `DAY_REVIEW_QUESTIONS[smsStep - 1]`: undefined at step 0 and past the last
      question. */
  function CurrentQuestion(step: int): (r: Option<ReviewQuestion>)
    ensures r.Some? <==> 1 <= step <= 5
    ensures r.Some? ==> r.value == DAY_REVIEW_QUESTIONS[step - 1]
  {
    if 1 <= step <= |DAY_REVIEW_QUESTIONS| then Some(DAY_REVIEW_QUESTIONS[step - 1]) else None
  }

  /** What `renderContent` shows. */
  datatype Phase = ActionReview(action: UserAction) | QuestionStep(question: ReviewQuestion) | NothingShown

  function RenderPhase(s: StoreState): Phase {
    if s.smsStep == 0 && CurrentAction(s).Some? then ActionReview(CurrentAction(s).value)
    else if CurrentQuestion(s.smsStep).Some? then QuestionStep(CurrentQuestion(s.smsStep).value)
    else NothingShown
  }

  /** The action review shows at step 0 while the index points at a missed action, a
      question shows at steps 1..5, and otherwise nothing does: with no missed action
      at step 0 the review can only be closed. */
  lemma RenderPhaseCases(s: StoreState)
    ensures RenderPhase(s).ActionReview? <==> s.smsStep == 0 && 0 <= s.currentActionIndex < |MissedActions(s)|
    ensures RenderPhase(s).QuestionStep? <==> 1 <= s.smsStep <= 5
    ensures RenderPhase(s).ActionReview? ==> RenderPhase(s).action == MissedActions(s)[s.currentActionIndex]
    ensures s.smsStep == 0 && MissedActions(s) == [] ==> RenderPhase(s) == NothingShown
  {
  }

  /** The result recorded for a reviewed action: the reason is kept only for an action
      that was not completed. */
  function ActionResult(completed: bool, reason: string): (r: ReviewResult)
    ensures r.completed == completed && (r.reason.Some? <==> !completed)
    ensures !completed ==> r.reason == Some(reason)
  {
    ReviewResult(completed, if completed then None else Some(reason))
  }

  /** `handleActionReview` once a yes or no is chosen: records the result for the
      action under review, then moves the cursor. */
  function ReviewAction(s: StoreState, action: UserAction, completed: bool, reason: string): StoreState {
    NextActionOrStep(s.(actionReviewResults := s.actionReviewResults[action.id := ActionResult(completed, reason)]))
  }

  /** Reviewing an action records its result under its id, never checks it off, and
      moves the cursor over the same missed actions as before. */
  lemma ReviewActionSpec(s: StoreState, completed: bool, reason: string)
    requires RenderPhase(s).ActionReview?
    ensures var t := ReviewAction(s, RenderPhase(s).action, completed, reason);
      t.actionReviewResults == s.actionReviewResults[RenderPhase(s).action.id := ActionResult(completed, reason)] &&
      t.checkedActions == s.checkedActions && MissedActions(t) == MissedActions(s) &&
      (t.smsStep, t.currentActionIndex) == CursorNext(|MissedActions(s)|, 0, s.currentActionIndex) &&
      t.(actionReviewResults := s.actionReviewResults, smsStep := 0, currentActionIndex := s.currentActionIndex) == s
  {
  }

  /** The measure of the action review: the missed actions still ahead of the cursor. */
  function ReviewLeft(s: StoreState): nat {
    if s.smsStep == 0 && 0 <= s.currentActionIndex < |MissedActions(s)| then |MissedActions(s)| - s.currentActionIndex else 0
  }

  /** Answering every action review with the same choice: the store once nothing is
      left to review. */
  function ReviewRun(s: StoreState, completed: bool, reason: string): StoreState
    decreases ReviewLeft(s)
  {
    match RenderPhase(s)
    case ActionReview(a) =>
      ReviewActionSpec(s, completed, reason);
      ReviewRun(ReviewAction(s, a, completed, reason), completed, reason)
    case _ => s
  }

  /** From any point of the action review, the review moves on to the first question
      with the index back at 0, and the checked flags stay as they were. */
  lemma {:induction false} ReviewRunEnds(s: StoreState, completed: bool, reason: string)
    requires s.smsStep == 0 && 0 <= s.currentActionIndex < |MissedActions(s)|
    ensures ReviewRun(s, completed, reason).smsStep == 1 && ReviewRun(s, completed, reason).currentActionIndex == 0
    ensures ReviewRun(s, completed, reason).checkedActions == s.checkedActions
    decreases ReviewLeft(s)
  {
    var t := ReviewRunStep(s, completed, reason);
    if s.currentActionIndex < |MissedActions(s)| - 1 {
      ReviewRunEnds(t, completed, reason);
    }
  }

  /** No result recorded before the action review runs is lost. */
  lemma {:induction false} ReviewRunKeeps(s: StoreState, completed: bool, reason: string, id: string)
    requires s.smsStep == 0 && 0 <= s.currentActionIndex < |MissedActions(s)|
    requires id in s.actionReviewResults
    ensures id in ReviewRun(s, completed, reason).actionReviewResults
    decreases ReviewLeft(s)
  {
    var t := ReviewRunStep(s, completed, reason);
    if s.currentActionIndex < |MissedActions(s)| - 1 {
      ReviewRunKeeps(t, completed, reason, id);
    }
  }

  /** From any point of the action review, every missed action from the cursor on gets
      a result. */
  lemma {:induction false} ReviewRunRecords(s: StoreState, completed: bool, reason: string, i: int)
    requires s.smsStep == 0 && s.currentActionIndex <= i < |MissedActions(s)|
    requires 0 <= s.currentActionIndex
    ensures MissedActions(s)[i].id in ReviewRun(s, completed, reason).actionReviewResults
    decreases ReviewLeft(s)
  {
    var m := MissedActions(s);
    var t := ReviewRunStep(s, completed, reason);
    if i == s.currentActionIndex {
      if i < |m| - 1 {
        ReviewRunKeeps(t, completed, reason, m[i].id);
      }
    } else {
      ReviewRunRecords(t, completed, reason, i);
    }
  }

  /** One step of the action review run: the result for the action under the cursor
      is recorded, and the run goes on from there. */
  lemma ReviewRunStep(s: StoreState, completed: bool, reason: string) returns (t: StoreState)
    requires s.smsStep == 0 && 0 <= s.currentActionIndex < |MissedActions(s)|
    ensures ReviewRun(s, completed, reason) == ReviewRun(t, completed, reason)
    ensures t.checkedActions == s.checkedActions && MissedActions(t) == MissedActions(s)
    ensures forall id :: id in s.actionReviewResults ==> id in t.actionReviewResults
    ensures MissedActions(s)[s.currentActionIndex].id in t.actionReviewResults
    ensures s.currentActionIndex < |MissedActions(s)| - 1 ==> t.smsStep == 0 && t.currentActionIndex == s.currentActionIndex + 1
    ensures s.currentActionIndex == |MissedActions(s)| - 1 ==>
      t.smsStep == 1 && t.currentActionIndex == 0 && ReviewRun(t, completed, reason) == t
  {
    var a := RenderPhase(s).action;
    ReviewActionSpec(s, completed, reason);
    t := ReviewAction(s, a, completed, reason);
    if s.currentActionIndex == |MissedActions(s)| - 1 {
      assert RenderPhase(t).QuestionStep?;
    }
  }

  /** The Next button of a question is enabled for a non-empty answer, or for any
      answer to a yes/no question. */
  predicate AnswerAccepted(answer: string, q: ReviewQuestion) {
    answer != "" || q.kind == BooleanQuestion
  }

  /** `handleQuestionAnswer` once its guard holds: appends the answer, then moves the
      cursor, or completes the review on the last question. */
  function AnswerQuestion(s: StoreState, q: ReviewQuestion, answer: string): StoreState {
    var t := s.(smsAnswers := s.smsAnswers + [SMSAnswer(q.question, answer)]);
    if s.smsStep < |DAY_REVIEW_QUESTIONS| then NextActionOrStep(t) else CompleteSMS(t)
  }

  /** Before the last question an answer is appended to the answers with its question's
      text and the cursor moves on over the unchanged missed actions; the last answer
      completes the review, which throws away every answer given and every action
      result recorded. */
  lemma AnswerQuestionSpec(s: StoreState, answer: string)
    requires RenderPhase(s).QuestionStep?
    ensures var q, t := RenderPhase(s).question, AnswerQuestion(s, RenderPhase(s).question, answer);
      q == DAY_REVIEW_QUESTIONS[s.smsStep - 1] &&
      (s.smsStep < 5 ==>
        t.smsAnswers == s.smsAnswers + [SMSAnswer(q.question, answer)] &&
        MissedActions(t) == MissedActions(s) &&
        (t.smsStep, t.currentActionIndex) == CursorNext(|MissedActions(s)|, s.smsStep, s.currentActionIndex) &&
        t.(smsAnswers := s.smsAnswers, smsStep := s.smsStep, currentActionIndex := s.currentActionIndex) == s) &&
      (s.smsStep == 5 ==> t == CompleteSMS(s))
  {
  }

  /** The Next button reads "Complete" exactly on the last question, the one whose
      answer completes the review. */
  function AnswerButtonTitle(step: int): string {
    if step == |DAY_REVIEW_QUESTIONS| then "Complete" else "Next"
  }

  lemma AnswerButtonTitleSpec(s: StoreState, answer: string)
    requires RenderPhase(s).QuestionStep?
    ensures AnswerButtonTitle(s.smsStep) == "Complete" <==> s.smsStep == 5
    ensures AnswerButtonTitle(s.smsStep) == "Complete" <==>
      AnswerQuestion(s, RenderPhase(s).question, answer) == CompleteSMS(s)
  {
    var t := AnswerQuestion(s, RenderPhase(s).question, answer);
    if s.smsStep < 5 {
      assert t.smsStep >= 1;
    }
  }

  /** The steps whose question is answered when `m` actions are missed and the cursor
      is at `(step, index)`, up to and including the last question. */
  function AnsweredSteps(m: int, step: int, index: int): seq<int>
    requires 1 <= step <= 5
    decreases 5 - step, if index < m then m - index else 0
  {
    if step == 5 then [5]
    else
      var next := CursorNext(m, step, index);
      [step] + AnsweredSteps(m, next.0, next.1)
  }

  /** The measure of the question loop: the missed actions ahead of the cursor. */
  function QuestionLeft(s: StoreState): nat {
    var m := |MissedActions(s)|;
    if s.currentActionIndex < m then m - s.currentActionIndex else 0
  }

  /** Answering every question with the same non-empty answer: the steps whose
      question gets answered, up to and including the last question. */
  function QuestionRun(s: StoreState, answer: string): seq<int>
    requires 1 <= s.smsStep <= 5 && answer != ""
    decreases 5 - s.smsStep, QuestionLeft(s)
  {
    if s.smsStep == 5 then [5]
    else
      AnswerQuestionSpec(s, answer);
      [s.smsStep] + QuestionRun(AnswerQuestion(s, RenderPhase(s).question, answer), answer)
  }

  /** The question loop is driven by the cursor alone. */
  lemma {:induction false} QuestionRunFollowsCursor(s: StoreState, answer: string)
    requires 1 <= s.smsStep <= 5 && answer != ""
    ensures QuestionRun(s, answer) == AnsweredSteps(|MissedActions(s)|, s.smsStep, s.currentActionIndex)
    decreases 5 - s.smsStep, QuestionLeft(s)
  {
    if s.smsStep < 5 {
      AnswerQuestionSpec(s, answer);
      QuestionRunFollowsCursor(AnswerQuestion(s, RenderPhase(s).question, answer), answer);
    }
  }

  /** `n` copies of `x`. */
  function Rep(x: int, n: nat): (r: seq<int>)
    ensures |r| == n && forall i :: 0 <= i < n ==> r[i] == x
  {
    seq(n, _ => x)
  }

  /** One round of a question before the last: with `k` the larger of `m` and 1, the
      question at `step` is answered once for every index from `index` to `k - 1`,
      and then the next question starts at index 0. */
  lemma {:induction false} AnsweredStepsRound(m: int, step: int, index: int)
    requires 1 <= step <= 4 && 0 <= index < (if m >= 1 then m else 1)
    ensures AnsweredSteps(m, step, index) == Rep(step, (if m >= 1 then m else 1) - index) + AnsweredSteps(m, step + 1, 0)
    decreases (if m >= 1 then m else 1) - index
  {
    var k := if m >= 1 then m else 1;
    if index < m - 1 {
      AnsweredStepsRound(m, step, index + 1);
      assert [step] + Rep(step, k - index - 1) == Rep(step, k - index);
    } else {
      assert k - index == 1;
      assert Rep(step, 1) == [step];
    }
  }

  /** The question loop as it runs from the first question: questions 1 to 4 are each
      answered once per missed action (once when none is missed), and question 5 once,
      after which the review completes. */
  lemma QuestionLoop(s: StoreState, answer: string)
    requires s.smsStep == 1 && s.currentActionIndex == 0 && answer != ""
    ensures var m := |MissedActions(s)|; var k := if m >= 1 then m else 1;
      QuestionRun(s, answer) == Rep(1, k) + Rep(2, k) + Rep(3, k) + Rep(4, k) + [5] &&
      |QuestionRun(s, answer)| == 4 * k + 1
  {
    var m := |MissedActions(s)|;
    var k := if m >= 1 then m else 1;
    QuestionRunFollowsCursor(s, answer);
    AnsweredStepsRounds(m);
    assert |Rep(1, k) + Rep(2, k) + Rep(3, k) + Rep(4, k) + [5]| == 4 * k + 1;
  }

  /** The four rounds of questions 1 to 4 in a row, from the first question. */
  lemma AnsweredStepsRounds(m: int)
    ensures var k := if m >= 1 then m else 1;
      AnsweredSteps(m, 1, 0) == Rep(1, k) + Rep(2, k) + Rep(3, k) + Rep(4, k) + [5]
  {
    var k := if m >= 1 then m else 1;
    AnsweredStepsRound(m, 4, 0);
    var r4 := AnsweredSteps(m, 4, 0);
    assert r4 == Rep(4, k) + [5];
    AnsweredStepsRound(m, 3, 0);
    var r3 := AnsweredSteps(m, 3, 0);
    assert r3 == Rep(3, k) + r4;
    AnsweredStepsRound(m, 2, 0);
    var r2 := AnsweredSteps(m, 2, 0);
    assert r2 == Rep(2, k) + r3;
    AnsweredStepsRound(m, 1, 0);
    assert AnsweredSteps(m, 1, 0) == Rep(1, k) + r2;
    assert Rep(1, k) + (Rep(2, k) + (Rep(3, k) + (Rep(4, k) + [5]))) == Rep(1, k) + Rep(2, k) + Rep(3, k) + Rep(4, k) + [5];
  }

  /** The modal's local state. */
  class ReviewModal {
    var tempAnswer: string
    var tempCompleted: Option<bool>
    var tempReason: string

    constructor ()
      ensures tempAnswer == "" && tempCompleted == None && tempReason == ""
    {
      tempAnswer, tempCompleted, tempReason := "", None, "";
    }

    /** Next on the action review: once yes or no is chosen, records the result for
        the action under review, clears the choice and the reason, and moves the
        cursor; before that it does nothing. */
    method HandleActionReview(store: AppStore.Store)
      requires RenderPhase(store.State()).ActionReview?
      modifies this, store
      ensures old(tempCompleted).Some? ==>
        store.State() == ReviewAction(old(store.State()), RenderPhase(old(store.State())).action,
          old(tempCompleted).value, old(tempReason)) &&
        tempCompleted == None && tempReason == "" && tempAnswer == old(tempAnswer)
      ensures old(tempCompleted).None? ==> store.State() == old(store.State()) && unchanged(this)
    {
      if tempCompleted.Some? {
        var action := RenderPhase(store.State()).action;
        var r := store.review;
        store.review := r.(actionReviewResults := r.actionReviewResults[action.id := ActionResult(tempCompleted.value, tempReason)]);
        tempCompleted, tempReason := None, "";
        store.NextActionOrStep();
      }
    }

    /** Next (or Complete) on a question: with the guard met, appends the answer,
        clears it, and moves the cursor or completes the review; otherwise does
        nothing. */
    method HandleQuestionAnswer(store: AppStore.Store)
      requires RenderPhase(store.State()).QuestionStep?
      modifies this, store
      ensures AnswerAccepted(old(tempAnswer), RenderPhase(old(store.State())).question) ==>
        store.State() == AnswerQuestion(old(store.State()), RenderPhase(old(store.State())).question, old(tempAnswer)) &&
        tempAnswer == "" && tempCompleted == old(tempCompleted) && tempReason == old(tempReason)
      ensures !AnswerAccepted(old(tempAnswer), RenderPhase(old(store.State())).question) ==>
        store.State() == old(store.State()) && unchanged(this)
    {
      var q := RenderPhase(store.State()).question;
      if tempAnswer != "" || q.kind == BooleanQuestion {
        var r := store.review;
        store.review := r.(smsAnswers := r.smsAnswers + [SMSAnswer(q.question, tempAnswer)]);
        tempAnswer := "";
        if r.smsStep < |DAY_REVIEW_QUESTIONS| {
          store.NextActionOrStep();
        } else {
          store.CompleteSMS();
        }
      }
    }
  }

  /** Closing the modal completes the review. */
  method ClosePressed(store: AppStore.Store)
    modifies store
    ensures store.State() == CompleteSMS(old(store.State()))
  {
    store.CompleteSMS();
  }
}
