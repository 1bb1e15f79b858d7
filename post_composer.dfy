/** The post composer modal of app/screens/modals/postComposerModal.tsx: the prompt it
    was opened with, the placeholder that follows from it, and the Publish and Cancel
    buttons. */
module PostComposer {
  import opened Wrappers
  import opened Text
  import opened Lists
  import opened Constants
  import StoreModel
  import AppStore
  import PromptComposer

  /** Every prompt the modal knows: `[...SOCIAL_PROMPTS, FREE_FORM_PROMPT]`. */
  const ALL_PROMPTS: seq<Prompt> := SOCIAL_PROMPTS + [FREE_FORM_PROMPT]

  function PromptId(p: Prompt): string {
    p.id
  }

  /** `selectedPrompt`: `null` without a (non-empty) prompt id, `undefined` when no
      prompt has that id, and otherwise the first prompt with it. */
  datatype PromptLookup = NullPrompt | UndefinedPrompt | FoundPrompt(prompt: Prompt)

  function SelectedPrompt(selectedPromptId: Option<string>): PromptLookup {
    if selectedPromptId.None? || selectedPromptId.value == "" then NullPrompt
    else match Find(ALL_PROMPTS, PromptId, selectedPromptId.value)
      case None => UndefinedPrompt
      case Some(p) => FoundPrompt(p)
  }

  /** The ids of all known prompts are distinct. */
  lemma AllPromptIdsDistinct()
    ensures DistinctKeys(ALL_PROMPTS, PromptId)
  {
    PromptComposer.SocialPromptIds();
    forall i, j | 0 <= i < j < |ALL_PROMPTS| ensures PromptId(ALL_PROMPTS[i]) != PromptId(ALL_PROMPTS[j]) {
      assert ALL_PROMPTS[i] == (if i < |SOCIAL_PROMPTS| then SOCIAL_PROMPTS[i] else FREE_FORM_PROMPT);
      assert ALL_PROMPTS[j] == (if j < |SOCIAL_PROMPTS| then SOCIAL_PROMPTS[j] else FREE_FORM_PROMPT);
    }
  }

  /** A found prompt carries the id asked for; an id is undefined exactly when no known
      prompt has it; and every known prompt is found by its own id. */
  lemma SelectedPromptSpec(selectedPromptId: Option<string>, k: int)
    requires 0 <= k < |ALL_PROMPTS|
    ensures SelectedPrompt(selectedPromptId).FoundPrompt? ==>
      SelectedPrompt(selectedPromptId).prompt.id == selectedPromptId.value &&
      SelectedPrompt(selectedPromptId).prompt in ALL_PROMPTS
    ensures SelectedPrompt(selectedPromptId) == UndefinedPrompt <==>
      selectedPromptId.Some? && selectedPromptId.value != "" && !HasKey(ALL_PROMPTS, PromptId, selectedPromptId.value)
    ensures SelectedPrompt(Some(ALL_PROMPTS[k].id)) == FoundPrompt(ALL_PROMPTS[k])
  {
    AllPromptIdsDistinct();
    FindDistinct(ALL_PROMPTS, PromptId, k);
    assert ALL_PROMPTS[k].id != "" by {
      PromptIdNotEmpty(k);
    }
  }

  lemma PromptIdNotEmpty(k: int)
    requires 0 <= k < |ALL_PROMPTS|
    ensures ALL_PROMPTS[k].id != ""
  {
    assert ALL_PROMPTS[k] == (if k < |SOCIAL_PROMPTS| then SOCIAL_PROMPTS[k] else FREE_FORM_PROMPT);
    assert |SOCIAL_PROMPTS[0].id| > 0 && |SOCIAL_PROMPTS[1].id| > 0 && |SOCIAL_PROMPTS[2].id| > 0;
    assert |SOCIAL_PROMPTS[3].id| > 0 && |SOCIAL_PROMPTS[4].id| > 0 && |SOCIAL_PROMPTS[5].id| > 0;
  }

  const PROMPT_PLACEHOLDER := "Share your thoughts..."
  const FREE_PLACEHOLDER := "What's on your mind?"

  /** The text box's placeholder: the prompted one for any found prompt, the free one
      both for `null` and for `undefined`. */
  function Placeholder(lookup: PromptLookup): string {
    if lookup.FoundPrompt? then PROMPT_PLACEHOLDER else FREE_PLACEHOLDER
  }

  /** Opened from a known prompt the modal shows the prompted placeholder, the
      free-form prompt included; opened with no prompt id or an unknown one, the free
      placeholder. */
  lemma PlaceholderSpec(selectedPromptId: Option<string>)
    ensures Placeholder(SelectedPrompt(selectedPromptId)) == PROMPT_PLACEHOLDER <==>
      selectedPromptId.Some? && selectedPromptId.value != "" && HasKey(ALL_PROMPTS, PromptId, selectedPromptId.value)
  {
    assert PROMPT_PLACEHOLDER[0] == 'S' && FREE_PLACEHOLDER[0] == 'W';
  }

  /** The Publish button is disabled while the content is blank. */
  predicate PublishDisabled(content: string) {
    Trim(content) == ""
  }

  /** The modal's local state. */
  class Form {
    var content: string

    constructor ()
      ensures content == ""
    {
      content := "";
    }

    /** `onChangeText`. */
    method ChangeText(t: string)
      modifies this
      ensures content == t
    {
      content := t;
    }

    /** `handlePublish`: with non-blank content, publishes it trimmed and clears the
        box; the modal stays open and the prompt is not added to the post. */
    method HandlePublish(store: AppStore.Store, now: nat) returns (published: bool)
      modifies this, store
      ensures published <==> !PublishDisabled(old(content))
      ensures published ==> store.State() == StoreModel.PublishPost(old(store.State()), Trim(old(content)), now) && content == ""
      ensures !published ==> store.State() == old(store.State()) && content == old(content)
    {
      var trimmed := Trim(content);
      if trimmed != "" {
        store.PublishPost(trimmed, now);
        content := "";
        published := true;
      } else {
        published := false;
      }
    }

    /** Cancel, and the system back gesture: `closePostComposer`. */
    method Cancel(store: AppStore.Store)
      modifies store
      ensures store.State() == StoreModel.ClosePostComposer(old(store.State()))
      ensures content == old(content)
    {
      store.ClosePostComposer();
    }
  }

  /** Publishing leaves the modal open on the same prompt, puts a post whose content
      has no surrounding whitespace in front of the feed, and the same text posted
      again trims to itself. */
  lemma PublishKeepsModalOpen(s: StoreModel.StoreState, content: string, now: nat)
    requires !PublishDisabled(content)
    ensures var r := StoreModel.PublishPost(s, Trim(content), now);
      r.showPostComposer == s.showPostComposer && r.selectedPromptId == s.selectedPromptId &&
      r.feedPosts[0].content == Trim(content) && Trim(r.feedPosts[0].content) == r.feedPosts[0].content &&
      !IsWhitespace(r.feedPosts[0].content[0]) &&
      !IsWhitespace(r.feedPosts[0].content[|r.feedPosts[0].content| - 1])
  {
    var t := Trim(content);
    var r := StoreModel.PublishPost(s, t, now);
    StoreModel.PublishPostPrepends(s, t, now);
    assert r.feedPosts[0].content == t;
    TrimIsInnerSlice(content);
    assert !IsWhitespace(t[0]) && !IsWhitespace(t[|t| - 1]);
    TrimIdempotent(content);
  }

  /** Closing hides the modal and forgets the prompt, so it reopens on whatever prompt
      it is next opened with. */
  lemma CloseThenOpen(s: StoreModel.StoreState, promptId: Option<string>)
    ensures !StoreModel.ClosePostComposer(s).showPostComposer
    ensures StoreModel.ClosePostComposer(s).selectedPromptId == None
    ensures StoreModel.OpenPostComposer(StoreModel.ClosePostComposer(s), promptId) == StoreModel.OpenPostComposer(s, promptId)
  {
  }
}
