/** The quick composer of app/components/QuickCompose.tsx: a text box that opens when
    the parent selects a prompt, offers three emoji to append, and publishes a post to
    the feed. */
module QuickCompose {
  import opened Wrappers
  import opened Text
  import opened Constants
  import StoreModel
  import AppStore

  /** `text.trim() && selectedPrompt`: the Post button publishes only with something
      besides whitespace typed and a prompt selected. */
  predicate PostAccepted(text: string, selected: Option<Prompt>) {
    Trim(text) != "" && selected.Some?
  }

  /** A post is accepted exactly when some character of the text is not whitespace and
      a prompt is selected. */
  lemma PostAcceptedSpec(text: string, selected: Option<Prompt>)
    ensures PostAccepted(text, selected) <==> !AllWhitespace(text) && selected.Some?
  {
    TrimEmptyIffAllWhitespace(text);
  }

  const NO_PROMPT_PLACEHOLDER := "Tap a prompt above to start sharing..."
  const FREE_FORM_PLACEHOLDER := "What's on your mind?"
  const PROMPT_PLACEHOLDER := "Share your thoughts..."

  /** `getPlaceholder`. */
  function Placeholder(selected: Option<Prompt>): string {
    if selected.None? then NO_PROMPT_PLACEHOLDER
    else if selected.value.id == "free-form" then FREE_FORM_PLACEHOLDER
    else PROMPT_PLACEHOLDER
  }

  /** The placeholder tells apart the three states: no prompt, the free-form prompt,
      and any other prompt. */
  lemma PlaceholderTellsStates(a: Option<Prompt>, b: Option<Prompt>)
    requires Placeholder(a) == Placeholder(b)
    ensures a.None? <==> b.None?
    ensures a.Some? && b.Some? ==> (a.value.id == "free-form" <==> b.value.id == "free-form")
  {
    assert NO_PROMPT_PLACEHOLDER[0] == 'T' && FREE_FORM_PLACEHOLDER[0] == 'W' && PROMPT_PLACEHOLDER[0] == 'S';
  }

  /** The emoji buttons, each appending a space and its emoji. */
  const COMPOSE_EMOJIS: seq<string> := ["🔥", "💪", "🎯"]

  /** The component's local state and its `selectedPrompt` prop. */
  class Composer {
    var text: string
    var isExpanded: bool
    var selectedPrompt: Option<Prompt>

    constructor (selected: Option<Prompt>)
      ensures text == "" && !isExpanded && selectedPrompt == selected
    {
      text, isExpanded, selectedPrompt := "", false, selected;
    }

    /** The effect on `selectedPrompt`: a selected prompt expands the box and keeps the
        text; no prompt collapses it and clears the text. */
    method PromptChanged(selected: Option<Prompt>)
      modifies this
      ensures selectedPrompt == selected
      ensures selected.Some? ==> isExpanded && text == old(text)
      ensures selected.None? ==> !isExpanded && text == ""
    {
      selectedPrompt := selected;
      if selected.Some? {
        isExpanded := true;
      } else {
        isExpanded := false;
        text := "";
      }
    }

    /** `onChangeText`. */
    method ChangeText(t: string)
      modifies this
      ensures text == t && isExpanded == old(isExpanded) && selectedPrompt == old(selectedPrompt)
    {
      text := t;
    }

    /** An emoji button: `setText(text + ' ' + emoji)`. */
    method AppendEmoji(emoji: string)
      modifies this
      ensures text == old(text) + " " + emoji
      ensures isExpanded == old(isExpanded) && selectedPrompt == old(selectedPrompt)
    {
      text := text + " " + emoji;
    }

    /** `handlePost`: with an accepted post, publishes the composed content, clears the
        text and calls `onClose` (the result says whether it did); otherwise changes
        nothing. */
    method HandlePost(store: AppStore.Store, now: nat) returns (closes: bool)
      modifies this, store
      ensures closes <==> PostAccepted(old(text), selectedPrompt)
      ensures closes ==>
        store.State() == StoreModel.PublishPost(old(store.State()), ComposedContent(selectedPrompt.value, old(text)), now) &&
        text == ""
      ensures !closes ==> store.State() == old(store.State()) && text == old(text)
      ensures isExpanded == old(isExpanded) && selectedPrompt == old(selectedPrompt)
    {
      if Trim(text) != "" && selectedPrompt.Some? {
        store.PublishPost(ComposedContent(selectedPrompt.value, text), now);
        text := "";
        closes := true;
      } else {
        closes := false;
      }
    }
  }

  /** After a post with the free-form prompt, the feed starts with the text exactly as
      typed, surrounding whitespace included; with any other prompt it starts with the
      prompt's header followed by the text. */
  lemma PostedContent(s: StoreModel.StoreState, p: Prompt, text: string, now: nat)
    ensures var q := StoreModel.PublishPost(s, ComposedContent(p, text), now).feedPosts[0];
      (p.id == "free-form" ==> q.content == text) &&
      (p.id != "free-form" ==> q.content == p.emoji + " " + p.fullText + "\n\n" + text)
  {
    StoreModel.PublishPostPrepends(s, ComposedContent(p, text), now);
    ComposedContentSpec(p, text);
  }
}
