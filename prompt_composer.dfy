/** The prompt carousel composer of app/components/PromptComposer.tsx: three shuffled
    social prompts and the free-form prompt to swipe through, a text box, and the Post
    button. */
module PromptComposer {
  import opened Wrappers
  import opened Text
  import opened Constants
  import opened Lists
  import StoreModel
  import AppStore

  /** `SOCIAL_PROMPTS.sort(random).slice(0, 3)`: the random order is the parameter
      `shuffled`. */
  function DisplayPrompts(shuffled: seq<Prompt>): seq<Prompt> {
    if |shuffled| <= 3 then shuffled else shuffled[..3]
  }

  /** `[...displayPrompts, FREE_FORM_PROMPT]`. */
  function CarouselPrompts(shuffled: seq<Prompt>): seq<Prompt> {
    DisplayPrompts(shuffled) + [FREE_FORM_PROMPT]
  }

  /** The ids of the social prompts are distinct and none of them is the free-form id. */
  lemma SocialPromptIds()
    ensures forall i, j :: 0 <= i < j < |SOCIAL_PROMPTS| ==> SOCIAL_PROMPTS[i].id != SOCIAL_PROMPTS[j].id
    ensures forall i :: 0 <= i < |SOCIAL_PROMPTS| ==> SOCIAL_PROMPTS[i].id != FREE_FORM_PROMPT.id
  {
    assert SOCIAL_PROMPTS[0].id[0] == 'b' && SOCIAL_PROMPTS[1].id[0] == 'm' && SOCIAL_PROMPTS[2].id[0] == 'p';
    assert SOCIAL_PROMPTS[3].id[0] == 'g' && SOCIAL_PROMPTS[4].id[0] == 'l' && SOCIAL_PROMPTS[5].id[0] == 'w';
    assert FREE_FORM_PROMPT.id[0] == 'f';
  }

  /** For a shuffle of the social prompts, the carousel shows four prompts: three
      social prompts, and then the free-form prompt, which is the only free-form one. */
  lemma CarouselPromptsSpec(shuffled: seq<Prompt>)
    requires multiset(shuffled) == multiset(SOCIAL_PROMPTS)
    ensures |CarouselPrompts(shuffled)| == 4
    ensures CarouselPrompts(shuffled)[3] == FREE_FORM_PROMPT
    ensures forall i :: 0 <= i < 3 ==>
      CarouselPrompts(shuffled)[i] in SOCIAL_PROMPTS && CarouselPrompts(shuffled)[i].id != FREE_FORM_PROMPT.id
  {
    var c := CarouselPrompts(shuffled);
    assert |shuffled| == |SOCIAL_PROMPTS| by {
      assert |multiset(shuffled)| == |multiset(SOCIAL_PROMPTS)|;
    }
    SocialPromptIds();
    forall i | 0 <= i < 3 ensures c[i] in SOCIAL_PROMPTS {
      assert c[i] == shuffled[i];
      assert shuffled[i] in multiset(shuffled);
    }
  }

  /** The four prompts of the carousel are all different. */
  lemma CarouselPromptsDistinct(shuffled: seq<Prompt>)
    requires multiset(shuffled) == multiset(SOCIAL_PROMPTS)
    ensures forall i, j :: 0 <= i < j < |CarouselPrompts(shuffled)| ==> CarouselPrompts(shuffled)[i] != CarouselPrompts(shuffled)[j]
  {
    var c := CarouselPrompts(shuffled);
    CarouselPromptsSpec(shuffled);
    forall i, j | 0 <= i < j < 4 ensures c[i] != c[j] {
      if j < 3 {
        assert c[i] == shuffled[i] && c[j] == shuffled[j];
        ShuffleHasNoRepeats(shuffled, i, j);
      }
    }
  }

  /** A shuffle of the social prompts repeats no prompt. */
  lemma ShuffleHasNoRepeats(shuffled: seq<Prompt>, i: int, j: int)
    requires multiset(shuffled) == multiset(SOCIAL_PROMPTS)
    requires 0 <= i < j < |shuffled|
    ensures shuffled[i] != shuffled[j]
  {
    SocialPromptsDistinct();
    DistinctAtMostOnce(SOCIAL_PROMPTS, shuffled[i]);
    if shuffled[i] == shuffled[j] {
      RepeatedTwice(shuffled, i, j);
    }
  }

  lemma SocialPromptsDistinct()
    ensures forall i, j :: 0 <= i < j < |SOCIAL_PROMPTS| ==> SOCIAL_PROMPTS[i] != SOCIAL_PROMPTS[j]
  {
    SocialPromptIds();
  }

  const FREE_FORM_PLACEHOLDER := "Share what's on your mind..."
  const PROMPT_PLACEHOLDER := "Share your thoughts here..."

  /** `getPlaceholder` for the current prompt. */
  function Placeholder(p: Prompt): string {
    if p.id == "free-form" then FREE_FORM_PLACEHOLDER else PROMPT_PLACEHOLDER
  }

  /** The Post button is disabled while the text is blank. */
  predicate PostDisabled(inputText: string) {
    Trim(inputText) == ""
  }

  /** The component's state: the carousel fixed when it mounts, the carousel position
      and the typed text. */
  class Carousel {
    const prompts: seq<Prompt>
    var currentPromptIndex: int
    var inputText: string

    constructor (shuffled: seq<Prompt>)
      ensures prompts == CarouselPrompts(shuffled) && currentPromptIndex == 0 && inputText == ""
    {
      prompts := CarouselPrompts(shuffled);
      currentPromptIndex, inputText := 0, "";
    }

    /** `prompts[currentPromptIndex]`, undefined outside the carousel. */
    function CurrentPrompt(): (r: Option<Prompt>)
      reads this
      ensures r.Some? <==> 0 <= currentPromptIndex < |prompts|
      ensures r.Some? ==> r.value == prompts[currentPromptIndex]
    {
      if 0 <= currentPromptIndex < |prompts| then Some(prompts[currentPromptIndex]) else None
    }

    /** `handleScrollEnd` with the snapped page `index` already computed from the
        scroll offset. */
    method ScrollEnd(index: int)
      modifies this
      ensures currentPromptIndex == index && inputText == old(inputText)
    {
      currentPromptIndex := index;
    }

    /** `onChangeText`. */
    method ChangeText(t: string)
      modifies this
      ensures inputText == t && currentPromptIndex == old(currentPromptIndex)
    {
      inputText := t;
    }

    /** `handlePost`: with a non-blank text, publishes the composed content for the
        current prompt and clears the text; otherwise changes nothing. The current
        prompt must exist, since rendering the placeholder reads it first. */
    method HandlePost(store: AppStore.Store, now: nat) returns (posted: bool)
      requires CurrentPrompt().Some?
      modifies this, store
      ensures posted <==> !PostDisabled(old(inputText))
      ensures posted ==>
        store.State() == StoreModel.PublishPost(old(store.State()), ComposedContent(old(CurrentPrompt()).value, old(inputText)), now) &&
        inputText == ""
      ensures !posted ==> store.State() == old(store.State()) && inputText == old(inputText)
      ensures currentPromptIndex == old(currentPromptIndex)
    {
      if Trim(inputText) != "" {
        store.PublishPost(ComposedContent(prompts[currentPromptIndex], inputText), now);
        inputText := "";
        posted := true;
      } else {
        posted := false;
      }
    }
  }

  /** On each of the four pages of a carousel of shuffled social prompts the
      placeholder is the free-form one exactly on the last page. */
  lemma CarouselPagesSpec(shuffled: seq<Prompt>, index: int)
    requires multiset(shuffled) == multiset(SOCIAL_PROMPTS)
    requires 0 <= index < 4
    ensures Placeholder(CarouselPrompts(shuffled)[index]) == FREE_FORM_PLACEHOLDER <==> index == 3
  {
    CarouselPromptsSpec(shuffled);
    FreeFormPageOnly(CarouselPrompts(shuffled), index);
  }

  /** In four prompts of which only the last is the free-form one, the placeholder is
      the free-form one exactly on the last. */
  lemma FreeFormPageOnly(c: seq<Prompt>, index: int)
    requires |c| == 4 && c[3] == FREE_FORM_PROMPT && 0 <= index < 4
    requires forall i :: 0 <= i < 3 ==> c[i].id != FREE_FORM_PROMPT.id
    ensures Placeholder(c[index]) == FREE_FORM_PLACEHOLDER <==> index == 3
  {
    assert FREE_FORM_PROMPT.id == "free-form";
    assert FREE_FORM_PLACEHOLDER[6] == 'w' && PROMPT_PLACEHOLDER[6] == 'y';
  }
}
