/** The feed of app/screens/socialScreen.tsx: the "New Goal" and prompt badges of a
    post, the label the prompt badge derives from the prompt id, and the reaction
    buttons. */
module SocialScreen {
  import opened Wrappers
  import opened Text
  import opened Types
  import Constants
  import StoreModel
  import AppStore

  // ---------------------------------------------------------------------------
  // The prompt label

  /** `w[0].toUpperCase() + w.slice(1)`; on an empty segment `w[0]` is undefined and
      the call throws, which is `None` here. */
  function Capitalized(w: string): Option<string> {
    if w == "" then None else Some([UpperChar(w[0])] + w[1..])
  }

  /** `segs.map(...)`: defined exactly when every segment is, and then one capitalized
      segment per segment. */
  function CapitalizeAll(segs: seq<string>): (r: Option<seq<string>>)
    ensures r.Some? <==> forall i :: 0 <= i < |segs| ==> segs[i] != ""
    ensures r.Some? ==> |r.value| == |segs|
    ensures r.Some? ==> forall i :: 0 <= i < |segs| ==> Some(r.value[i]) == Capitalized(segs[i])
  {
    if segs == [] then Some([])
    else
      var rest := CapitalizeAll(segs[1..]);
      assert forall i :: 1 <= i < |segs| ==> segs[i] == segs[1..][i - 1];
      if segs[0] == "" || rest.None? then None
      else Some([Capitalized(segs[0]).value] + rest.value)
  }

  /** `promptId.split('-').map(...).join(' ')`, `None` where rendering throws. */
  function PromptLabel(id: string): Option<string> {
    match CapitalizeAll(Split(id, '-'))
    case None => None
    case Some(words) => Some(Join(words, " "))
  }

  /** A reference definition, character by character: a hyphen becomes a space, the
      first character and every character after a hyphen is upper-cased, and every
      other character is kept. */
  function CharLabel(id: string): (r: string)
    ensures |r| == |id|
  {
    seq(|id|, i requires 0 <= i < |id| =>
      if id[i] == '-' then ' '
      else if i == 0 || id[i - 1] == '-' then UpperChar(id[i])
      else id[i])
  }

  /** The ids on which the label renders: not empty, no hyphen at either end and no two
      hyphens in a row. */
  predicate WellFormedId(id: string) {
    id != [] && id[0] != '-' && id[|id| - 1] != '-' &&
    forall i :: 0 <= i < |id| - 1 ==> !(id[i] == '-' && id[i + 1] == '-')
  }

  predicate NoHyphen(w: string) {
    forall i :: 0 <= i < |w| ==> w[i] != '-'
  }

  /** The label renders exactly for well-formed ids, and then it is the reference
      label: as long as the id, and with a space wherever the id has a hyphen. */
  lemma PromptLabelSpec(id: string)
    ensures PromptLabel(id).Some? <==> WellFormedId(id)
    ensures PromptLabel(id).Some? ==> PromptLabel(id).value == CharLabel(id)
    ensures PromptLabel(id).Some? ==> |PromptLabel(id).value| == |id|
    ensures PromptLabel(id).Some? ==> forall i :: 0 <= i < |id| && id[i] == '-' ==> PromptLabel(id).value[i] == ' '
  {
    var segs := Split(id, '-');
    JoinSplit(id, '-');
    SplitSegmentsNoHyphen(id, "");
    WellFormedJoin(segs);
    var r := CapitalizeAll(segs);
    if r.Some? {
      LabelOfJoin(segs, r.value);
    }
  }

  /** No segment of a split contains the separator. */
  lemma {:induction false} SplitSegmentsNoHyphen(s: string, cur: string)
    requires NoHyphen(cur)
    ensures forall k :: 0 <= k < |SplitFrom(s, '-', cur)| ==> NoHyphen(SplitFrom(s, '-', cur)[k])
    decreases |s|
  {
    if s == [] {
    } else if s[0] == '-' {
      SplitSegmentsNoHyphen(s[1..], "");
      var rest := SplitFrom(s[1..], '-', "");
      assert SplitFrom(s, '-', cur) == [cur] + rest;
      assert forall k :: 1 <= k < |[cur] + rest| ==> ([cur] + rest)[k] == rest[k - 1];
    } else {
      SplitSegmentsNoHyphen(s[1..], cur + [s[0]]);
    }
  }

  /** Joining hyphen-free segments with hyphens gives a well-formed id exactly when no
      segment is empty. */
  lemma {:induction false} WellFormedJoin(segs: seq<string>)
    requires |segs| >= 1
    requires forall k :: 0 <= k < |segs| ==> NoHyphen(segs[k])
    ensures WellFormedId(Join(segs, "-")) <==> forall k :: 0 <= k < |segs| ==> segs[k] != ""
  {
    if |segs| == 1 {
      assert Join(segs, "-") == segs[0];
    } else {
      var w, rest := segs[0], segs[1..];
      assert forall k :: 0 <= k < |rest| ==> rest[k] == segs[k + 1];
      WellFormedJoin(rest);
      assert Join(segs, "-") == w + "-" + Join(rest, "-");
      WellFormedAround(w, Join(rest, "-"));
      assert (forall k :: 0 <= k < |segs| ==> segs[k] != "") <==>
        w != "" && forall k :: 0 <= k < |rest| ==> rest[k] != "" by {
        if w != "" && forall k :: 0 <= k < |rest| ==> rest[k] != "" {
          forall k | 0 <= k < |segs| ensures segs[k] != "" {
            if k > 0 { assert segs[k] == rest[k - 1]; }
          }
        }
      }
    }
  }

  /** An id made of a hyphen-free word, a hyphen and a rest is well formed exactly when
      the word is not empty and the rest is well formed. */
  lemma WellFormedAround(w: string, b: string)
    requires NoHyphen(w)
    ensures WellFormedId(w + "-" + b) <==> w != "" && WellFormedId(b)
  {
    if WellFormedId(w + "-" + b) {
      WellFormedRest(w, b);
    }
    if w != "" && WellFormedId(b) {
      WellFormedPrefixed(w, b);
    }
  }

  /** A well-formed id made of a word, a hyphen and a rest: the word is not empty and
      the rest is well formed. */
  lemma WellFormedRest(w: string, b: string)
    requires WellFormedId(w + "-" + b)
    ensures w != "" && WellFormedId(b)
  {
    var t := w + "-" + b;
    var n := |w|;
    assert t[n] == '-';
    assert forall j :: 0 <= j < |b| ==> t[n + 1 + j] == b[j];
    assert t[|t| - 1] == if b == [] then '-' else b[|b| - 1];
    assert b[0] != '-' by {
      assert !(t[n] == '-' && t[n + 1] == '-');
    }
    forall j | 0 <= j < |b| - 1 ensures !(b[j] == '-' && b[j + 1] == '-') {
      assert !(t[n + 1 + j] == '-' && t[n + 1 + j + 1] == '-');
    }
  }

  /** A non-empty hyphen-free word, a hyphen and a well-formed rest make a well-formed
      id. */
  lemma WellFormedPrefixed(w: string, b: string)
    requires NoHyphen(w) && w != "" && WellFormedId(b)
    ensures WellFormedId(w + "-" + b)
  {
    var t := w + "-" + b;
    var n := |w|;
    assert t[0] == w[0];
    assert t[|t| - 1] == b[|b| - 1];
    forall i | 0 <= i < |t| - 1 ensures !(t[i] == '-' && t[i + 1] == '-') {
      if i < n - 1 {
        assert t[i] == w[i];
      } else if i == n - 1 {
        assert t[i] == w[i];
      } else if i == n {
        assert t[n + 1] == b[0];
      } else {
        var j := i - n - 1;
        assert t[i] == b[j] && t[i + 1] == b[j + 1];
      }
    }
  }

  /** The reference label of a word, a hyphen and a rest is the word's label, a space
      and the rest's label. */
  lemma CharLabelAround(a: string, b: string)
    ensures CharLabel(a + "-" + b) == CharLabel(a) + " " + CharLabel(b)
  {
    var t := a + "-" + b;
    var l, r := CharLabel(t), CharLabel(a) + " " + CharLabel(b);
    var n := |a|;
    forall i | 0 <= i < |t| ensures l[i] == r[i] {
      if i < n {
        assert t[i] == a[i];
        if i > 0 { assert t[i - 1] == a[i - 1]; }
      } else if i == n {
      } else {
        var j := i - n - 1;
        assert t[i] == b[j];
        if j > 0 { assert t[i - 1] == b[j - 1]; }
      }
    }
  }

  /** Capitalizing and joining hyphen-free, non-empty segments with spaces gives the
      reference label of the segments joined with hyphens. */
  lemma {:induction false} LabelOfJoin(segs: seq<string>, words: seq<string>)
    requires |segs| >= 1 && |words| == |segs|
    requires forall k :: 0 <= k < |segs| ==> NoHyphen(segs[k]) && segs[k] != ""
    requires forall k :: 0 <= k < |segs| ==> Some(words[k]) == Capitalized(segs[k])
    ensures Join(words, " ") == CharLabel(Join(segs, "-"))
  {
    var w := segs[0];
    assert CharLabel(w) == [UpperChar(w[0])] + w[1..] by {
      forall i | 0 <= i < |w| ensures CharLabel(w)[i] == ([UpperChar(w[0])] + w[1..])[i] {
        if i > 0 { assert w[i - 1] != '-' && w[i] != '-'; }
      }
    }
    if |segs| > 1 {
      assert forall k :: 0 <= k < |segs| - 1 ==> segs[1..][k] == segs[k + 1] && words[1..][k] == words[k + 1];
      LabelOfJoin(segs[1..], words[1..]);
      CharLabelAround(w, Join(segs[1..], "-"));
    }
  }

  /** Two non-empty hyphen-free words joined by a hyphen make a well-formed id. */
  lemma TwoWordId(w: string, v: string)
    requires w != "" && v != "" && NoHyphen(w) && NoHyphen(v)
    ensures WellFormedId(w + "-" + v)
  {
    WellFormedAround(w, v);
  }

  /** Every id of the social prompts is well formed, so by `PromptLabelSpec` its
      badge renders. */
  lemma PromptIdsRender(k: int)
    requires 0 <= k < |Constants.SOCIAL_PROMPTS|
    ensures WellFormedId(Constants.SOCIAL_PROMPTS[k].id)
  {
    PromptIdLiterals();
    var id := Constants.SOCIAL_PROMPTS[k].id;
    assert id in ["biggest-insight", "most-challenging", "progress-made", "grateful-for", "learned-today", "win-today"];
  }

  /** The six ids of the social prompts, spelled out, are well formed. */
  lemma PromptIdLiterals()
    ensures WellFormedId("biggest-insight") && WellFormedId("most-challenging") && WellFormedId("progress-made")
    ensures WellFormedId("grateful-for") && WellFormedId("learned-today") && WellFormedId("win-today")
  {
  }

  /** The free-form prompt's id is well formed and, by `PromptLabelSpec`, reads
      "Free Form". */
  lemma FreeFormLabel()
    ensures WellFormedId(Constants.FREE_FORM_PROMPT.id)
    ensures CharLabel(Constants.FREE_FORM_PROMPT.id) == "Free Form"
  {
    var id := Constants.FREE_FORM_PROMPT.id;
    assert id == "free" + "-" + "form";
    TwoWordId("free", "form");
    CharLabelAround("free", "form");
    assert CharLabel("free") == "Free";
    assert CharLabel("form") == "Form";
  }

  // ---------------------------------------------------------------------------
  // Badges

  /** The "🎯 New Goal" badge. */
  predicate ShowsGoalBadge(p: FeedPost) {
    p.kind == GoalAnnouncement
  }

  /** What a post shows as its prompt badge. */
  datatype PromptBadge = NoPromptBadge | PromptBadgeText(text: string) | LabelError

  /** A prompted post with a non-empty prompt id shows the prompt's emoji (nothing
      when it has none), a space and the label. */
  function PromptBadgeOf(p: FeedPost): PromptBadge {
    if p.kind == Prompted && p.promptId.Some? && p.promptId.value != "" then
      match PromptLabel(p.promptId.value)
      case None => LabelError
      case Some(l) => PromptBadgeText(p.promptEmoji.GetOr("") + " " + l)
    else NoPromptBadge
  }

  /** The badge shows exactly for prompted posts with a prompt id; rendering it fails
      exactly on an id that is not well formed, and otherwise shows the reference
      label after the emoji. */
  lemma PromptBadgeSpec(p: FeedPost)
    ensures PromptBadgeOf(p) != NoPromptBadge <==> p.kind == Prompted && p.promptId.Some? && p.promptId.value != ""
    ensures PromptBadgeOf(p) == LabelError <==>
      p.kind == Prompted && p.promptId.Some? && p.promptId.value != "" && !WellFormedId(p.promptId.value)
    ensures PromptBadgeOf(p).PromptBadgeText? ==>
      PromptBadgeOf(p).text == p.promptEmoji.GetOr("") + " " + CharLabel(p.promptId.value)
  {
    if p.promptId.Some? {
      PromptLabelSpec(p.promptId.value);
    }
  }

  /** Posts the app writes itself never show a prompt badge, and show the goal badge
      exactly when they announce a goal: the post `publishPost` puts in front of the
      feed is prompted but carries no prompt id. */
  lemma OwnPostBadges(s: StoreModel.StoreState, kind: PostType, content: string, now: nat, goalTitle: Option<string>)
    ensures PromptBadgeOf(StoreModel.OwnPost(s.user, kind, content, now, goalTitle)) == NoPromptBadge
    ensures ShowsGoalBadge(StoreModel.OwnPost(s.user, kind, content, now, goalTitle)) <==> kind == GoalAnnouncement
    ensures var q := StoreModel.PublishPost(s, content, now).feedPosts[0];
      q.kind == Prompted && PromptBadgeOf(q) == NoPromptBadge && !ShowsGoalBadge(q)
  {
  }

  // ---------------------------------------------------------------------------
  // Reactions

  /** The quick reactions every post offers. */
  const QUICK_EMOJIS: seq<string> := ["🔥", "💪", "❤️", "🎯"]

  /** A press of a reaction button: `handleReaction(postId, emoji)`. */
  datatype ReactionPress = ReactionPress(postId: string, emoji: string)

  /** The pills, one per emoji that already has a count on the post. */
  function Pills(p: FeedPost): set<ReactionPress> {
    set e | e in p.reactions.Keys :: ReactionPress(p.id, e)
  }

  /** The quick-reaction buttons, in order. */
  function QuickButtons(p: FeedPost): seq<ReactionPress> {
    seq(|QUICK_EMOJIS|, i requires 0 <= i < |QUICK_EMOJIS| => ReactionPress(p.id, QUICK_EMOJIS[i]))
  }

  /** Every button of a post reacts on that post: a pill with each emoji the post
      has, and always the four quick emojis. */
  lemma ReactionButtonsSpec(p: FeedPost, press: ReactionPress)
    ensures press in Pills(p) <==> press.postId == p.id && press.emoji in p.reactions
    ensures |QuickButtons(p)| == 4 &&
      forall i :: 0 <= i < 4 ==> QuickButtons(p)[i].postId == p.id && QuickButtons(p)[i].emoji in QUICK_EMOJIS
    ensures press.postId == p.id && press.emoji in QUICK_EMOJIS ==> press in QuickButtons(p)
  {
    if press.postId == p.id && press.emoji in QUICK_EMOJIS {
      var i :| 0 <= i < |QUICK_EMOJIS| && QUICK_EMOJIS[i] == press.emoji;
      assert QuickButtons(p)[i] == press;
    }
  }

  /** Pressing any button of the post at position `k` raises that post's count of the
      button's emoji by one. */
  lemma PressRaisesCount(s: StoreModel.StoreState, k: int, press: ReactionPress)
    requires 0 <= k < |s.feedPosts|
    requires press in Pills(s.feedPosts[k]) || press in QuickButtons(s.feedPosts[k])
    ensures var r := StoreModel.HandleReaction(s, press.postId, press.emoji);
      StoreModel.ReactionCount(r.feedPosts[k], press.emoji) == StoreModel.ReactionCount(s.feedPosts[k], press.emoji) + 1
  {
    StoreModel.HandleReactionCounts(s, press.postId, press.emoji);
    if press in QuickButtons(s.feedPosts[k]) {
      var i :| 0 <= i < |QuickButtons(s.feedPosts[k])| && QuickButtons(s.feedPosts[k])[i] == press;
    }
  }

  /** A reaction button's press handler. */
  method PressReaction(store: AppStore.Store, press: ReactionPress)
    modifies store
    ensures store.State() == StoreModel.HandleReaction(old(store.State()), press.postId, press.emoji)
  {
    store.HandleReaction(press.postId, press.emoji);
  }
}
