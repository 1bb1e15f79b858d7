/** The data tables of app/constants: the daily-review questions, the social prompts,
    and the mock goal and actions used to skip onboarding. */
module Constants {
  import opened Wrappers
  import opened Types

  datatype QuestionType = Scale | BooleanQuestion | TextQuestion | ActionsQuestion

  datatype ReviewQuestion = ReviewQuestion(
    id: string,
    question: string,
    kind: QuestionType,
    options: Option<seq<string>>)

  /** The five end-of-day questions, asked in this order. */
  const DAY_REVIEW_QUESTIONS: seq<ReviewQuestion> := [
    ReviewQuestion("energy", "How was your energy today?", Scale, Some(["Low", "Medium", "High"])),
    ReviewQuestion("progress", "Did you make progress toward your goal?", BooleanQuestion, Some(["Yes", "No"])),
    ReviewQuestion("blockers", "What blocked you today?", TextQuestion, None),
    ReviewQuestion("wins", "What was your biggest win?", TextQuestion, None),
    ReviewQuestion("actions", "What actions will you take tomorrow?", ActionsQuestion, None)
  ]

  datatype Prompt = Prompt(id: string, emoji: string, title: string, fullText: string)

  const SOCIAL_PROMPTS: seq<Prompt> := [
    Prompt("biggest-insight", "💡", "Insight", "Biggest insight about today:"),
    Prompt("most-challenging", "💪", "Challenge", "Most challenging moment today:"),
    Prompt("progress-made", "🎯", "Progress", "Progress I made on my goal:"),
    Prompt("grateful-for", "🙏", "Gratitude", "Something I'm grateful for:"),
    Prompt("learned-today", "📚", "Learning", "Something new I learned:"),
    Prompt("win-today", "🏆", "Win", "My win today (big or small):")
  ]

  const FREE_FORM_PROMPT: Prompt := Prompt("free-form", "✍️", "Write freely", "Share what's on your mind...")

  /** The text a prompted post carries: the prompt's emoji and full text, a blank line,
      then what the user wrote (`${emoji} ${fullText}\n\n${text}`). */
  function PromptedContent(p: Prompt, text: string): string {
    p.emoji + " " + p.fullText + "\n\n" + text
  }

  /** What the composers publish for a prompt: the text as typed for the free-form
      prompt, the prompted content for any other. */
  function ComposedContent(p: Prompt, text: string): string {
    if p.id == FREE_FORM_PROMPT.id then text else PromptedContent(p, text)
  }

  /** The typed text always ends the post; the free-form prompt adds nothing to it, and
      any other prompt puts its emoji and full text and a blank line in front. */
  lemma ComposedContentSpec(p: Prompt, text: string)
    ensures |ComposedContent(p, text)| >= |text|
    ensures ComposedContent(p, text)[|ComposedContent(p, text)| - |text|..] == text
    ensures p.id == "free-form" ==> ComposedContent(p, text) == text
    ensures p.id != "free-form" ==>
      ComposedContent(p, text) == p.emoji + " " + p.fullText + "\n\n" + text
  {
  }

  /** The mock goal, whose dates are taken relative to the instant `loaded` at which
      the constants module is evaluated. Its milestones carry no metric. */
  function MockGoal(loaded: Date): UserGoal {
    UserGoal(
      "mock-goal-1",
      "Run a Marathon",
      "Complete 26.2 miles",
      loaded + 90 * DAY_MS,
      Some("To challenge myself and improve my fitness"),
      true,
      [ Milestone("5K Run", None, loaded + 30 * DAY_MS, Some(false)),
        Milestone("Half Marathon", None, loaded + 60 * DAY_MS, Some(false)) ],
      25,
      loaded)
  }

  const MOCK_ACTIONS: seq<UserAction> := [
    UserAction("action-1", "mock-goal-1", GoalAction, "Morning Run", Some("Daily"), None),
    UserAction("action-2", "mock-goal-1", GoalAction, "Strength Training", Some("Mon, Wed, Fri"), None),
    UserAction("habit-1", "mock-goal-1", PerformanceAction, "Drink 3L Water", Some("Daily"), None),
    UserAction("habit-2", "mock-goal-1", PerformanceAction, "Sleep 8 hours", Some("Daily"), None)
  ]
}
