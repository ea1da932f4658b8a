/** How the screens hand over: the setup screen's payload, decoded by the
    practice screen, is what the prompt builder and the countdown read. */
module Flow {
  import opened Common
  import Setup
  import Prompt
  import Practice

  /** The payload as the practice screen decodes it: every field is
      present, and there is no timer setting. */
  function Decoded(p: Setup.Payload): (q: Prompt.PromptSetup)
    ensures q.role == p.role && q.questionCount == Some(p.questionCount) && q.timerSec.None?
  {
    Prompt.PromptSetup(p.role, p.major, p.company, p.mode, p.level, p.topics,
                       Some(p.questionCount), None)
  }

  /** A payload that passed validation asks the server for exactly the
      chosen number of questions, and each one is given 90 seconds. */
  lemma GeneratedRequestHonoursCount(st: Setup.SetupState, apiBase: string, questions: seq<string>)
    requires Setup.Generate(st, true).1.ToQuestions?
    ensures var q := Decoded(Setup.Generate(st, true).1.payload);
            && Prompt.RequestedCount(q.questionCount) == st.count
            && Practice.Begin(apiBase, questions, q.timerSec).secsLeft == 90
  {
  }

  /** The role a well-formed screen generates is the first context line of
      the prompt. */
  lemma GeneratedRoleLeadsContext(st: Setup.SetupState)
    requires Setup.WellFormed(st)
    requires Setup.Generate(st, true).1.ToQuestions?
    ensures var p := Setup.Generate(st, true).1.payload;
            Prompt.ContextLines(Decoded(p))[0] == "Role: " + p.role
  {
    Setup.GeneratedRoleNonEmpty(st);
  }
}
