/** The prompt the practice screen sends to the question server, built
    from the setup payload: how many questions, in what numbered format,
    under which rules, for which context. */
module Prompt {
  import opened Common
  import opened Text

  /** The decoded setup payload as the prompt builder reads it. Missing
      strings are "" (falsy); a missing, non-numeric or NaN count is None. */
  datatype PromptSetup = PromptSetup(role: string, major: string, company: string, mode: string,
                                     level: string, topics: seq<string>,
                                     questionCount: Option<int>, timerSec: Option<int>)

  /** `Math.max(1, Math.min(20, Number(questionCount) || 7))`. */
  function RequestedCount(c: Option<int>): (n: int)
    ensures 1 <= n <= 20
    ensures c.None? || c == Some(0) ==> n == 7
    ensures c.Some? && 1 <= c.value <= 20 ==> n == c.value
    ensures c.Some? && c.value < 0 ==> n == 1
    ensures c.Some? && c.value > 20 ==> n == 20
  {
    var v := match c case None => 7 case Some(x) => if x == 0 then 7 else x;
    Clamp(v, 1, 20)
  }

  /** A one-line list for a line that may be empty: `filter(Boolean)` on one entry. */
  function Keep(line: string): seq<string>
  {
    if line == "" then [] else [line]
  }

  /** Role, or Major when there is no role, or nothing. */
  function RoleLine(p: PromptSetup): string
  {
    if p.role != "" then "Role: " + p.role
    else if p.major != "" then "Major: " + p.major
    else ""
  }

  function CompanyLine(p: PromptSetup): string
  {
    if p.company != "" then "Company: " + p.company else ""
  }

  /** Mode and level, each "Auto" when missing. */
  function ModeLine(p: PromptSetup): string
  {
    "Mode: " + OrElse(p.mode, "Auto") + "  \U{2022}  Level: " + OrElse(p.level, "Auto")
  }

  function FocusLine(p: PromptSetup): string
  {
    if |p.topics| > 0 then "Focus: " + Join(p.topics, ", ") else ""
  }

  /** The context lines that survive `filter(Boolean)`, in order. */
  function ContextLines(p: PromptSetup): (ctx: seq<string>)
    ensures |ctx| == 1 + (if p.role != "" || p.major != "" then 1 else 0)
                       + (if p.company != "" then 1 else 0) + (if |p.topics| > 0 then 1 else 0)
    ensures ModeLine(p) in ctx
    ensures forall i :: 0 <= i < |ctx| ==> ctx[i] != ""
    ensures p.role != "" ==> ctx[0] == "Role: " + p.role
    ensures p.role == "" && p.major != "" ==> ctx[0] == "Major: " + p.major
    ensures p.role == "" && p.major == "" && p.company == "" ==> ctx[0] == ModeLine(p)
    ensures var r := if p.role != "" || p.major != "" then 1 else 0;
            var c := if p.company != "" then 1 else 0;
            && (p.company != "" ==> ctx[r] == "Company: " + p.company)
            && ctx[r + c] == ModeLine(p)
            && (|p.topics| > 0 ==> ctx[r + c + 1] == "Focus: " + Join(p.topics, ", "))
  {
    Keep(RoleLine(p)) + Keep(CompanyLine(p)) + Keep(ModeLine(p)) + Keep(FocusLine(p))
  }

  /** The CONTEXT block, with "General interview." when it is empty. */
  function Context(p: PromptSetup): string
  {
    OrElse(Join(ContextLines(p), "\n"), "General interview.")
  }

  /** The mode line is always present, so the "General interview."
      fallback can never be chosen: the block is the joined context lines. */
  lemma ContextFallbackUnreachable(p: PromptSetup)
    ensures Join(ContextLines(p), "\n") != ""
    ensures Context(p) == Join(ContextLines(p), "\n")
  {
    var ctx := ContextLines(p);
    assert ctx[0] != "";
  }

  /** The entries of the FORMAT line, `1. <question>` to `n. <question>`. */
  function FormatEntries(n: nat): seq<string>
  {
    seq(n, i requires 0 <= i < n => Decimal(i + 1) + ". <question>")
  }

  /** The number an entry of the FORMAT line starts with. */
  function LeadingNumber(entry: string): nat
  {
    var d := RunFrom(entry, 0, Digit);
    RunAll(entry, 0, Digit);
    assert AllDigits(entry[..d]);
    ParseDecimal(entry[..d])
  }

  /** The FORMAT line enumerates exactly `1..n`, in order. */
  lemma FormatEnumerates(n: nat)
    ensures |FormatEntries(n)| == n
    ensures forall i :: 0 <= i < n ==> LeadingNumber(FormatEntries(n)[i]) == i + 1
  {
    forall i | 0 <= i < n
      ensures LeadingNumber(FormatEntries(n)[i]) == i + 1
    {
      var num := Decimal(i + 1);
      var entry := FormatEntries(n)[i];
      assert entry == num + ". <question>";
      RunOver(entry, [], num, ". <question>", Digit);
      assert entry[..|num|] == num;
      DecimalRoundTrip(i + 1);
    }
  }

  /** The fixed rule lines of the prompt. */
  const NoExtras := "No preamble, no headings, no markdown, no code fences, no explanations."
  const BeConcise := "Each question must be concise (\U{2264} 24 words) and specific to the context."
  const NoDuplicates := "Avoid duplicates; vary topics and difficulty appropriately."

  /** The opening line, asking for exactly `n` questions. */
  function CountLine(n: nat): string
  {
    "Return EXACTLY " + Decimal(n) + " interview questions."
  }

  /** The FORMAT line: the `n` numbered entries, two spaces apart. */
  function FormatLine(n: nat): string
  {
    "FORMAT: " + Join(FormatEntries(n), "  ")
  }

  /** The line asking for one question per line, numbered `1..n`. */
  function RangeLine(n: nat): string
  {
    "One question per line. Number the lines 1.." + Decimal(n) + "."
  }

  /** The nine lines in prompt order, given the four that vary. */
  function Lines(count: string, format: string, range: string, context: string): (lines: seq<string>)
    ensures |lines| == 9
    ensures lines[0] == count && lines[1] == format && lines[2] == range && lines[8] == context
  {
    [count, format, range, NoExtras, BeConcise, NoDuplicates, "", "CONTEXT:", context]
  }

  /** The prompt's lines: how many questions to return, the numbered
      format, the rules, and the context block last. */
  function PromptLines(p: PromptSetup): (lines: seq<string>)
    ensures |lines| == 9
    ensures lines[0] == CountLine(RequestedCount(p.questionCount))
    ensures lines[1] == FormatLine(RequestedCount(p.questionCount))
    ensures lines[2] == RangeLine(RequestedCount(p.questionCount))
    ensures lines[8] == Join(ContextLines(p), "\n")
  {
    var n := RequestedCount(p.questionCount);
    ContextFallbackUnreachable(p);
    Lines(CountLine(n), FormatLine(n), RangeLine(n), Context(p))
  }

  /** The prompt lines joined by newlines: the text closes with the last
      line, on a line of its own. */
  function JoinPrompt(lines: seq<string>): (prompt: string)
    requires |lines| == 9
    ensures EndsWith(prompt, "\n" + lines[8])
  {
    JoinCloses(lines, "\n", lines[8]);
    Join(lines, "\n")
  }

  /** `buildPrompt(p)`: the lines joined by newlines. The prompt closes
      with the context block, on its own line. */
  function BuildPrompt(p: PromptSetup): (prompt: string)
    ensures EndsWith(prompt, "\n" + Join(ContextLines(p), "\n"))
  {
    JoinPrompt(PromptLines(p))
  }

  /** The prompt opens by asking for exactly `n` questions, `n` the clamped
      count. */
  lemma PromptOpensWithCount(p: PromptSetup)
    ensures var first := CountLine(RequestedCount(p.questionCount)) + "\n";
            |first| <= |BuildPrompt(p)| && BuildPrompt(p)[..|first|] == first
  {
    var lines := PromptLines(p);
    assert BuildPrompt(p) == Join(lines, "\n");
    assert Join(lines, "\n") == lines[0] + "\n" + Join(lines[1..], "\n");
  }

}
