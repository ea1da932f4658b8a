/** The practice screen's forward-only session: the per-question countdown,
    the speech-to-text draft, and the ledger of answers that is sent for
    grading after the last question. Speech recognition, haptics and the
    grading request itself are outside the model; their outcomes arrive as
    events. */
module Practice {
  import opened Common
  import opened Text

  // ---------------------------------------------------------------------
  // countdown

  /** One second of the countdown: down by one, never below zero. */
  function Countdown(v: int): (r: int)
    ensures r >= 0
    ensures v > 0 ==> r == v - 1
    ensures v <= 0 ==> r == 0
  {
    if v > 0 then v - 1 else 0
  }

  /** `k` seconds of the countdown. */
  function CountdownBy(v: int, k: nat): int
    decreases k
  {
    if k == 0 then v else CountdownBy(Countdown(v), k - 1)
  }

  /** After `k >= 1` seconds the display shows `v - k`, or 0 once time is
      up, and stays there: the timer never advances the question. */
  lemma {:induction false} CountdownByClosedForm(v: int, k: nat)
    requires k >= 1
    decreases k
    ensures CountdownBy(v, k) == if v - k > 0 then v - k else 0
  {
    if k > 1 {
      CountdownByClosedForm(Countdown(v), k - 1);
    }
  }

  // ---------------------------------------------------------------------
  // speech-to-text results

  /** `e?.value?.[0] || ""`: the first hypothesis, or "" when there is none. */
  function FirstHypothesis(value: Option<seq<string>>): (t: string)
    ensures value.None? || value == Some([]) ==> t == ""
    ensures value.Some? && |value.value| > 0 ==> t == value.value[0]
  {
    match value
    case None => ""
    case Some(hs) => if |hs| == 0 then "" else hs[0]
  }

  /** A final or partial recognition result: a non-empty first hypothesis
      replaces the draft, an empty one leaves it. */
  function OnSpeechResult(notes: string, value: Option<seq<string>>): (n: string)
    ensures FirstHypothesis(value) != "" ==> n == FirstHypothesis(value)
    ensures FirstHypothesis(value) == "" ==> n == notes
  {
    var text := FirstHypothesis(value);
    if text != "" then text else notes
  }

  /** The draft after a run of recognition results, first to last. */
  function OnSpeechResults(notes: string, results: seq<Option<seq<string>>>): string
    decreases |results|
  {
    if |results| == 0 then notes
    else OnSpeechResults(OnSpeechResult(notes, results[0]), results[1..])
  }

  /** The last non-empty first hypothesis of a run, if any. */
  function LastHeard(results: seq<Option<seq<string>>>): Option<string>
  {
    if |results| == 0 then None
    else
      var t := FirstHypothesis(results[|results| - 1]);
      if t != "" then Some(t) else LastHeard(results[..|results| - 1])
  }

  /** Last write wins: the draft ends as the last non-empty hypothesis, or
      unchanged when every hypothesis was empty. */
  lemma {:induction false} SpeechLastWriteWins(notes: string, results: seq<Option<seq<string>>>)
    ensures OnSpeechResults(notes, results) == LastHeard(results).GetOr(notes)
  {
    if |results| > 0 {
      var last := results[|results| - 1];
      var init := results[..|results| - 1];
      SpeechResultsSplit(notes, init, last);
      assert init + [last] == results;
      SpeechLastWriteWins(notes, init);
    }
  }

  lemma {:induction false} SpeechResultsSplit(notes: string, init: seq<Option<seq<string>>>, last: Option<seq<string>>)
    ensures OnSpeechResults(notes, init + [last]) == OnSpeechResult(OnSpeechResults(notes, init), last)
    decreases |init|
  {
    if |init| == 0 {
      assert init + [last] == [last];
    } else {
      assert (init + [last])[1..] == init[1..] + [last];
      SpeechResultsSplit(OnSpeechResult(notes, init[0]), init[1..], last);
    }
  }

  // ---------------------------------------------------------------------
  // the forward-only session

  /** One answered question as the ledger keeps it and the grading service receives it. */
  datatype Item = Item(question: string, answer: string)

  const NoAnswer := "(no answer)"
  const SttStartError := "Couldn\U{2019}t start speech recognition."
  const GradeNoApiBase := "API base URL is empty for /grade."
  const GradeFailedMessage := "Grade failed."

  /** The session: the server address, the loaded questions, the timer
      setting, the current index, the seconds shown, the draft answer, the
      ledger, whether speech recognition is on, and the error line. */
  datatype Session = Session(apiBase: string, questions: seq<string>, timerSec: Option<int>,
                             idx: nat, secsLeft: int, notes: string, answers: seq<Item>,
                             listening: bool, error: string)

  /** The session once the questions have loaded. */
  function Begin(apiBase: string, questions: seq<string>, timerSec: Option<int>): (s: Session)
    ensures s.idx == 0 && s.answers == [] && s.notes == "" && !s.listening && s.error == ""
    ensures s.secsLeft == DurationOr90(timerSec)
  {
    Session(apiBase, questions, timerSec, 0, DurationOr90(timerSec), "", [], false, "")
  }

  /** `questions[i] || ""`. */
  function QuestionAt(questions: seq<string>, i: nat): (q: string)
    ensures i < |questions| ==> q == questions[i]
    ensures i >= |questions| ==> q == ""
  {
    if i < |questions| then questions[i] else ""
  }

  /** `notes?.trim() || "(no answer)"`: a blank draft is recorded as
      "(no answer)", any other draft trimmed. */
  function AnswerText(notes: string): (a: string)
    ensures a != ""
    ensures !AllSpace(notes) ==> a == Trim(notes)
    ensures AllSpace(notes) ==> a == NoAnswer
  {
    OrElse(Trim(notes), NoAnswer)
  }

  /** The items `gradeNow` posts: each answer, with an empty one sent as
      "(no answer)". */
  function GradeItems(items: seq<Item>): (out: seq<Item>)
    ensures |out| == |items|
    ensures forall i :: 0 <= i < |items| ==>
              out[i].question == items[i].question && out[i].answer == OrElse(items[i].answer, NoAnswer)
  {
    seq(|items|, i requires 0 <= i < |items| => Item(items[i].question, OrElse(items[i].answer, NoAnswer)))
  }

  /** A ledger built by the session has no empty answer, so grading posts
      it unchanged. */
  lemma {:induction false} GradeItemsKeepsAnswered(items: seq<Item>)
    requires forall i :: 0 <= i < |items| ==> items[i].answer != ""
    ensures GradeItems(items) == items
  {
    var out := GradeItems(items);
    assert |out| == |items|;
    forall i | 0 <= i < |items| ensures out[i] == items[i] {
      assert out[i].answer == OrElse(items[i].answer, NoAnswer);
    }
  }

  /** The result of pressing Next/Grade: the new session, and the items
      posted for grading when the last question was finished. */
  datatype Finished = Finished(next: Session, graded: Option<seq<Item>>)

  /** `gradeNow(items)` up to the request: without a server address it only
      shows an error; otherwise it posts the items. */
  function GradeNow(s: Session, items: seq<Item>): (f: Finished)
    ensures s.apiBase == "" ==> f == Finished(s.(error := GradeNoApiBase), None)
    ensures s.apiBase != "" ==> f.next == s && f.graded == Some(GradeItems(items))
  {
    if s.apiBase == "" then Finished(s.(error := GradeNoApiBase), None)
    else Finished(s, Some(GradeItems(items)))
  }

  /** `finishQuestion` as written: stop listening, append one item for the
      current question with the trimmed draft (or "(no answer)"), clear the
      draft, then move to the next question (restarting its countdown) or,
      on the last one, grade the extended ledger. Pressing Grade again
      after a failed grade appends once more. */
  function Finish(s: Session): (f: Finished)
    ensures f.next.answers == s.answers + [Item(QuestionAt(s.questions, s.idx), AnswerText(s.notes))]
    ensures f.next.notes == "" && !f.next.listening
    ensures f.next.apiBase == s.apiBase && f.next.questions == s.questions && f.next.timerSec == s.timerSec
    ensures s.idx + 1 < |s.questions| ==>
              f.next.idx == s.idx + 1 && f.graded.None? && f.next.secsLeft == DurationOr90(s.timerSec)
    ensures s.idx + 1 >= |s.questions| ==>
              f.next.idx == s.idx && f.next.secsLeft == s.secsLeft
              && f.graded == (if s.apiBase == "" then None else Some(GradeItems(f.next.answers)))
  {
    var item := Item(QuestionAt(s.questions, s.idx), AnswerText(s.notes));
    var answers := s.answers + [item];
    var t := s.(answers := answers, notes := "", listening := false);
    if s.idx + 1 < |s.questions| then
      Finished(t.(idx := s.idx + 1, secsLeft := DurationOr90(s.timerSec)), None)
    else
      GradeNow(t, answers)
  }

  /** Pressing Grade twice on the last question (the second time after the
      first request failed) posts one item more than there are questions:
      the last question twice, the second time with "(no answer)". */
  lemma FinishTwiceOverfills(s: Session)
    requires Ledger(s) && s.apiBase != ""
    requires |s.answers| == s.idx == |s.questions| - 1
    ensures var f1 := Finish(s);
            var f2 := Finish(f1.next);
            && f1.graded.Some? && |f1.graded.value| == |s.questions|
            && f2.graded.Some? && |f2.graded.value| == |s.questions| + 1
            && f2.graded.value[|s.questions|] == Item(s.questions[s.idx], NoAnswer)
  {
    var f1 := Finish(s);
    var f2 := Finish(f1.next);
    assert AllSpace(f1.next.notes);
    assert f2.next.answers[|s.questions|] == Item(s.questions[s.idx], NoAnswer);
  }

  /** `finishQuestion` with the retry made safe: once the ledger holds an
      item for every question, pressing Grade again re-sends that ledger
      instead of appending to it. */
  function FinishRetrySafe(s: Session): (f: Finished)
    ensures |s.answers| < |s.questions| ==> f == Finish(s)
    ensures |s.answers| >= |s.questions| ==> f == GradeNow(s.(listening := false), s.answers)
  {
    if |s.answers| >= |s.questions| then GradeNow(s.(listening := false), s.answers)
    else Finish(s)
  }

  /** With the retry made safe, a second press posts the same items. */
  lemma FinishRetrySafeTwice(s: Session)
    requires Ledger(s) && s.apiBase != ""
    requires |s.answers| == s.idx == |s.questions| - 1
    ensures var f1 := FinishRetrySafe(s);
            var f2 := FinishRetrySafe(f1.next);
            f1.graded.Some? && f2.graded == f1.graded
  {
  }

  /** Everything the practice screen reacts to. */
  datatype Event =
    | Tick
    | SpeechFinal(value: Option<seq<string>>)
    | SpeechPartial(value: Option<seq<string>>)
    | SpeechError
    | TypeNotes(text: string)
    | ListenStarted
    | ListenFailed
    | ListenStopped
    | NextPressed
    | GradeFailed(message: string)

  /** One event, with the retry-safe Next/Grade. */
  function Step(s: Session, e: Event): (f: Finished)
    ensures !e.NextPressed? ==> f.graded.None?
    ensures !e.NextPressed? ==> f.next.answers == s.answers && f.next.idx == s.idx
    ensures e.Tick? ==> f.next.secsLeft == Countdown(s.secsLeft)
  {
    match e
    case Tick => Finished(s.(secsLeft := Countdown(s.secsLeft)), None)
    case SpeechFinal(value) => Finished(s.(notes := OnSpeechResult(s.notes, value)), None)
    case SpeechPartial(value) => Finished(s.(notes := OnSpeechResult(s.notes, value)), None)
    case SpeechError => Finished(s.(listening := false), None)
    case TypeNotes(text) => Finished(s.(notes := text), None)
    case ListenStarted => Finished(s.(listening := true), None)
    case ListenFailed => Finished(s.(listening := false, error := SttStartError), None)
    case ListenStopped => Finished(s.(listening := false), None)
    case NextPressed => FinishRetrySafe(s)
    case GradeFailed(message) => Finished(s.(error := OrElse(message, GradeFailedMessage)), None)
  }

  /** The forward-only ledger: one item per finished question, in question
      order, each with a non-empty answer; the index is the number of
      items, except that the ledger is complete while on the last question. */
  predicate Ledger(s: Session)
  {
    && |s.questions| >= 1
    && s.idx < |s.questions|
    && |s.answers| <= |s.questions|
    && (|s.answers| == s.idx || (|s.answers| == |s.questions| && s.idx == |s.questions| - 1))
    && (forall i :: 0 <= i < |s.answers| ==>
          s.answers[i].question == s.questions[i] && s.answers[i].answer != "")
  }

  /** A freshly loaded session satisfies the ledger invariant. */
  lemma BeginLedger(apiBase: string, questions: seq<string>, timerSec: Option<int>)
    requires |questions| >= 1
    ensures Ledger(Begin(apiBase, questions, timerSec))
  {
  }

  /** What is posted for grading is one item per question, in order, none
      of them empty. */
  predicate Complete(questions: seq<string>, g: seq<Item>)
  {
    |g| == |questions|
    && forall i :: 0 <= i < |g| ==> g[i].question == questions[i] && g[i].answer != ""
  }

  /** Finishing a question appends its item, and a finished last question
      posts the complete ledger. */
  lemma FinishKeepsLedger(s: Session)
    requires Ledger(s) && |s.answers| < |s.questions|
    ensures Ledger(Finish(s).next)
    ensures Finish(s).graded.Some? ==> Complete(s.questions, Finish(s).graded.value)
  {
    var item := Item(QuestionAt(s.questions, s.idx), AnswerText(s.notes));
    AppendAnswered(s.questions, s.answers, item);
    var f := Finish(s);
    if f.graded.Some? {
      GradeItemsKeepsAnswered(f.next.answers);
    }
  }

  /** Appending the item of the next unanswered question keeps the ledger
      in question order with no empty answer. */
  lemma AppendAnswered(questions: seq<string>, answers: seq<Item>, item: Item)
    requires |answers| < |questions|
    requires forall i :: 0 <= i < |answers| ==>
               answers[i].question == questions[i] && answers[i].answer != ""
    requires item.question == questions[|answers|] && item.answer != ""
    ensures forall i :: 0 <= i < |answers + [item]| ==>
              (answers + [item])[i].question == questions[i] && (answers + [item])[i].answer != ""
  {
  }

  /** Pressing Grade again re-posts the complete ledger and changes nothing
      else but the listening flag and the error line. */
  lemma RegradeKeepsLedger(s: Session)
    requires Ledger(s) && |s.answers| >= |s.questions|
    ensures Ledger(FinishRetrySafe(s).next)
    ensures FinishRetrySafe(s).graded.Some? ==> Complete(s.questions, FinishRetrySafe(s).graded.value)
  {
    GradeItemsKeepsAnswered(s.answers);
  }

  /** Every event keeps the ledger invariant, and whatever is posted for
      grading is complete. */
  lemma StepKeepsLedger(s: Session, e: Event)
    requires Ledger(s)
    ensures Ledger(Step(s, e).next)
    ensures Step(s, e).graded.Some? ==> Complete(s.questions, Step(s, e).graded.value)
  {
    if e.NextPressed? {
      if |s.answers| < |s.questions| {
        FinishKeepsLedger(s);
      } else {
        RegradeKeepsLedger(s);
      }
    }
  }
}
