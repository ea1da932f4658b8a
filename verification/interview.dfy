/** The interview screen: a back-navigable session over a fixed question
    list with a per-answer countdown, optional audio capture, typed notes
    kept per question, and a transcript handed to the results screen at
    the end. Timers, narration, haptics and audio capture are effects the
    session asks for; their completions come back as events. */
module Interview {
  import opened Common
  import opened Text

  // ---------------------------------------------------------------------
  // state

  /** The setup fields the transcript carries over unchanged. */
  datatype SetupFields = SetupFields(role: string, major: string, company: string,
                                     mode: string, level: string, topics: seq<string>)

  /** The decoded navigation payload. `questions` is None when the field is
      missing or not an array. */
  datatype Payload = Payload(fields: SetupFields, timerSec: Option<int>, questions: Option<seq<string>>)

  /** The session: the setup, the questions, the per-answer time, the
      current index, the seconds shown while running, whether the countdown
      runs, whether an audio capture is live, the typed notes and the
      recording locations, both keyed by question index. */
  datatype Session = Session(fields: SetupFields, questions: seq<string>, perAnswerSec: int,
                             idx: nat, secondsLeft: int, running: bool, capturing: bool,
                             answers: map<nat, string>, recs: map<nat, Option<string>>)

  /** One entry of the transcript sent to the results screen. */
  datatype TranscriptItem = TranscriptItem(question: string, textAnswer: string,
                                           audioUri: Option<string>, durationSec: int)

  datatype Transcript = Transcript(fields: SetupFields, timerSec: int, items: seq<TranscriptItem>)

  /** What the session asks the outside world to do, in order. `Narrate`
      stops any narration before speaking; `StopCapture(at)` ends the live
      capture and files it under question `at`. */
  datatype Effect =
    | Haptic
    | ClearTimer
    | ArmTimer
    | StartCapture
    | StopCapture(at: nat)
    | NotifyDone
    | Narrate(text: string)
    | GoResults(transcript: Transcript)

  datatype Outcome = Outcome(next: Session, effects: seq<Effect>)

  /** The message shown, with a redirect to the setup screen, when the
      payload carries no questions. */
  const MissingData := "Missing data"

  // ---------------------------------------------------------------------
  // loading

  /** The question text shown: `setup?.questions?.[idx] ?? ""`. */
  function Current(s: Session): (q: string)
    ensures s.idx < |s.questions| ==> q == s.questions[s.idx]
  {
    if s.idx < |s.questions| then s.questions[s.idx] else ""
  }

  /** Narration runs when the shown question text changes to a non-empty
      one, and only then. */
  function Narration(before: string, after: string): (es: seq<Effect>)
    ensures es == [] || es == [Narrate(after)]
    ensures es == [Narrate(after)] <==> after != "" && after != before
  {
    if after != "" && after != before then [Narrate(after)] else []
  }

  /** The payload gate: a payload that did not decode, or whose questions
      are missing or empty, is rejected; otherwise the session starts at
      the first question, stopped, with nothing recorded. */
  function Load(payload: Option<Payload>): (r: Result<Outcome, string>)
    ensures r.Err? <==> payload.None? || payload.value.questions.None? || payload.value.questions.value == []
    ensures r.Err? ==> r.error == MissingData
    ensures r.Ok? ==>
              var s := r.value.next;
              && s.questions == payload.value.questions.value && s.fields == payload.value.fields
              && s.perAnswerSec == DurationOr90(payload.value.timerSec)
              && s.idx == 0 && s.secondsLeft == 0 && !s.running && !s.capturing
              && s.answers == map[] && s.recs == map[]
              && r.value.effects == Narration("", s.questions[0])
  {
    match payload
    case None => Err(MissingData)
    case Some(p) =>
      match p.questions
      case None => Err(MissingData)
      case Some(qs) =>
        if qs == [] then Err(MissingData)
        else
          var s := Session(p.fields, qs, DurationOr90(p.timerSec), 0, 0, false, false, map[], map[]);
          Ok(Outcome(s, Narration("", qs[0])))
  }

  // ---------------------------------------------------------------------
  // the countdown

  /** `start`: a no-op while running; otherwise the countdown restarts at
      the full time and an audio capture is requested. */
  function Start(s: Session): (o: Outcome)
    ensures s.running ==> o == Outcome(s, [])
    ensures !s.running ==> o.next == s.(secondsLeft := s.perAnswerSec, running := true)
    ensures !s.running ==> o.effects == [Haptic, ArmTimer, StartCapture]
  {
    if s.running then Outcome(s, [])
    else Outcome(s.(secondsLeft := s.perAnswerSec, running := true), [Haptic, ArmTimer, StartCapture])
  }

  /** One interval tick: down by one, or, from one second or less, to zero,
      stopped, with the capture ended and a completion notice. No tick
      arrives while stopped. */
  function Tick(s: Session): (o: Outcome)
    ensures !s.running ==> o == Outcome(s, [])
    ensures s.running && s.secondsLeft > 1 ==>
              o.next == s.(secondsLeft := s.secondsLeft - 1) && o.effects == []
    ensures s.running && s.secondsLeft <= 1 ==>
              o.next == s.(secondsLeft := 0, running := false)
              && o.effects == [ClearTimer, StopCapture(s.idx), NotifyDone]
  {
    if !s.running then Outcome(s, [])
    else if s.secondsLeft <= 1 then
      Outcome(s.(secondsLeft := 0, running := false), [ClearTimer, StopCapture(s.idx), NotifyDone])
    else Outcome(s.(secondsLeft := s.secondsLeft - 1), [])
  }

  /** `pause`: a no-op when stopped; otherwise stops the countdown and the
      capture, keeping the seconds shown. */
  function Pause(s: Session): (o: Outcome)
    ensures !s.running ==> o == Outcome(s, [])
    ensures s.running ==> o.next == s.(running := false) && o.effects == [ClearTimer, StopCapture(s.idx)]
  {
    if !s.running then Outcome(s, [])
    else Outcome(s.(running := false), [ClearTimer, StopCapture(s.idx)])
  }

  /** `reset`: pause, then clear the seconds. */
  function Reset(s: Session): (o: Outcome)
    ensures !o.next.running && o.next.secondsLeft == 0
    ensures o.next == s.(running := false, secondsLeft := 0)
    ensures o.effects == Pause(s).effects
  {
    var p := Pause(s);
    Outcome(p.next.(secondsLeft := 0), p.effects)
  }

  // ---------------------------------------------------------------------
  // navigation

  /** `next`: pause, then move to the following question with the seconds
      cleared, or, on the last question, hand the transcript to the results
      screen. The transcript is read from the session as it was before the
      pause, so a capture that is still being stopped is not in it. */
  function Next(s: Session): (o: Outcome)
    ensures o.next.running == false
    ensures s.idx + 1 < |s.questions| ==>
              o.next == s.(running := false, idx := s.idx + 1, secondsLeft := 0)
              && o.effects == Pause(s).effects + Narration(Current(s), s.questions[s.idx + 1])
    ensures s.idx + 1 >= |s.questions| ==>
              o.next == s.(running := false)
              && o.effects == Pause(s).effects + [GoResults(MakeTranscript(s))]
  {
    var p := Pause(s);
    if s.idx + 1 < |s.questions| then
      Outcome(p.next.(idx := s.idx + 1, secondsLeft := 0),
              p.effects + Narration(Current(s), s.questions[s.idx + 1]))
    else
      Outcome(p.next, p.effects + [GoResults(MakeTranscript(s))])
  }

  /** `prev`: pause, then move back one question with the seconds cleared;
      on the first question only the pause happens (the screen disables the
      button there, so that case is not reached from it). */
  function Prev(s: Session): (o: Outcome)
    ensures o.next.running == false
    ensures s.idx > 0 ==>
              o.next == s.(running := false, idx := s.idx - 1, secondsLeft := 0)
              && o.effects == Pause(s).effects + Narration(Current(s), QuestionOr(s.questions, s.idx - 1))
    ensures s.idx == 0 ==> o == Pause(s)
  {
    var p := Pause(s);
    if s.idx > 0 then
      Outcome(p.next.(idx := s.idx - 1, secondsLeft := 0),
              p.effects + Narration(Current(s), QuestionOr(s.questions, s.idx - 1)))
    else p
  }

  /** `questions[i] ?? ""`. */
  function QuestionOr(questions: seq<string>, i: nat): string
  {
    if i < |questions| then questions[i] else ""
  }

  // ---------------------------------------------------------------------
  // notes and recordings

  /** Typing notes replaces the notes of the current question only. */
  function EditAnswer(s: Session, text: string): (o: Outcome)
    ensures o.effects == []
    ensures o.next.answers == s.answers[s.idx := text]
    ensures o.next == s.(answers := o.next.answers)
  {
    Outcome(s.(answers := s.answers[s.idx := text]), [])
  }

  /** How a requested capture stop ended: the recording's location (None
      when the recorder reports none), or a failure that leaves everything
      as it was. */
  datatype StopResult = Stopped(uri: Option<string>) | StopFailed

  /** The completion of `StopCapture(at)`: with a live capture, the
      location is filed under question `at` and the capture is over. */
  function CaptureStopped(s: Session, at: nat, result: StopResult): (o: Outcome)
    ensures o.effects == []
    ensures !s.capturing || result.StopFailed? ==> o.next == s
    ensures s.capturing && result.Stopped? ==>
              o.next == s.(capturing := false, recs := s.recs[at := result.uri])
  {
    if s.capturing && result.Stopped? then
      Outcome(s.(capturing := false, recs := s.recs[at := result.uri]), [])
    else Outcome(s, [])
  }

  // ---------------------------------------------------------------------
  // the transcript

  /** `(answers[i] || "").trim()`. */
  function AnswerAt(answers: map<nat, string>, i: nat): (a: string)
    ensures IsTrimmed(a)
    ensures i !in answers ==> a == ""
    ensures i in answers ==> a == Trim(answers[i])
  {
    Trim(if i in answers then answers[i] else "")
  }

  /** `recs[i] || null`: a missing, null or empty location is null. */
  function AudioAt(recs: map<nat, Option<string>>, i: nat): (u: Option<string>)
    ensures u.Some? <==> i in recs && recs[i].Some? && recs[i].value != ""
    ensures u.Some? ==> u == recs[i]
  {
    if i in recs && recs[i].Some? && recs[i].value != "" then recs[i] else None
  }

  /** The time spent: the full time minus what is left when that is
      positive, otherwise the full time. */
  function Duration(perAnswerSec: int, secondsLeft: int): (d: int)
    ensures perAnswerSec - secondsLeft > 0 ==> d == perAnswerSec - secondsLeft
    ensures perAnswerSec - secondsLeft <= 0 ==> d == perAnswerSec
  {
    if perAnswerSec - secondsLeft > 0 then perAnswerSec - secondsLeft else perAnswerSec
  }

  /** Transcript item `i`: the question, its trimmed notes, its recording
      and the shared duration. */
  function ItemAt(s: Session, i: nat): TranscriptItem
    requires i < |s.questions|
  {
    TranscriptItem(s.questions[i], AnswerAt(s.answers, i), AudioAt(s.recs, i),
                   Duration(s.perAnswerSec, s.secondsLeft))
  }

  /** `goResults`' payload: one item per question, in order. */
  function MakeTranscript(s: Session): (t: Transcript)
    ensures t.fields == s.fields && t.timerSec == s.perAnswerSec
    ensures |t.items| == |s.questions|
    ensures forall i :: 0 <= i < |s.questions| ==> t.items[i] == ItemAt(s, i)
  {
    Transcript(s.fields, s.perAnswerSec,
               seq(|s.questions|, i requires 0 <= i < |s.questions| => ItemAt(s, i)))
  }

  // ---------------------------------------------------------------------
  // events

  datatype Event =
    | StartPressed
    | TimerTick
    | PausePressed
    | ResetPressed
    | NextPressed
    | PrevPressed
    | Typed(text: string)
    | CaptureStarted
    | CaptureEnded(at: nat, result: StopResult)

  /** One event. The start that `next` schedules is a separate
      `StartPressed`; a capture that begins comes back as `CaptureStarted`. */
  function Step(s: Session, e: Event): (o: Outcome)
    ensures o.next.questions == s.questions && o.next.fields == s.fields
    ensures o.next.perAnswerSec == s.perAnswerSec
  {
    match e
    case StartPressed => Start(s)
    case TimerTick => Tick(s)
    case PausePressed => Pause(s)
    case ResetPressed => Reset(s)
    case NextPressed => Next(s)
    case PrevPressed => Prev(s)
    case Typed(text) => EditAnswer(s, text)
    case CaptureStarted => Outcome(s.(capturing := true), [])
    case CaptureEnded(at, result) => CaptureStopped(s, at, result)
  }

  /** A run of events from `s`, the effects concatenated in order. */
  function Replay(s: Session, es: seq<Event>): (o: Outcome)
    ensures o.next.questions == s.questions && o.next.fields == s.fields
    ensures o.next.perAnswerSec == s.perAnswerSec
    ensures |es| == 0 ==> o == Outcome(s, [])
    decreases |es|
  {
    if |es| == 0 then Outcome(s, [])
    else
      var o := Step(s, es[0]);
      var rest := Replay(o.next, es[1..]);
      Outcome(rest.next, o.effects + rest.effects)
  }

  // ---------------------------------------------------------------------
  // invariants

  /** The index is in range, the time is not zero, the seconds lie between
      zero and the full time (a negative full time is shown once, right
      after a start), and notes are only kept for real questions. */
  predicate Inv(s: Session)
  {
    && |s.questions| >= 1
    && s.idx < |s.questions|
    && s.perAnswerSec != 0
    && (s.secondsLeft >= 0 || s.secondsLeft == s.perAnswerSec)
    && (s.secondsLeft <= s.perAnswerSec || s.secondsLeft == 0)
    && (forall i :: i in s.answers ==> i < |s.questions|)
  }

  /** A loaded session satisfies the invariant. */
  lemma LoadInv(payload: Option<Payload>)
    requires Load(payload).Ok?
    ensures Inv(Load(payload).value.next)
  {
  }

  /** With a positive time the seconds never leave `[0, perAnswerSec]`. */
  lemma SecondsBounded(s: Session)
    requires Inv(s) && s.perAnswerSec > 0
    ensures 0 <= s.secondsLeft <= s.perAnswerSec
  {
  }

  /** Every event keeps the invariant. */
  lemma StepInv(s: Session, e: Event)
    requires Inv(s)
    ensures Inv(Step(s, e).next)
  {
    match e
    case Typed(text) =>
      var a := Step(s, e).next.answers;
      assert forall i :: i in a ==> i == s.idx || i in s.answers;
    case _ =>
  }

  /** Any run of events keeps the invariant. */
  lemma {:induction false} ReplayInv(s: Session, es: seq<Event>)
    requires Inv(s)
    ensures Inv(Replay(s, es).next)
    decreases |es|
  {
    if |es| > 0 {
      StepInv(s, es[0]);
      ReplayInv(Step(s, es[0]).next, es[1..]);
    }
  }

  /** One interval at a time: an interval is armed only from a stopped
      session and leaves it running, and every transition from running to
      stopped clears the interval. */
  lemma StepTimerDiscipline(s: Session, e: Event)
    ensures var o := Step(s, e);
            && (ArmTimer in o.effects ==> !s.running && o.next.running)
            && (!s.running && o.next.running ==> ArmTimer in o.effects)
            && (s.running && !o.next.running ==> ClearTimer in o.effects)
            && (ClearTimer in o.effects ==> s.running && !o.next.running)
  {
    match e
    case NextPressed =>
      var o := Step(s, e);
      assert ArmTimer !in Pause(s).effects;
      if s.running {
        assert o.effects[0] == ClearTimer;
      } else {
        assert ClearTimer !in Pause(s).effects;
      }
    case PrevPressed =>
      var o := Step(s, e);
      if s.running {
        assert o.effects[0] == ClearTimer;
      }
    case _ =>
  }

  /** A capture is only ever filed under the question on screen when its
      stop was requested. */
  lemma StepStopsAtCurrent(s: Session, e: Event)
    ensures forall k :: 0 <= k < |Step(s, e).effects| && Step(s, e).effects[k].StopCapture? ==>
              Step(s, e).effects[k].at == s.idx
  {
  }

  /** Typing changes the current question's notes and nothing else. */
  lemma EditAnswerFrame(s: Session, text: string, j: nat)
    requires j != s.idx
    ensures var a := EditAnswer(s, text).next.answers;
            && a[s.idx] == text
            && (j in a <==> j in s.answers)
            && (j in s.answers ==> a[j] == s.answers[j])
  {
  }

  /** A finished capture is filed under its own question and changes no
      other question's recording. */
  lemma CaptureStoppedFrame(s: Session, at: nat, uri: Option<string>, j: nat)
    requires s.capturing && j != at
    ensures var r := CaptureStopped(s, at, Stopped(uri)).next.recs;
            && r[at] == uri
            && (j in r <==> j in s.recs)
            && (j in s.recs ==> r[j] == s.recs[j])
  {
  }

  /** Editing the notes of question `s.idx` (what `EditAnswer` does)
      changes only that transcript item, and only its text answer. */
  lemma TranscriptAfterEdit(s: Session, text: string)
    requires s.idx < |s.questions|
    ensures var s1 := s.(answers := s.answers[s.idx := text]);
            && |MakeTranscript(s1).items| == |MakeTranscript(s).items|
            && MakeTranscript(s1).items[s.idx] == MakeTranscript(s).items[s.idx].(textAnswer := Trim(text))
            && forall i :: 0 <= i < |s.questions| && i != s.idx ==>
                 MakeTranscript(s1).items[i] == MakeTranscript(s).items[i]
  {
    var s1 := s.(answers := s.answers[s.idx := text]);
    forall i | 0 <= i < |s.questions|
      ensures ItemAt(s1, i) == if i == s.idx then ItemAt(s, i).(textAnswer := Trim(text)) else ItemAt(s, i)
    {
      ItemAfterEdit(s, text, i);
    }
  }

  lemma ItemAfterEdit(s: Session, text: string, i: nat)
    requires i < |s.questions|
    ensures var s1 := s.(answers := s.answers[s.idx := text]);
            ItemAt(s1, i) == if i == s.idx then ItemAt(s, i).(textAnswer := Trim(text)) else ItemAt(s, i)
  {
    var a := s.answers[s.idx := text];
    if i != s.idx {
      assert (i in a) == (i in s.answers);
      assert i in a ==> a[i] == s.answers[i];
      assert AnswerAt(a, i) == AnswerAt(s.answers, i);
    }
  }

  /** `next` on the last question hands over exactly one item per question,
      each with the same duration, and stays on that question. */
  lemma FinishHandsOver(s: Session)
    requires Inv(s) && s.idx == |s.questions| - 1
    ensures var o := Next(s);
            && o.next.idx == s.idx
            && |o.effects| >= 1
            && o.effects[|o.effects| - 1].GoResults?
            && var t := o.effects[|o.effects| - 1].transcript;
               && |t.items| == |s.questions|
               && forall i :: 0 <= i < |t.items| ==>
                    t.items[i].question == s.questions[i]
                    && t.items[i].durationSec == t.items[0].durationSec
  {
    var t := MakeTranscript(s);
    var o := Next(s);
    assert o.effects == Pause(s).effects + [GoResults(t)];
    assert o.effects[|o.effects| - 1] == GoResults(t);
    TranscriptShape(s, t);
  }

  lemma TranscriptShape(s: Session, t: Transcript)
    requires t == MakeTranscript(s)
    ensures |t.items| == |s.questions|
    ensures forall i :: 0 <= i < |t.items| ==>
              t.items[i].question == s.questions[i]
              && t.items[i].durationSec == Duration(s.perAnswerSec, s.secondsLeft)
  {
    forall i | 0 <= i < |t.items|
      ensures t.items[i].question == s.questions[i]
      ensures t.items[i].durationSec == Duration(s.perAnswerSec, s.secondsLeft)
    {
      assert t.items[i] == ItemAt(s, i);
    }
  }
}
