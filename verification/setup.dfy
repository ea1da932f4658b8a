/** The setup screen: the candidate types role descriptions into a chat-like
    draft box, picks a question count and a level, and presses Generate.
    Modelled here: sending the draft, validation, and the pure part of
    Generate (the Pro gate, merging the draft, building the payload for the
    question screen). */
module Setup {
  import opened Common
  import opened Text

  /** One chat message; the screen only ever creates `"user"` messages. */
  datatype Message = Message(role: string, text: string)

  /** The screen's state: chat messages, the draft box, the chosen count
      and level, and the error line shown under the form. */
  datatype SetupState = SetupState(messages: seq<Message>, draft: string, count: int,
                                   level: string, error: string)

  /** The payload handed to the question screen. */
  datatype Payload = Payload(role: string, major: string, company: string, mode: string,
                             level: string, topics: seq<string>, questionCount: int)

  /** Where Generate leads. */
  datatype Outcome = ToPaywall | Rejected(error: string) | ToQuestions(payload: Payload)

  const UserRole: string := "user"
  const NeedRoleError: string := "Add a role or paste a description first."
  const CountError: string := "Question count must be 3\U{2013}15."

  /** The counts the screen offers as chips. */
  const CountChoices: seq<int> := [5, 7, 10]

  /** The levels the level picker offers. */
  const Levels: seq<string> := ["Auto", "Intern", "Junior", "Mid", "Senior"]

  /** The state the screen mounts with. */
  const Initial: SetupState := SetupState([], "", 7, "Auto", "")

  /** Some message is a user message. */
  predicate HasUserMessage(msgs: seq<Message>)
  {
    exists i :: 0 <= i < |msgs| && msgs[i].role == UserRole
  }

  /** `msgs.some((m) => m.role === "user")`, scanning left to right. */
  function SomeUser(msgs: seq<Message>): (b: bool)
    ensures b <==> HasUserMessage(msgs)
  {
    if |msgs| == 0 then false
    else if msgs[0].role == UserRole then true
    else
      var b := SomeUser(msgs[1..]);
      assert HasUserMessage(msgs[1..]) <==> HasUserMessage(msgs) by {
        if HasUserMessage(msgs) {
          var i :| 0 <= i < |msgs| && msgs[i].role == UserRole;
          assert msgs[1..][i - 1] == msgs[i];
        }
        if HasUserMessage(msgs[1..]) {
          var i :| 0 <= i < |msgs[1..]| && msgs[1..][i].role == UserRole;
          assert msgs[i + 1] == msgs[1..][i];
        }
      }
      b
  }

  /** Send the draft as a user message: a blank draft changes nothing,
      otherwise exactly one message with the trimmed draft is appended and
      the draft box is cleared. */
  function SendDraft(st: SetupState): (st': SetupState)
    ensures AllSpace(st.draft) ==> st' == st
    ensures !AllSpace(st.draft) ==>
              && st'.messages == st.messages + [Message(UserRole, Trim(st.draft))]
              && Trim(st.draft) != "" && IsTrimmed(Trim(st.draft))
              && st'.draft == ""
              && st'.count == st.count && st'.level == st.level && st'.error == st.error
  {
    var text := Trim(st.draft);
    if text == "" then st
    else st.(messages := st.messages + [Message(UserRole, text)], draft := "")
  }

  /** The form check: a user message must exist (checked first), then the
      count must lie in 3..15; the empty string means valid. */
  function Validate(msgs: seq<Message>, count: int): (err: string)
    ensures !HasUserMessage(msgs) ==> err == NeedRoleError
    ensures HasUserMessage(msgs) && !(3 <= count <= 15) ==> err == CountError
    ensures err == "" <==> HasUserMessage(msgs) && 3 <= count <= 15
  {
    if !SomeUser(msgs) then NeedRoleError
    else if count < 3 || count > 15 then CountError
    else ""
  }

  /** Every count the screen offers passes validation once a role exists. */
  lemma OfferedCountsValid(msgs: seq<Message>, i: int)
    requires HasUserMessage(msgs) && 0 <= i < |CountChoices|
    ensures Validate(msgs, CountChoices[i]) == ""
  {
  }

  /** The messages Generate works from: the trimmed draft is appended when
      it is not blank. */
  function Merged(st: SetupState): (msgs: seq<Message>)
    ensures AllSpace(st.draft) ==> msgs == st.messages
    ensures !AllSpace(st.draft) ==> msgs == st.messages + [Message(UserRole, Trim(st.draft))]
  {
    var text := Trim(st.draft);
    if text != "" then st.messages + [Message(UserRole, text)] else st.messages
  }

  /** The texts of the user messages, in order. */
  function UserTexts(msgs: seq<Message>): (texts: seq<string>)
    ensures |texts| <= |msgs|
    ensures |texts| > 0 <==> HasUserMessage(msgs)
    ensures |msgs| == 1 ==> texts == (if msgs[0].role == UserRole then [msgs[0].text] else [])
  {
    if |msgs| == 0 then []
    else
      var rest := UserTexts(msgs[1..]);
      assert HasUserMessage(msgs) <==> msgs[0].role == UserRole || HasUserMessage(msgs[1..]) by {
        if HasUserMessage(msgs) && msgs[0].role != UserRole {
          var i :| 0 <= i < |msgs| && msgs[i].role == UserRole;
          assert msgs[1..][i - 1] == msgs[i];
        }
        if HasUserMessage(msgs[1..]) {
          var i :| 0 <= i < |msgs[1..]| && msgs[1..][i].role == UserRole;
          assert msgs[i + 1] == msgs[1..][i];
        }
      }
      if msgs[0].role == UserRole then [msgs[0].text] + rest else rest
  }

  lemma {:induction false} UserTextsAppend(a: seq<Message>, b: seq<Message>)
    ensures UserTexts(a + b) == UserTexts(a) + UserTexts(b)
  {
    if |a| > 0 {
      assert (a + b)[1..] == a[1..] + b;
      UserTextsAppend(a[1..], b);
    } else {
      assert a + b == b;
    }
  }

  /** The level sent to the server: "Auto" becomes "Junior". */
  function PayloadLevel(level: string): (l: string)
    ensures level == "Auto" ==> l == "Junior"
    ensures level != "Auto" ==> l == level
    ensures l != "Auto"
  {
    if level == "Auto" then "Junior" else level
  }

  /** The Generate button. A user without Pro is only sent to the paywall.
      Otherwise the merged messages are validated; an invalid form shows the
      error, and a valid one clears the error and the draft and produces the
      payload: the user texts joined by blank lines as the role, the mapped
      level, the chosen count, no topics, empty major and company. */
  function Generate(st: SetupState, isPro: bool): (res: (SetupState, Outcome))
    ensures !isPro ==> res == (st, ToPaywall)
    ensures isPro && Validate(Merged(st), st.count) != "" ==>
              res == (st.(error := Validate(Merged(st), st.count)), Rejected(Validate(Merged(st), st.count)))
    ensures isPro && Validate(Merged(st), st.count) == "" ==>
              && res.1.ToQuestions?
              && res.0 == st.(error := "", draft := "")
              && res.1.payload.role == Join(UserTexts(Merged(st)), "\n\n")
              && res.1.payload.questionCount == st.count && 3 <= st.count <= 15
              && res.1.payload.level == PayloadLevel(st.level)
              && res.1.payload.major == "" && res.1.payload.company == ""
              && res.1.payload.mode == "Auto" && res.1.payload.topics == []
  {
    if !isPro then (st, ToPaywall)
    else
      var merged := Merged(st);
      var v := Validate(merged, st.count);
      if v != "" then (st.(error := v), Rejected(v))
      else
        var payload := Payload(Join(UserTexts(merged), "\n\n"), "", "", "Auto",
                               PayloadLevel(st.level), [], st.count);
        (st.(error := "", draft := ""), ToQuestions(payload))
  }

  // ---------------------------------------------------------------------
  // the screen as a whole

  /** The inputs the screen reacts to. */
  datatype Input = TypeDraft(text: string) | Send | PickCount(i: nat) | PickLevel(i: nat)

  /** Every message is a user message whose text is trimmed and non-blank. */
  predicate WellFormed(st: SetupState)
  {
    forall i :: 0 <= i < |st.messages| ==>
      st.messages[i].role == UserRole && st.messages[i].text != "" && IsTrimmed(st.messages[i].text)
  }

  /** One input. Picking a chip index outside the offered lists changes
      nothing (the screen has no such chip). Messages are only ever added,
      one at a time, and only by sending; the count is always the old one or
      an offered chip. */
  function Apply(st: SetupState, input: Input): (r: SetupState)
    ensures |st.messages| <= |r.messages| <= |st.messages| + 1
    ensures r.messages[..|st.messages|] == st.messages
    ensures !input.Send? ==> r.messages == st.messages
    ensures r.count == st.count || r.count in CountChoices
  {
    match input
    case TypeDraft(text) => st.(draft := text)
    case Send => SendDraft(st)
    case PickCount(i) => if i < |CountChoices| then st.(count := CountChoices[i]) else st
    case PickLevel(i) => if i < |Levels| then st.(level := Levels[i]) else st
  }

  /** Every input keeps the messages well formed, and the count stays one
      the form accepts. */
  lemma ApplyPreserves(st: SetupState, input: Input)
    requires WellFormed(st) && 3 <= st.count <= 15
    ensures WellFormed(Apply(st, input)) && 3 <= Apply(st, input).count <= 15
  {
  }

  /** The screen after a run of inputs. */
  function Run(st: SetupState, inputs: seq<Input>): SetupState
    decreases |inputs|
  {
    if |inputs| == 0 then st else Run(Apply(st, inputs[0]), inputs[1..])
  }

  /** Every screen reachable from the mounted one is well formed and shows
      a count the form accepts. */
  lemma {:induction false} ReachableWellFormed(inputs: seq<Input>)
    ensures WellFormed(Run(Initial, inputs)) && 3 <= Run(Initial, inputs).count <= 15
  {
    RunPreserves(Initial, inputs);
  }

  lemma {:induction false} RunPreserves(st: SetupState, inputs: seq<Input>)
    requires WellFormed(st) && 3 <= st.count <= 15
    ensures WellFormed(Run(st, inputs)) && 3 <= Run(st, inputs).count <= 15
    decreases |inputs|
  {
    if |inputs| > 0 {
      ApplyPreserves(st, inputs[0]);
      RunPreserves(Apply(st, inputs[0]), inputs[1..]);
    }
  }

  /** Whatever the candidate did on the screen, a Generate that goes ahead
      sends a non-empty role. */
  lemma ReachableGeneratesRole(inputs: seq<Input>)
    requires Generate(Run(Initial, inputs), true).1.ToQuestions?
    ensures Generate(Run(Initial, inputs), true).1.payload.role != ""
  {
    ReachableWellFormed(inputs);
    GeneratedRoleNonEmpty(Run(Initial, inputs));
  }

  /** A well-formed screen that passes validation sends a non-empty role:
      the payload's role joins at least one non-blank text. */
  lemma GeneratedRoleNonEmpty(st: SetupState)
    requires WellFormed(st)
    requires Generate(st, true).1.ToQuestions?
    ensures Generate(st, true).1.payload.role != ""
  {
    var merged := Merged(st);
    var texts := UserTexts(merged);
    assert HasUserMessage(merged);
    assert WellFormed(st.(messages := merged)) by {
      if !AllSpace(st.draft) {
        assert merged == st.messages + [Message(UserRole, Trim(st.draft))];
      }
    }
    UserTextsNonEmpty(merged);
    JoinNonEmpty(texts, "\n\n");
  }

  lemma {:induction false} UserTextsNonEmpty(msgs: seq<Message>)
    requires forall i :: 0 <= i < |msgs| ==> msgs[i].text != ""
    ensures forall i :: 0 <= i < |UserTexts(msgs)| ==> UserTexts(msgs)[i] != ""
  {
    if |msgs| > 0 {
      UserTextsNonEmpty(msgs[1..]);
    }
  }

  lemma JoinNonEmpty(xs: seq<string>, sep: string)
    requires |xs| > 0 && xs[0] != ""
    ensures Join(xs, sep) != ""
  {
  }
}
