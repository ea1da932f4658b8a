/** Loading the questions: the plain-text reply parser and the rules that
    turn the server's answer into a question list or an error message. The
    server address, the health probe's outcome and the reply itself are
    inputs; nothing here talks to a network. */
module Fetch {
  import opened Common
  import opened Text

  // ---------------------------------------------------------------------
  // plain-text reply parser

  /** How much of `l` the pattern `^\s*\d+[).\-\s]*` matches: leading white
      space, a run of digits, then a run of numbering marks; nothing when
      the first non-blank character is not a digit. */
  function NumberingLength(l: string): (k: nat)
    ensures k <= |l|
  {
    var w := RunFrom(l, 0, Space);
    if w < |l| && IsDigit(l[w]) then
      var d := RunFrom(l, w, Digit);
      var m := RunFrom(l, w + d, NumberingMark);
      w + d + m
    else 0
  }

  /** The greedy mark run never stops in front of another mark: what is
      left after a removed numbering does not start with `[).\-\s]`. */
  lemma NumberingLengthMaximal(l: string)
    ensures var k := NumberingLength(l);
            0 < k < |l| ==> !IsNumberingMark(l[k])
  {
    var w := RunFrom(l, 0, Space);
    if w < |l| && IsDigit(l[w]) {
      var d := RunFrom(l, w, Digit);
      var m := RunFrom(l, w + d, NumberingMark);
      NumberingLengthAt(l, w, d, m);
      RunStops(l, w + d, NumberingMark);
    }
  }

  /** `l.replace(/^\s*\d+[).\-\s]* /, "")`: the line after its numbering. */
  function StripNumbering(l: string): (r: string)
    ensures |r| <= |l| && r == l[|l| - |r|..]
  {
    l[NumberingLength(l)..]
  }

  /** The shape the pattern removes, read forwards: white space, at least one
      digit, numbering marks, then a rest that starts with neither a mark nor
      (when there are no marks) another digit. Exactly the rest is kept. */
  lemma StripNumberingOf(ws: string, digits: string, marks: string, rest: string)
    requires AllSpace(ws)
    requires |digits| > 0 && AllDigits(digits)
    requires forall i :: 0 <= i < |marks| ==> IsNumberingMark(marks[i])
    requires rest == [] || !IsNumberingMark(rest[0])
    requires marks == [] && rest != [] ==> !IsDigit(rest[0])
    ensures StripNumbering(ws + digits + marks + rest) == rest
  {
    var l := ws + digits + marks + rest;
    NumberingRunsOf(l, ws, digits, marks, rest);
    NumberingLengthAt(l, |ws|, |digits|, |marks|);
    assert l[|ws| + |digits| + |marks|..] == rest;
  }

  /** The three runs of the pattern over `ws + digits + marks + rest`. */
  lemma NumberingRunsOf(l: string, ws: string, digits: string, marks: string, rest: string)
    requires l == ws + digits + marks + rest
    requires AllSpace(ws)
    requires |digits| > 0 && AllDigits(digits)
    requires forall i :: 0 <= i < |marks| ==> IsNumberingMark(marks[i])
    requires rest == [] || !IsNumberingMark(rest[0])
    requires marks == [] && rest != [] ==> !IsDigit(rest[0])
    ensures |ws| < |l| && IsDigit(l[|ws|])
    ensures RunFrom(l, 0, Space) == |ws|
    ensures RunFrom(l, |ws|, Digit) == |digits|
    ensures RunFrom(l, |ws| + |digits|, NumberingMark) == |marks|
  {
    assert l[|ws|] == digits[0];
    SpaceRunOf(l, ws, digits, marks + rest);
    DigitRunOf(l, ws, digits, marks, rest);
    MarkRunOf(l, ws + digits, marks, rest);
  }

  lemma SpaceRunOf(l: string, ws: string, digits: string, tail: string)
    requires l == ws + digits + tail
    requires AllSpace(ws) && |digits| > 0 && IsDigit(digits[0])
    ensures RunFrom(l, 0, Space) == |ws|
  {
    forall t | 0 <= t < |ws| ensures In(l[t], Space) {
      assert l[t] == ws[t];
    }
    assert l[|ws|] == digits[0];
    RunUpTo(l, 0, |ws|, Space);
  }

  lemma DigitRunOf(l: string, ws: string, digits: string, marks: string, rest: string)
    requires l == ws + digits + marks + rest
    requires AllDigits(digits)
    requires forall i :: 0 <= i < |marks| ==> IsNumberingMark(marks[i])
    requires marks == [] && rest != [] ==> !IsDigit(rest[0])
    ensures RunFrom(l, |ws|, Digit) == |digits|
  {
    var w, d := |ws|, |digits|;
    forall t | w <= t < w + d ensures In(l[t], Digit) {
      assert l[t] == digits[t - w];
    }
    if |marks| > 0 {
      assert l[w + d] == marks[0];
    } else if rest != [] {
      assert l[w + d] == rest[0];
    }
    RunUpTo(l, w, w + d, Digit);
  }

  lemma MarkRunOf(l: string, pre: string, marks: string, rest: string)
    requires l == pre + marks + rest
    requires forall i :: 0 <= i < |marks| ==> IsNumberingMark(marks[i])
    requires rest == [] || !IsNumberingMark(rest[0])
    ensures RunFrom(l, |pre|, NumberingMark) == |marks|
  {
    forall t | |pre| <= t < |pre| + |marks| ensures In(l[t], NumberingMark) {
      assert l[t] == marks[t - |pre|];
    }
    if rest != [] {
      assert l[|pre| + |marks|] == rest[0];
    }
    RunUpTo(l, |pre|, |pre| + |marks|, NumberingMark);
  }

  /** The pattern's three runs, measured: the match ends after them. */
  lemma NumberingLengthAt(l: string, w: nat, d: nat, m: nat)
    requires w == RunFrom(l, 0, Space) && w < |l| && IsDigit(l[w])
    requires d == RunFrom(l, w, Digit)
    requires m == RunFrom(l, w + d, NumberingMark)
    ensures NumberingLength(l) == w + d + m
  {
  }

  /** A line without a leading number is only trimmed. */
  lemma StripNumberingOfUnnumbered(l: string)
    requires RunFrom(l, 0, Space) < |l| && !IsDigit(l[RunFrom(l, 0, Space)])
    ensures StripNumbering(l) == l
  {
  }

  /** One reply line: the number prefix stripped, then trimmed. */
  function CleanLine(l: string): (r: string)
    ensures IsTrimmed(r)
  {
    Trim(StripNumbering(l))
  }

  /** Cleaning only removes characters: every character of a cleaned line
      comes from the line. */
  lemma CleanLineChars(l: string)
    ensures forall c :: c in CleanLine(l) ==> c in l
  {
    SliceChars(l, NumberingLength(l), |l|);
    TrimChars(StripNumbering(l));
  }

  /** `raw.split(/\r?\n/)`: split on newlines, and a carriage return just
      before a newline goes with it. */
  function SplitLines(raw: string): (lines: seq<string>)
    ensures |lines| == |Split(raw, '\n')|
    ensures forall i :: 0 <= i < |lines| ==> '\n' !in lines[i]
    ensures forall i :: 0 <= i < |lines| ==>
              Split(raw, '\n')[i] == lines[i] || (i + 1 < |lines| && Split(raw, '\n')[i] == lines[i] + "\r")
    ensures forall i :: 0 <= i < |lines| - 1 ==>
              (EndsWithCr(Split(raw, '\n')[i]) ==> Split(raw, '\n')[i] == lines[i] + "\r")
              && (!EndsWithCr(Split(raw, '\n')[i]) ==> lines[i] == Split(raw, '\n')[i])
    ensures lines[|lines| - 1] == Split(raw, '\n')[|lines| - 1]
  {
    var parts := Split(raw, '\n');
    seq(|parts|, i requires 0 <= i < |parts| =>
      if i + 1 < |parts| && EndsWithCr(parts[i]) then parts[i][..|parts[i]| - 1] else parts[i])
  }

  /** The part ends with a carriage return, which `\r?\n` takes together
      with the newline after it. */
  predicate EndsWithCr(part: string)
  {
    |part| > 0 && part[|part| - 1] == '\r'
  }

  /** `.map(clean)`: every line cleaned, in order. */
  function CleanAll(lines: seq<string>): (cs: seq<string>)
    ensures |cs| == |lines|
    ensures forall i :: 0 <= i < |lines| ==> cs[i] == CleanLine(lines[i])
  {
    seq(|lines|, i requires 0 <= i < |lines| => CleanLine(lines[i]))
  }

  /** `.filter(Boolean)` on strings: the non-empty ones, in order. */
  function NonEmpty(xs: seq<string>): (ys: seq<string>)
    ensures |ys| <= |xs|
    ensures |xs| == 1 ==> ys == (if xs[0] == "" then [] else xs)
    ensures forall y :: y in ys <==> y in xs && y != ""
  {
    if |xs| == 0 then []
    else
      var rest := NonEmpty(xs[1..]);
      assert xs == [xs[0]] + xs[1..];
      if xs[0] == "" then rest else [xs[0]] + rest
  }

  /** The filter is the identity on a list with no empty string. */
  lemma {:induction false} NonEmptyOfNonEmpty(xs: seq<string>)
    requires forall i :: 0 <= i < |xs| ==> xs[i] != ""
    ensures NonEmpty(xs) == xs
  {
    if |xs| > 0 {
      NonEmptyOfNonEmpty(xs[1..]);
      assert [xs[0]] + xs[1..] == xs;
    }
  }

  /** The filter keeps order across a split of its input. */
  lemma {:induction false} NonEmptyAppend(a: seq<string>, b: seq<string>)
    ensures NonEmpty(a + b) == NonEmpty(a) + NonEmpty(b)
  {
    if |a| == 0 {
      assert a + b == b;
    } else {
      assert (a + b)[0] == a[0];
      assert (a + b)[1..] == a[1..] + b;
      NonEmptyAppend(a[1..], b);
    }
  }

  /** The question list of a plain-text reply: one per non-blank cleaned
      line, each trimmed and on one line. */
  function ParseQuestionList(raw: string): (qs: seq<string>)
    ensures |qs| <= |Split(raw, '\n')|
    ensures forall i :: 0 <= i < |qs| ==> SingleLineQuestion(qs[i])
    ensures forall q :: q in qs <==> q != "" && q in CleanAll(SplitLines(raw))
    ensures qs == NonEmpty(CleanAll(SplitLines(raw)))
  {
    var lines := SplitLines(raw);
    var cs := CleanAll(lines);
    var qs := NonEmpty(cs);
    CleanedQuestions(lines, cs, qs);
    qs
  }

  /** Non-empty, trimmed, and on one line. */
  predicate SingleLineQuestion(q: string)
  {
    q != "" && IsTrimmed(q) && '\n' !in q
  }

  lemma CleanedQuestions(lines: seq<string>, cs: seq<string>, qs: seq<string>)
    requires forall i :: 0 <= i < |lines| ==> '\n' !in lines[i]
    requires |cs| == |lines| && forall i :: 0 <= i < |lines| ==> cs[i] == CleanLine(lines[i])
    requires forall q :: q in qs ==> q != "" && q in cs
    ensures forall i :: 0 <= i < |qs| ==> SingleLineQuestion(qs[i])
  {
    forall i | 0 <= i < |qs| ensures SingleLineQuestion(qs[i]) {
      assert qs[i] in qs;
      var j :| 0 <= j < |cs| && cs[j] == qs[i];
      CleanLineChars(lines[j]);
    }
  }

  /** A question that reads back unchanged after a `k. ` prefix: non-empty,
      trimmed, one line, and not itself starting with a numbering mark. */
  predicate PlainQuestion(q: string)
  {
    q != "" && IsTrimmed(q) && '\n' !in q && !IsNumberingMark(q[0])
  }

  /** The reply the prompt's FORMAT asks for: `1. q1`, `2. q2`, ... one per line. */
  function NumberedLines(qs: seq<string>): (lines: seq<string>)
    ensures |lines| == |qs|
    ensures forall i :: 0 <= i < |qs| ==> lines[i] == Decimal(i + 1) + ". " + qs[i]
  {
    seq(|qs|, i requires 0 <= i < |qs| => Decimal(i + 1) + ". " + qs[i])
  }

  /** Stripping `k. q` leaves `q`. */
  lemma StripNumberedLine(l: string, k: nat, q: string)
    requires PlainQuestion(q)
    requires l == Decimal(k) + ". " + q
    ensures StripNumbering(l) == q
  {
    assert [] + Decimal(k) + ". " + q == l;
    StripNumberingOf([], Decimal(k), ". ", q);
  }

  /** A line that strips to a trimmed text cleans to that text. */
  lemma CleanLineOf(l: string, q: string)
    requires StripNumbering(l) == q && IsTrimmed(q)
    ensures CleanLine(l) == q
  {
    TrimOfTrimmed(q);
  }

  /** Each numbered line is one line and does not end in a carriage return. */
  lemma NumberedLinesSingle(qs: seq<string>)
    requires forall i :: 0 <= i < |qs| ==> PlainQuestion(qs[i])
    ensures forall i :: 0 <= i < |qs| ==> '\n' !in NumberedLines(qs)[i]
    ensures forall i :: 0 <= i < |qs| ==> NumberedLines(qs)[i][|NumberedLines(qs)[i]| - 1] != '\r'
  {
    var lines := NumberedLines(qs);
    forall i | 0 <= i < |lines|
      ensures '\n' !in lines[i] && lines[i][|lines[i]| - 1] != '\r'
    {
      var num := Decimal(i + 1);
      var q := qs[i];
      assert '\n' !in num by {
        assert forall j :: 0 <= j < |num| ==> IsDigit(num[j]);
      }
      assert lines[i] == num + ". " + q;
      assert lines[i][|lines[i]| - 1] == q[|q| - 1];
    }
  }

  /** Cleaning the numbered lines gives the questions back. */
  lemma NumberedLinesClean(qs: seq<string>)
    requires forall i :: 0 <= i < |qs| ==> PlainQuestion(qs[i])
    ensures CleanAll(NumberedLines(qs)) == qs
  {
    NumberedLinesCleanEach(qs, NumberedLines(qs));
    CleanAllOf(NumberedLines(qs), qs);
  }

  lemma NumberedLinesCleanEach(qs: seq<string>, lines: seq<string>)
    requires forall i :: 0 <= i < |qs| ==> PlainQuestion(qs[i])
    requires |lines| == |qs| && forall i :: 0 <= i < |qs| ==> lines[i] == Decimal(i + 1) + ". " + qs[i]
    ensures forall i :: 0 <= i < |qs| ==> CleanLine(lines[i]) == qs[i]
  {
    forall i | 0 <= i < |qs| ensures CleanLine(lines[i]) == qs[i] {
      StripNumberedLine(lines[i], i + 1, qs[i]);
      CleanLineOf(lines[i], qs[i]);
    }
  }

  lemma CleanAllOf(lines: seq<string>, qs: seq<string>)
    requires |lines| == |qs| && forall i :: 0 <= i < |qs| ==> CleanLine(lines[i]) == qs[i]
    ensures CleanAll(lines) == qs
  {
  }

  /** A reply in the requested format parses back to exactly its
      questions, in order. */
  lemma ParseNumberedReply(qs: seq<string>)
    requires forall i :: 0 <= i < |qs| ==> PlainQuestion(qs[i])
    ensures ParseQuestionList(Join(NumberedLines(qs), "\n")) == qs
  {
    var lines := NumberedLines(qs);
    var raw := Join(lines, "\n");
    if |qs| == 0 {
      assert Split(raw, '\n') == [""];
      assert SplitLines(raw) == [""];
      assert CleanAll([""]) == [CleanLine("")];
      assert CleanLine("") == "";
      assert NonEmpty([""]) == [];
    } else {
      NumberedLinesSingle(qs);
      SplitJoin(lines, '\n');
      assert SplitLines(raw) == lines;
      NumberedLinesClean(qs);
      NonEmptyOfNonEmpty(qs);
    }
  }

  /** The lines of a reply with Windows line ends: every line but the last
      carries a carriage return before its newline. */
  function CrTerminated(lines: seq<string>): (out: seq<string>)
    ensures |out| == |lines|
    ensures forall i :: 0 <= i < |lines| ==>
              out[i] == if i + 1 < |lines| then lines[i] + "\r" else lines[i]
  {
    seq(|lines|, i requires 0 <= i < |lines| => if i + 1 < |lines| then lines[i] + "\r" else lines[i])
  }

  lemma {:induction false} JoinCrlf(lines: seq<string>)
    requires |lines| >= 1
    ensures Join(lines, "\r\n") == Join(CrTerminated(lines), "\n")
  {
    if |lines| > 1 {
      JoinCrlf(lines[1..]);
      assert CrTerminated(lines)[1..] == CrTerminated(lines[1..]);
    }
  }

  /** `/\r?\n/` splits a CRLF text into the same lines as its LF form. */
  lemma SplitLinesCrlf(lines: seq<string>)
    requires |lines| >= 1
    requires forall i :: 0 <= i < |lines| ==> '\n' !in lines[i]
    ensures SplitLines(Join(lines, "\r\n")) == lines
  {
    var cr := CrTerminated(lines);
    JoinCrlf(lines);
    forall i | 0 <= i < |cr| ensures '\n' !in cr[i] {
      assert '\n' !in lines[i];
    }
    SplitJoin(cr, '\n');
    var parts := Split(Join(lines, "\r\n"), '\n');
    assert parts == cr;
    var split := SplitLines(Join(lines, "\r\n"));
    forall i | 0 <= i < |lines| ensures split[i] == lines[i] {
      if i + 1 < |lines| {
        assert parts[i] == lines[i] + "\r";
        assert EndsWithCr(parts[i]);
        assert parts[i] == split[i] + "\r";
        assert parts[i][..|parts[i]| - 1] == split[i];
      }
    }
  }

  /** A numbered reply with Windows line ends parses to the same questions. */
  lemma ParseNumberedReplyCrlf(qs: seq<string>)
    requires |qs| >= 1
    requires forall i :: 0 <= i < |qs| ==> PlainQuestion(qs[i])
    ensures ParseQuestionList(Join(NumberedLines(qs), "\r\n")) == qs
  {
    var lines := NumberedLines(qs);
    NumberedLinesSingle(qs);
    SplitLinesCrlf(lines);
    NumberedLinesClean(qs);
    NonEmptyOfNonEmpty(qs);
  }

  // ---------------------------------------------------------------------
  // fetching the questions

  /** What the question server sent back. `json` is the outcome of
      `JSON.parse(raw)`: `Err` with the parser's message when it throws;
      otherwise the `questions` field, None when that is not an array. */
  datatype Reply = Reply(ok: bool, status: nat, contentType: string, raw: string,
                         json: Result<Option<seq<string>>, string>)

  /** Why no questions were loaded. */
  datatype FetchError =
    | NoApiBase
    | Unreachable
    | HttpStatus(status: nat, snippet: string)
    | BadJson(parserMessage: string)
    | NonJson(snippet: string)
    | NoQuestions
    | RequestFailed(message: string)

  /** `s.slice(0, k)`. */
  function Prefix(s: string, k: nat): (r: string)
    ensures |r| == if |s| <= k then |s| else k
    ensures r == s[..|r|]
  {
    if |s| <= k then s else s[..k]
  }

  /** The fixed error messages. */
  const NoApiBaseMessage := "API base URL is empty. Set EXPO_PUBLIC_API_BASE or run a local server."
  const UnreachableMessage := "Can\U{2019}t reach server (/healthz). Check device & server network."
  const FallbackMessage := "Couldn\U{2019}t fetch questions."
  const NoQuestionsMessage := "Server returned no questions."
  const HttpLabel := "HTTP "
  const Dash := " \U{2013} "
  const NonJsonLabel := "Unexpected non-JSON from server: "
  const Ellipsis := "\U{2026}"

  /** The message shown for an error: the fixed texts, the status line with
      its excerpt, and, for a thrown request or a failed JSON parse, the
      error's own message (`e?.message || "Couldn't fetch questions."`). */
  function ErrorMessage(e: FetchError): (msg: string)
    ensures msg != ""
    ensures e.NoApiBase? ==> msg == NoApiBaseMessage
    ensures e.Unreachable? ==> msg == UnreachableMessage
    ensures e.HttpStatus? ==> msg == HttpLabel + Decimal(e.status) + Dash + e.snippet
    ensures e.NonJson? ==> msg == NonJsonLabel + e.snippet + Ellipsis
    ensures e.NoQuestions? ==> msg == NoQuestionsMessage
    ensures e.BadJson? ==> msg == OrElse(e.parserMessage, FallbackMessage)
    ensures e.RequestFailed? ==> msg == OrElse(e.message, FallbackMessage)
  {
    match e
    case NoApiBase => NoApiBaseMessage
    case Unreachable => UnreachableMessage
    case HttpStatus(status, snippet) => HttpLabel + Decimal(status) + Dash + snippet
    case BadJson(m) => OrElse(m, FallbackMessage)
    case NonJson(snippet) => NonJsonLabel + snippet + Ellipsis
    case NoQuestions => NoQuestionsMessage
    case RequestFailed(m) => OrElse(m, FallbackMessage)
  }

  /** The content type names JSON, compared case-insensitively. */
  function IsJsonType(contentType: string): (b: bool)
    ensures b <==> exists i :: OccursAt(Lower(contentType), "application/json", i)
  {
    Contains(Lower(contentType), "application/json")
  }

  /** `/^\s*</.test(raw)`: after some white space, the text opens a tag. */
  function StartsWithTag(raw: string): (b: bool)
    ensures b <==> exists w :: 0 <= w < |raw| && AllSpace(raw[..w]) && raw[w] == '<'
  {
    var w := RunFrom(raw, 0, Space);
    LeadingSpace(raw, w);
    w < |raw| && raw[w] == '<'
  }

  /** The white space run is the only white space prefix that can be
      followed by a character other than white space. */
  lemma LeadingSpace(raw: string, w: nat)
    requires w == RunFrom(raw, 0, Space)
    ensures AllSpace(raw[..w])
    ensures forall v :: 0 <= v < |raw| && AllSpace(raw[..v]) && !IsSpace(raw[v]) ==> v == w
  {
    RunAll(raw, 0, Space);
    RunStops(raw, 0, Space);
    forall v | 0 <= v < |raw| && AllSpace(raw[..v]) && !IsSpace(raw[v]) ensures v == w {
      forall t | 0 <= t < v ensures In(raw[t], Space) {
        assert raw[..v][t] == raw[t];
      }
      RunUpTo(raw, 0, v, Space);
    }
  }

  /** `/not found/i.test(raw)`: the words occur somewhere, in any case. */
  function MentionsNotFound(raw: string): (b: bool)
    ensures b <==> exists i :: OccursAt(Lower(raw), "not found", i)
  {
    Contains(Lower(raw), "not found")
  }

  /** The question list a received reply yields, or why it yields none:
      the HTTP status first, then the body read as JSON or as numbered
      text. A success is never empty. */
  function ReadReply(reply: Reply): (r: Result<seq<string>, FetchError>)
    ensures r.Ok? ==> |r.value| > 0
    ensures !reply.ok ==> r == Err(HttpStatus(reply.status, Prefix(reply.raw, 300)))
    ensures reply.ok && !IsJsonType(reply.contentType) ==>
              && (StartsWithTag(reply.raw) || MentionsNotFound(reply.raw) ==> r == Err(NonJson(Prefix(reply.raw, 120))))
              && (!StartsWithTag(reply.raw) && !MentionsNotFound(reply.raw) ==>
                    r == (if ParseQuestionList(reply.raw) == [] then Err(NoQuestions)
                          else Ok(ParseQuestionList(reply.raw))))
    ensures reply.ok && IsJsonType(reply.contentType) ==>
              && (reply.json.Err? ==> r == Err(BadJson(reply.json.error)))
              && (reply.json.Ok? && reply.json.value.Some? && |reply.json.value.value| > 0 ==> r == Ok(reply.json.value.value))
              && (reply.json.Ok? && (reply.json.value.None? || reply.json.value.value == []) ==> r == Err(NoQuestions))
  {
    if !reply.ok then Err(HttpStatus(reply.status, Prefix(reply.raw, 300)))
    else
      var qs: Result<seq<string>, FetchError> :=
        if IsJsonType(reply.contentType) then
          match reply.json
          case Err(m) => Err(BadJson(m))
          case Ok(field) => Ok(field.GetOr([]))
        else if StartsWithTag(reply.raw) || MentionsNotFound(reply.raw) then
          Err(NonJson(Prefix(reply.raw, 120)))
        else Ok(ParseQuestionList(reply.raw));
      if qs.Ok? && |qs.value| == 0 then Err(NoQuestions) else qs
  }

  /** The whole load. `response` is the request to the question endpoint
      with its body read: `Err` with the thrown error's message when the
      request or the read fails. The checks run in order: address, health
      probe, the request itself, then the reply. */
  function FetchQuestions(apiBase: string, healthy: bool, response: Result<Reply, string>): (r: Result<seq<string>, FetchError>)
    ensures r.Ok? ==> |r.value| > 0
    ensures apiBase == "" ==> r == Err(NoApiBase)
    ensures apiBase != "" && !healthy ==> r == Err(Unreachable)
    ensures apiBase != "" && healthy && response.Err? ==> r == Err(RequestFailed(response.error))
    ensures apiBase != "" && healthy && response.Ok? ==> r == ReadReply(response.value)
  {
    if apiBase == "" then Err(NoApiBase)
    else if !healthy then Err(Unreachable)
    else
      match response
      case Err(m) => Err(RequestFailed(m))
      case Ok(reply) => ReadReply(reply)
  }

  /** A failed request shows the thrown error's message, or the generic
      one when that message is empty. */
  lemma RequestFailureShown(apiBase: string, m: string)
    requires apiBase != ""
    ensures var r := FetchQuestions(apiBase, true, Err(m));
            r.Err? && ErrorMessage(r.error) == (if m == "" then FallbackMessage else m)
  {
  }

  /** An HTML error page served as text is never taken for a question list. */
  lemma HtmlReplyRejected(apiBase: string, reply: Reply)
    requires apiBase != "" && reply.ok && !IsJsonType(reply.contentType)
    requires |reply.raw| > 0 && reply.raw[0] == '<'
    ensures FetchQuestions(apiBase, true, Ok(reply)) == Err(NonJson(Prefix(reply.raw, 120)))
  {
    assert !IsSpace(reply.raw[0]);
  }

  /** A text reply in the requested numbered format loads exactly its
      questions. */
  lemma NumberedTextReplyLoads(apiBase: string, reply: Reply, qs: seq<string>)
    requires apiBase != "" && reply.ok && !IsJsonType(reply.contentType)
    requires |qs| > 0 && forall i :: 0 <= i < |qs| ==> PlainQuestion(qs[i])
    requires reply.raw == Join(NumberedLines(qs), "\n")
    requires !MentionsNotFound(reply.raw)
    ensures FetchQuestions(apiBase, true, Ok(reply)) == Ok(qs)
  {
    ParseNumberedReply(qs);
    var first := Decimal(1) + ". " + qs[0];
    assert NumberedLines(qs)[0] == first;
    assert reply.raw[0] == first[0] by {
      if |qs| > 1 {
        assert reply.raw == NumberedLines(qs)[0] + "\n" + Join(NumberedLines(qs)[1..], "\n");
      }
    }
    assert IsDigit(first[0]);
  }
}
