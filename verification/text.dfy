/** String operations the app relies on, stated over `seq<char>`:
    JavaScript's whitespace class and `trim()`, `split`/`join` on one
    separator character, decimal numerals, ASCII lower-casing and
    substring search. */
module Text {

  /** The characters JavaScript's `trim()` and the regular-expression class
      `\s` treat as white space: the WhiteSpace and LineTerminator
      productions of ECMAScript (tab to carriage return, space, no-break
      space, ogham space mark, en quad to hair space, line and paragraph
      separators, narrow no-break space, medium mathematical space,
      ideographic space and the byte order mark). */
  predicate IsSpace(c: char)
  {
    if c <= ' ' then c == ' ' || '\t' <= c <= '\r'
    else if c < '\U{00A0}' then false
    else c == '\U{00A0}' || c == '\U{1680}' || '\U{2000}' <= c <= '\U{200A}'
         || c == '\U{2028}' || c == '\U{2029}' || c == '\U{202F}' || c == '\U{205F}'
         || c == '\U{3000}' || c == '\U{FEFF}'
  }

  predicate IsDigit(c: char)
  {
    '0' <= c <= '9'
  }

  predicate AllSpace(s: string)
  {
    forall i :: 0 <= i < |s| ==> IsSpace(s[i])
  }

  predicate AllDigits(s: string)
  {
    forall i :: 0 <= i < |s| ==> IsDigit(s[i])
  }

  /** A string with no white space at either end. */
  predicate IsTrimmed(s: string)
  {
    s == [] || (!IsSpace(s[0]) && !IsSpace(s[|s| - 1]))
  }

  /** The character classes the app's regular expressions use: `\s`,
      `\d`, and `[).\-\s]` (the marks that may follow a line number). */
  datatype CharClass = Space | Digit | NumberingMark

  /** Characters `[).\-\s]`. */
  predicate IsNumberingMark(c: char)
  {
    c == ')' || c == '.' || c == '-' || IsSpace(c)
  }

  predicate In(c: char, k: CharClass)
  {
    match k
    case Space => IsSpace(c)
    case Digit => IsDigit(c)
    case NumberingMark => IsNumberingMark(c)
  }

  /** Length of the longest run of characters in `k` starting at index `i`
      of `s`: what a greedy `k*` matches there. */
  function RunFrom(s: string, i: nat, k: CharClass): (n: nat)
    requires i <= |s|
    ensures i + n <= |s|
    decreases |s| - i
  {
    if i == |s| || !In(s[i], k) then 0 else 1 + RunFrom(s, i + 1, k)
  }

  /** The run is maximal: it ends at the end of `s` or in front of a
      character not in `k`. */
  lemma {:induction false} RunStops(s: string, i: nat, k: CharClass)
    requires i <= |s|
    ensures i + RunFrom(s, i, k) == |s| || !In(s[i + RunFrom(s, i, k)], k)
    decreases |s| - i
  {
    if i < |s| && In(s[i], k) {
      RunStops(s, i + 1, k);
    }
  }

  /** Every character inside the run is in `k`. */
  lemma {:induction false} RunAll(s: string, i: nat, k: CharClass)
    requires i <= |s|
    ensures forall t :: i <= t < i + RunFrom(s, i, k) ==> In(s[t], k)
    decreases |s| - i
  {
    if i < |s| && In(s[i], k) {
      RunAll(s, i + 1, k);
    }
  }

  /** A stretch `i..j` of characters in `k` followed by the end of `s` or a
      character not in `k` is exactly the run at `i`. */
  lemma {:induction false} RunUpTo(s: string, i: nat, j: nat, k: CharClass)
    requires i <= j <= |s|
    requires forall t :: i <= t < j ==> In(s[t], k)
    requires j == |s| || !In(s[j], k)
    ensures RunFrom(s, i, k) == j - i
    decreases j - i
  {
    if i < j {
      RunUpTo(s, i + 1, j, k);
    }
  }

  /** In `pre + run + post`, a `run` of class `k` followed by a `post` that
      does not start with `k` is exactly the run after `pre`. */
  lemma RunOver(s: string, pre: string, run: string, post: string, k: CharClass)
    requires s == pre + run + post
    requires forall t :: 0 <= t < |run| ==> In(run[t], k)
    requires post == [] || !In(post[0], k)
    ensures RunFrom(s, |pre|, k) == |run|
  {
    forall t | |pre| <= t < |pre| + |run| ensures In(s[t], k) {
      assert s[t] == run[t - |pre|];
    }
    if post != [] {
      assert s[|pre| + |run|] == post[0];
    }
    RunUpTo(s, |pre|, |pre| + |run|, k);
  }

  /** Length of the longest run of characters in `k` ending just before
      index `j` of `s`. */
  function RunBack(s: string, j: nat, k: CharClass): (n: nat)
    requires j <= |s|
    ensures n <= j
  {
    if j == 0 || !In(s[j - 1], k) then 0 else 1 + RunBack(s, j - 1, k)
  }

  /** The backward run is maximal. */
  lemma {:induction false} RunBackStops(s: string, j: nat, k: CharClass)
    requires j <= |s|
    ensures j - RunBack(s, j, k) == 0 || !In(s[j - RunBack(s, j, k) - 1], k)
  {
    if j > 0 && In(s[j - 1], k) {
      RunBackStops(s, j - 1, k);
    }
  }

  /** Every character inside the backward run is in `k`. */
  lemma {:induction false} RunBackAll(s: string, j: nat, k: CharClass)
    requires j <= |s|
    ensures forall t :: j - RunBack(s, j, k) <= t < j ==> In(s[t], k)
  {
    if j > 0 && In(s[j - 1], k) {
      RunBackAll(s, j - 1, k);
    }
  }

  /** A stretch `i..j` of characters in `k` preceded by the start of `s` or
      a character not in `k` is exactly the backward run at `j`. */
  lemma {:induction false} RunBackUpTo(s: string, i: nat, j: nat, k: CharClass)
    requires i <= j <= |s|
    requires forall t :: i <= t < j ==> In(s[t], k)
    requires i == 0 || !In(s[i - 1], k)
    ensures RunBack(s, j, k) == j - i
    decreases j - i
  {
    if i < j {
      RunBackUpTo(s, i, j - 1, k);
    }
  }

  /** Where the leading and the trailing white space of `s` end: `s` is all
      white space exactly when the leading run covers it, and otherwise the
      two runs leave a non-empty middle that starts and ends with a
      non-space character. */
  lemma TrimBounds(s: string)
    ensures var a := RunFrom(s, 0, Space);
            var n := RunBack(s, |s|, Space);
            && (a == |s| <==> AllSpace(s))
            && (a < |s| ==> a + n < |s| && !IsSpace(s[a]) && !IsSpace(s[|s| - n - 1]))
  {
    var a := RunFrom(s, 0, Space);
    var n := RunBack(s, |s|, Space);
    RunAll(s, 0, Space);
    RunStops(s, 0, Space);
    if a < |s| {
      RunBackAll(s, |s|, Space);
      RunBackStops(s, |s|, Space);
    }
  }

  /** JavaScript `s.trim()`: `s` without its leading and trailing white
      space. */
  function Trim(s: string): (r: string)
    ensures IsTrimmed(r)
    ensures r == [] <==> AllSpace(s)
  {
    TrimBounds(s);
    var a := RunFrom(s, 0, Space);
    if a == |s| then []
    else
      var r := s[a..|s| - RunBack(s, |s|, Space)];
      assert r[0] == s[a] && r[|r| - 1] == s[|s| - RunBack(s, |s|, Space) - 1];
      r
  }

  /** `r` sits at offset `i` of `s` with only white space around it. */
  predicate Middle(s: string, i: int, r: string)
  {
    0 <= i <= |s| - |r| && s[i..i + |r|] == r && AllSpace(s[..i]) && AllSpace(s[i + |r|..])
  }

  /** What `Trim` removes is white space on both sides, and what it keeps is
      the stretch of `s` between, after the leading white space. */
  lemma TrimMiddle(s: string)
    ensures Middle(s, RunFrom(s, 0, Space), Trim(s))
  {
    var a := RunFrom(s, 0, Space);
    var n := RunBack(s, |s|, Space);
    TrimBounds(s);
    RunAll(s, 0, Space);
    if a < |s| {
      RunBackAll(s, |s|, Space);
      assert s[a + |Trim(s)|..] == s[|s| - n..];
    }
  }

  /** `trim()` is characterised by its result: white space, then a trimmed
      core, then white space, trims to exactly that core. */
  lemma TrimOfPadded(a: string, r: string, b: string)
    requires AllSpace(a) && AllSpace(b) && IsTrimmed(r)
    ensures Trim(a + r + b) == r
  {
    var s := a + r + b;
    if r == [] {
      assert AllSpace(s);
    } else {
      assert s == [] + a + (r + b);
      assert (r + b)[0] == r[0];
      RunOver(s, [], a, r + b, Space);
      forall t | |a| + |r| <= t < |s| ensures In(s[t], Space) {
        assert s[t] == b[t - |a| - |r|];
      }
      assert s[|a| + |r| - 1] == r[|r| - 1];
      RunBackUpTo(s, |a| + |r|, |s|, Space);
      assert s[|a|..|a| + |r|] == r;
    }
  }

  /** A trimmed string is its own trim. */
  lemma TrimOfTrimmed(r: string)
    requires IsTrimmed(r)
    ensures Trim(r) == r
  {
    assert [] + r + [] == r;
    TrimOfPadded([], r, []);
  }

  /** Trimming twice is the same as trimming once. */
  lemma TrimIdempotent(s: string)
    ensures Trim(Trim(s)) == Trim(s)
  {
    TrimOfTrimmed(Trim(s));
  }

  /** A slice holds only characters of the whole. */
  lemma SliceChars(s: string, i: int, j: int)
    requires 0 <= i <= j <= |s|
    ensures forall c :: c in s[i..j] ==> c in s
  {
    forall c | c in s[i..j] ensures c in s {
      var k :| 0 <= k < j - i && s[i..j][k] == c;
      assert s[i + k] == c;
    }
  }

  /** Trimming only removes characters. */
  lemma TrimChars(s: string)
    ensures forall c :: c in Trim(s) ==> c in s
  {
    TrimBounds(s);
    var a := RunFrom(s, 0, Space);
    if a < |s| {
      SliceChars(s, a, |s| - RunBack(s, |s|, Space));
    }
  }

  // ---------------------------------------------------------------------
  // split / join on a single separator character

  /** JavaScript `s.split(c)` for a one-character separator: always at least
      one part, and no part contains the separator. */
  function Split(s: string, c: char): (parts: seq<string>)
    ensures |parts| >= 1
    ensures forall i :: 0 <= i < |parts| ==> c !in parts[i]
  {
    if |s| == 0 then [""]
    else if s[0] == c then [""] + Split(s[1..], c)
    else
      var rest := Split(s[1..], c);
      [[s[0]] + rest[0]] + rest[1..]
  }

  /** JavaScript `xs.join(sep)`: the empty list joins to "" and a single
      element joins to itself. */
  function Join(xs: seq<string>, sep: string): (r: string)
    ensures |xs| == 0 ==> r == ""
    ensures |xs| == 1 ==> r == xs[0]
  {
    if |xs| == 0 then ""
    else if |xs| == 1 then xs[0]
    else xs[0] + sep + Join(xs[1..], sep)
  }

  /** A joined list of two or more closes with the separator followed by
      its last element. */
  lemma JoinCloses(xs: seq<string>, sep: string, last: string)
    requires |xs| >= 2 && xs[|xs| - 1] == last
    ensures |sep + last| <= |Join(xs, sep)|
    ensures Join(xs, sep)[|Join(xs, sep)| - |sep + last|..] == sep + last
  {
    JoinEnds(xs, sep);
  }

  /** A joined list of two or more opens with its first element followed by
      the separator, and closes with the separator followed by its last. */
  lemma {:induction false} JoinEnds(xs: seq<string>, sep: string)
    requires |xs| >= 2
    ensures var head := xs[0] + sep;
            |head| <= |Join(xs, sep)| && Join(xs, sep)[..|head|] == head
    ensures var tail := sep + xs[|xs| - 1];
            |tail| <= |Join(xs, sep)| && Join(xs, sep)[|Join(xs, sep)| - |tail|..] == tail
  {
    var rest := Join(xs[1..], sep);
    assert Join(xs, sep) == xs[0] + sep + rest;
    if |xs| > 2 {
      JoinEnds(xs[1..], sep);
      assert xs[1..][|xs[1..]| - 1] == xs[|xs| - 1];
    }
  }

  lemma {:induction false} SplitWithoutSeparator(a: string, c: char)
    requires c !in a
    ensures Split(a, c) == [a]
  {
    if a != [] {
      SplitWithoutSeparator(a[1..], c);
      assert a[0] != c;
      assert [a[0]] + a[1..] == a;
    }
  }

  lemma {:induction false} SplitAtFirstSeparator(a: string, c: char, b: string)
    requires c !in a
    ensures Split(a + [c] + b, c) == [a] + Split(b, c)
  {
    if a == [] {
      assert (a + [c] + b)[1..] == b;
    } else {
      assert (a + [c] + b)[1..] == a[1..] + [c] + b;
      SplitAtFirstSeparator(a[1..], c, b);
      assert [a[0]] + a[1..] == a;
    }
  }

  /** Splitting a join recovers the parts, when no part holds the separator. */
  lemma {:induction false} SplitJoin(xs: seq<string>, c: char)
    requires |xs| >= 1
    requires forall i :: 0 <= i < |xs| ==> c !in xs[i]
    ensures Split(Join(xs, [c]), c) == xs
  {
    if |xs| == 1 {
      SplitWithoutSeparator(xs[0], c);
    } else {
      SplitAtFirstSeparator(xs[0], c, Join(xs[1..], [c]));
      SplitJoin(xs[1..], c);
      assert [xs[0]] + xs[1..] == xs;
    }
  }

  /** Joining the parts of a split gives back the string. */
  lemma {:induction false} JoinSplit(s: string, c: char)
    ensures Join(Split(s, c), [c]) == s
  {
    if |s| == 0 {
    } else if s[0] == c {
      JoinSplit(s[1..], c);
      assert s == [c] + s[1..];
    } else {
      var rest := Split(s[1..], c);
      JoinSplit(s[1..], c);
      if |rest| == 1 {
        assert Join(rest, [c]) == rest[0];
        assert s == [s[0]] + s[1..];
      } else {
        assert rest == [rest[0]] + rest[1..];
        assert Join(rest, [c]) == rest[0] + [c] + Join(rest[1..], [c]);
        assert s == [s[0]] + s[1..];
      }
    }
  }

  // ---------------------------------------------------------------------
  // decimal numerals

  function DigitChar(d: nat): (c: char)
    requires d < 10
    ensures IsDigit(c)
    ensures DigitValue(c) == d
  {
    (48 + d) as char
  }

  function DigitValue(c: char): (d: nat)
    requires IsDigit(c)
    ensures d < 10
  {
    (c as int - 48) as nat
  }

  /** The decimal numeral of `n` (JavaScript `${n}` for a non-negative
      integer): non-empty, all digits, no leading zero. */
  function Decimal(n: nat): (s: string)
    ensures |s| >= 1 && AllDigits(s)
    ensures s[0] != '0' || n == 0
  {
    if n < 10 then [DigitChar(n)] else Decimal(n / 10) + [DigitChar(n % 10)]
  }

  /** The value of a numeral. */
  function ParseDecimal(s: string): nat
    requires AllDigits(s)
  {
    if |s| == 0 then 0 else ParseDecimal(s[..|s| - 1]) * 10 + DigitValue(s[|s| - 1])
  }

  /** Reading a numeral back gives the number it was written from. */
  lemma {:induction false} DecimalRoundTrip(n: nat)
    ensures ParseDecimal(Decimal(n)) == n
  {
    var s := Decimal(n);
    if n < 10 {
      assert s[..0] == [];
    } else {
      DecimalRoundTrip(n / 10);
      assert s[..|s| - 1] == Decimal(n / 10);
    }
  }

  /** Distinct numbers have distinct numerals. */
  lemma DecimalInjective(n: nat, m: nat)
    requires Decimal(n) == Decimal(m)
    ensures n == m
  {
    DecimalRoundTrip(n);
    DecimalRoundTrip(m);
  }

  // ---------------------------------------------------------------------
  // case and search

  /** Lower-casing of one character, on the ASCII letters. */
  function LowerChar(c: char): (l: char)
    ensures 'A' <= c <= 'Z' ==> l as int == c as int + 32
    ensures !('A' <= c <= 'Z') ==> l == c
  {
    if 'A' <= c <= 'Z' then (c as int + 32) as char else c
  }

  function Lower(s: string): (l: string)
    ensures |l| == |s|
    ensures forall i :: 0 <= i < |s| ==> l[i] == LowerChar(s[i])
  {
    seq(|s|, i requires 0 <= i < |s| => LowerChar(s[i]))
  }

  /** `needle` occurs in `hay` starting at index `i`. */
  /** `s` closes with `suffix`. */
  predicate EndsWith(s: string, suffix: string)
  {
    |suffix| <= |s| && s[|s| - |suffix|..] == suffix
  }

  predicate OccursAt(hay: string, needle: string, i: int)
  {
    0 <= i && i + |needle| <= |hay| && hay[i..i + |needle|] == needle
  }

  /** JavaScript `hay.includes(needle)`. */
  function Contains(hay: string, needle: string): (b: bool)
    ensures b <==> exists i :: OccursAt(hay, needle, i)
    decreases |hay|
  {
    if |hay| < |needle| then
      assert forall i :: !OccursAt(hay, needle, i);
      false
    else if hay[..|needle|] == needle then
      assert OccursAt(hay, needle, 0);
      true
    else
      var b := Contains(hay[1..], needle);
      assert forall i :: OccursAt(hay[1..], needle, i) <==> OccursAt(hay, needle, i + 1) by {
        forall i ensures OccursAt(hay[1..], needle, i) <==> OccursAt(hay, needle, i + 1) {
          if 0 <= i && i + |needle| <= |hay[1..]| {
            assert hay[1..][i..i + |needle|] == hay[i + 1..i + 1 + |needle|];
          }
        }
      }
      assert !OccursAt(hay, needle, 0);
      assert (exists i :: OccursAt(hay, needle, i)) ==> exists i :: OccursAt(hay[1..], needle, i) by {
        if exists i :: OccursAt(hay, needle, i) {
          var i :| OccursAt(hay, needle, i);
          assert i != 0;
          assert OccursAt(hay[1..], needle, i - 1);
        }
      }
      b
  }
}
