/** experiments/consteval_registry/audit_static_no_registration.py: blanking out
    comments and literals, and reporting the lines of registration calls. */
module StripScanner {
  datatype Failure = UnterminatedComment | UnterminatedLiteral

  /** One character of the output, where it comes from, and how many escaped
      newlines were skipped inside literals before it. */
  datatype Mark = Mark(ch: char, origin: nat, lost: nat)

  /** What part of the source leaves in the output, where scanning goes on, and the
      escaped newlines skipped so far. */
  datatype Part = Part(marks: seq<Mark>, next: nat, lost: nat) | Failed(failure: Failure)

  datatype Result = Ok(text: string) | Error(failure: Failure)

  function Text(marks: seq<Mark>): (t: string)
    ensures |t| == |marks|
  {
    seq(|marks|, k requires 0 <= k < |marks| => marks[k].ch)
  }

  // ----- Searching -----

  predicate StartsWith(s: string, c: char, d: char, i: nat) {
    i + 1 < |s| && s[i] == c && s[i + 1] == d
  }

  /** source.find("\n", i), with |s| for -1. */
  function FindNewline(s: string, i: nat): (end: nat)
    requires i <= |s|
    ensures i <= end <= |s| && (end < |s| ==> s[end] == '\n') && '\n' !in s[i..end]
    decreases |s| - i
  {
    if i == |s| || s[i] == '\n' then i else FindNewline(s, i + 1)
  }

  /** source.find of the two characters that close a block comment. */
  function FindClose(s: string, i: nat): (end: nat)
    requires i <= |s|
    ensures i <= end <= |s| && (end < |s| <==> StartsWith(s, '*', '/', end))
    ensures forall k | i <= k < end :: !StartsWith(s, '*', '/', k)
    decreases |s| - i
  {
    if i == |s| || StartsWith(s, '*', '/', i) then i else FindClose(s, i + 1)
  }

  // ----- The scan -----

  function Cons(m: Mark, p: Part): Part {
    if p.Failed? then p else p.(marks := [m] + p.marks)
  }

  function Join(marks: seq<Mark>, p: Part): Part {
    if p.Failed? then p else p.(marks := marks + p.marks)
  }

  /** The newlines of source[i:end]. */
  function NewlineMarks(s: string, i: nat, end: nat, lost: nat): seq<Mark>
    requires i <= end <= |s|
    decreases end - i
  {
    if i == end then []
    else (if s[i] == '\n' then [Mark('\n', i, lost)] else []) + NewlineMarks(s, i + 1, end, lost)
  }

  /** Inside a literal, from position i. */
  function Literal(s: string, i: nat, quote: char, lost: nat): Part
    decreases |s| - i
  {
    if i >= |s| then Failed(UnterminatedLiteral)
    else if s[i] == '\\' then
      Literal(s, i + 2, quote, if i + 1 < |s| && s[i + 1] == '\n' then lost + 1 else lost)
    else if s[i] == quote then Part([], i + 1, lost)
    else if s[i] == '\n' then Cons(Mark('\n', i, lost), Literal(s, i + 1, quote, lost))
    else Literal(s, i + 1, quote, lost)
  }

  predicate IsQuote(c: char) {
    c == '"' || c == '\''
  }

  /** One turn of the outer loop. */
  function Token(s: string, i: nat, lost: nat): Part
    requires i < |s|
  {
    if StartsWith(s, '/', '/', i) then
      var end := FindNewline(s, i + 2);
      if end == |s| then Part([], |s|, lost) else Part([Mark('\n', end, lost)], end + 1, lost)
    else if StartsWith(s, '/', '*', i) then
      var end := FindClose(s, i + 2);
      if end == |s| then Failed(UnterminatedComment)
      else Part(NewlineMarks(s, i, end + 2, lost), end + 2, lost)
    else if IsQuote(s[i]) then Cons(Mark(' ', i, lost), Literal(s, i + 1, s[i], lost))
    else Part([Mark(s[i], i, lost)], i + 1, lost)
  }

  lemma {:induction false} LiteralAdvances(s: string, i: nat, quote: char, lost: nat)
    ensures var p := Literal(s, i, quote, lost); p.Part? ==> i < p.next <= |s|
    decreases |s| - i
  {
    if i < |s| {
      if s[i] == '\\' {
        LiteralAdvances(s, i + 2, quote, if i + 1 < |s| && s[i + 1] == '\n' then lost + 1 else lost);
      } else {
        LiteralAdvances(s, i + 1, quote, lost);
      }
    }
  }

  lemma TokenAdvances(s: string, i: nat, lost: nat)
    requires i < |s|
    ensures Token(s, i, lost).Part? ==> i < Token(s, i, lost).next <= |s|
  {
    if IsQuote(s[i]) {
      LiteralAdvances(s, i + 1, s[i], lost);
    }
  }

  function Scan(s: string, i: nat, lost: nat): Part
    requires i <= |s|
    decreases |s| - i
  {
    if i == |s| then Part([], i, lost)
    else
      var t := Token(s, i, lost);
      if t.Failed? then t
      else TokenAdvances(s, i, lost); Join(t.marks, Scan(s, t.next, t.lost))
  }

  /** strip_comments_and_literals. */
  function Strip(s: string): Result {
    var p := Scan(s, 0, 0);
    if p.Failed? then Result.Error(p.failure) else Ok(Text(p.marks))
  }

  // ----- Clean output -----

  predicate Opens(c: char) {
    c == '/' || c == '*'
  }

  /** Nothing the scanner would act on. */
  ghost predicate Clean(t: string) {
    && (forall k | 0 <= k < |t| :: !IsQuote(t[k]))
    && (forall k | 0 <= k < |t| - 1 && t[k] == '/' :: !Opens(t[k + 1]))
  }

  ghost predicate OnlyNewlines(marks: seq<Mark>) {
    forall k | 0 <= k < |marks| :: marks[k].ch == '\n'
  }

  lemma {:induction false} LiteralLeavesNewlines(s: string, i: nat, quote: char, lost: nat)
    ensures var p := Literal(s, i, quote, lost); p.Part? ==> OnlyNewlines(p.marks)
    decreases |s| - i
  {
    if i < |s| {
      if s[i] == '\\' {
        LiteralLeavesNewlines(s, i + 2, quote, if i + 1 < |s| && s[i + 1] == '\n' then lost + 1 else lost);
      } else {
        LiteralLeavesNewlines(s, i + 1, quote, lost);
      }
    }
  }

  lemma {:induction false} NewlineMarksOnly(s: string, i: nat, end: nat, lost: nat)
    requires i <= end <= |s|
    ensures OnlyNewlines(NewlineMarks(s, i, end, lost))
    decreases end - i
  {
    if i < end {
      NewlineMarksOnly(s, i + 1, end, lost);
    }
  }

  /** A piece of output that neither ends nor continues a comment opener. */
  ghost predicate Blank(marks: seq<Mark>) {
    forall k | 0 <= k < |marks| :: !IsQuote(marks[k].ch) && !Opens(marks[k].ch)
  }

  /** One token leaves blanks, or copies one character that opens nothing. */
  lemma TokenShape(s: string, i: nat, lost: nat)
    requires i < |s| && Token(s, i, lost).Part?
    ensures var t := Token(s, i, lost);
            || Blank(t.marks)
            || (t.marks == [Mark(s[i], i, lost)] && t.next == i + 1 && !IsQuote(s[i])
                && (s[i] == '/' ==> i + 1 < |s| ==> !Opens(s[i + 1])))
  {
    if IsQuote(s[i]) {
      LiteralLeavesNewlines(s, i + 1, s[i], lost);
    } else if StartsWith(s, '/', '*', i) && !StartsWith(s, '/', '/', i) {
      NewlineMarksOnly(s, i, FindClose(s, i + 2) + 2, lost);
    }
  }

  /** After a character that opens nothing, the output does not start with an opener. */
  lemma ScanStart(s: string, i: nat, lost: nat)
    requires i <= |s| && Scan(s, i, lost).Part? && (i < |s| ==> !Opens(s[i]))
    ensures var m := Scan(s, i, lost).marks; m != [] ==> !Opens(m[0].ch)
  {
    if i < |s| {
      TokenShape(s, i, lost);
      TokenOutput(s, i, lost);
    }
  }

  /** A token that does not start with an opener puts something out. */
  lemma TokenOutput(s: string, i: nat, lost: nat)
    requires i < |s| && Token(s, i, lost).Part? && !Opens(s[i])
    ensures Token(s, i, lost).marks != [] && !Opens(Token(s, i, lost).marks[0].ch)
  {
  }

  lemma CleanJoin(a: seq<Mark>, b: seq<Mark>)
    requires Clean(Text(a)) && Clean(Text(b))
    requires a != [] && b != [] && a[|a| - 1].ch == '/' ==> !Opens(b[0].ch)
    ensures Clean(Text(a + b))
  {
    var t := Text(a + b);
    forall k | 0 <= k < |t| ensures t[k] == if k < |a| then Text(a)[k] else Text(b)[k - |a|] {
    }
  }

  /** On success the output has no quote and opens no comment. */
  lemma {:induction false} ScanClean(s: string, i: nat, lost: nat)
    requires i <= |s| && Scan(s, i, lost).Part?
    ensures Clean(Text(Scan(s, i, lost).marks))
    decreases |s| - i
  {
    if i < |s| {
      var t := Token(s, i, lost);
      TokenAdvances(s, i, lost);
      ScanClean(s, t.next, t.lost);
      TokenShape(s, i, lost);
      if !Blank(t.marks) && s[i] == '/' {
        ScanStart(s, t.next, t.lost);
      }
      CleanJoin(t.marks, Scan(s, t.next, t.lost).marks);
    }
  }

  /** A clean text passes unchanged. */
  lemma {:induction false} CleanScansToItself(t: string, i: nat)
    requires Clean(t) && i <= |t|
    ensures Scan(t, i, 0).Part? && Text(Scan(t, i, 0).marks) == t[i..]
    decreases |t| - i
  {
    if i < |t| {
      CleanScansToItself(t, i + 1);
      assert !IsQuote(t[i]);
      assert Token(t, i, 0) == Part([Mark(t[i], i, 0)], i + 1, 0);
      var rest := Scan(t, i + 1, 0).marks;
      assert Text([Mark(t[i], i, 0)] + rest) == [t[i]] + Text(rest);
    }
  }

  /** Stripping fixes exactly the clean texts. */
  lemma FixedPoints(t: string)
    ensures Strip(t) == Ok(t) <==> Clean(t)
  {
    if Clean(t) {
      CleanScansToItself(t, 0);
    }
    if Strip(t) == Ok(t) {
      ScanClean(t, 0, 0);
    }
  }

  /** Stripping twice is stripping once. */
  lemma Idempotent(s: string)
    requires Strip(s).Ok?
    ensures Strip(Strip(s).text) == Strip(s)
  {
    ScanClean(s, 0, 0);
    FixedPoints(Strip(s).text);
  }

  // ----- Newlines -----

  function Newlines(t: string): nat {
    if t == [] then 0 else Newlines(t[..|t| - 1]) + if t[|t| - 1] == '\n' then 1 else 0
  }

  /** Newlines before position i. */
  function Above(s: string, i: nat): nat
    requires i <= |s|
  {
    Newlines(s[..i])
  }

  lemma AboveNext(s: string, i: nat)
    requires i < |s|
    ensures Above(s, i + 1) == Above(s, i) + if s[i] == '\n' then 1 else 0
  {
    assert s[..i + 1][..i] == s[..i];
  }

  lemma {:induction false} NewlinesJoin(t: string, u: string)
    ensures Newlines(t + u) == Newlines(t) + Newlines(u)
  {
    if u == [] {
      assert t + u == t;
    } else {
      NewlinesJoin(t, u[..|u| - 1]);
      assert (t + u)[..|t + u| - 1] == t + u[..|u| - 1];
    }
  }

  lemma {:induction false} NoNewlines(s: string, i: nat, end: nat)
    requires i <= end <= |s| && '\n' !in s[i..end]
    ensures Above(s, end) == Above(s, i)
    decreases end - i
  {
    if i < end {
      NoNewlines(s, i, end - 1);
      AboveNext(s, end - 1);
      assert s[end - 1] == s[i..end][end - 1 - i];
    }
  }

  lemma TextJoin(a: seq<Mark>, b: seq<Mark>)
    ensures Text(a + b) == Text(a) + Text(b)
  {
  }

  /** Every mark knows its line: newlines put out before it, plus escaped newlines
      skipped before it, make the newlines of the source up to its origin. */
  ghost predicate LineKept(s: string, i: nat, lost: nat, marks: seq<Mark>, k: nat)
    requires i <= |s| && k < |marks|
  {
    && i <= marks[k].origin < |s|
    && Above(s, marks[k].origin) - Above(s, i) == Newlines(Text(marks[..k])) + marks[k].lost - lost
  }

  ghost predicate Accounts(s: string, i: nat, lost: nat, p: Part)
    requires i <= |s|
  {
    p.Part? ==>
      && i <= p.next <= |s|
      && Above(s, p.next) - Above(s, i) == Newlines(Text(p.marks)) + p.lost - lost
      && forall k | 0 <= k < |p.marks| :: LineKept(s, i, lost, p.marks, k)
  }

  lemma AccountsJoin(s: string, i: nat, lost: nat, a: Part, b: Part)
    requires i <= |s| && a.Part? && Accounts(s, i, lost, a) && Accounts(s, a.next, a.lost, b)
    ensures Accounts(s, i, lost, Join(a.marks, b))
  {
    if b.Part? {
      var m := a.marks + b.marks;
      TextJoin(a.marks, b.marks);
      NewlinesJoin(Text(a.marks), Text(b.marks));
      forall k | 0 <= k < |m| ensures LineKept(s, i, lost, m, k) {
        if k < |a.marks| {
          assert LineKept(s, i, lost, a.marks, k);
          assert m[..k] == a.marks[..k];
        } else {
          var j := k - |a.marks|;
          assert LineKept(s, a.next, a.lost, b.marks, j);
          assert m[..k] == a.marks + b.marks[..j];
          TextJoin(a.marks, b.marks[..j]);
          NewlinesJoin(Text(a.marks), Text(b.marks[..j]));
        }
      }
    }
  }

  lemma OneMark(s: string, i: nat, lost: nat, m: Mark, next: nat)
    requires i <= m.origin < next <= |s| && m.lost == lost && Above(s, m.origin) == Above(s, i)
    requires Above(s, next) == Above(s, i) + if m.ch == '\n' then 1 else 0
    ensures Accounts(s, i, lost, Part([m], next, lost))
  {
    var marks := [m];
    assert Text(marks) == [m.ch];
    assert Newlines([m.ch]) == if m.ch == '\n' then 1 else 0;
    assert Text(marks[..0]) == [];
    assert LineKept(s, i, lost, marks, 0);
  }

  lemma NoMarks(s: string, i: nat, lost: nat, next: nat, lostAfter: nat)
    requires i <= next <= |s| && Above(s, next) - Above(s, i) == lostAfter - lost
    ensures Accounts(s, i, lost, Part([], next, lostAfter))
  {
  }

  lemma {:induction false} NewlineMarksAccount(s: string, i: nat, end: nat, lost: nat)
    requires i <= end <= |s|
    ensures Accounts(s, i, lost, Part(NewlineMarks(s, i, end, lost), end, lost))
    decreases end - i
  {
    if i < end {
      AboveNext(s, i);
      NewlineMarksAccount(s, i + 1, end, lost);
      var rest := Part(NewlineMarks(s, i + 1, end, lost), end, lost);
      if s[i] == '\n' {
        OneMark(s, i, lost, Mark('\n', i, lost), i + 1);
        AccountsJoin(s, i, lost, Part([Mark('\n', i, lost)], i + 1, lost), rest);
      } else {
        NoMarks(s, i, lost, i + 1, lost);
        AccountsJoin(s, i, lost, Part([], i + 1, lost), rest);
      }
    }
  }

  lemma SkipOne(s: string, i: nat, lost: nat, rest: Part)
    requires i < |s| && s[i] != '\n' && Accounts(s, i + 1, lost, rest)
    ensures Accounts(s, i, lost, rest)
  {
    AboveNext(s, i);
    NoMarks(s, i, lost, i + 1, lost);
    AccountsJoin(s, i, lost, Part([], i + 1, lost), rest);
    assert rest.Part? ==> [] + rest.marks == rest.marks;
  }

  lemma SkipEscape(s: string, i: nat, lost: nat, rest: Part)
    requires i + 1 < |s| && s[i] == '\\'
    requires Accounts(s, i + 2, if s[i + 1] == '\n' then lost + 1 else lost, rest)
    ensures Accounts(s, i, lost, rest)
  {
    AboveNext(s, i);
    AboveNext(s, i + 1);
    var after := if s[i + 1] == '\n' then lost + 1 else lost;
    NoMarks(s, i, lost, i + 2, after);
    AccountsJoin(s, i, lost, Part([], i + 2, after), rest);
    assert rest.Part? ==> [] + rest.marks == rest.marks;
  }

  lemma {:induction false} LiteralAccounts(s: string, i: nat, quote: char, lost: nat)
    requires i <= |s| && IsQuote(quote)
    ensures Accounts(s, i, lost, Literal(s, i, quote, lost))
    decreases |s| - i
  {
    if i < |s| {
      if s[i] == '\\' {
        if i + 1 < |s| {
          LiteralAccounts(s, i + 2, quote, if s[i + 1] == '\n' then lost + 1 else lost);
          SkipEscape(s, i, lost, Literal(s, i, quote, lost));
        }
      } else if s[i] == quote {
        AboveNext(s, i);
        NoMarks(s, i, lost, i + 1, lost);
      } else if s[i] == '\n' {
        LiteralAccounts(s, i + 1, quote, lost);
        AboveNext(s, i);
        OneMark(s, i, lost, Mark('\n', i, lost), i + 1);
        AccountsJoin(s, i, lost, Part([Mark('\n', i, lost)], i + 1, lost), Literal(s, i + 1, quote, lost));
      } else {
        LiteralAccounts(s, i + 1, quote, lost);
        SkipOne(s, i, lost, Literal(s, i + 1, quote, lost));
      }
    }
  }

  lemma LineCommentAccounts(s: string, i: nat, lost: nat)
    requires i < |s| && StartsWith(s, '/', '/', i)
    ensures Accounts(s, i, lost, Token(s, i, lost))
  {
    AboveNext(s, i);
    AboveNext(s, i + 1);
    var end := FindNewline(s, i + 2);
    NoNewlines(s, i + 2, end);
    if end == |s| {
      NoMarks(s, i, lost, |s|, lost);
    } else {
      AboveNext(s, end);
      OneMark(s, i, lost, Mark('\n', end, lost), end + 1);
    }
  }

  lemma QuoteAccounts(s: string, i: nat, lost: nat)
    requires i < |s| && IsQuote(s[i])
    ensures Accounts(s, i, lost, Token(s, i, lost))
  {
    AboveNext(s, i);
    LiteralAccounts(s, i + 1, s[i], lost);
    OneMark(s, i, lost, Mark(' ', i, lost), i + 1);
    AccountsJoin(s, i, lost, Part([Mark(' ', i, lost)], i + 1, lost), Literal(s, i + 1, s[i], lost));
  }

  lemma TokenAccounts(s: string, i: nat, lost: nat)
    requires i < |s|
    ensures Accounts(s, i, lost, Token(s, i, lost))
  {
    if StartsWith(s, '/', '/', i) {
      LineCommentAccounts(s, i, lost);
    } else if StartsWith(s, '/', '*', i) {
      var end := FindClose(s, i + 2);
      if end < |s| {
        NewlineMarksAccount(s, i, end + 2, lost);
      }
    } else if IsQuote(s[i]) {
      QuoteAccounts(s, i, lost);
    } else {
      AboveNext(s, i);
      OneMark(s, i, lost, Mark(s[i], i, lost), i + 1);
    }
  }

  lemma {:induction false} ScanAccounts(s: string, i: nat, lost: nat)
    requires i <= |s|
    ensures Accounts(s, i, lost, Scan(s, i, lost))
    decreases |s| - i
  {
    if i == |s| {
      NoMarks(s, i, lost, i, lost);
    } else {
      var t := Token(s, i, lost);
      TokenAccounts(s, i, lost);
      TokenAdvances(s, i, lost);
      if t.Part? {
        ScanAccounts(s, t.next, t.lost);
        AccountsJoin(s, i, lost, t, Scan(s, t.next, t.lost));
      }
    }
  }

  lemma {:induction false} ScanEnds(s: string, i: nat, lost: nat)
    requires i <= |s| && Scan(s, i, lost).Part?
    ensures Scan(s, i, lost).next == |s|
    decreases |s| - i
  {
    if i < |s| {
      TokenAdvances(s, i, lost);
      ScanEnds(s, Token(s, i, lost).next, Token(s, i, lost).lost);
    }
  }

  /** source.count("\n", 0, k) + 1. */
  function LineOf(t: string, k: nat): nat
    requires k <= |t|
  {
    Above(t, k) + 1
  }

  // ----- The source, one character at a time -----

  /** What a character of the source belongs to.  BlockOpen and BlockEnd are the
      second characters of the two delimiters, Escaped the one after a backslash. */
  datatype Mode = Code | LineComment | BlockOpen | Block | BlockEnd | InLiteral(quote: char) | Escaped(quote: char)

  function NextMode(m: Mode, s: string, k: nat): Mode
    requires k < |s|
  {
    match m
    case Code =>
      if StartsWith(s, '/', '/', k) then LineComment
      else if StartsWith(s, '/', '*', k) then BlockOpen
      else if IsQuote(s[k]) then InLiteral(s[k])
      else Code
    case LineComment => if s[k] == '\n' then Code else LineComment
    case BlockOpen => Block
    case Block => if StartsWith(s, '*', '/', k) then BlockEnd else Block
    case BlockEnd => Code
    case InLiteral(q) => if s[k] == '\\' then Escaped(q) else if s[k] == q then Code else InLiteral(q)
    case Escaped(q) => InLiteral(q)
  }

  function ModeAt(s: string, k: nat): Mode
    requires k <= |s|
  {
    if k == 0 then Code else NextMode(ModeAt(s, k - 1), s, k - 1)
  }

  /** A newline of the source that a backslash escapes inside a literal. */
  predicate EscapedNewline(s: string, k: nat) {
    k < |s| && s[k] == '\n' && ModeAt(s, k).Escaped?
  }

  /** How many of them stand before position k. */
  function EscapedAbove(s: string, k: nat): nat
    requires k <= |s|
  {
    if k == 0 then 0 else EscapedAbove(s, k - 1) + if EscapedNewline(s, k - 1) then 1 else 0
  }

  lemma {:induction false} NoEscapes(s: string, i: nat, k: nat)
    requires i <= k <= |s| && forall j | i <= j < k :: !ModeAt(s, j).Escaped?
    ensures EscapedAbove(s, k) == EscapedAbove(s, i)
    decreases k
  {
    if i < k {
      NoEscapes(s, i, k - 1);
    }
  }

  lemma {:induction false} StaysInLine(s: string, i: nat, k: nat)
    requires i <= k <= |s| && ModeAt(s, i) == LineComment && forall j | i <= j < k :: s[j] != '\n'
    ensures ModeAt(s, k) == LineComment
    decreases k
  {
    if i < k {
      StaysInLine(s, i, k - 1);
    }
  }

  lemma {:induction false} StaysInBlock(s: string, i: nat, k: nat)
    requires i <= k <= |s| && ModeAt(s, i) == Block && forall j | i <= j < k :: !StartsWith(s, '*', '/', j)
    ensures ModeAt(s, k) == Block
    decreases k
  {
    if i < k {
      StaysInBlock(s, i, k - 1);
    }
  }

  /** The counter of a part and of its marks is the number of escaped newlines. */
  ghost predicate Counts(s: string, i: nat, lost: nat, p: Part)
    requires i <= |s|
  {
    p.Part? ==>
      && p.next <= |s| && p.lost - lost == EscapedAbove(s, p.next) - EscapedAbove(s, i)
      && forall k | 0 <= k < |p.marks| ::
           p.marks[k].origin < |s| && p.marks[k].lost - lost == EscapedAbove(s, p.marks[k].origin) - EscapedAbove(s, i)
  }

  lemma CountsJoin(s: string, i: nat, lost: nat, a: Part, b: Part)
    requires i <= |s| && a.Part? && Counts(s, i, lost, a) && Counts(s, a.next, a.lost, b)
    ensures Counts(s, i, lost, Join(a.marks, b))
  {
  }

  lemma {:induction false} LiteralCounts(s: string, i: nat, quote: char, lost: nat)
    requires i <= |s| && ModeAt(s, i) == InLiteral(quote)
    ensures Counts(s, i, lost, Literal(s, i, quote, lost))
    ensures var p := Literal(s, i, quote, lost); p.Part? ==> p.next <= |s| && ModeAt(s, p.next) == Code
    decreases |s| - i
  {
    if i < |s| {
      assert EscapedAbove(s, i + 1) == EscapedAbove(s, i);
      if s[i] == '\\' {
        if i + 1 < |s| {
          assert ModeAt(s, i + 1) == Escaped(quote) && ModeAt(s, i + 2) == InLiteral(quote);
          assert EscapedAbove(s, i + 2) == EscapedAbove(s, i) + if s[i + 1] == '\n' then 1 else 0;
          LiteralCounts(s, i + 2, quote, if s[i + 1] == '\n' then lost + 1 else lost);
        }
      } else if s[i] != quote {
        LiteralCounts(s, i + 1, quote, lost);
      }
    }
  }

  lemma {:induction false} CommentCounts(s: string, i: nat, k: nat, end: nat, lost: nat)
    requires i <= k <= end <= |s| && forall j | i <= j < end :: !ModeAt(s, j).Escaped?
    ensures Counts(s, i, lost, Part(NewlineMarks(s, k, end, lost), end, lost))
    decreases end - k
  {
    NoEscapes(s, i, end);
    if k < end {
      NoEscapes(s, i, k);
      CommentCounts(s, i, k + 1, end, lost);
    }
  }

  lemma LineCommentCounts(s: string, i: nat, lost: nat)
    requires i < |s| && ModeAt(s, i) == Code && StartsWith(s, '/', '/', i)
    ensures Counts(s, i, lost, Token(s, i, lost))
    ensures Token(s, i, lost).next < |s| ==> ModeAt(s, Token(s, i, lost).next) == Code
  {
    var end := FindNewline(s, i + 2);
    assert ModeAt(s, i + 1) == LineComment && ModeAt(s, i + 2) == LineComment;
    assert forall j | i + 2 <= j < end :: s[j] == s[i + 2..end][j - i - 2];
    forall j | i + 2 <= j <= end ensures ModeAt(s, j) == LineComment {
      StaysInLine(s, i + 2, j);
    }
    NoEscapes(s, i, end);
    if end < |s| {
      NoEscapes(s, i, end + 1);
    }
  }

  lemma BlockCommentCounts(s: string, i: nat, lost: nat)
    requires i < |s| && ModeAt(s, i) == Code && StartsWith(s, '/', '*', i)
    ensures Counts(s, i, lost, Token(s, i, lost))
    ensures Token(s, i, lost).Part? ==> Token(s, i, lost).next <= |s| && ModeAt(s, Token(s, i, lost).next) == Code
  {
    var end := FindClose(s, i + 2);
    if end < |s| {
      assert ModeAt(s, i + 1) == BlockOpen && ModeAt(s, i + 2) == Block;
      forall j | i + 2 <= j <= end ensures ModeAt(s, j) == Block {
        StaysInBlock(s, i + 2, j);
      }
      assert ModeAt(s, end + 1) == NextMode(Block, s, end) == BlockEnd;
      assert ModeAt(s, end + 2) == NextMode(BlockEnd, s, end + 1) == Code;
      CommentCounts(s, i, i, end + 2, lost);
    }
  }

  lemma TokenCounts(s: string, i: nat, lost: nat)
    requires i < |s| && ModeAt(s, i) == Code
    ensures Counts(s, i, lost, Token(s, i, lost))
    ensures var p := Token(s, i, lost); p.Part? && p.next < |s| ==> ModeAt(s, p.next) == Code
  {
    assert EscapedAbove(s, i + 1) == EscapedAbove(s, i);
    if StartsWith(s, '/', '/', i) {
      LineCommentCounts(s, i, lost);
    } else if StartsWith(s, '/', '*', i) {
      BlockCommentCounts(s, i, lost);
    } else if IsQuote(s[i]) {
      LiteralCounts(s, i + 1, s[i], lost);
    }
  }

  lemma {:induction false} ScanCounts(s: string, i: nat, lost: nat)
    requires i <= |s| && (i < |s| ==> ModeAt(s, i) == Code)
    ensures Counts(s, i, lost, Scan(s, i, lost))
    decreases |s| - i
  {
    if i < |s| {
      var t := Token(s, i, lost);
      TokenCounts(s, i, lost);
      TokenAdvances(s, i, lost);
      if t.Part? {
        ScanCounts(s, t.next, t.lost);
        CountsJoin(s, i, lost, t, Scan(s, t.next, t.lost));
      }
    }
  }

  // ----- Lines -----

  lemma WholeAccount(s: string, p: Part)
    requires p.Part? && p.next == |s| && Accounts(s, 0, 0, p) && Counts(s, 0, 0, p)
    ensures Newlines(Text(p.marks)) + EscapedAbove(s, |s|) == Newlines(s)
  {
    assert s[..|s|] == s && s[..0] == [];
  }

  lemma ScanFacts(s: string, i: nat, lost: nat, p: Part)
    requires i <= |s| && (i < |s| ==> ModeAt(s, i) == Code) && p == Scan(s, i, lost) && p.Part?
    ensures p.next == |s| && Accounts(s, i, lost, p) && Counts(s, i, lost, p)
  {
    ScanAccounts(s, i, lost);
    ScanCounts(s, i, lost);
    ScanEnds(s, i, lost);
  }

  /** A whole successful scan keeps every newline but those escaped in literals. */
  lemma NewlinesKept(s: string)
    requires Strip(s).Ok?
    ensures Newlines(Strip(s).text) + EscapedAbove(s, |s|) == Newlines(s)
  {
    ScanTotal(s, 0, 0, Scan(s, 0, 0));
  }

  lemma ScanTotal(s: string, i: nat, lost: nat, p: Part)
    requires i == 0 && lost == 0 && p == Scan(s, i, lost) && p.Part?
    ensures Newlines(Text(p.marks)) + EscapedAbove(s, |s|) == Newlines(s)
  {
    ScanFacts(s, i, lost, p);
    WholeAccount(s, p);
  }

  lemma ScanLine(s: string, i: nat, lost: nat, p: Part, k: nat)
    requires i == 0 && lost == 0 && p == Scan(s, i, lost) && p.Part? && k < |p.marks|
    ensures p.marks[k].origin < |s|
    ensures LineOf(s, p.marks[k].origin) == LineOf(Text(p.marks), k) + EscapedAbove(s, p.marks[k].origin)
  {
    ScanFacts(s, i, lost, p);
    MarkLine(s, p, k);
  }

  lemma {:induction false} NoneAbove(s: string, k: nat)
    requires k <= |s|
    ensures EscapedAbove(s, k) == 0 <==> forall j | 0 <= j < k :: !EscapedNewline(s, j)
  {
    if k > 0 {
      NoneAbove(s, k - 1);
    }
  }

  /** A line counted in the output is too small by the number of escaped newlines
      that stand before the character in the source; so it is right exactly when
      there is none. */
  lemma LinesRight(s: string, k: nat)
    requires Strip(s).Ok? && k < |Strip(s).text|
    ensures var origin := Scan(s, 0, 0).marks[k].origin;
            && origin < |s| && Scan(s, 0, 0).marks[k].ch == Strip(s).text[k]
            && LineOf(s, origin) == LineOf(Strip(s).text, k) + EscapedAbove(s, origin)
            && (LineOf(Strip(s).text, k) == LineOf(s, origin) <==> forall j | 0 <= j < origin :: !EscapedNewline(s, j))
  {
    ScanLine(s, 0, 0, Scan(s, 0, 0), k);
    NoneAbove(s, Scan(s, 0, 0).marks[k].origin);
  }

  lemma MarkLine(s: string, p: Part, k: nat)
    requires p.Part? && Accounts(s, 0, 0, p) && Counts(s, 0, 0, p) && k < |p.marks|
    ensures p.marks[k].origin < |s|
    ensures LineOf(s, p.marks[k].origin) == LineOf(Text(p.marks), k) + EscapedAbove(s, p.marks[k].origin)
  {
    assert LineKept(s, 0, 0, p.marks, k);
    assert Text(p.marks)[..k] == Text(p.marks[..k]);
  }

  /** A source in which no backslash stands directly before a newline has no escaped
      newline. */
  lemma NoBackslashNewline(s: string, k: nat)
    requires forall j | 0 <= j < |s| - 1 && s[j] == '\\' :: s[j + 1] != '\n'
    ensures !EscapedNewline(s, k)
  {
    if 0 < k < |s| && ModeAt(s, k).Escaped? {
      assert s[k - 1] == '\\';
    }
  }

  /** The input that shows it: a literal holding one escaped newline, then x. */
  lemma EscapedNewlineShiftsLines(s: string, x: char)
    requires s == ['"', '\\', '\n', '"', x] && !IsQuote(x) && x != '\n'
    ensures Strip(s) == Ok([' ', x]) && Scan(s, 0, 0).marks[1].origin == 4
    ensures LineOf(Strip(s).text, 1) == 1 && LineOf(s, 4) == 2
  {
    assert Literal(s, 1, '"', 0) == Literal(s, 3, '"', 1) == Part([], 4, 1);
    assert Token(s, 0, 0) == Part([Mark(' ', 0, 0)], 4, 1);
    assert Token(s, 4, 1) == Part([Mark(x, 4, 1)], 5, 1);
    assert Scan(s, 5, 1) == Part([], 5, 1);
    assert Scan(s, 4, 1).marks == [Mark(x, 4, 1)];
    assert Scan(s, 0, 0).marks == [Mark(' ', 0, 0), Mark(x, 4, 1)];
    assert Text(Scan(s, 0, 0).marks) == [' ', x];
    AboveNext(s, 0);
    AboveNext(s, 1);
    AboveNext(s, 2);
    AboveNext(s, 3);
    AboveNext([' ', x], 0);
  }

  // ----- Calls -----

  /** What Python's \w and \s accept. */
  datatype Classes = Classes(word: char -> bool, space: char -> bool)

  const NAME := "register_rrefl"

  ghost predicate Sane(c: Classes) {
    && (forall k | 0 <= k < |NAME| :: c.word(NAME[k]) && !c.space(NAME[k]))
    && !c.space('(')
  }

  function SkipSpaces(c: Classes, t: string, i: nat): (j: nat)
    requires i <= |t|
    ensures i <= j <= |t| && (forall k | i <= k < j :: c.space(t[k])) && (j < |t| ==> !c.space(t[j]))
    decreases |t| - i
  {
    if i < |t| && c.space(t[i]) then SkipSpaces(c, t, i + 1) else i
  }

  /** CALL matches at position p: a word boundary, the name, blanks, a parenthesis. */
  predicate IsCall(c: Classes, t: string, p: nat) {
    && p + |NAME| <= |t|
    && (p == 0 || !c.word(t[p - 1]))
    && t[p..p + |NAME|] == NAME
    && var j := SkipSpaces(c, t, p + |NAME|);
       j < |t| && t[j] == '('
  }

  function CallEnd(c: Classes, t: string, p: nat): (end: nat)
    requires IsCall(c, t, p)
    ensures p < end <= |t|
  {
    SkipSpaces(c, t, p + |NAME|) + 1
  }

  /** The lines of all matches from position p on. */
  function CallLines(c: Classes, t: string, p: nat): seq<nat>
    requires p <= |t|
    decreases |t| - p
  {
    if p == |t| then []
    else (if IsCall(c, t, p) then [LineOf(t, p)] else []) + CallLines(c, t, p + 1)
  }

  /** Matches do not overlap. */
  lemma NoCallInside(c: Classes, t: string, p: nat, q: nat)
    requires Sane(c) && IsCall(c, t, p) && p < q < CallEnd(c, t, p)
    ensures !IsCall(c, t, q)
  {
    if q + |NAME| <= |t| {
      if q <= p + |NAME| - 1 || q == p + |NAME| {
        assert t[q - 1] == t[p..p + |NAME|][q - 1 - p] == NAME[q - 1 - p];
      } else {
        assert t[q..q + |NAME|][0] == t[q];
        assert NAME[0] != '(' && !c.space(NAME[0]);
      }
    }
  }

  lemma {:induction false} NothingSkipped(c: Classes, t: string, p: nat, q: nat)
    requires Sane(c) && IsCall(c, t, p) && p < q <= CallEnd(c, t, p)
    ensures CallLines(c, t, p) == [LineOf(t, p)] + CallLines(c, t, q)
    decreases q
  {
    if q > p + 1 {
      NothingSkipped(c, t, p, q - 1);
      NoCallInside(c, t, p, q - 1);
    }
  }

  /** The source positions of the calls seen in the output from position p on. */
  function CallOrigins(c: Classes, marks: seq<Mark>, p: nat): seq<nat>
    requires p <= |marks|
    decreases |marks| - p
  {
    if p == |marks| then []
    else (if IsCall(c, Text(marks), p) then [marks[p].origin] else []) + CallOrigins(c, marks, p + 1)
  }

  /** The line counted at mark k falls short of the source line by the escaped newlines
      before it. */
  ghost predicate LineShort(s: string, marks: seq<Mark>, k: nat)
    requires k < |marks|
  {
    marks[k].origin < |s|
    && LineOf(Text(marks), k) + EscapedAbove(s, marks[k].origin) == LineOf(s, marks[k].origin)
  }

  ghost predicate LinesShort(s: string, lines: seq<nat>, origins: seq<nat>) {
    && |lines| == |origins|
    && forall k | 0 <= k < |lines| ::
         origins[k] < |s| && lines[k] + EscapedAbove(s, origins[k]) == LineOf(s, origins[k])
  }

  lemma LinesShortAfter(s: string, line: nat, origin: nat, lines: seq<nat>, origins: seq<nat>)
    requires LinesShort(s, lines, origins)
    requires origin < |s| && line + EscapedAbove(s, origin) == LineOf(s, origin)
    ensures LinesShort(s, [line] + lines, [origin] + origins)
  {
  }

  lemma {:induction false} CallLinesShort(c: Classes, s: string, marks: seq<Mark>, p: nat)
    requires p <= |marks| && forall k | 0 <= k < |marks| :: LineShort(s, marks, k)
    ensures LinesShort(s, CallLines(c, Text(marks), p), CallOrigins(c, marks, p))
    decreases |marks| - p
  {
    if p < |marks| {
      CallLinesShort(c, s, marks, p + 1);
      assert LineShort(s, marks, p);
      LinesShortAfter(s, LineOf(Text(marks), p), marks[p].origin,
                      CallLines(c, Text(marks), p + 1), CallOrigins(c, marks, p + 1));
    }
  }

  /** Every reported line is that of the call in the source, less the escaped newlines
      before it. */
  lemma ReportedLines(c: Classes, s: string)
    requires Strip(s).Ok?
    ensures var lines := CallLines(c, Strip(s).text, 0); var origins := CallOrigins(c, Scan(s, 0, 0).marks, 0);
            && |lines| == |origins|
            && forall k | 0 <= k < |lines| ::
                 origins[k] < |s| && lines[k] + EscapedAbove(s, origins[k]) == LineOf(s, origins[k])
  {
    var marks := Scan(s, 0, 0).marks;
    forall k | 0 <= k < |marks| ensures LineShort(s, marks, k) {
      ScanLine(s, 0, 0, Scan(s, 0, 0), k);
    }
    CallLinesShort(c, s, marks, 0);
  }

  /** When no backslash of the source stands before a newline, every reported line is
      the line on which that call stands. */
  lemma ReportedLinesRight(c: Classes, s: string)
    requires Strip(s).Ok? && forall j | 0 <= j < |s| - 1 && s[j] == '\\' :: s[j + 1] != '\n'
    ensures var lines := CallLines(c, Strip(s).text, 0); var origins := CallOrigins(c, Scan(s, 0, 0).marks, 0);
            && |lines| == |origins|
            && forall k | 0 <= k < |lines| :: origins[k] < |s| && lines[k] == LineOf(s, origins[k])
  {
    ReportedLines(c, s);
    NoBackslashNoEscape(s);
  }

  lemma NoBackslashNoEscape(s: string)
    requires forall j | 0 <= j < |s| - 1 && s[j] == '\\' :: s[j + 1] != '\n'
    ensures forall k | 0 <= k <= |s| :: EscapedAbove(s, k) == 0
  {
    forall k | 0 <= k <= |s| ensures EscapedAbove(s, k) == 0 {
      forall j | 0 <= j < k ensures !EscapedNewline(s, j) {
        NoBackslashNewline(s, j);
      }
      NoneAbove(s, k);
    }
  }

  // ----- The loops -----

  method StripCommentsAndLiterals(source: string) returns (result: Result)
    ensures result == Strip(source)
  {
    var out: string := [];
    var i, n := 0, |source|;
    ghost var marks: seq<Mark> := [];
    ghost var lost: nat := 0;
    ghost var whole := Scan(source, 0, 0);
    while i < n
      invariant 0 <= i <= n && out == Text(marks)
      invariant whole == Join(marks, Scan(source, i, lost))
      decreases n - i
    {
      ghost var t := Token(source, i, lost);
      TokenAdvances(source, i, lost);
      var piece := StripToken(source, i, lost);
      if piece.Error? {
        return Result.Error(piece.failure);
      }
      ScanTurn(source, i, lost, marks, whole);
      TextJoin(marks, t.marks);
      out := out + piece.text;
      i := piece.next;
      marks, lost := marks + t.marks, t.lost;
    }
    result := Ok(out);
  }

  lemma ScanTurn(source: string, i: nat, lost: nat, marks: seq<Mark>, whole: Part)
    requires i < |source| && Token(source, i, lost).Part? && whole == Join(marks, Scan(source, i, lost))
    ensures var t := Token(source, i, lost);
            i < t.next <= |source| && whole == Join(marks + t.marks, Scan(source, t.next, t.lost))
  {
    TokenAdvances(source, i, lost);
    var t := Token(source, i, lost);
    JoinTwice(marks, t.marks, Scan(source, t.next, t.lost));
  }

  datatype Piece = Taken(text: string, next: nat) | Error(failure: Failure)

  /** One turn of the outer loop; a line comment without an end ends the text. */
  method StripToken(source: string, i: nat, ghost lost: nat) returns (piece: Piece)
    requires i < |source|
    ensures var t := Token(source, i, lost);
            if t.Failed? then piece == Piece.Error(t.failure) else piece == Taken(Text(t.marks), t.next)
  {
    if StartsWith(source, '/', '/', i) {
      var end := FindNewline(source, i + 2);
      if end == |source| {
        return Taken([], |source|);
      }
      return Taken(['\n'], end + 1);
    }
    if StartsWith(source, '/', '*', i) {
      var end := FindClose(source, i + 2);
      if end == |source| {
        return Piece.Error(UnterminatedComment);
      }
      var kept := KeepNewlines(source, i, end + 2, lost);
      return Taken(kept, end + 2);
    }
    if IsQuote(source[i]) {
      var literal, next := SkipLiteral(source, i + 1, source[i], lost);
      if next > |source| {
        return Piece.Error(UnterminatedLiteral);
      }
      return Taken([' '] + literal, next);
    }
    return Taken([source[i]], i + 1);
  }

  lemma JoinTwice(a: seq<Mark>, b: seq<Mark>, p: Part)
    ensures Join(a, Join(b, p)) == Join(a + b, p)
  {
    if p.Part? {
      assert a + (b + p.marks) == a + b + p.marks;
    }
  }

  /** out.extend over the newlines of source[start:end]. */
  method KeepNewlines(source: string, start: nat, end: nat, ghost lost: nat) returns (kept: string)
    requires start <= end <= |source|
    ensures kept == Text(NewlineMarks(source, start, end, lost))
  {
    kept := [];
    ghost var marks: seq<Mark> := [];
    for c := start to end
      invariant kept == Text(marks)
      invariant marks + NewlineMarks(source, c, end, lost) == NewlineMarks(source, start, end, lost)
    {
      if source[c] == '\n' {
        kept := kept + ['\n'];
        TextJoin(marks, [Mark('\n', c, lost)]);
        marks := marks + [Mark('\n', c, lost)];
      }
    }
  }

  /** The inner loop; next is |source| + 1 when it ran off the end. */
  method SkipLiteral(source: string, start: nat, quote: char, ghost lost: nat) returns (literal: string, next: nat)
    requires start <= |source|
    ensures var p := Literal(source, start, quote, lost);
            if p.Failed? then next == |source| + 1 && p.failure == UnterminatedLiteral
            else next == p.next <= |source| && literal == Text(p.marks)
  {
    var i := start;
    literal := [];
    ghost var marks: seq<Mark> := [];
    ghost var skipped := lost;
    while i < |source|
      invariant literal == Text(marks)
      invariant Literal(source, start, quote, lost) == Join(marks, Literal(source, i, quote, skipped))
      decreases |source| - i
    {
      if source[i] == '\\' {
        skipped := if i + 1 < |source| && source[i + 1] == '\n' then skipped + 1 else skipped;
        i := i + 2;
      } else if source[i] == quote {
        assert marks + [] == marks;
        return literal, i + 1;
      } else {
        if source[i] == '\n' {
          JoinTwice(marks, [Mark('\n', i, skipped)], Literal(source, i + 1, quote, skipped));
          TextJoin(marks, [Mark('\n', i, skipped)]);
          literal := literal + ['\n'];
          marks := marks + [Mark('\n', i, skipped)];
        }
        i := i + 1;
      }
    }
    next := |source| + 1;
  }

  /** find_calls on the text of a file. */
  method FindCalls(c: Classes, source: string) returns (failure: Result, calls: seq<nat>)
    requires Sane(c)
    ensures failure == Strip(source)
    ensures failure.Ok? ==> calls == CallLines(c, failure.text, 0)
  {
    calls := [];
    failure := StripCommentsAndLiterals(source);
    if failure.Error? {
      return;
    }
    calls := CallsIn(c, failure.text);
  }

  /** What one turn of the loop over the matches passes over. */
  lemma CallsNext(c: Classes, t: string, p: nat)
    requires Sane(c) && p < |t|
    ensures CallLines(c, t, p) == if IsCall(c, t, p) then [LineOf(t, p)] + CallLines(c, t, CallEnd(c, t, p))
                                  else CallLines(c, t, p + 1)
  {
    if IsCall(c, t, p) {
      NothingSkipped(c, t, p, CallEnd(c, t, p));
    }
  }

  lemma Shifted(done: seq<nat>, x: nat, rest: seq<nat>)
    ensures done + ([x] + rest) == (done + [x]) + rest
  {
  }

  /** The loop over the matches. */
  method CallsIn(c: Classes, text: string) returns (calls: seq<nat>)
    requires Sane(c)
    ensures calls == CallLines(c, text, 0)
  {
    calls := [];
    ghost var all := CallLines(c, text, 0);
    ghost var rest := all;
    var p := 0;
    while p < |text|
      invariant p <= |text| && rest == CallLines(c, text, p) && calls + rest == all
      decreases |text| - p
    {
      CallsNext(c, text, p);
      if IsCall(c, text, p) {
        var next := CallEnd(c, text, p);
        rest := CallLines(c, text, next);
        Shifted(calls, LineOf(text, p), rest);
        calls := calls + [LineOf(text, p)];
        p := next;
      } else {
        p := p + 1;
      }
    }
  }
}
