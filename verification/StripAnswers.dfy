/** The scanner of experiments/consteval_registry/audit_static_no_registration.py agrees
    with one that reads the source a character at a time and never looks ahead further
    than the next one; and what counts as a registration call. */
module StripAnswers {
  import opened StripScanner

  // ----- One character at a time -----

  /** What character k leaves in the output: code stays, a literal leaves a blank and its
      unescaped newlines, a comment its newlines. */
  function Emit(s: string, k: nat): (t: string)
    requires k < |s|
  {
    match ModeAt(s, k)
    case Code =>
      if StartsWith(s, '/', '/', k) || StartsWith(s, '/', '*', k) then ""
      else if s[k] == '"' || s[k] == '\'' then " "
      else [s[k]]
    case Escaped(_) => ""
    case _ => if s[k] == '\n' then "\n" else ""
  }

  function Emitted(s: string, i: nat, end: nat): (t: string)
    requires i <= end <= |s|
    decreases end - i
  {
    if i == end then "" else Emit(s, i) + Emitted(s, i + 1, end)
  }

  /** The verdict depends on where the last character leaves the reader. */
  function CharacterScan(s: string): Result {
    match ModeAt(s, |s|)
    case Code => Ok(Emitted(s, 0, |s|))
    case LineComment => Ok(Emitted(s, 0, |s|))
    case InLiteral(_) => Result.Error(UnterminatedLiteral)
    case Escaped(_) => Result.Error(UnterminatedLiteral)
    case _ => Result.Error(UnterminatedComment)
  }

  lemma {:induction false} EmittedJoin(s: string, i: nat, j: nat, end: nat)
    requires i <= j <= end <= |s|
    ensures Emitted(s, i, end) == Emitted(s, i, j) + Emitted(s, j, end)
    decreases j - i
  {
    if i < j {
      EmittedJoin(s, i + 1, j, end);
    }
  }

  // ----- The parts of the scan -----

  /** A part left what the characters up to its end leave; a failure is one that the
      last character would show. */
  ghost predicate Agrees(s: string, i: nat, p: Part)
    requires i <= |s|
  {
    match p
    case Part(marks, next, _) =>
      && i <= next <= |s| && Text(marks) == Emitted(s, i, next)
      && (ModeAt(s, next) == Code || (next == |s| && ModeAt(s, next) == LineComment))
    case Failed(UnterminatedLiteral) => ModeAt(s, |s|).InLiteral? || ModeAt(s, |s|).Escaped?
    case Failed(UnterminatedComment) => ModeAt(s, |s|).Block?
  }

  lemma ConsText(m: Mark, marks: seq<Mark>)
    ensures Text([m] + marks) == [m.ch] + Text(marks)
  {
  }

  lemma {:induction false} LiteralAgrees(s: string, i: nat, quote: char, lost: nat)
    requires i <= |s| && ModeAt(s, i) == InLiteral(quote) && IsQuote(quote)
    ensures Agrees(s, i, Literal(s, i, quote, lost))
    ensures Literal(s, i, quote, lost).Failed? ==> Literal(s, i, quote, lost).failure.UnterminatedLiteral?
    decreases |s| - i
  {
    if i < |s| {
      if s[i] == '\\' {
        assert ModeAt(s, i + 1) == Escaped(quote);
        if i + 1 < |s| {
          assert ModeAt(s, i + 2) == InLiteral(quote);
          LiteralAgrees(s, i + 2, quote, if s[i + 1] == '\n' then lost + 1 else lost);
        }
      } else if s[i] != quote {
        assert ModeAt(s, i + 1) == InLiteral(quote);
        LiteralAgrees(s, i + 1, quote, lost);
        var p := Literal(s, i + 1, quote, lost);
        if p.Part? && s[i] == '\n' {
          ConsText(Mark('\n', i, lost), p.marks);
        }
      } else {
        assert ModeAt(s, i + 1) == Code;
        assert Emitted(s, i, i + 1) == Emit(s, i) + Emitted(s, i + 1, i + 1);
      }
    }
  }

  ghost predicate OnlyNewlinesEmitted(s: string, i: nat, end: nat)
    requires i <= end <= |s|
  {
    forall j | i <= j < end :: Emit(s, j) == if s[j] == '\n' then "\n" else ""
  }

  lemma {:induction false} CommentEmits(s: string, i: nat, end: nat, lost: nat)
    requires i <= end <= |s| && OnlyNewlinesEmitted(s, i, end)
    ensures Text(NewlineMarks(s, i, end, lost)) == Emitted(s, i, end)
    decreases end - i
  {
    if i < end {
      CommentEmits(s, i + 1, end, lost);
      if s[i] == '\n' {
        ConsText(Mark('\n', i, lost), NewlineMarks(s, i + 1, end, lost));
      }
    }
  }

  /** The modes from the opening to the close. */
  ghost predicate BlockUpTo(s: string, i: nat, end: nat)
    requires i < |s| && end <= |s|
  {
    && ModeAt(s, i) == Code && StartsWith(s, '/', '*', i) && i + 2 <= end
    && ModeAt(s, i + 1) == BlockOpen && forall j | i + 2 <= j <= end :: ModeAt(s, j) == Block
  }

  lemma BlockModes(s: string, i: nat, end: nat)
    requires i < |s| && ModeAt(s, i) == Code && StartsWith(s, '/', '*', i) && end == FindClose(s, i + 2)
    ensures BlockUpTo(s, i, end)
  {
    assert ModeAt(s, i + 1) == BlockOpen && ModeAt(s, i + 2) == Block;
    forall j | i + 2 <= j <= end ensures ModeAt(s, j) == Block {
      StaysInBlock(s, i + 2, j);
    }
  }

  lemma BlockCloses(s: string, i: nat, end: nat)
    requires i < |s| && end < |s| && BlockUpTo(s, i, end) && StartsWith(s, '*', '/', end)
    ensures ModeAt(s, end + 1) == BlockEnd && ModeAt(s, end + 2) == Code
    ensures OnlyNewlinesEmitted(s, i, end + 2)
  {
    assert ModeAt(s, end + 1) == NextMode(Block, s, end) == BlockEnd;
    assert ModeAt(s, end + 2) == NextMode(BlockEnd, s, end + 1) == Code;
  }

  lemma BlockAgrees(s: string, i: nat, lost: nat)
    requires i < |s| && ModeAt(s, i) == Code && StartsWith(s, '/', '*', i)
    ensures Agrees(s, i, Token(s, i, lost))
  {
    var end := FindClose(s, i + 2);
    BlockModes(s, i, end);
    if end < |s| {
      BlockCloses(s, i, end);
      CommentEmits(s, i, end + 2, lost);
    }
  }

  ghost predicate Silent(s: string, i: nat, end: nat)
    requires i <= end <= |s|
  {
    forall j | i <= j < end :: Emit(s, j) == ""
  }

  lemma {:induction false} NothingEmitted(s: string, i: nat, end: nat)
    requires i <= end <= |s| && Silent(s, i, end)
    ensures Emitted(s, i, end) == ""
    decreases end - i
  {
    if i < end {
      NothingEmitted(s, i + 1, end);
      EmittedFirst(s, i, end, Emit(s, i), Emitted(s, i + 1, end));
    }
  }

  lemma EmittedFirst(s: string, i: nat, end: nat, first: string, rest: string)
    requires i < end <= |s| && first == Emit(s, i) && rest == Emitted(s, i + 1, end)
    ensures Emitted(s, i, end) == first + rest
  {
  }

  lemma LineModes(s: string, i: nat, end: nat)
    requires i < |s| && ModeAt(s, i) == Code && StartsWith(s, '/', '/', i) && end == FindNewline(s, i + 2)
    ensures forall j | i < j <= end :: ModeAt(s, j) == LineComment
    ensures Silent(s, i, end)
  {
    assert ModeAt(s, i + 1) == LineComment && ModeAt(s, i + 2) == LineComment;
    assert forall j | i + 2 <= j < end :: s[j] == s[i + 2..end][j - i - 2];
    forall j | i < j <= end ensures ModeAt(s, j) == LineComment {
      if j > i + 2 {
        StaysInLine(s, i + 2, j);
      }
    }
  }

  lemma LineEnds(s: string, end: nat)
    requires end < |s| && ModeAt(s, end) == LineComment && s[end] == '\n'
    ensures Emitted(s, end, end + 1) == "\n" && ModeAt(s, end + 1) == Code
  {
    EmittedFirst(s, end, end + 1, Emit(s, end), Emitted(s, end + 1, end + 1));
  }

  lemma LineLeaves(s: string, i: nat, end: nat, marks: seq<Mark>)
    requires i <= end <= |s| && Silent(s, i, end)
    requires end < |s| ==> ModeAt(s, end) == LineComment && s[end] == '\n'
    requires Text(marks) == if end < |s| then "\n" else ""
    ensures var next := if end < |s| then end + 1 else end;
            Text(marks) == Emitted(s, i, next) && (end < |s| ==> ModeAt(s, next) == Code)
  {
    NothingEmitted(s, i, end);
    if end < |s| {
      LineEnds(s, end);
      EmittedJoin(s, i, end, end + 1);
    }
  }

  lemma LineToken(s: string, i: nat, lost: nat, end: nat)
    requires i < |s| && StartsWith(s, '/', '/', i) && end == FindNewline(s, i + 2)
    ensures Token(s, i, lost)
         == if end < |s| then Part([Mark('\n', end, lost)], end + 1, lost) else Part([], end, lost)
  {
  }

  lemma LineAgrees(s: string, i: nat, lost: nat)
    requires i < |s| && ModeAt(s, i) == Code && StartsWith(s, '/', '/', i)
    ensures Agrees(s, i, Token(s, i, lost))
  {
    var end := FindNewline(s, i + 2);
    var marks := if end < |s| then [Mark('\n', end, lost)] else [];
    LineToken(s, i, lost, end);
    LineModes(s, i, end);
    LineLeaves(s, i, end, marks);
    assert Agrees(s, i, Part(marks, if end < |s| then end + 1 else end, lost));
  }

  lemma TokenAgrees(s: string, i: nat, lost: nat)
    requires i < |s| && ModeAt(s, i) == Code
    ensures Agrees(s, i, Token(s, i, lost))
  {
    if StartsWith(s, '/', '/', i) {
      LineAgrees(s, i, lost);
    } else if StartsWith(s, '/', '*', i) {
      BlockAgrees(s, i, lost);
    } else if IsQuote(s[i]) {
      assert ModeAt(s, i + 1) == InLiteral(s[i]);
      LiteralAgrees(s, i + 1, s[i], lost);
      var p := Literal(s, i + 1, s[i], lost);
      if p.Part? {
        ConsText(Mark(' ', i, lost), p.marks);
      }
    } else {
      assert ModeAt(s, i + 1) == Code;
      assert Emitted(s, i, i + 1) == Emit(s, i) + Emitted(s, i + 1, i + 1);
    }
  }

  lemma {:induction false} ScanAgrees(s: string, i: nat, lost: nat)
    requires i <= |s| && (ModeAt(s, i) == Code || (i == |s| && ModeAt(s, i) == LineComment))
    ensures Agrees(s, i, Scan(s, i, lost))
    decreases |s| - i
  {
    if i < |s| {
      var t := Token(s, i, lost);
      TokenAgrees(s, i, lost);
      TokenAdvances(s, i, lost);
      if t.Part? {
        var rest := Scan(s, t.next, t.lost);
        ScanAgrees(s, t.next, t.lost);
        if rest.Part? {
          TextJoin(t.marks, rest.marks);
          EmittedJoin(s, i, t.next, rest.next);
        }
      }
    }
  }

  /** The scanner that searches ahead answers what the reader of single characters does,
      for every source. */
  lemma {:induction false} StripIsCharacterScan(s: string)
    ensures Strip(s) == CharacterScan(s)
  {
    ScanIsCharacterScan(s, 0, 0, Scan(s, 0, 0));
  }

  lemma {:induction false} ScanIsCharacterScan(s: string, i: nat, lost: nat, p: Part)
    requires i == 0 && lost == 0 && p == Scan(s, i, lost)
    ensures CharacterScan(s) == if p.Failed? then Result.Error(p.failure) else Ok(Text(p.marks))
  {
    ScanAgrees(s, i, lost);
    if p.Part? {
      ScanEnds(s, i, lost);
    }
  }

  // ----- What is a call -----

  /** The name, not preceded by a word character, then blanks, then a parenthesis. */
  ghost predicate CallAt(c: Classes, t: string, p: nat) {
    exists e :: p + |NAME| <= e < |t| && t[p..p + |NAME|] == NAME && t[e] == '('
                && (forall k | p + |NAME| <= k < e :: c.space(t[k]))
                && (p > 0 ==> !c.word(t[p - 1]))
  }

  lemma CallIff(c: Classes, t: string, p: nat)
    requires Sane(c)
    ensures IsCall(c, t, p) <==> CallAt(c, t, p)
  {
    if IsCall(c, t, p) {
      var j := SkipSpaces(c, t, p + |NAME|);
      assert t[j] == '(';
    }
    if CallAt(c, t, p) {
      var e :| p + |NAME| <= e < |t| && t[p..p + |NAME|] == NAME && t[e] == '('
               && forall k | p + |NAME| <= k < e :: c.space(t[k]);
      var j := SkipSpaces(c, t, p + |NAME|);
      assert e <= j;
      assert j <= e;
    }
  }

  /** The lines of some positions, in their order. */
  function LinesAt(t: string, positions: seq<nat>): (lines: seq<nat>)
    requires forall k | 0 <= k < |positions| :: positions[k] <= |t|
  {
    seq(|positions|, k requires 0 <= k < |positions| => LineOf(t, positions[k]))
  }

  ghost predicate Ascending(positions: seq<nat>, p: nat, end: nat) {
    && (forall k | 0 <= k < |positions| :: p <= positions[k] < end)
    && forall j, k | 0 <= j < k < |positions| :: positions[j] < positions[k]
  }

  lemma FirstLine(t: string, p: nat, rest: seq<nat>)
    requires p < |t| && Ascending(rest, p + 1, |t|)
    ensures Ascending([p] + rest, p, |t|) && Ascending(rest, p, |t|)
    ensures LinesAt(t, [p] + rest) == [LineOf(t, p)] + LinesAt(t, rest)
  {
  }

  /** Exactly the calls from p on. */
  ghost predicate AllCalls(c: Classes, t: string, positions: seq<nat>, p: nat) {
    forall q :: q in positions <==> p <= q < |t| && CallAt(c, t, q)
  }

  lemma FirstCall(c: Classes, t: string, p: nat, rest: seq<nat>)
    requires p < |t| && AllCalls(c, t, rest, p + 1)
    ensures AllCalls(c, t, if CallAt(c, t, p) then [p] + rest else rest, p)
  {
    var positions := if CallAt(c, t, p) then [p] + rest else rest;
    forall q ensures q in positions <==> p <= q < |t| && CallAt(c, t, q) {
      assert q in rest <==> p + 1 <= q < |t| && CallAt(c, t, q);
    }
  }

  /** The lines that are reported are those of all calls, once for each, in order. */
  lemma {:induction false} ReportsAllCalls(c: Classes, t: string, p: nat) returns (positions: seq<nat>)
    requires Sane(c) && p <= |t|
    ensures Ascending(positions, p, |t|) && AllCalls(c, t, positions, p)
    ensures CallLines(c, t, p) == LinesAt(t, positions)
    decreases |t| - p
  {
    if p == |t| {
      positions := [];
    } else {
      CallIff(c, t, p);
      var rest := ReportsAllCalls(c, t, p + 1);
      FirstLine(t, p, rest);
      FirstCall(c, t, p, rest);
      positions := if IsCall(c, t, p) then [p] + rest else rest;
    }
  }
}
