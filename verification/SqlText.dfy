/** Cutting a migration file into statements. */
module SqlText {
  import opened Text

  /** A line that is neither blank nor a comment. */
  predicate Kept(line: string) {
    var t := Strip(line);
    t != [] && !("--" <= t)
  }

  function KeptLines(lines: seq<string>): (kept: seq<string>) {
    if lines == [] then []
    else
      var last := lines[|lines| - 1];
      KeptLines(lines[..|lines| - 1]) + if Kept(last) then [last] else []
  }

  /** "\n".join(lines). */
  function JoinLines(lines: seq<string>): (text: string) {
    if lines == [] then []
    else if |lines| == 1 then lines[0]
    else lines[0] + "\n" + JoinLines(lines[1..])
  }

  /** text.split(c): one piece more than there are separators. */
  function SplitOn(text: string, c: char): (pieces: seq<string>)
    ensures pieces != []
    decreases |text|
  {
    var i := Find(text, c);
    if i == |text| then [text] else [text[..i]] + SplitOn(text[i + 1..], c)
  }

  function StrippedNonEmpty(pieces: seq<string>): (statements: seq<string>) {
    if pieces == [] then []
    else (if Strip(pieces[0]) == [] then [] else [Strip(pieces[0])]) + StrippedNonEmpty(pieces[1..])
  }

  function Statements(text: string): (statements: seq<string>) {
    StrippedNonEmpty(SplitOn(JoinLines(KeptLines(SplitLines(text))), ';'))
  }

  /** _split_statements. */
  method SplitStatements(text: string) returns (statements: seq<string>)
    ensures statements == Statements(text)
  {
    var all := SplitLines(text);
    var lines: seq<string> := [];
    var i := 0;
    while i < |all|
      invariant 0 <= i <= |all| && lines == KeptLines(all[..i])
    {
      var stripped := Strip(all[i]);
      assert all[..i + 1][..i] == all[..i];
      if !("--" <= stripped) && stripped != [] {
        lines := lines + [all[i]];
      }
      i := i + 1;
    }
    assert all[..i] == all;
    return StrippedNonEmpty(SplitOn(JoinLines(lines), ';'));
  }

  // ---------------------------------------------------------------- comment lines go

  /** Position `i` is the line's first character that is no blank, or its end. */
  predicate InkAt(line: string, i: nat) {
    && i <= |line| && (forall k :: 0 <= k < i ==> line[k] in {' ', '\t', '\n', '\r'})
    && (i < |line| ==> line[i] !in {' ', '\t', '\n', '\r'})
  }

  lemma {:induction false} StripLeftAt(line: string, i: nat)
    requires InkAt(line, i)
    ensures StripLeft(line) == line[i..]
  {
    if i > 0 {
      StripLeftAt(line[1..], i - 1);
    }
  }

  /** A line is kept exactly when it has ink and the ink does not begin with two dashes. */
  lemma KeptExactlyWhen(line: string, i: nat)
    requires InkAt(line, i)
    ensures Kept(line) <==> i < |line| && !("--" <= line[i..])
  {
    KeptAtLeft(line);
    StripLeftAt(line, i);
  }

  lemma {:induction false} KeptOfBoth(some: seq<string>, more: seq<string>)
    ensures KeptLines(some + more) == KeptLines(some) + KeptLines(more)
  {
    if more == [] {
      assert some + more == some;
    } else {
      KeptOfBoth(some, more[..|more| - 1]);
      assert (some + more)[..|some + more| - 1] == some + more[..|more| - 1];
    }
  }

  /** No line holds a line break. */
  ghost predicate Unbroken(lines: seq<string>) {
    forall i :: 0 <= i < |lines| ==> '\n' !in lines[i]
  }

  /** The statements depend on the kept lines only. */
  lemma SameKeptLines(some: seq<string>, more: seq<string>)
    requires Unbroken(some) && Unbroken(more) && KeptLines(some) == KeptLines(more)
    ensures Statements(LinesText(some)) == Statements(LinesText(more))
  {
    LinesBack(some);
    LinesBack(more);
  }

  lemma LastNotKept(before: seq<string>, line: string)
    requires !Kept(line)
    ensures KeptLines(before + [line]) == KeptLines(before)
  {
    assert (before + [line])[..|before|] == before;
  }

  /** A blank line or a comment line, wherever it stands in a file, leaves the file's statements as they are
      without it. */
  lemma CommentLineGoes(before: seq<string>, line: string, i: nat, after: seq<string>)
    requires Unbroken(before) && '\n' !in line && Unbroken(after)
    requires InkAt(line, i) && (i == |line| || "--" <= line[i..])
    ensures Statements(LinesText(before + [line] + after)) == Statements(LinesText(before + after))
  {
    KeptExactlyWhen(line, i);
    LastNotKept(before, line);
    KeptOfBoth(before + [line], after);
    KeptOfBoth(before, after);
    SameKeptLines(before + [line] + after, before + after);
  }

  // ---------------------------------------------------------------- the round trip

  /** A statement as one would write it: no surrounding blanks, no semicolon, no blank or comment line. */
  predicate Sound(statement: string) {
    && statement != [] && Stripped(statement) && (forall i :: 0 <= i < |statement| ==> statement[i] != ';')
    && AllKept(SplitLines(statement))
  }

  predicate AllKept(lines: seq<string>) {
    forall i :: 0 <= i < |lines| ==> Kept(lines[i])
  }

  /** Statements separated by a semicolon and `gap`, the last one followed by `end`. */
  function Joined(statements: seq<string>, gap: string, end: string): (text: string) {
    if statements == [] then []
    else if |statements| == 1 then statements[0] + end
    else statements[0] + (";" + gap + Joined(statements[1..], gap, end))
  }

  function StripLeft(s: string): (t: string) {
    if s != [] && IsSpace(s[0]) then StripLeft(s[1..]) else s
  }

  /** Whether a line is blank or a comment shows at its left end. */
  lemma {:induction false} KeptAtLeft(s: string)
    ensures Strip(s) == [] <==> StripLeft(s) == []
    ensures "--" <= Strip(s) <==> "--" <= StripLeft(s)
    decreases |s|
  {
    if s != [] && IsSpace(s[0]) {
      KeptAtLeft(s[1..]);
    } else if s != [] && IsSpace(s[|s| - 1]) {
      var most := s[..|s| - 1];
      KeptAtLeft(most);
      assert most != [] && most[0] == s[0];
      if "--" <= s {
        assert s[0] == '-' && s[1] == '-';
        assert |s| > 2;
        assert "--" <= most;
      }
      if "--" <= most {
        assert most[0] == '-' && most[1] == '-';
        assert "--" <= s;
      }
    }
  }

  lemma {:induction false} StripLeftConcat(s: string, more: string)
    requires StripLeft(s) != []
    ensures StripLeft(s + more) == StripLeft(s) + more
  {
    if s != [] && IsSpace(s[0]) {
      StripLeftConcat(s[1..], more);
      assert (s + more)[1..] == s[1..] + more;
    }
  }

  /** A kept line stays kept when a semicolon and more follow it. */
  lemma KeptMore(line: string, more: string)
    requires Kept(line) && more != [] && more[0] == ';'
    ensures Kept(line + more)
  {
    KeptAtLeft(line);
    KeptAtLeft(line + more);
    StripLeftConcat(line, more);
    var ink := StripLeft(line);
    Dashes(ink);
    Dashes(ink + more);
  }

  lemma Dashes(s: string)
    ensures "--" <= s <==> |s| >= 2 && s[0] == '-' && s[1] == '-'
  {
    if |s| >= 2 {
      assert s[..2] == [s[0], s[1]];
    }
  }

  /** The lines after the first. */
  function LaterLines(s: string): (lines: seq<string>) {
    var j := Find(s, '\n');
    if j == |s| then [] else SplitLines(s[j + 1..])
  }

  predicate EndsOpen(s: string) {
    s != [] && s[|s| - 1] != '\n'
  }

  lemma FirstKept(first: string, later: seq<string>)
    ensures AllKept([first] + later) <==> Kept(first) && AllKept(later)
  {
    var lines := [first] + later;
    assert lines[0] == first;
    assert forall k :: 0 <= k < |later| ==> lines[k + 1] == later[k];
  }

  /** A text with its first line break at `i`, or none. */
  lemma SplitFirst(s: string, i: nat)
    requires i == Find(s, '\n') && s != []
    ensures AllKept(SplitLines(s)) <==> Kept(s[..i]) && AllKept(LaterLines(s))
  {
    if i == |s| {
      assert s[..i] == s;
      FirstKept(s, []);
      assert [s] + [] == [s];
    } else {
      FirstKept(s[..i], SplitLines(s[i + 1..]));
    }
  }

  lemma LaterShift(a: string, b: string)
    requires Find(a, '\n') == |a|
    ensures Find(a + b, '\n') == |a| + Find(b, '\n') && LaterLines(a + b) == LaterLines(b)
  {
    var j := Find(b, '\n');
    FindIs(a + b, '\n', |a| + j);
    if j < |b| {
      DropShift(a, b, j + 1);
    }
  }

  lemma DropShift(a: string, b: string, k: nat)
    requires k <= |b|
    ensures (a + b)[|a| + k..] == b[k..]
  {
  }

  lemma OneLineConcat(a: string, b: string)
    requires Kept(a) && Find(a, '\n') == |a|
    requires b != [] && b[0] == ';' && AllKept(LaterLines(b))
    ensures AllKept(SplitLines(a + b))
  {
    var j := Find(b, '\n');
    LaterShift(a, b);
    KeptMore(a, b[..j]);
    assert (a + b)[..|a| + j] == a + b[..j];
    SplitFirst(a + b, |a| + j);
  }

  /** A kept text followed by a semicolon and more: its lines stay kept. */
  lemma {:induction false} KeptConcat(a: string, b: string)
    requires EndsOpen(a) && AllKept(SplitLines(a))
    requires b != [] && b[0] == ';' && AllKept(LaterLines(b))
    ensures AllKept(SplitLines(a + b))
    decreases |a|
  {
    var i := Find(a, '\n');
    if i == |a| {
      SplitFirst(a, i);
      assert a[..i] == a;
      OneLineConcat(a, b);
    } else {
      var rest := a[i + 1..];
      SplitFirst(a, i);
      KeptConcat(rest, b);
      FindIs(a + b, '\n', i);
      assert (a + b)[..i] == a[..i] && (a + b)[i + 1..] == rest + b;
      SplitFirst(a + b, i);
    }
  }

  predicate Gap(gap: string) {
    gap == [] || gap == "\n"
  }

  predicate AllSound(statements: seq<string>) {
    forall i :: 0 <= i < |statements| ==> Sound(statements[i])
  }

  lemma SoundEnds(statement: string)
    requires Sound(statement)
    ensures EndsOpen(statement) && Strip(statement) == statement
  {
    StripStrips(statement);
  }

  lemma {:induction false} JoinedIsKept(statements: seq<string>, gap: string, end: string)
    requires statements != [] && AllSound(statements) && Gap(gap) && (end == [] || end == ";")
    ensures AllKept(SplitLines(Joined(statements, gap, end))) && EndsOpen(Joined(statements, gap, end))
  {
    SoundEnds(statements[0]);
    if |statements| > 1 {
      JoinedIsKept(statements[1..], gap, end);
      MoreIsKept(statements[0], gap, Joined(statements[1..], gap, end));
    } else if end == ";" {
      KeptConcat(statements[0], end);
    } else {
      assert statements[0] + end == statements[0];
    }
  }

  lemma MoreIsKept(statement: string, gap: string, rest: string)
    requires Sound(statement) && Gap(gap) && EndsOpen(rest) && AllKept(SplitLines(rest))
    ensures AllKept(SplitLines(statement + (";" + gap + rest))) && EndsOpen(statement + (";" + gap + rest))
  {
    var more := ";" + gap + rest;
    if gap == "\n" {
      FindIs(more, '\n', 1);
      assert more[2..] == rest;
    } else {
      SemicolonFirst(rest);
      assert more == ";" + rest;
    }
    SoundEnds(statement);
    KeptConcat(statement, more);
  }

  /** A semicolon before the first line leaves the later lines. */
  lemma SemicolonFirst(rest: string)
    requires rest != [] && AllKept(SplitLines(rest))
    ensures AllKept(LaterLines(";" + rest))
  {
    SplitFirst(rest, Find(rest, '\n'));
    LaterShift(";", rest);
  }

  lemma {:induction false} AllKeptStay(lines: seq<string>)
    requires AllKept(lines)
    ensures KeptLines(lines) == lines
  {
    if lines != [] {
      AllKeptStay(lines[..|lines| - 1]);
      assert lines == lines[..|lines| - 1] + [lines[|lines| - 1]];
    }
  }

  /** Joining the lines gives the text back, unless it ends in a line break. */
  lemma {:induction false} LinesJoin(text: string)
    requires EndsOpen(text)
    ensures SplitLines(text) != [] && JoinLines(SplitLines(text)) == text
    decreases |text|
  {
    var i := Find(text, '\n');
    if i == |text| {
      assert SplitLines(text) == [text];
    } else {
      var rest := text[i + 1..];
      LinesJoin(rest);
      JoinFirst(text[..i], SplitLines(rest));
      AroundBreak(text, i);
      assert SplitLines(text) == [text[..i]] + SplitLines(rest);
    }
  }

  lemma AroundBreak(text: string, i: nat)
    requires i < |text| && text[i] == '\n'
    ensures text[..i] + "\n" + text[i + 1..] == text
  {
  }

  lemma JoinFirst(first: string, later: seq<string>)
    requires later != []
    ensures JoinLines([first] + later) == first + "\n" + JoinLines(later)
  {
    assert ([first] + later)[1..] == later;
  }

  lemma {:induction false} StripAfterBlank(lead: string, statement: string)
    requires Gap(lead) && Stripped(statement) && statement != []
    ensures Strip(lead + statement) == statement
  {
    StripStrips(statement);
    if lead == "\n" {
      assert (lead + statement)[1..] == statement;
    } else {
      assert lead + statement == statement;
    }
  }

  lemma CutAt(head: string, tail: string)
    requires forall i :: 0 <= i < |head| ==> head[i] != ';'
    ensures SplitOn(head + (";" + tail), ';') == [head] + SplitOn(tail, ';')
  {
    var text := head + (";" + tail);
    FindIs(text, ';', |head|);
    assert text[..|head|] == head && text[|head| + 1..] == tail;
  }

  lemma NoCut(head: string)
    requires forall i :: 0 <= i < |head| ==> head[i] != ';'
    ensures SplitOn(head, ';') == [head]
  {
    FindIs(head, ';', |head|);
  }

  lemma LastCut(head: string, statement: string, end: string)
    requires Strip(head) == statement != [] && (end == [] || end == ";")
    requires forall i :: 0 <= i < |head| ==> head[i] != ';'
    ensures StrippedNonEmpty(SplitOn(head + end, ';')) == [statement]
  {
    NoCut(head);
    assert [head][1..] == [];
    if end == [] {
      assert head + end == head;
    } else {
      CutAt(head, "");
      NoCut("");
      assert head + end == head + (";" + "");
      assert [head, ""][1..] == [""] && [""][1..] == [];
    }
  }

  lemma FirstCut(head: string, statement: string, tail: string, later: seq<string>)
    requires Strip(head) == statement != [] && StrippedNonEmpty(SplitOn(tail, ';')) == later
    requires forall i :: 0 <= i < |head| ==> head[i] != ';'
    ensures StrippedNonEmpty(SplitOn(head + (";" + tail), ';')) == [statement] + later
  {
    CutAt(head, tail);
    assert ([head] + SplitOn(tail, ';'))[1..] == SplitOn(tail, ';');
  }

  lemma Regroup(lead: string, first: string, gap: string, rest: string)
    ensures lead + (first + (";" + gap + rest)) == (lead + first) + (";" + (gap + rest))
  {
  }

  lemma {:induction false} CutsBack(lead: string, statements: seq<string>, gap: string, end: string)
    requires statements != [] && AllSound(statements) && Gap(gap) && Gap(lead) && (end == [] || end == ";")
    ensures StrippedNonEmpty(SplitOn(lead + Joined(statements, gap, end), ';')) == statements
    decreases |statements|
  {
    if |statements| == 1 {
      LastCutsBack(lead, statements[0], end);
      assert statements == [statements[0]];
    } else {
      CutsBack(gap, statements[1..], gap, end);
      FirstCutsBack(lead, statements[0], gap, Joined(statements[1..], gap, end), statements[1..]);
      assert statements == [statements[0]] + statements[1..];
    }
  }

  lemma LastCutsBack(lead: string, first: string, end: string)
    requires Sound(first) && Gap(lead) && (end == [] || end == ";")
    ensures StrippedNonEmpty(SplitOn(lead + (first + end), ';')) == [first]
  {
    StripAfterBlank(lead, first);
    assert lead + (first + end) == lead + first + end;
    LastCut(lead + first, first, end);
  }

  lemma FirstCutsBack(lead: string, first: string, gap: string, rest: string, later: seq<string>)
    requires Sound(first) && Gap(lead) && StrippedNonEmpty(SplitOn(gap + rest, ';')) == later
    ensures StrippedNonEmpty(SplitOn(lead + (first + (";" + gap + rest)), ';')) == [first] + later
  {
    StripAfterBlank(lead, first);
    Regroup(lead, first, gap, rest);
    FirstCut(lead + first, first, gap + rest, later);
  }

  /** Cutting a file gives its statements back: sound statements, separated by semicolons with or
      without a line break, the last one with or without its semicolon, and any blank and comment lines
      put between the lines of that. */
  lemma SplitsBack(statements: seq<string>, gap: string, end: string, file: string)
    requires statements != [] && AllSound(statements) && Gap(gap) && (end == [] || end == ";")
    requires KeptLines(SplitLines(file)) == SplitLines(Joined(statements, gap, end))
    ensures Statements(file) == statements
  {
    var text := Joined(statements, gap, end);
    JoinedIsKept(statements, gap, end);
    LinesJoin(text);
    CutsBack([], statements, gap, end);
    assert [] + text == text;
  }

  /** In particular the joined text itself is cut into its statements. */
  lemma JoinedSplitsBack(statements: seq<string>, gap: string, end: string)
    requires statements != [] && AllSound(statements) && Gap(gap) && (end == [] || end == ";")
    ensures Statements(Joined(statements, gap, end)) == statements
  {
    JoinedIsKept(statements, gap, end);
    AllKeptStay(SplitLines(Joined(statements, gap, end)));
    SplitsBack(statements, gap, end, Joined(statements, gap, end));
  }
}
