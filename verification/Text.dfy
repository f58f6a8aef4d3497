/** Decimal digits, printed and read back. */
module Text {
  function Digit(d: nat): (c: char)
    requires d < 10
  {
    '0' + d as char
  }

  predicate IsDigit(c: char) {
    '0' <= c <= '9'
  }

  /** str(n) for a natural number. */
  function Digits(n: nat): (s: string)
    ensures s != []
    ensures forall i :: 0 <= i < |s| ==> IsDigit(s[i])
  {
    if n < 10 then [Digit(n)] else Digits(n / 10) + [Digit(n % 10)]
  }

  /** The number a string of digits denotes. */
  function Value(s: string): (n: nat)
    requires forall i :: 0 <= i < |s| ==> IsDigit(s[i])
  {
    if s == [] then 0
    else
      var last := s[|s| - 1];
      assert IsDigit(last);
      10 * Value(s[..|s| - 1]) + (last as int - '0' as int)
  }

  /** Left-padded with zeros to at least `width`: Python's 0{width}d. */
  function Pad(n: nat, width: nat): (s: string)
    ensures |s| >= width
    ensures forall i :: 0 <= i < |s| ==> IsDigit(s[i])
  {
    Zeros(width, |Digits(n)|) + Digits(n)
  }

  function Zeros(width: nat, have: nat): (s: string)
    ensures |s| == if have < width then width - have else 0
    ensures forall i :: 0 <= i < |s| ==> s[i] == '0'
    decreases width - have
  {
    if have >= width then [] else ['0'] + Zeros(width, have + 1)
  }

  lemma {:induction false} ValueOfDigits(n: nat)
    ensures Value(Digits(n)) == n
  {
    if n >= 10 {
      ValueOfDigits(n / 10);
      var s := Digits(n);
      assert s[..|s| - 1] == Digits(n / 10);
    }
  }

  lemma {:induction false} ValueAfterZeros(zeros: string, s: string)
    requires forall i :: 0 <= i < |zeros| ==> zeros[i] == '0'
    requires forall i :: 0 <= i < |s| ==> IsDigit(s[i])
    ensures Value(zeros + s) == Value(s)
  {
    if s != [] {
      var most := s[..|s| - 1];
      ValueAfterZeros(zeros, most);
      assert (zeros + s)[..|zeros + s| - 1] == zeros + most;
    } else if zeros != [] {
      var fewer := zeros[..|zeros| - 1];
      ValueAfterZeros(fewer, []);
      assert zeros + s == zeros && fewer + s == fewer;
    }
  }

  lemma ValueOfPad(n: nat, width: nat)
    ensures Value(Pad(n, width)) == n
  {
    ValueAfterZeros(Zeros(width, |Digits(n)|), Digits(n));
    ValueOfDigits(n);
  }

  /** Enough room means exactly that width. */
  lemma {:induction false} DigitsFit(n: nat, width: nat, bound: nat)
    requires width > 0 && n < bound && bound == Power(width)
    ensures |Digits(n)| <= width && |Pad(n, width)| == width
  {
    if n >= 10 {
      assert width > 1;
      DigitsFit(n / 10, width - 1, Power(width - 1));
    }
  }

  function Power(width: nat): (p: nat) {
    if width == 0 then 1 else 10 * Power(width - 1)
  }

  // ---------------------------------------------------------------- lines

  predicate IsSpace(c: char) {
    c in {' ', '\t', '\n', '\r'}
  }

  /** str.strip. */
  function Strip(s: string): (t: string) {
    if s != [] && IsSpace(s[0]) then Strip(s[1..])
    else if s != [] && IsSpace(s[|s| - 1]) then Strip(s[..|s| - 1])
    else s
  }

  predicate Stripped(s: string) {
    s == [] || (!IsSpace(s[0]) && !IsSpace(s[|s| - 1]))
  }

  lemma {:induction false} StripStrips(s: string)
    ensures Stripped(Strip(s)) && |Strip(s)| <= |s|
    ensures Stripped(s) ==> Strip(s) == s
  {
    if s != [] && IsSpace(s[0]) {
      StripStrips(s[1..]);
    } else if s != [] && IsSpace(s[|s| - 1]) {
      StripStrips(s[..|s| - 1]);
    }
  }

  /** Stripping takes blanks from both ends and nothing else. */
  lemma {:induction false} StripIsMiddle(s: string) returns (i: nat, j: nat)
    ensures i <= j <= |s| && Strip(s) == s[i..j]
    ensures forall k :: (0 <= k < i || j <= k < |s|) ==> s[k] in {' ', '\t', '\n', '\r'}
    ensures i < j ==> s[i] !in {' ', '\t', '\n', '\r'} && s[j - 1] !in {' ', '\t', '\n', '\r'}
  {
    if s != [] && IsSpace(s[0]) {
      i, j := StripIsMiddle(s[1..]);
      i, j := i + 1, j + 1;
    } else if s != [] && IsSpace(s[|s| - 1]) {
      i, j := StripIsMiddle(s[..|s| - 1]);
      assert s[..|s| - 1][i..j] == s[i..j];
    } else {
      i, j := 0, |s|;
    }
  }

  /** Where `c` first occurs, or the length. */
  function Find(s: string, c: char): (i: nat)
    ensures i <= |s| && (i < |s| ==> s[i] == c)
    ensures forall j :: 0 <= j < i ==> s[j] != c
  {
    if s == [] || s[0] == c then 0 else 1 + Find(s[1..], c)
  }

  /** The first occurrence is unique. */
  lemma {:induction false} FindIs(s: string, c: char, i: nat)
    requires i <= |s| && (i < |s| ==> s[i] == c) && forall j :: 0 <= j < i ==> s[j] != c
    ensures Find(s, c) == i
  {
    if i != 0 && s != [] {
      FindIs(s[1..], c, i - 1);
    }
  }

  /** str.splitlines for text whose only line break is the newline: no empty last line. */
  function SplitLines(s: string): (lines: seq<string>)
    decreases |s|
  {
    if s == [] then []
    else
      var i := Find(s, '\n');
      if i == |s| then [s] else [s[..i]] + SplitLines(s[i + 1..])
  }

  /** Lines one under the other, each with its line break. */
  function LinesText(lines: seq<string>): (text: string) {
    if lines == [] then [] else lines[0] + "\n" + LinesText(lines[1..])
  }

  lemma FirstLine(first: string, rest: string)
    requires '\n' !in first
    ensures SplitLines(first + "\n" + rest) == [first] + SplitLines(rest)
  {
    var text := first + "\n" + rest;
    assert text == first + ("\n" + rest);
    FindIs(text, '\n', |first|);
    assert text[..|first|] == first && text[|first| + 1..] == rest;
  }

  /** Splitting gives the lines back, blank ones too. */
  lemma {:induction false} LinesBack(lines: seq<string>)
    requires forall i :: 0 <= i < |lines| ==> '\n' !in lines[i]
    ensures SplitLines(LinesText(lines)) == lines
  {
    if lines != [] {
      LinesBack(lines[1..]);
      FirstLine(lines[0], LinesText(lines[1..]));
    }
  }
}
