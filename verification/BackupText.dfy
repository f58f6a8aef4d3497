/** How a backup writes decimals and timestamps as text, and how the database reads them back. */
module BackupText {
  import opened Schema
  import opened Text

  datatype Moment = Moment(year: nat, month: nat, day: nat, hour: nat, minute: nat, second: nat)
  {
    predicate Valid() {
      year < 10000 && month < 100 && day < 100 && hour < 100 && minute < 100 && second < 100
    }
  }

  predicate AllDigits(s: string) {
    forall i :: 0 <= i < |s| ==> IsDigit(s[i])
  }

  /** A natural number written in digits only. */
  function ReadDigits(s: string): (n: Option<nat>) {
    if AllDigits(s) then Some(Value(s)) else None
  }

  // ---------------------------------------------------------------- decimals with two places

  function WriteUnsigned(cents: nat): (s: string) {
    Digits(cents / 100) + "." + Pad(cents % 100, 2)
  }

  /** str of a DECIMAL column's value. */
  function WriteDecimal(cents: int): (s: string) {
    if cents < 0 then "-" + WriteUnsigned(-cents) else WriteUnsigned(cents)
  }

  function ReadUnsigned(s: string): (cents: Option<int>) {
    var dot := Find(s, '.');
    if dot == 0 || dot + 3 != |s| then None
    else
      match (ReadDigits(s[..dot]), ReadDigits(s[dot + 1..]))
      case (Some(whole), Some(part)) => Some(100 * whole + part)
      case _ => None
  }

  function ReadDecimal(s: string): (cents: Option<int>) {
    if s != [] && s[0] == '-' then
      match ReadUnsigned(s[1..])
      case None => None
      case Some(n) => Some(-n)
    else ReadUnsigned(s)
  }

  lemma UnsignedBack(cents: nat)
    ensures ReadUnsigned(WriteUnsigned(cents)) == Some(cents)
    ensures WriteUnsigned(cents) != [] && WriteUnsigned(cents)[0] != '-'
  {
    var whole, part := Digits(cents / 100), Pad(cents % 100, 2);
    var s := WriteUnsigned(cents);
    DigitsFit(cents % 100, 2, 100);
    assert Power(2) == 100 by { assert Power(1) == 10 * Power(0); }
    ValueOfDigits(cents / 100);
    ValueOfPad(cents % 100, 2);
    assert s[..|whole|] == whole && s[|whole|] == '.' && s[|whole| + 1..] == part;
    assert forall j :: 0 <= j < |whole| ==> IsDigit(whole[j]) && s[j] == whole[j];
    FindIs(s, '.', |whole|);
    assert IsDigit(whole[0]);
  }

  /** A decimal written and read is the same decimal. */
  lemma DecimalBack(cents: int)
    ensures ReadDecimal(WriteDecimal(cents)) == Some(cents)
  {
    if cents < 0 {
      UnsignedBack(-cents);
      assert WriteDecimal(cents)[1..] == WriteUnsigned(-cents);
    } else {
      UnsignedBack(cents);
    }
  }

  /** What the text looks like: a sign only below zero, digits, a point, and two digits. */
  lemma DecimalLooks(cents: int)
    ensures var s := WriteDecimal(cents); var from := if cents < 0 then 1 else 0;
            && |s| >= from + 4 && s[|s| - 3] == '.' && (cents < 0 ==> s[0] == '-')
            && AllDigits(s[from..|s| - 3]) && AllDigits(s[|s| - 2..])
            && 100 * Value(s[from..|s| - 3]) + Value(s[|s| - 2..]) == if cents < 0 then -cents else cents
  {
    var n := if cents < 0 then -cents else cents;
    TwoDigits(n % 100);
    ValueOfDigits(n / 100);
    var s, from := WriteDecimal(cents), if cents < 0 then 1 else 0;
    assert s[from..] == Digits(n / 100) + "." + Pad(n % 100, 2);
    assert s[from..|s| - 3] == Digits(n / 100) && s[|s| - 2..] == Pad(n % 100, 2);
  }

  // ---------------------------------------------------------------- timestamps

  function WriteDate(m: Moment): (s: string) {
    Pad(m.year, 4) + "-" + Pad(m.month, 2) + "-" + Pad(m.day, 2)
  }

  function WriteTime(m: Moment): (s: string) {
    Pad(m.hour, 2) + ":" + Pad(m.minute, 2) + ":" + Pad(m.second, 2)
  }

  /** isoformat of a DATETIME column's value. */
  function WriteMoment(m: Moment): (s: string) {
    WriteDate(m) + "T" + WriteTime(m)
  }

  /** Two-digit groups after the first group, with a mark before each. */
  predicate GroupShape(s: string, first: nat, mark: char) {
    && |s| == first + 6 && s[first] == s[first + 3] == mark
    && AllDigits(s[..first]) && AllDigits(s[first + 1..first + 3]) && AllDigits(s[first + 4..])
  }

  predicate MomentShape(s: string) {
    |s| == 19 && s[10] == 'T' && GroupShape(s[..10], 4, '-') && GroupShape(s[11..], 2, ':')
  }

  function ReadMoment(s: string): (m: Option<Moment>) {
    if !MomentShape(s) then None
    else
      var date, time := s[..10], s[11..];
      Some(Moment(Value(date[..4]), Value(date[5..7]), Value(date[8..]),
                  Value(time[..2]), Value(time[3..5]), Value(time[6..])))
  }

  lemma TwoDigits(n: nat)
    requires n < 100
    ensures |Pad(n, 2)| == 2 && AllDigits(Pad(n, 2)) && Value(Pad(n, 2)) == n
  {
    assert Power(2) == 100 by { assert Power(1) == 10 * Power(0); }
    DigitsFit(n, 2, 100);
    ValueOfPad(n, 2);
  }

  lemma FourDigits(n: nat)
    requires n < 10000
    ensures |Pad(n, 4)| == 4 && AllDigits(Pad(n, 4)) && Value(Pad(n, 4)) == n
  {
    assert Power(4) == 10000 by {
      assert Power(1) == 10 * Power(0);
      assert Power(2) == 10 * Power(1);
      assert Power(3) == 10 * Power(2);
    }
    DigitsFit(n, 4, 10000);
    ValueOfPad(n, 4);
  }

  /** What follows the first part of a text, and the part itself. */
  lemma Cut(first: string, rest: string)
    ensures (first + rest)[..|first|] == first && (first + rest)[|first|..] == rest
    ensures forall k :: 0 <= k < |rest| ==> (first + rest)[|first| + k] == rest[k]
  {
  }

  /** Three groups of digits and the marks between them. */
  lemma GroupParts(a: string, b: string, c: string, mark: string)
    requires |b| == |c| == 2 && |mark| == 1
    ensures var s := a + mark + b + mark + c; var n := |a|;
            && |s| == n + 6 && s[n] == s[n + 3] == mark[0]
            && s[..n] == a && s[n + 1..n + 3] == b && s[n + 4..] == c
  {
    var s := a + mark + b + mark + c;
    Cut(a + mark + b + mark, c);
    Cut(a, mark + b + mark + c);
    assert s == a + (mark + b + mark + c);
    assert s[|a| + 1] == b[0] && s[|a| + 2] == b[1];
  }

  /** A timestamp written and read is the same timestamp. */
  lemma MomentBack(m: Moment)
    requires m.Valid()
    ensures ReadMoment(WriteMoment(m)) == Some(m)
  {
    FourDigits(m.year);
    TwoDigits(m.month);
    TwoDigits(m.day);
    TwoDigits(m.hour);
    TwoDigits(m.minute);
    TwoDigits(m.second);
    var date, time := WriteDate(m), WriteTime(m);
    GroupParts(Pad(m.year, 4), Pad(m.month, 2), Pad(m.day, 2), "-");
    GroupParts(Pad(m.hour, 2), Pad(m.minute, 2), Pad(m.second, 2), ":");
    Cut(date, "T" + time);
    Cut("T", time);
    var s := WriteMoment(m);
    assert s == date + ("T" + time);
    assert s[..10] == date && s[11..] == time && s[10] == 'T';
  }

  /** What the text looks like: YYYY-MM-DDTHH:MM:SS. */
  lemma MomentLooks(m: Moment)
    requires m.Valid()
    ensures var s := WriteMoment(m);
            && |s| == 19 && s[4] == s[7] == '-' && s[10] == 'T' && s[13] == s[16] == ':'
            && s[..4] == Pad(m.year, 4) && s[5..7] == Pad(m.month, 2) && s[8..10] == Pad(m.day, 2)
            && s[11..13] == Pad(m.hour, 2) && s[14..16] == Pad(m.minute, 2) && s[17..] == Pad(m.second, 2)
  {
    FourDigits(m.year);
    TwoDigits(m.month);
    TwoDigits(m.day);
    TwoDigits(m.hour);
    TwoDigits(m.minute);
    TwoDigits(m.second);
    GroupParts(Pad(m.year, 4), Pad(m.month, 2), Pad(m.day, 2), "-");
    GroupParts(Pad(m.hour, 2), Pad(m.minute, 2), Pad(m.second, 2), ":");
    var s := WriteMoment(m);
    Cut(WriteDate(m), "T" + WriteTime(m));
    assert s == WriteDate(m) + ("T" + WriteTime(m));
    assert s[..10] == WriteDate(m) && s[11..] == WriteTime(m);
  }
}
