/** Order codes: prefix, clock, random suffix, and for a bulk purchase the unit's number. */
module OrderCodes {
  import opened Schema
  import opened Text

  /** What the clock and the random generator contribute; any strings of the right width. */
  datatype Stamp = Stamp(date: string, time: string, suffix: string)
  {
    predicate Valid() {
      |date| == 6 && |time| == 6 && |suffix| == 3
    }
  }

  function OrderCode(prefix: string, stamp: Stamp, sequence: Option<nat>): (code: string) {
    var base := prefix + "-C-" + stamp.date + "-" + stamp.time + stamp.suffix;
    match sequence
    case None => base
    case Some(n) => base + Pad(n, 3)
  }

  /** The code of a package order: the same parts without the charge mark. */
  function PackageCode(prefix: string, stamp: Stamp): (code: string) {
    prefix + "-" + stamp.date + "-" + stamp.time + stamp.suffix
  }

  /** The codes of one batch, numbered from 1. */
  function Batch(prefix: string, stamps: seq<Stamp>): (codes: seq<string>)
    ensures |codes| == |stamps|
  {
    seq(|stamps|, i requires 0 <= i < |stamps| => OrderCode(prefix, stamps[i], Some(i + 1)))
  }

  /** What stands where in a code of a single purchase. */
  lemma CodeParts(prefix: string, stamp: Stamp)
    requires stamp.Valid()
    ensures var code := OrderCode(prefix, stamp, None); var n := |prefix|;
            && |code| == n + 19 && code[..n] == prefix && code[n..n + 3] == "-C-" && code[n + 3..n + 9] == stamp.date
            && code[n + 9] == '-' && code[n + 10..n + 16] == stamp.time && code[n + 16..] == stamp.suffix
  {
    var code := OrderCode(prefix, stamp, None);
    assert code == prefix + ("-C-" + (stamp.date + ("-" + (stamp.time + stamp.suffix))));
  }

  /** A unit of a batch: the same and its number, from 1 on, in at least three digits. */
  lemma BatchParts(prefix: string, stamps: seq<Stamp>, i: nat)
    requires i < |stamps| && stamps[i].Valid()
    ensures var code := Batch(prefix, stamps)[i]; var n := |prefix| + 19;
            && |code| >= n + 3 && code[..n] == OrderCode(prefix, stamps[i], None)
            && (forall k :: n <= k < |code| ==> IsDigit(code[k])) && Value(code[n..]) == i + 1
  {
    CodeParts(prefix, stamps[i]);
    var base := OrderCode(prefix, stamps[i], None);
    ValueOfPad(i + 1, 3);
    assert Batch(prefix, stamps)[i] == base + Pad(i + 1, 3);
    assert (base + Pad(i + 1, 3))[|base|..] == Pad(i + 1, 3);
  }

  /** What stands where in the code of a package order. */
  lemma PackageCodeParts(prefix: string, stamp: Stamp)
    requires stamp.Valid()
    ensures var code := PackageCode(prefix, stamp); var n := |prefix|;
            && |code| == n + 17 && code[..n] == prefix && code[n] == '-' && code[n + 1..n + 7] == stamp.date
            && code[n + 7] == '-' && code[n + 8..n + 14] == stamp.time && code[n + 14..] == stamp.suffix
  {
    var code := PackageCode(prefix, stamp);
    assert code == prefix + ("-" + (stamp.date + ("-" + (stamp.time + stamp.suffix))));
  }

  /** The unit's number can be read back from the code. */
  lemma SequenceIsTail(prefix: string, stamp: Stamp, n: nat)
    requires stamp.Valid()
    ensures var code := OrderCode(prefix, stamp, Some(n));
            |code| >= |prefix| + 19 && code[|prefix| + 19..] == Pad(n, 3)
  {
    var base := prefix + "-C-" + stamp.date + "-" + stamp.time + stamp.suffix;
    assert |base| == |prefix| + 19;
    assert (base + Pad(n, 3))[|base|..] == Pad(n, 3);
  }

  lemma SequenceDecides(prefix: string, one: Stamp, other: Stamp, n: nat, m: nat)
    requires one.Valid() && other.Valid()
    requires OrderCode(prefix, one, Some(n)) == OrderCode(prefix, other, Some(m))
    ensures n == m
  {
    SequenceIsTail(prefix, one, n);
    SequenceIsTail(prefix, other, m);
    ValueOfPad(n, 3);
    ValueOfPad(m, 3);
  }

  /** Two units of one batch never get the same code, whatever the clock and the random suffix do. */
  lemma BatchIsDistinct(prefix: string, stamps: seq<Stamp>)
    requires forall k :: 0 <= k < |stamps| ==> stamps[k].Valid()
    ensures var codes := Batch(prefix, stamps);
            forall i, j :: 0 <= i < j < |codes| ==> codes[i] != codes[j]
  {
    var codes := Batch(prefix, stamps);
    forall i, j | 0 <= i < j < |codes|
      ensures codes[i] != codes[j]
    {
      if codes[i] == codes[j] {
        SequenceDecides(prefix, stamps[i], stamps[j], i + 1, j + 1);
      }
    }
  }
}
