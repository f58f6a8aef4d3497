/** The charge-code shelf: which rows `ORDER BY id ASC LIMIT q` picks, and what stays put when they
    are sold. */
module Stock {
  import opened Schema

  type Shelf = map<int, ChargeCode>

  predicate Open(codes: Shelf, package: int, id: int) {
    id in codes && !codes[id].sold && codes[id].package == package
  }

  /** The available codes of some packages. */
  function AvailableCodes(codes: Shelf, packages: set<int>): (ids: set<int>) {
    set id | id in codes && !codes[id].sold && codes[id].package in packages
  }

  /** The first `q` available ids of a package among lo..hi, ascending: an index scan. */
  function Lowest(codes: Shelf, package: int, q: nat, lo: int, hi: int): (ids: seq<int>)
    ensures |ids| <= q
    decreases hi - lo
  {
    if q == 0 || lo >= hi then []
    else if Open(codes, package, lo) then [lo] + Lowest(codes, package, q - 1, lo + 1, hi)
    else Lowest(codes, package, q, lo + 1, hi)
  }

  /** What the scan means: ascending available ids, and nothing available was skipped. */
  ghost predicate IsLowest(codes: Shelf, package: int, q: nat, lo: int, hi: int, ids: seq<int>) {
    && |ids| <= q
    && (ids != [] ==> lo < hi)
    && (forall i :: 0 <= i < |ids| ==> lo <= ids[i] < hi && Open(codes, package, ids[i]))
    && (forall i, j :: 0 <= i < j < |ids| ==> ids[i] < ids[j])
    && (forall id :: lo <= id < hi && Open(codes, package, id) ==>
          id in ids || (|ids| == q && forall i :: 0 <= i < |ids| ==> ids[i] < id))
  }

  lemma {:induction false} LowestIsLowest(codes: Shelf, package: int, q: nat, lo: int, hi: int)
    ensures IsLowest(codes, package, q, lo, hi, Lowest(codes, package, q, lo, hi))
    decreases hi - lo
  {
    if q > 0 && lo < hi {
      if Open(codes, package, lo) {
        LowestIsLowest(codes, package, q - 1, lo + 1, hi);
        FirstAndLowest(codes, package, q, lo, hi, Lowest(codes, package, q - 1, lo + 1, hi));
      } else {
        LowestIsLowest(codes, package, q, lo + 1, hi);
      }
    }
  }

  lemma FirstAndLowest(codes: Shelf, package: int, q: nat, lo: int, hi: int, rest: seq<int>)
    requires q > 0 && lo < hi && Open(codes, package, lo)
    requires IsLowest(codes, package, q - 1, lo + 1, hi, rest)
    ensures IsLowest(codes, package, q, lo, hi, [lo] + rest)
  {
    var ids := [lo] + rest;
    assert forall i :: 0 < i < |ids| ==> ids[i] == rest[i - 1];
    forall id | lo <= id < hi && Open(codes, package, id) && id !in ids
      ensures |ids| == q && forall i :: 0 <= i < |ids| ==> ids[i] < id
    {
      assert id != lo && id !in rest;
    }
  }

  /** Nothing else is: the description fixes the ids. */
  lemma {:induction false} LowestUnique(codes: Shelf, package: int, q: nat, lo: int, hi: int, ids: seq<int>)
    requires IsLowest(codes, package, q, lo, hi, ids)
    ensures ids == Lowest(codes, package, q, lo, hi)
    decreases hi - lo
  {
    if q == 0 || lo >= hi {
      assert ids == [];
    } else if Open(codes, package, lo) {
      assert ids != [] && ids[0] == lo;
      TailIsLowest(codes, package, q, lo, hi, ids);
      LowestUnique(codes, package, q - 1, lo + 1, hi, ids[1..]);
    } else {
      assert lo !in ids && (ids != [] ==> lo < ids[0]);
      LowestUnique(codes, package, q, lo + 1, hi, ids);
    }
  }

  lemma TailIsLowest(codes: Shelf, package: int, q: nat, lo: int, hi: int, ids: seq<int>)
    requires q > 0 && ids != [] && ids[0] == lo
    requires IsLowest(codes, package, q, lo, hi, ids)
    ensures IsLowest(codes, package, q - 1, lo + 1, hi, ids[1..])
  {
    var rest := ids[1..];
    assert rest != [] ==> rest[0] == ids[1];
    forall id | lo + 1 <= id < hi && Open(codes, package, id) && id !in rest
      ensures |rest| == q - 1 && forall i :: 0 <= i < |rest| ==> rest[i] < id
    {
      assert ids == [lo] + rest;
    }
  }

  /** The scan finds as many ids as there are available codes, up to the limit. */
  lemma {:induction false} LowestCount(codes: Shelf, package: int, q: nat, lo: int, hi: int)
    ensures var stock := set id | id in codes && lo <= id < hi && !codes[id].sold && codes[id].package == package;
            |Lowest(codes, package, q, lo, hi)| == if |stock| < q then |stock| else q
    decreases hi - lo
  {
    if q > 0 && lo < hi {
      var stock := set id | id in codes && lo <= id < hi && !codes[id].sold && codes[id].package == package;
      var rest := set id | id in codes && lo + 1 <= id < hi && !codes[id].sold && codes[id].package == package;
      if Open(codes, package, lo) {
        LowestCount(codes, package, q - 1, lo + 1, hi);
        assert rest == stock - {lo};
      } else {
        LowestCount(codes, package, q, lo + 1, hi);
        assert rest == stock;
      }
    }
  }

  /** With a limit of one: nothing if and only if nothing is available, and otherwise the lowest id. */
  lemma LowestOne(codes: Shelf, package: int, hi: int)
    ensures var ids := Lowest(codes, package, 1, 0, hi);
            && (ids == [] <==> forall c :: c in codes && 0 <= c < hi ==> codes[c].sold || codes[c].package != package)
            && (ids != [] ==>
                  && |ids| == 1 && ids[0] in codes && 0 <= ids[0] < hi
                  && !codes[ids[0]].sold && codes[ids[0]].package == package
                  && forall c :: c in codes && 0 <= c < ids[0] ==> codes[c].sold || codes[c].package != package)
  {
    LowestIsLowest(codes, package, 1, 0, hi);
    var ids := Lowest(codes, package, 1, 0, hi);
    forall c | c in codes && 0 <= c < hi && !codes[c].sold && codes[c].package == package
      ensures ids != [] && ids[0] <= c
    {
      assert Open(codes, package, c);
    }
  }

  /** A sold code keeps its string and its package for ever. */
  function SoldRow(row: ChargeCode, buyer: int, order: Option<string>): (sold: ChargeCode) {
    row.(sold := true, buyer := Some(buyer), soldOrder := order)
  }

  /** What the shelf offers once the rows `ids` are sold. */
  ghost predicate SoldFrom(codes: Shelf, after: Shelf, package: int, ids: seq<int>) {
    forall id :: Open(after, package, id) <==> Open(codes, package, id) && id !in ids
  }

  /** If more than `n` rows can be picked, one is left after the first `n` are sold. */
  lemma ShelfNotBare(codes: Shelf, after: Shelf, package: int, n: nat, hi: int)
    requires |Lowest(codes, package, n + 1, 0, hi)| == n + 1
    requires SoldFrom(codes, after, package, Lowest(codes, package, n, 0, hi))
    ensures |Lowest(after, package, 1, 0, hi)| == 1
  {
    var all := Lowest(codes, package, n + 1, 0, hi);
    LowestIsLowest(codes, package, n + 1, 0, hi);
    LowestIsLowest(after, package, 1, 0, hi);
    LowestPrefix(codes, package, n, n + 1, 0, hi);
    assert all[n] !in all[..n];
    assert Open(after, package, all[n]);
  }

  /** After the first `n` of the picked rows are sold, one more pick takes the next of them. */
  lemma NextOnShelf(codes: Shelf, after: Shelf, package: int, n: nat, hi: int)
    requires |Lowest(codes, package, n, 0, hi)| == n
    requires SoldFrom(codes, after, package, Lowest(codes, package, n, 0, hi))
    requires |Lowest(after, package, 1, 0, hi)| == 1
    ensures Lowest(codes, package, n + 1, 0, hi)
            == Lowest(codes, package, n, 0, hi) + Lowest(after, package, 1, 0, hi)
  {
    var ids := Lowest(codes, package, n, 0, hi);
    var next := Lowest(after, package, 1, 0, hi)[0];
    LowestIsLowest(codes, package, n, 0, hi);
    LowestIsLowest(after, package, 1, 0, hi);
    assert Open(after, package, next);
    forall id | 0 <= id < hi && Open(codes, package, id) && id !in ids
      ensures id == next || next < id
    {
      assert Open(after, package, id);
    }
    assert next !in ids;
    assert forall i :: 0 <= i < n ==> ids[i] < next;
    LowestUnique(codes, package, n + 1, 0, hi, ids + [next]);
  }

  /** A longer pick starts with the shorter one. */
  lemma LowestPrefix(codes: Shelf, package: int, n: nat, q: nat, lo: int, hi: int)
    requires n <= q
    ensures n <= |Lowest(codes, package, q, lo, hi)|
            ==> Lowest(codes, package, n, lo, hi) == Lowest(codes, package, q, lo, hi)[..n]
    ensures n > |Lowest(codes, package, q, lo, hi)|
            ==> Lowest(codes, package, n, lo, hi) == Lowest(codes, package, q, lo, hi)
    decreases hi - lo
  {
    if n > 0 && lo < hi {
      if Open(codes, package, lo) {
        LowestPrefix(codes, package, n - 1, q - 1, lo + 1, hi);
      } else {
        LowestPrefix(codes, package, n, q, lo + 1, hi);
      }
    }
  }

  /** A pick survives what other transactions commit, as long as they leave the picked rows alone,
      put nothing back on the shelf, and give new rows higher ids. */
  lemma {:induction false} LowestFrame(codes: Shelf, after: Shelf, package: int, q: nat, lo: int, hi: int, hi': int)
    requires hi <= hi'
    requires |Lowest(codes, package, q, lo, hi)| == q
    requires forall id :: id in Lowest(codes, package, q, lo, hi) ==> Get(after, id) == Get(codes, id)
    requires forall id :: id < hi && Open(after, package, id) ==> Open(codes, package, id)
    ensures Lowest(after, package, q, lo, hi') == Lowest(codes, package, q, lo, hi)
    decreases hi - lo
  {
    if q > 0 && lo < hi {
      if Open(codes, package, lo) {
        assert lo in Lowest(codes, package, q, lo, hi);
        LowestFrame(codes, after, package, q - 1, lo + 1, hi, hi');
      } else {
        LowestFrame(codes, after, package, q, lo + 1, hi, hi');
      }
    }
  }
}
