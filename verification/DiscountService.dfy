/** Discount codes in the database: validation, and the handler that applies one to an unpaid order. */
module DiscountService {
  import opened Schema
  import opened Settlement
  import opened Sessions
  import opened Text
  import opened Discounts

  /** One row; the table's key is the unique pair of reseller and code.  A limit of 0 is none. */
  datatype Discount = Discount(percent: int, limit: int, used: int, expires: Option<int>, active: bool)
  {
    predicate Expired(now: int) {
      expires.Some? && expires.value < now
    }

    predicate UsedUp() {
      limit != 0 && used >= limit
    }
  }

  type Key = (int, string)

  datatype Verdict = Accepted(key: Key, discount: Discount) | Unknown | OutOfDate | Exhausted

  /** Whether a code may be used now: an unknown or inactive code is refused first, then an expired one,
      then a used-up one. */
  function Judge(rows: map<Key, Discount>, key: Key, now: int): (v: Verdict) {
    if key !in rows || !rows[key].active then Unknown
    else if rows[key].Expired(now) then OutOfDate
    else if rows[key].UsedUp() then Exhausted
    else Accepted(key, rows[key])
  }

  /** One use more of a code. */
  function Counted(rows: map<Key, Discount>, key: Key): (after: map<Key, Discount>) {
    if key in rows then rows[key := rows[key].(used := rows[key].used + 1)] else rows
  }

  function UpperChar(c: char): (u: char) {
    if 'a' <= c <= 'z' then c - 'a' + 'A' else c
  }

  /** code.strip().upper(), for Latin letters. */
  function Normalized(text: string): (code: string) {
    var s := Strip(text);
    seq(|s|, i requires 0 <= i < |s| => UpperChar(s[i]))
  }

  /** Blanks around the code go, small letters become capitals, nothing else changes, and doing it again changes
      nothing. */
  lemma NormalizedIsUpper(text: string)
    ensures var code, s := Normalized(text), Strip(text);
            && |code| == |s| && Normalized(code) == code
            && forall i :: 0 <= i < |s| ==>
                 code[i] == if 'a' <= s[i] <= 'z' then (s[i] as int - 32) as char else s[i]
  {
    StripStrips(text);
    var code := Normalized(text);
    assert Stripped(code);
    StripStrips(code);
  }

  class Codes {
    var rows: map<Key, Discount>

    constructor (table: map<Key, Discount>)
      ensures rows == table
    {
      rows := table;
    }

    method Validate(reseller: int, text: string, now: int) returns (v: Verdict)
      ensures v == Judge(rows, (reseller, Normalized(text)), now)
      ensures var key := (reseller, Normalized(text));
              v == Unknown <==> key !in rows || !rows[key].active
      ensures var key := (reseller, Normalized(text));
              v == OutOfDate <==>
                && key in rows && rows[key].active && rows[key].expires.Some? && rows[key].expires.value < now
      ensures var key := (reseller, Normalized(text));
              v == Exhausted <==>
                && key in rows && rows[key].active && (rows[key].expires.None? || now <= rows[key].expires.value)
                && rows[key].limit != 0 && rows[key].limit <= rows[key].used
      ensures var key := (reseller, Normalized(text));
              v.Accepted? ==>
                && v.key == key && key in rows && v.discount == rows[key] && rows[key].active
                && (rows[key].expires.Some? ==> now <= rows[key].expires.value)
                && (rows[key].limit == 0 || rows[key].used < rows[key].limit)
    {
      var key := (reseller, Normalized(text));
      if key !in rows || !rows[key].active {
        return Unknown;
      }
      var row := rows[key];
      if row.expires.Some? && row.expires.value < now {
        return OutOfDate;
      }
      if row.limit != 0 && row.used >= row.limit {
        return Exhausted;
      }
      return Accepted(key, row);
    }

    method IncrementUsage(key: Key)
      modifies this
      ensures rows == Counted(old(rows), key)
    {
      if key in rows {
        rows := rows[key := rows[key].(used := rows[key].used + 1)];
      }
    }
  }

  datatype Application = Applied(tomans: int) | Refused(verdict: Verdict) | NoOrder

  /** The order's price is overwritten, then the use is counted; a refused code changes nothing.  A code
      can be applied to the price the last one left. */
  method ApplyDiscountCode(s: Session, codes: Codes, reseller: int, text: string, order: string, now: int)
    returns (r: Application)
    requires !s.open
    modifies s, codes
    ensures !s.open
    ensures !r.Applied? ==> s.committed == old(s.committed) && codes.rows == old(codes.rows)
    ensures r.Applied? <==>
              var key := (reseller, Normalized(text));
              && order in old(s.committed).orders && key in old(codes.rows) && old(codes.rows)[key].active
              && var d := old(codes.rows)[key];
                 && (d.expires.Some? ==> now <= d.expires.value)
                 && (d.limit == 0 || d.used < d.limit)
    ensures r.Applied? ==>
              var key := (reseller, Normalized(text));
              var d := old(codes.rows)[key];
              && r.tomans == ApplyDiscount(old(s.committed).orders[order].price, d.percent)
              && Spec(old(s.committed), CSetPrice(order, TOMAN * r.tomans)) == Some(s.committed)
              && s.committed == old(s.committed).(
                   orders := old(s.committed).orders[
                     order := old(s.committed).orders[order].(price := 100 * r.tomans)])
              && (var off := 1000000 * r.tomans - old(s.committed).orders[order].price * (10000 - d.percent);
                  -1000000 <= 2 * off <= 1000000)
              && codes.rows == old(codes.rows)[key := d.(used := d.used + 1)]
  {
    var v := codes.Validate(reseller, text, now);
    if !v.Accepted? {
      return Refused(v);
    }
    if order !in s.committed.orders {
      return NoOrder;
    }
    var row := s.committed.orders[order];
    var tomans := ApplyDiscount(row.price, v.discount.percent);
    HalfEvenIsNearest(row.price * (FULL - v.discount.percent), TOMAN * FULL);
    s.Execute(s.committed.(orders := s.committed.orders[order := row.(price := TOMAN * tomans)]));
    codes.IncrementUsage(v.key);
    return Applied(tomans);
  }
}
