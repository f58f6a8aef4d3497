/** The tables the settlement code reads and writes.  A table is a map from its key to its row; money
    is in cents.  An order is keyed by its unique `order_code`; the surrogate ids of the other tables
    are the map keys. */
module Schema {
  datatype Option<+T> = None | Some(value: T)

  datatype Reseller = Reseller(
    balance: int, limit: int, percent: int,
    testEnabled: bool, testLimit: int, testUsed: int, prefix: string)

  datatype LedgerKind = TopupRow | DeductionRow | RefundRow

  /** What a ledger row's `reference` column points at. */
  datatype Reference = NoReference | ForOrder(order: string) | ForTopup(topup: int)

  /** `confirmed` is the `status` column; a row that is not confirmed is pending. */
  datatype LedgerRow = LedgerRow(
    reseller: int, kind: LedgerKind, amount: int, confirmed: bool, reference: Reference)

  datatype Customer = Customer(reseller: int, user: int, balance: int)

  datatype Category = Category(reseller: int, parent: Option<int>)

  datatype Package = Package(reseller: int, category: int, price: int)

  /** One charge code.  `soldOrder` is filled in later than `sold` by a single purchase. */
  datatype ChargeCode = ChargeCode(
    package: int, code: string, sold: bool, buyer: Option<int>, soldOrder: Option<string>)

  datatype Status =
    | AwaitingPayment | InReview | Confirmed | Activated
    | Rejected | RefundPending | Refunded | FailedCredit

  /** `charge` is order_type = 'charge'; `activated` says that `activated_at` is set. */
  datatype Order = Order(
    reseller: int, package: int, customer: int, status: Status, charge: bool,
    price: int, commission: int, isTest: bool, fromWallet: bool,
    delivered: Option<string>, activated: bool)

  datatype TopupStatus = TopupPending | TopupConfirmed | TopupShort | TopupRejected

  /** A customer's request to charge the wallet; `credited` says that `confirmed_at` is set. */
  datatype Topup = Topup(
    reseller: int, customer: int, amount: int, status: TopupStatus, credited: bool)

  datatype Review = ReviewPending | Approved | Denied

  datatype Dispute = Dispute(order: string, reseller: int, review: Review)

  /** `automatic` tells an entry written by maybe_auto_blacklist from one typed by an administrator. */
  datatype Entry = Entry(user: int, reporter: Option<int>, isGlobal: bool, automatic: bool)

  datatype Db = Db(
    resellers: map<int, Reseller>,
    ledger: map<int, LedgerRow>,
    customers: map<int, Customer>,
    categories: map<int, Category>,
    packages: map<int, Package>,
    codes: map<int, ChargeCode>,
    nextCode: int,               // the AUTO_INCREMENT counter of charge_codes
    orders: map<string, Order>,
    topups: map<int, Topup>,
    disputes: map<int, Dispute>,
    blacklist: seq<Entry>)

  /** The first n elements, as a set. */
  function Among<T(==)>(s: seq<T>, n: nat): (some: set<T>)
    requires n <= |s|
  {
    if n == 0 then {} else Among(s, n - 1) + {s[n - 1]}
  }

  lemma {:induction false} AmongIsPrefix<T>(s: seq<T>, n: nat)
    requires n <= |s|
    ensures forall x :: x in Among(s, n) <==> x in s[..n]
    ensures forall i :: 0 <= i < n ==> s[i] in Among(s, n)
  {
    if n > 0 {
      AmongIsPrefix(s, n - 1);
      assert s[..n] == s[..n - 1] + [s[n - 1]];
    }
  }

  lemma {:induction false} Fewer<T>(some: set<T>, more: set<T>)
    requires some <= more
    ensures |some| <= |more|
    decreases some
  {
    if x :| x in some {
      Fewer(some - {x}, more - {x});
    }
  }

  lemma Rejoin<T>(early: seq<T>, all: seq<T>)
    requires early <= all
    ensures early + all[|early|..] == all
  {
  }

  function Get<K, V>(rows: map<K, V>, k: K): (row: Option<V>) {
    if k in rows then Some(rows[k]) else None
  }
}
