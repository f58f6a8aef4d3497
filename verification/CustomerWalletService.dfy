/** The customer's prepaid wallet: top-up requests and their confirmation. */
module CustomerWalletService {
  import opened Money
  import opened Schema
  import opened Settlement
  import opened Sessions
  import opened WalletService

  /** `CreditedShort` is WalletTopupInsufficientCreditError: raised after the commit. */
  datatype Confirmation = Credited | CreditedShort | NoSuchTopup | AlreadyProcessed | Error

  /** What the confirmation computes from what it reads before its transaction. */
  function CreditCall(db: Db, topup: int, row: int): (call: Call)
    requires topup in db.topups && db.topups[topup].reseller in db.resellers
  {
    var t := db.topups[topup];
    CCredit(topup, t.reseller, t.customer, t.amount, Commission(t.amount, db.resellers[t.reseller].percent), row)
  }

  /** The call carries the top-up's own columns, and with an amount and a percent that are not negative it
      is one the theorems over runs are about. */
  lemma CreditMatches(db: Db, topup: int, row: int)
    requires topup in db.topups && db.topups[topup].reseller in db.resellers
    ensures db.topups[topup].customer in db.customers ==> Matches(db, CreditCall(db, topup, row))
    ensures db.topups[topup].amount > 0 && db.resellers[db.topups[topup].reseller].percent >= 0 ==>
              CreditCall(db, topup, row).Valid()
  {
  }

  /** A pending top-up is credited, and its commission deducted if the reseller's credit allows; any
      other top-up is refused, and a refused or failing confirmation changes nothing. */
  method ConfirmTopup(s: Session, topup: int, row: int) returns (r: Confirmation)
    requires !s.open
    modifies s
    ensures !s.open
    ensures r == NoSuchTopup <==> topup !in old(s.committed).topups
    ensures r == AlreadyProcessed <==>
              topup in old(s.committed).topups && old(s.committed).topups[topup].status != TopupPending
    ensures !r.Credited? && !r.CreditedShort? ==> s.committed == old(s.committed)
    ensures r.Credited? || r.CreditedShort? ==>
              && old(s.committed).topups[topup].reseller in old(s.committed).resellers
              && Spec(old(s.committed), CreditCall(old(s.committed), topup, row)) == Some(s.committed)
              && topup in s.committed.topups
              && s.committed.topups[topup].status == (if r.Credited? then TopupConfirmed else TopupShort)
    ensures r.Error? && old(s.committed).topups[topup].reseller in old(s.committed).resellers ==>
              Spec(old(s.committed), CreditCall(old(s.committed), topup, row)).None?
    ensures var db := old(s.committed);
            r.CreditedShort? <==>
              && topup in db.topups && db.topups[topup].status == TopupPending
              && db.topups[topup].reseller in db.resellers
              && var request := db.topups[topup];
                 var wallet := db.resellers[request.reseller];
                 CENT * wallet.balance - request.amount * wallet.percent < -(CENT * wallet.limit)
    ensures var db := old(s.committed);
            r.Credited? <==>
              && !r.CreditedShort? && topup in db.topups && db.topups[topup].status == TopupPending
              && db.topups[topup].reseller in db.resellers && row !in db.ledger
    ensures var db := old(s.committed);
            r.Credited? || r.CreditedShort? ==>
              var request := db.topups[topup];
              && s.committed == db.(customers := s.committed.customers, topups := s.committed.topups,
                                    resellers := s.committed.resellers, ledger := s.committed.ledger)
              && s.committed.topups == db.topups[topup := Topup(
                   request.reseller, request.customer, request.amount,
                   if r.Credited? then TopupConfirmed else TopupShort, true)]
              && s.committed.customers.Keys == db.customers.Keys
              && forall c :: c in db.customers ==>
                   s.committed.customers[c] == Customer(
                     db.customers[c].reseller, db.customers[c].user,
                     db.customers[c].balance + if c == request.customer then request.amount else 0)
    ensures r.CreditedShort? ==>
              s.committed.resellers == old(s.committed).resellers && s.committed.ledger == old(s.committed).ledger
    ensures var db := old(s.committed);
            r.Credited? ==>
              var request := db.topups[topup];
              var wallet := db.resellers[request.reseller];
              var commission := request.amount * wallet.percent;
              && s.committed.resellers == db.resellers[request.reseller := wallet.(
                   balance := RoundHalfAway(CENT * wallet.balance - commission))]
              && s.committed.ledger == db.ledger[row := LedgerRow(
                   request.reseller, DeductionRow, RoundHalfAway(-commission), true, ForTopup(topup))]
  {
    if topup !in s.committed.topups {
      return NoSuchTopup;
    }
    var request := s.committed.topups[topup];
    if request.status != TopupPending {
      return AlreadyProcessed;
    }
    if request.reseller !in s.committed.resellers {
      return Error;
    }
    var commission := Commission(request.amount, s.committed.resellers[request.reseller].percent);
    s.Begin();
    s.work := s.work.(customers := AddBalance(s.work.customers, request.customer, request.amount));
    var outcome := DeductCommissionInTx(s, request.reseller, commission, ForTopup(topup), row);
    if outcome.Raised? {
      s.Rollback();
      return Error;
    }
    var status := if outcome.OverLimit? then TopupShort else TopupConfirmed;
    s.work := s.work.(topups := MarkTopup(s.work.topups, topup, status));
    s.Commit();
    return if outcome.OverLimit? then CreditedShort else Credited;
  }

  method CreateTopupRequest(s: Session, reseller: int, customer: int, amount: int, topup: int) returns (ok: bool)
    requires !s.open
    modifies s
    ensures !s.open && ok == Spec(old(s.committed), CNewTopup(topup, reseller, customer, amount)).Some?
    ensures Some(s.committed) ==
            if ok then Spec(old(s.committed), CNewTopup(topup, reseller, customer, amount)) else Some(old(s.committed))
    ensures var db := old(s.committed);
            && (ok <==> topup !in db.topups && reseller in db.resellers && customer in db.customers)
            && (ok ==> s.committed == db.(
                  topups := db.topups[topup := Topup(reseller, customer, amount, TopupPending, false)]))
  {
    if topup in s.committed.topups || reseller !in s.committed.resellers || customer !in s.committed.customers {
      return false;
    }
    var request := Topup(reseller, customer, amount, TopupPending, false);
    s.Execute(s.committed.(topups := s.committed.topups[topup := request]));
    return true;
  }

  /** No status check: a confirmed top-up can be rejected afterwards, and keeps its credit. */
  method RejectTopup(s: Session, topup: int)
    requires !s.open
    modifies s
    ensures !s.open && Spec(old(s.committed), CRejectTopup(topup)) == Some(s.committed)
    ensures var db := old(s.committed);
            s.committed ==
              if topup !in db.topups then db
              else
                var t := db.topups[topup];
                db.(topups := db.topups[topup := Topup(t.reseller, t.customer, t.amount, TopupRejected, t.credited)])
  {
    if topup in s.committed.topups {
      var request := s.committed.topups[topup];
      s.Execute(s.committed.(topups := s.committed.topups[topup := request.(status := TopupRejected)]));
    }
  }
}
