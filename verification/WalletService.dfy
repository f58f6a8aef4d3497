/** The reseller's commission wallet, statement by statement.  Each method is the database code of one
    call; its contract is the call's specification. */
module WalletService {
  import opened Money
  import opened Schema
  import opened Settlement
  import opened Sessions

  /** How the deduction leaves its caller: `OverLimit` is InsufficientCreditError, raised before
      anything was written; `Raised` is any other error. */
  datatype Outcome = Done | OverLimit | Raised

  /** deduct_commission_in_tx: inside a transaction that the caller opened. */
  method DeductCommissionInTx(s: Session, reseller: int, amount: int, reference: Reference, row: int)
    returns (outcome: Outcome)
    requires s.open
    modifies s`work
    ensures var d := Deduct(old(s.work).resellers, old(s.work).ledger, reseller, amount, reference, row);
            match outcome
            case Done => d.Deducted? && s.work == old(s.work).(resellers := d.wallets, ledger := d.ledger)
            case OverLimit => d.Short? && s.work == old(s.work)
            case Raised => d.Broken?
    ensures var db := old(s.work);
            outcome == OverLimit <==>
              && reseller in db.resellers
              && CENT * db.resellers[reseller].balance - amount < -(CENT * db.resellers[reseller].limit)
    ensures var db := old(s.work);
            outcome == Done <==> outcome != OverLimit && reseller in db.resellers && row !in db.ledger
    ensures outcome == OverLimit ==> s.work == old(s.work)
    ensures var db := old(s.work);
            outcome == Done ==>
              var wallet := db.resellers[reseller];
              var left := CENT * wallet.balance - amount;
              s.work == db.(
                resellers := db.resellers[reseller := wallet.(balance := RoundHalfAway(left))],
                ledger := db.ledger[row := LedgerRow(reseller, DeductionRow, RoundHalfAway(-amount), true, reference)])
  {
    if reseller !in s.work.resellers {
      return Raised;
    }
    var wallet := s.work.resellers[reseller];
    var newBalance := CENT * wallet.balance - amount;
    if newBalance < -(CENT * wallet.limit) {
      return OverLimit;
    }
    s.work := s.work.(resellers := s.work.resellers[reseller := wallet.(balance := RoundHalfAway(newBalance))]);
    if row in s.work.ledger {
      return Raised;
    }
    var entry := LedgerRow(reseller, DeductionRow, RoundHalfAway(-amount), true, reference);
    s.work := s.work.(ledger := s.work.ledger[row := entry]);
    return Done;
  }

  method RefundCommission(s: Session, reseller: int, amount: int, order: string, row: int) returns (ok: bool)
    requires !s.open
    modifies s
    ensures !s.open && ok == Spec(old(s.committed), CRefund(reseller, amount, order, row)).Some?
    ensures Some(s.committed) ==
            if ok then Spec(old(s.committed), CRefund(reseller, amount, order, row)) else Some(old(s.committed))
    ensures var db := old(s.committed);
            && (ok <==> reseller in db.resellers && row !in db.ledger)
            && (ok ==>
                  var wallet := db.resellers[reseller];
                  s.committed == db.(
                    resellers := db.resellers[reseller := wallet.(balance := wallet.balance + amount)],
                    ledger := db.ledger[row := LedgerRow(reseller, RefundRow, amount, true, ForOrder(order))]))
  {
    s.Begin();
    if reseller !in s.work.resellers {
      s.Rollback();
      return false;
    }
    var wallet := s.work.resellers[reseller];
    s.work := s.work.(resellers := s.work.resellers[reseller := wallet.(balance := wallet.balance + amount)]);
    if row in s.work.ledger {
      s.Rollback();
      return false;
    }
    s.work := s.work.(ledger := s.work.ledger[row := LedgerRow(reseller, RefundRow, amount, true, ForOrder(order))]);
    s.Commit();
    return true;
  }

  method RequestTopup(s: Session, reseller: int, amount: int, row: int) returns (ok: bool)
    requires !s.open
    modifies s
    ensures !s.open && ok == Spec(old(s.committed), CRequest(row, reseller, amount)).Some?
    ensures Some(s.committed) ==
            if ok then Spec(old(s.committed), CRequest(row, reseller, amount)) else Some(old(s.committed))
    ensures var db := old(s.committed);
            && (ok <==> reseller in db.resellers && row !in db.ledger)
            && (ok ==> s.committed == db.(
                  ledger := db.ledger[row := LedgerRow(reseller, TopupRow, amount, false, NoReference)]))
  {
    s.Begin();
    if row in s.work.ledger || reseller !in s.work.resellers {
      s.Rollback();
      return false;
    }
    s.work := s.work.(ledger := s.work.ledger[row := LedgerRow(reseller, TopupRow, amount, false, NoReference)]);
    s.Commit();
    return true;
  }

  /** The pending check is made on the locked row, inside the transaction. */
  method ConfirmTopup(s: Session, row: int) returns (ok: bool)
    requires !s.open
    modifies s
    ensures !s.open && ok == Spec(old(s.committed), CConfirm(row)).Some?
    ensures Some(s.committed) == if ok then Spec(old(s.committed), CConfirm(row)) else Some(old(s.committed))
    ensures var db := old(s.committed);
            && (ok <==> row in db.ledger && !db.ledger[row].confirmed && db.ledger[row].reseller in db.resellers)
            && (ok ==>
                  var entry := db.ledger[row];
                  var wallet := db.resellers[entry.reseller];
                  s.committed == db.(
                    resellers := db.resellers[entry.reseller := wallet.(balance := wallet.balance + entry.amount)],
                    ledger := db.ledger[row := entry.(confirmed := true)]))
  {
    s.Begin();
    if row !in s.work.ledger || s.work.ledger[row].confirmed {
      s.Rollback();
      return false;
    }
    var entry := s.work.ledger[row];
    s.work := s.work.(ledger := s.work.ledger[row := entry.(confirmed := true)]);
    if entry.reseller !in s.work.resellers {
      s.Rollback();
      return false;
    }
    var wallet := s.work.resellers[entry.reseller];
    var paid := wallet.(balance := wallet.balance + entry.amount);
    s.work := s.work.(resellers := s.work.resellers[entry.reseller := paid]);
    s.Commit();
    return true;
  }
}
