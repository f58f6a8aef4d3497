/** Disputes and the blacklist, statement by statement: every statement commits on its own, only the
    refund is a transaction. */
module DisputeService {
  import opened Schema
  import opened Settlement
  import opened Sessions
  import opened WalletService
  import opened Blacklist
  import opened Disputes

  method CreateDispute(s: Session, order: string, reseller: int, id: int) returns (ok: bool)
    requires !s.open
    modifies s
    ensures !s.open && s.committed == Open(old(s.committed), id, order, reseller)
    ensures var db := old(s.committed);
            && (ok <==> id !in db.disputes && order in db.orders && reseller in db.resellers)
            && s.committed == db.(
                 orders := if order !in db.orders then db.orders
                           else db.orders[order := db.orders[order].(status := RefundPending)],
                 disputes := if ok then db.disputes[id := Dispute(order, reseller, ReviewPending)] else db.disputes)
  {
    if order in s.committed.orders {
      var row := s.committed.orders[order];
      s.Execute(s.committed.(orders := s.committed.orders[order := row.(status := RefundPending)]));
    }
    if id in s.committed.disputes || order !in s.committed.orders || reseller !in s.committed.resellers {
      return false;
    }
    s.Execute(s.committed.(disputes := s.committed.disputes[id := Dispute(order, reseller, ReviewPending)]));
    return true;
  }

  /** Only a failing refund, a missing dispute or a missing order keeps an approval from completing, and
      then nothing has been written. */
  method ApproveDispute(s: Session, id: int, row: int) returns (ok: bool)
    requires !s.open
    modifies s
    ensures !s.open && ok == Approve(old(s.committed), id, row).Some?
    ensures Some(s.committed) == if ok then Approve(old(s.committed), id, row) else Some(old(s.committed))
    ensures var db := old(s.committed);
            ok <==> && id in db.disputes && db.disputes[id].order in db.orders
                    && db.disputes[id].reseller in db.resellers && row !in db.ledger
    ensures var db := old(s.committed);
            ok ==>
              var dispute := db.disputes[id];
              var order, wallet := db.orders[dispute.order], db.resellers[dispute.reseller];
              s.committed == db.(
                resellers := db.resellers[dispute.reseller := wallet.(balance := wallet.balance + order.commission)],
                ledger := db.ledger[row := LedgerRow(
                  dispute.reseller, RefundRow, order.commission, true, ForOrder(dispute.order))],
                disputes := db.disputes[id := Dispute(dispute.order, dispute.reseller, Approved)],
                orders := db.orders[dispute.order := order.(status := Refunded)],
                blacklist := s.committed.blacklist)
    ensures var db := old(s.committed);
            ok ==>
              var customer := db.orders[db.disputes[id].order].customer;
              if customer !in db.customers then s.committed.blacklist == db.blacklist
              else
                var user := db.customers[customer].user;
                var d := s.committed;
                var fakes := set i | i in d.disputes && d.disputes[i].review == Approved
                                     && d.disputes[i].order in d.orders
                                     && d.orders[d.disputes[i].order].customer in d.customers
                                     && d.customers[d.orders[d.disputes[i].order].customer].user == user;
                var listed := exists i :: 0 <= i < |db.blacklist|
                                            && db.blacklist[i].user == user && db.blacklist[i].isGlobal;
                s.committed.blacklist ==
                  if |fakes| >= 3 && !listed then db.blacklist + [Entry(user, None, true, true)] else db.blacklist
  {
    if id !in s.committed.disputes {
      return false;
    }
    var dispute := s.committed.disputes[id];
    if dispute.order !in s.committed.orders {
      return false;
    }
    var order := s.committed.orders[dispute.order];
    var refunded := RefundCommission(s, dispute.reseller, order.commission, dispute.order, row);
    if !refunded {
      return false;
    }
    s.Execute(s.committed.(disputes := s.committed.disputes[id := dispute.(review := Approved)]));
    s.Execute(s.committed.(orders := s.committed.orders[dispute.order := order.(status := Refunded)]));
    if order.customer in s.committed.customers {
      var user := s.committed.customers[order.customer].user;
      ghost var marked := s.committed;
      var listed := MaybeAutoBlacklist(s, user);
      FakesAreRows(marked, user);
      FakesAreRows(s.committed, user);
      SameRecord(marked, s.committed, user);
    }
    return true;
  }

  method RejectDispute(s: Session, id: int)
    requires !s.open
    modifies s
    ensures !s.open && s.committed == old(s.committed).(disputes := Reviewed(old(s.committed).disputes, id, Denied))
    ensures var db := old(s.committed);
            s.committed ==
              if id !in db.disputes then db
              else db.(disputes := db.disputes[id := Dispute(db.disputes[id].order, db.disputes[id].reseller, Denied)])
  {
    if id in s.committed.disputes {
      s.Execute(s.committed.(disputes := s.committed.disputes[id := s.committed.disputes[id].(review := Denied)]));
    }
  }

  method AddToBlacklist(s: Session, entry: Entry)
    requires !s.open
    modifies s
    ensures !s.open && s.committed == old(s.committed).(blacklist := old(s.committed).blacklist + [entry])
  {
    s.Execute(s.committed.(blacklist := s.committed.blacklist + [entry]));
  }

  /** maybe_auto_blacklist: true says that the user was listed just now. */
  method MaybeAutoBlacklist(s: Session, user: int) returns (listed: bool)
    requires !s.open
    modifies s
    ensures !s.open && s.committed == AutoBlacklist(old(s.committed), user)
    ensures var db := old(s.committed);
            listed <==>
              && |set i | i in db.disputes && db.disputes[i].review == Approved && db.disputes[i].order in db.orders
                          && db.orders[db.disputes[i].order].customer in db.customers
                          && db.customers[db.orders[db.disputes[i].order].customer].user == user| >= 3
              && forall i :: 0 <= i < |db.blacklist| ==> db.blacklist[i].user != user || !db.blacklist[i].isGlobal
    ensures s.committed == old(s.committed).(
              blacklist := if listed then old(s.committed).blacklist + [Entry(user, None, true, true)]
                           else old(s.committed).blacklist)
  {
    FakesAreRows(s.committed, user);
    var count := |FakeReceipts(s.committed, user)|;
    if count >= AUTO_BLACKLIST_THRESHOLD && !IsBlacklisted(s.committed, user, None) {
      AddToBlacklist(s, Entry(user, None, true, true));
      return true;
    }
    return false;
  }
}
