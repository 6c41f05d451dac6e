/** What the calls on one number leave behind, in terms of the rows a reader of the tables sees. */
module Lifecycle {
  import opened Domain
  import opened Tables
  import opened Steps
  import opened Invariant
  import opened Callbacks
  import A = Agreement

  /** A created bill is the row that answers for its number, open, with what the merchant asked for; every other
      row is as before. */
  lemma CreatedBillAnswers(db: Db, c: CreateReq)
    requires Inv(db) && CreateVA(db, c).code == Created && !CreatesNoBill(c)
    ensures var va, after := Number(c).vaNo, CreateVA(db, c).db;
            var b := Best(after.txns, va);
            && !AnyPending(db.txns, va) && b.Some? && |after.txns| <= |db.txns| + 1
            && var row := after.txns[b.value];
            && row.status == Pending && row.key == Placeholder(va) && row.total == c.total.GetOr(0)
            && row.url == Clip(c.url, 512) && row.expires == c.expires && row.trxId == Clip(c.trxId, 64)
            && (if c.vaType != "" then row.vaType == Clip(c.vaType, 2)
                else row.vaType == if b.value < |db.txns| then db.txns[b.value].vaType else "")
            && forall i :: 0 <= i < |db.txns| && i != b.value ==> after.txns[i] == db.txns[i]
  {
    var va, after := Number(c).vaNo, CreateVA(db, c).db;
    var i := SavedRow(db.txns, BillRow(NewBill(c, va)));
    if AnyPending(db.txns, va) {
      var j :| 0 <= j < |db.txns| && Pends(db.txns[j], va);
      BestIsThePendingRow(db.txns, va, j);
    }
    CreateKeepsInv(db, c);
    CreatedBillSaved(db, c);
    hide CreateVA, SaveInquiry, Inv;
    BestIsThePendingRow(after.txns, va, i);
  }

  lemma CreatedBillSaved(db: Db, c: CreateReq)
    requires CreateVA(db, c).code == Created && !CreatesNoBill(c)
    ensures Number(c).Numbered?
    ensures var va := Number(c).vaNo; var b := Best(db.txns, va);
            && CreateVA(db, c).db.txns == SaveInquiry(db.txns, BillRow(NewBill(c, va)))
            && (b.Some? ==> db.txns[b.value].status != Pending) && c.trxId != ""
  {
    hide SaveInquiry, BillRow, SaveVAAccount, AccountFits, BillFits;
  }

  /** SaveInquiry touches one row: a new one, or the row of the bill's key, which keeps its number, its key and what
      was paid on it. Keys stay unique. */
  lemma SavedRow(txns: seq<Txn>, bill: Txn) returns (i: nat)
    requires KeysUnique(txns)
    ensures var after := SaveInquiry(txns, bill);
            && KeysUnique(after) && i < |after| <= |txns| + 1 && |txns| <= |after| && after[i].key == bill.key
            && after[i].status == bill.status && after[i].total == bill.total && after[i].url == bill.url
            && after[i].expires == bill.expires
            && (if i < |txns| then after[i].va == txns[i].va && after[i].paid == txns[i].paid
                                   && after[i].paymentId == txns[i].paymentId && txns[i].key == bill.key
                                   && after[i].trxId == (if bill.trxId != "" then bill.trxId else txns[i].trxId)
                                   && after[i].vaType == (if bill.vaType != "" then bill.vaType else txns[i].vaType)
                else after[i] == bill)
            && forall j :: 0 <= j < |txns| && j != i ==> after[j] == txns[j]
  {
    i := FindKey(txns, bill.key).GetOr(|txns|);
  }

  predicate KeysUnique(txns: seq<Txn>) {
    forall i, j :: 0 <= i < j < |txns| ==> txns[i].key != txns[j].key
  }

  /** Claiming changes at most the row's key, and that exactly when the row still holds a placeholder other than
      the id itself. */
  lemma ClaimReplacesPlaceholderOnly(txns: seq<Txn>, i: nat, id: string)
    requires i < |txns|
    ensures var after := ClaimInquiryRequestID(txns, i, id);
            && |after| == |txns| && after[i] == txns[i].(key := after[i].key)
            && (after[i].key != txns[i].key <==> txns[i].IsPlaceholder() && txns[i].key != Vendor(id))
            && (after[i].key != txns[i].key ==> after[i].key == Vendor(id))
            && forall j :: 0 <= j < |txns| && j != i ==> after[j] == txns[j]
  {
  }

  /** A refused CreateVA opens nothing: it leaves every table but the registrations alone. */
  lemma RefusedCreateOpensNothing(db: Db, c: CreateReq)
    requires CreateVA(db, c).code != Created
    ensures var out := CreateVA(db, c);
            && out.db == db.(accounts := out.db.accounts)
            && (out.code in {CreateInvalid, CreateDuplicate} ==> out.db == db)
            && (out.code == CreatePending ==> AnyPending(db.txns, Number(c).vaNo))
  {
    if CreateVA(db, c).code == CreatePending {
      var b := Best(db.txns, Number(c).vaNo).value;
      assert Pends(db.txns[b], Number(c).vaNo);
    }
  }

  /** Whether SaveVAAccount would change the registrations: a new number on a free customer number, or a registered
      one that is not active already with the same trxId, URL and expiry. */
  predicate ChangesRegistration(accounts: map<string, Account>, va: string, a: Account) {
    if va in accounts then
      accounts[va].trxId != a.trxId || accounts[va].url != a.url || accounts[va].expires != a.expires
      || accounts[va].status != a.status
    else !CustomerRegistered(accounts, a.partner, a.customerNo)
  }

  /** A managed bill on a number that has an open one, or with a total the column cannot hold, past the checks that
      come before the registration is written, and with something to write into it. */
  ghost predicate RenewsThenRefuses(db: Db, c: CreateReq) {
    && CreateFieldsValid(c) && c.Managed() && !CreatesNoBill(c)
    && Number(c).Numbered?
    && var customerNo, va := Number(c).customerNo, Number(c).vaNo;
    && (IsDynamic(c) || !CustomerRegistered(db.accounts, c.partner, customerNo))
    && AccountFits(NewAccount(c, customerNo))
    && ChangesRegistration(db.accounts, va, AccountRow(NewAccount(c, customerNo)))
    && (AnyPending(db.txns, va) || !BillFits(c.partner, customerNo, NewBill(c, va)))
  }

  /** "A refused CreateVA changes nothing" fails exactly then: the registration is written before the refusal. */
  lemma RefusedCreateWritesExactlyWhen(db: Db, c: CreateReq)
    requires Inv(db)
    ensures CreateVA(db, c).code != Created && CreateVA(db, c).db != db <==> RenewsThenRefuses(db, c)
  {
    if CreateFieldsValid(c) && Number(c).Numbered? && c.Managed() && !CreatesNoBill(c) {
      var customerNo, va := Number(c).customerNo, Number(c).vaNo;
      PendingAnswers(db.txns, va);
      if AccountFits(NewAccount(c, customerNo)) {
        StoredAccountChanges(db.accounts, va, NewAccount(c, customerNo));
      }
      hide Best, Inv, ChangesRegistration, SaveVAAccount, AccountRow;
    }
  }

  lemma PendingAnswers(txns: seq<Txn>, va: string)
    requires TxnsInv(txns)
    ensures var b := Best(txns, va); AnyPending(txns, va) <==> b.Some? && txns[b.value].status == Pending
  {
    var b := Best(txns, va);
    if AnyPending(txns, va) {
      var i :| 0 <= i < |txns| && Pends(txns[i], va);
      BestIsThePendingRow(txns, va, i);
    } else if b.Some? {
      assert !Pends(txns[b.value], va);
    }
  }

  lemma StoredAccountChanges(accounts: map<string, Account>, va: string, a: Account)
    requires AccountFits(a)
    ensures var after := StoreAccount(accounts, va, a);
            after.Some? && after.value != accounts <==> ChangesRegistration(accounts, va, AccountRow(a))
  {
    var row := AccountRow(a);
    var after := SaveVAAccount(accounts, va, row);
    if after.Some? {
      assert va in after.value;
      if va in accounts && !ChangesRegistration(accounts, va, row) {
        assert after.value == accounts;
      } else if va in accounts {
        assert after.value[va] != accounts[va];
      } else {
        assert va !in accounts;
      }
    }
  }

  /** What CreateVA needs to write a bill: valid fields, a number, room in the columns, a free customer number, and
      no open bill on the number. */
  ghost predicate BillCanBeCreated(db: Db, c: CreateReq) {
    && CreateFieldsValid(c) && !CreatesNoBill(c) && Number(c).Numbered?
    && var customerNo, va := Number(c).customerNo, Number(c).vaNo;
    && (c.Managed() ==>
          && (IsDynamic(c) || !CustomerRegistered(db.accounts, c.partner, customerNo))
          && AccountFits(NewAccount(c, customerNo))
          && (va in db.accounts
              || !CustomerRegistered(db.accounts, AccountRow(NewAccount(c, customerNo)).partner,
                                     AccountRow(NewAccount(c, customerNo)).customerNo)))
    && !AnyPending(db.txns, va) && BillFits(c.partner, customerNo, NewBill(c, va))
  }

  lemma BillCreatedExactlyWhen(db: Db, c: CreateReq)
    requires Inv(db)
    ensures CreateVA(db, c).code == Created && !CreatesNoBill(c) <==> BillCanBeCreated(db, c)
  {
    if CreateFieldsValid(c) && Number(c).Numbered? && !CreatesNoBill(c) {
      PendingAnswers(db.txns, Number(c).vaNo);
      hide Best, Inv, AccountFits, AccountRow, BillFits;
    }
  }

  /** A first payment accepted on a bill that takes no instalments tenders exactly its total and settles that row
      alone: only its status, paid amount and payment id change. */
  lemma AcceptedSettlementPaysInFull(db: Db, p: PaymentReq, now: int)
    requires Inv(db) && !IsNoBillVA(db, p.va) && Best(db.txns, p.va).Some? && !Repeats(db, p)
    requires PaymentBilling(db, db.txns[Best(db.txns, p.va).value]) != Variable
    requires Payment(db, p, now).resp.code == PaymentSuccess
    ensures var b := Best(db.txns, p.va).value; var row := db.txns[b];
            && row.IsPayable() && !row.IsExpired(now) && p.paid == row.total
            && Payment(db, p, now).db.txns
               == db.txns[b := row.(status := Settled, paid := Some(row.total), paymentId := p.paymentId)]
  {
    var b := Best(db.txns, p.va).value;
    FirstPaymentReaches(db, p, now, b);
    SettledInFull(db, p, now, b);
    hide Payment, PayBilled, Inv;
  }

  /** A payment that repeats nothing goes to the answering bill. */
  lemma FirstPaymentReaches(db: Db, p: PaymentReq, now: int, b: nat)
    requires !IsNoBillVA(db, p.va) && Best(db.txns, p.va) == Some(b) && !Repeats(db, p)
    requires Payment(db, p, now).resp.code == PaymentSuccess
    ensures PayBilled(db, p, b, now).resp.code == PaymentSuccess
    ensures Payment(db, p, now).db == PayBilled(db, p, b, now).db.(flags := Payment(db, p, now).db.flags)
  {
    hide PayBilled;
  }

  lemma SettledInFull(db: Db, p: PaymentReq, now: int, b: nat)
    requires Inv(db) && b < |db.txns| && PaymentBilling(db, db.txns[b]) != Variable
    requires var k := FindInstalment(db.instalments, p.paymentId); k.Some? ==> db.instalments[k.value].txn != b
    requires PayBilled(db, p, b, now).resp.code == PaymentSuccess
    ensures var row := db.txns[b];
            && row.IsPayable() && !row.IsExpired(now) && p.paid == row.total
            && PayBilled(db, p, b, now).db.txns
               == db.txns[b := row.(status := Settled, paid := Some(row.total), paymentId := p.paymentId)]
  {
    assert FindKey(db.txns, db.txns[b].key) == Some(b);
  }

  /** An instalment accepted on a variable bill stays within its remainder and changes that row alone. */
  lemma AcceptedInstalmentStaysWithin(db: Db, p: PaymentReq, now: int)
    requires Inv(db) && !IsNoBillVA(db, p.va) && Best(db.txns, p.va).Some? && !Repeats(db, p)
    requires FindInstalment(db.instalments, p.paymentId).None?
    requires PaymentBilling(db, db.txns[Best(db.txns, p.va).value]) == Variable
    requires Payment(db, p, now).resp.code == PaymentSuccess
    ensures var b := Best(db.txns, p.va).value; var row := db.txns[b]; var after := Payment(db, p, now).db;
            && row.IsPayable() && !row.IsExpired(now) && (row.total > 0 ==> row.Paid() + p.paid <= row.total)
            && after.instalments == db.instalments + [Instalment(b, p.paymentId, p.paid)]
            && after.txns == db.txns[b := after.txns[b]]
            && (after.txns[b].status == Settled <==> after.txns[b].Paid() >= row.total)
  {
    A.PaymentReaches(db, p, now);
  }

  /** The payment comes to the bill of row `b`: its id is new to the number and the row can take a payment. */
  predicate ReachesBill(db: Db, p: PaymentReq, now: int, b: nat) {
    && p.paymentId != "" && p.paid > 0 && !Flagged(db, p) && FindPaid(db.txns, p.paymentId).None?
    && !IsNoBillVA(db, p.va) && Best(db.txns, p.va) == Some(b) && b < |db.txns|
    && (var k := FindInstalment(db.instalments, p.paymentId); k.Some? ==> db.instalments[k.value].txn != b)
    && !db.txns[b].IsExpired(now) && db.txns[b].IsPayable()
  }

  /** DeleteVA succeeds on a no-bill number, or on a number whose answering bill is open or deleted already; then
      its open bill is '04', or its active registration inactive, and nothing else has changed. */
  lemma DeletedNumberIsClosed(db: Db, va: string)
    requires Inv(db)
    ensures var out := DeleteVA(db, va);
            && (out.code == DeleteOk <==>
                  IsNoBillVA(db, va)
                  || (Best(db.txns, va).Some? && db.txns[Best(db.txns, va).value].status in {Pending, Deleted}))
            && (out.code == DeleteNotFound <==>
                  !IsNoBillVA(db, va) && forall i :: 0 <= i < |db.txns| ==> db.txns[i].va != va)
            && (out.code == DeleteOk && IsNoBillVA(db, va) ==>
                  var a := db.accounts[va];
                  out.db == db.(accounts := db.accounts[va := a.(status := if a.status == Active then Inactive else a.status)]))
            && (out.code == DeleteOk && !IsNoBillVA(db, va) ==>
                  && !AnyPending(out.db.txns, va) && out.db == db.(txns := out.db.txns) && |out.db.txns| == |db.txns|
                  && forall i :: 0 <= i < |db.txns| ==>
                       if db.txns[i].va == va && db.txns[i].status == Pending
                       then out.db.txns[i] == db.txns[i].(status := Deleted) else out.db.txns[i] == db.txns[i])
            && (out.code != DeleteOk ==> out.db == db)
  {
    if AnyPending(db.txns, va) {
      var j :| 0 <= j < |db.txns| && Pends(db.txns[j], va);
      BestIsThePendingRow(db.txns, va, j);
    }
  }
}
