/** What exists at most once, in every run: a registration per customer, an expiry callback per number. */
module Uniqueness {
  import opened Domain
  import opened Tables
  import opened Steps

  // ---------------------------------------------------------------- registrations

  ghost predicate UniqueCustomers(accounts: map<string, Account>) {
    forall v, w :: v in accounts && w in accounts && v != w ==>
      accounts[v].partner != accounts[w].partner || accounts[v].customerNo != accounts[w].customerNo
  }

  /** The same numbers, each of the same customer and billing class. */
  ghost predicate SameIdentities(before: map<string, Account>, after: map<string, Account>) {
    && before.Keys == after.Keys
    && forall v :: v in before ==>
         && after[v].partner == before[v].partner && after[v].customerNo == before[v].customerNo
         && after[v].billing == before[v].billing
  }

  /** SaveVAAccount renews the number's own registration or adds one of a new customer. */
  lemma SaveKeepsUnique(accounts: map<string, Account>, va: string, a: Account)
    requires UniqueCustomers(accounts) && SaveVAAccount(accounts, va, a).Some?
    ensures UniqueCustomers(SaveVAAccount(accounts, va, a).value)
  {
    if va !in accounts {
      assert forall v :: v in accounts ==> accounts[v].partner != a.partner || accounts[v].customerNo != a.customerNo;
    }
  }

  lemma CreateKeepsUnique(db: Db, c: CreateReq)
    requires UniqueCustomers(db.accounts)
    ensures UniqueCustomers(CreateVA(db, c).db.accounts)
  {
    if CreateFieldsValid(c) && Number(c).Numbered? && c.Managed() {
      var a := NewAccount(c, Number(c).customerNo);
      if StoreAccount(db.accounts, Number(c).vaNo, a).Some? {
        SaveKeepsUnique(db.accounts, Number(c).vaNo, AccountRow(a));
        hide UniqueCustomers, SaveVAAccount, AccountRow, AccountFits;
      }
    }
  }

  lemma RegistrationExpiryKeepsIdentities(db: Db, va: string)
    requires va in db.accounts
    ensures SameIdentities(db.accounts, MarkRegistrationExpired(db, va).accounts)
  {
  }

  lemma SameIdentitiesItself(accounts: map<string, Account>)
    ensures SameIdentities(accounts, accounts)
  {
  }

  lemma BilledInquiryKeepsAccounts(db: Db, q: InquiryReq, i: nat, now: int)
    requires i < |db.txns|
    ensures InquiryBilled(db, q, i, now).db.accounts == db.accounts
  {
  }

  lemma InquiryKeepsIdentities(db: Db, q: InquiryReq, now: int)
    ensures SameIdentities(db.accounts, Inquiry(db, q, now).db.accounts)
  {
    SameIdentitiesItself(db.accounts);
    if IsNoBillVA(db, q.va) {
      RegistrationExpiryKeepsIdentities(db, q.va);
    } else if ResolveInquiry(db, q).Some? {
      BilledInquiryKeepsAccounts(db, q, ResolveInquiry(db, q).value, now);
    }
    hide SameIdentities, MarkRegistrationExpired, InquiryBilled;
  }

  lemma PayBilledKeepsAccounts(db: Db, p: PaymentReq, b: nat, now: int)
    requires b < |db.txns|
    ensures PayBilled(db, p, b, now).db.accounts == db.accounts
  {
  }

  lemma NoBillPaymentKeepsIdentities(db: Db, p: PaymentReq, now: int)
    requires p.va in db.accounts
    ensures SameIdentities(db.accounts, PaymentNoBill(db, p, now).db.accounts)
  {
    SameIdentitiesItself(db.accounts);
    RegistrationExpiryKeepsIdentities(db, p.va);
    hide SameIdentities, MarkRegistrationExpired;
  }

  lemma DecideKeepsIdentities(db: Db, p: PaymentReq, now: int)
    ensures SameIdentities(db.accounts, Decide(db, p, now).db.accounts)
  {
    SameIdentitiesItself(db.accounts);
    if IsNoBillVA(db, p.va) {
      NoBillPaymentKeepsIdentities(db, p, now);
    } else if Best(db.txns, p.va).Some? {
      PayBilledKeepsAccounts(db, p, Best(db.txns, p.va).value, now);
    }
    hide SameIdentities, PaymentNoBill, PayBilled;
  }

  lemma PaymentKeepsIdentities(db: Db, p: PaymentReq, now: int)
    ensures SameIdentities(db.accounts, Payment(db, p, now).db.accounts)
  {
    DecideKeepsIdentities(db, p, now);
    hide Decide;
  }

  lemma DeleteKeepsIdentities(db: Db, va: string)
    ensures SameIdentities(db.accounts, DeleteVA(db, va).db.accounts)
  {
  }

  lemma ReconcileKeepsAccounts(db: Db, record: Txn, answer: VendorAnswer)
    ensures ReconcileRecord(db, record, answer).db.accounts == db.accounts
  {
  }

  lemma {:induction false} SweepKeepsAccounts(db: Db, records: seq<Txn>, vendor: VendorBook)
    ensures SweepRecords(db, records, vendor).db.accounts == db.accounts
  {
    if |records| > 0 {
      var n := |records| - 1;
      SweepKeepsAccounts(db, records[..n], vendor);
      ReconcileKeepsAccounts(SweepRecords(db, records[..n], vendor).db, records[n], AnswerFor(vendor, records[n].va));
    }
  }

  /** Only CreateVA touches the identities. */
  lemma StepKeepsIdentities(db: Db, e: Event)
    requires !e.Create?
    ensures SameIdentities(db.accounts, Step(db, e).accounts)
  {
    match e
    case Inquire(q, now) => InquiryKeepsIdentities(db, q, now);
    case Pay(p, now) => PaymentKeepsIdentities(db, p, now);
    case Delete(va) => DeleteKeepsIdentities(db, va);
    case ReconcileOne(va, answer) =>
      if Best(db.txns, va).Some? { ReconcileKeepsAccounts(db, db.txns[Best(db.txns, va).value], answer); }
    case SweepAll(cutoff, now, limit, vendor) => SweepKeepsAccounts(db, Candidates(db.txns, cutoff, now, limit), vendor);
  }

  lemma SameIdentitiesUnique(before: map<string, Account>, after: map<string, Account>)
    requires UniqueCustomers(before) && SameIdentities(before, after)
    ensures UniqueCustomers(after)
  {
  }

  /** No two numbers are ever registered to one partner's customer. */
  lemma {:induction false} OneNumberPerCustomer(run: seq<Event>)
    ensures UniqueCustomers(Run(EMPTY_DB, run).accounts)
  {
    if |run| > 0 {
      var n := |run| - 1;
      var db := Run(EMPTY_DB, run[..n]);
      OneNumberPerCustomer(run[..n]);
      if run[n].Create? {
        CreateKeepsUnique(db, run[n].c);
      } else {
        StepKeepsIdentities(db, run[n]);
        SameIdentitiesUnique(db.accounts, Step(db, run[n]).accounts);
      }
      hide UniqueCustomers, SameIdentities, CreateVA;
    }
  }

  // ---------------------------------------------------------------- expiry callbacks

  ghost predicate OneExpiryEach(callbacks: seq<Callback>) {
    forall i, j :: 0 <= i < j < |callbacks| && callbacks[i].VAExpired? && callbacks[j].VAExpired? ==>
      callbacks[i].va != callbacks[j].va
  }

  lemma NotifyKeepsOne(db: Db, va: string, amount: int, url: string)
    requires OneExpiryEach(db.callbacks)
    ensures OneExpiryEach(Notify(db, va, amount, url).callbacks)
  {
  }

  lemma AnnounceKeepsOne(db: Db, va: string, url: string)
    requires OneExpiryEach(db.callbacks)
    ensures OneExpiryEach(AnnounceExpiry(db, va, url).callbacks)
  {
    if !ExpiryAnnounced(db.callbacks, va) {
      forall i | 0 <= i < |db.callbacks| && db.callbacks[i].VAExpired? ensures db.callbacks[i].va != va {
        assert db.callbacks[i] in db.callbacks;
      }
    }
  }

  lemma MarkExpiredKeepsOne(db: Db, i: nat)
    requires OneExpiryEach(db.callbacks) && i < |db.txns|
    ensures OneExpiryEach(MarkExpired(db, i).callbacks)
  {
    var row := db.txns[i];
    AnnounceKeepsOne(db.(txns := UpdateVAStatus(db.txns, row.va, Expired)), row.va, row.url);
    hide OneExpiryEach, AnnounceExpiry;
  }

  lemma MarkRegistrationExpiredKeepsOne(db: Db, va: string)
    requires OneExpiryEach(db.callbacks) && va in db.accounts
    ensures OneExpiryEach(MarkRegistrationExpired(db, va).callbacks)
  {
    AnnounceKeepsOne(db.(accounts := UpdateVAAccountStatus(db.accounts, va, Lapsed)), va, db.accounts[va].url);
    hide OneExpiryEach, AnnounceExpiry;
  }

  lemma InquiryKeepsOne(db: Db, q: InquiryReq, now: int)
    requires OneExpiryEach(db.callbacks)
    ensures OneExpiryEach(Inquiry(db, q, now).db.callbacks)
  {
    if IsNoBillVA(db, q.va) {
      MarkRegistrationExpiredKeepsOne(db, q.va);
    } else if ResolveInquiry(db, q).Some? {
      MarkExpiredKeepsOne(db, ResolveInquiry(db, q).value);
    }
    hide OneExpiryEach, MarkExpired, MarkRegistrationExpired;
  }

  lemma PaymentNoBillKeepsOne(db: Db, p: PaymentReq, now: int)
    requires OneExpiryEach(db.callbacks) && p.va in db.accounts
    ensures OneExpiryEach(PaymentNoBill(db, p, now).db.callbacks)
  {
    var account := db.accounts[p.va];
    MarkRegistrationExpiredKeepsOne(db, p.va);
    var saved := SaveNoBillPayment(db, NoBillTxn(p, account));
    if saved.Some? {
      NotifyKeepsOne(saved.value, p.va, p.paid, account.url);
    }
    hide OneExpiryEach, MarkRegistrationExpired, Notify;
  }

  lemma PayBilledKeepsOne(db: Db, p: PaymentReq, b: nat, now: int)
    requires OneExpiryEach(db.callbacks) && b < |db.txns|
    ensures OneExpiryEach(PayBilled(db, p, b, now).db.callbacks)
  {
    MarkExpiredKeepsOne(db, b);
    InstalmentKeepsOne(db, p, b);
    SettlementKeepsOne(db, p, b);
    hide OneExpiryEach, MarkExpired, PayInstalment, PaySettlement;
  }

  lemma InstalmentKeepsOne(db: Db, p: PaymentReq, b: nat)
    requires OneExpiryEach(db.callbacks) && b < |db.txns|
    ensures OneExpiryEach(PayInstalment(db, p, b).db.callbacks)
  {
    NotifyKeepsOne(SaveVAPayment(db, b, p.paymentId, p.paid), p.va, p.paid, db.txns[b].url);
    hide OneExpiryEach, Notify;
  }

  lemma SettlementKeepsOne(db: Db, p: PaymentReq, b: nat)
    requires OneExpiryEach(db.callbacks) && b < |db.txns|
    ensures OneExpiryEach(PaySettlement(db, p, b).db.callbacks)
  {
  }

  lemma PaymentKeepsOne(db: Db, p: PaymentReq, now: int)
    requires OneExpiryEach(db.callbacks)
    ensures OneExpiryEach(Payment(db, p, now).db.callbacks)
  {
    if IsNoBillVA(db, p.va) { PaymentNoBillKeepsOne(db, p, now); }
    if Best(db.txns, p.va).Some? { PayBilledKeepsOne(db, p, Best(db.txns, p.va).value, now); }
    hide OneExpiryEach, PaymentNoBill, PayBilled;
  }

  lemma ReconcileKeepsOne(db: Db, record: Txn, answer: VendorAnswer)
    requires OneExpiryEach(db.callbacks)
    ensures OneExpiryEach(ReconcileRecord(db, record, answer).db.callbacks)
  {
  }

  lemma {:induction false} SweepKeepsOne(db: Db, records: seq<Txn>, vendor: VendorBook)
    requires OneExpiryEach(db.callbacks)
    ensures OneExpiryEach(SweepRecords(db, records, vendor).db.callbacks)
  {
    if |records| > 0 {
      var n := |records| - 1;
      SweepKeepsOne(db, records[..n], vendor);
      ReconcileKeepsOne(SweepRecords(db, records[..n], vendor).db, records[n], AnswerFor(vendor, records[n].va));
      hide OneExpiryEach, ReconcileRecord;
    }
  }

  lemma CreateKeepsCallbacks(db: Db, c: CreateReq)
    ensures CreateVA(db, c).db.callbacks == db.callbacks
  {
  }

  lemma StepKeepsOne(db: Db, e: Event)
    requires OneExpiryEach(db.callbacks)
    ensures OneExpiryEach(Step(db, e).callbacks)
  {
    match e
    case Create(c) => CreateKeepsCallbacks(db, c);
    case Inquire(q, now) => InquiryKeepsOne(db, q, now);
    case Pay(p, now) => PaymentKeepsOne(db, p, now);
    case Delete(va) =>
    case ReconcileOne(va, answer) =>
      if Best(db.txns, va).Some? { ReconcileKeepsOne(db, db.txns[Best(db.txns, va).value], answer); }
    case SweepAll(cutoff, now, limit, vendor) => SweepKeepsOne(db, Candidates(db.txns, cutoff, now, limit), vendor);
  }

  /** A number's expiry is announced to the merchant at most once in any run, however many cycles expire. */
  lemma {:induction false} ExpiryAnnouncedOnce(run: seq<Event>)
    ensures OneExpiryEach(Run(EMPTY_DB, run).callbacks)
  {
    if |run| > 0 {
      ExpiryAnnouncedOnce(run[..|run| - 1]);
      StepKeepsOne(Run(EMPTY_DB, run[..|run| - 1]), run[|run| - 1]);
    }
  }
}
