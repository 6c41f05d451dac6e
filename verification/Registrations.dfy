/** What CreateVA registers, and that a number registered without a bill can be paid. */
module Registrations {
  import opened Domain
  import opened Tables
  import opened Steps
  import opened Invariant
  import opened NoBillNumbers
  import opened Answers
  import L = Lifecycle

  /** A CreateVA with a VA type, or for a reserved partner id, leaves its number registered and active, with the trxId, URL and expiry asked for; a new
      number is of the request's partner, customer, type and billing class, a known one of the same as before. Every
      other registration is untouched. */
  lemma RegistrationStored(db: Db, c: CreateReq)
    requires CreateVA(db, c).code == Created && (c.vaType != "" || c.reserved)
    ensures Number(c).Numbered? && c.rule.Some?
    ensures var customerNo, va, after := Number(c).customerNo, Number(c).vaNo, CreateVA(db, c).db.accounts;
            && after.Keys == db.accounts.Keys + {va}
            && var a := after[va];
            && a.status == Active && a.expires == c.expires
            && a.trxId == Clip(c.trxId, 64) && a.url == Clip(c.url, 512)
            && (if va in db.accounts then
                  var was := db.accounts[va];
                  a.partner == was.partner && a.customerNo == was.customerNo && a.vaType == was.vaType
                  && a.billing == was.billing
                else
                  a.partner == Clip(c.partner, 8) && a.customerNo == Clip(customerNo, 20)
                  && a.vaType == Clip(c.vaType, 2) && a.billing == c.rule.value.billing)
            && forall v :: v in db.accounts && v != va ==> after[v] == db.accounts[v]
  {
    RegistrationIsTheAccount(db, c);
    hide CreateVA, AccountFits;
  }

  lemma RegistrationIsTheAccount(db: Db, c: CreateReq)
    requires CreateVA(db, c).code == Created && c.Managed()
    ensures Number(c).Numbered? && c.rule.Some?
    ensures var stored := StoreAccount(db.accounts, Number(c).vaNo, NewAccount(c, Number(c).customerNo));
            stored == Some(CreateVA(db, c).db.accounts)
  {
    hide StoreAccount, BillFits, BillRow, SaveInquiry;
  }

  /** Without a VA type, and for a partner id that is not reserved, CreateVA registers nothing. */
  lemma UnmanagedRegistersNothing(db: Db, c: CreateReq)
    requires c.vaType == "" && !c.reserved
    ensures CreateVA(db, c).db.accounts == db.accounts
  {
  }

  // ---------------------------------------------------------------- what CreateVA answers

  predicate Managed(c: CreateReq) {
    c.vaType != "" || c.reserved
  }

  /** The request names everything its kind of number needs and nothing it may not, and its number is the partner id
      followed by the customer number unless a dynamic number brings its own. */
  predicate Complete(c: CreateReq) {
    && c.partner != "" && c.trxId != "" && |c.customerNo| <= 18 && |c.vaNo| <= 26
    && (Managed(c) ==> c.rule.Some? && (c.total.Some? <==> c.rule.value.billing != NoBill))
    && if Managed(c) && c.rule.Some? && c.rule.value.dynamic then
         c.customerNo == ""
         && (c.vaNo == "" && c.generated.Some? ==> |c.partner| + |c.generated.value| <= 26)
       else c.customerNo != "" && c.vaNo == c.partner + c.customerNo
  }

  /** The number's bills are for a customer the partner chose, once. */
  predicate OnePerCustomer(c: CreateReq) {
    Managed(c) && c.rule.Some? && !c.rule.value.dynamic && c.rule.value.billing != NoBill
  }

  predicate BearsBill(c: CreateReq) {
    !(Managed(c) && c.rule.Some? && c.rule.value.billing == NoBill)
  }

  /** Why CreateVA refuses: 40027xx for an incomplete request, 4092701 for a customer already registered, 4092700 for a
      number with an open bill, and 50027xx when no number can be generated or a value does not go into its column. */
  lemma CreateAnswers(db: Db, c: CreateReq)
    requires Inv(db)
    ensures var code := CreateVA(db, c).code;
            && (code == CreateInvalid <==> !Complete(c))
            && (code == CreateDuplicate <==>
                  && Complete(c) && OnePerCustomer(c)
                  && exists v :: v in db.accounts && db.accounts[v].partner == c.partner
                                 && db.accounts[v].customerNo == c.customerNo)
            && (code == CreatePending ==>
                  && Complete(c) && BearsBill(c) && Number(c).Numbered?
                  && exists i :: 0 <= i < |db.txns| && db.txns[i].va == Number(c).vaNo && db.txns[i].status == Pending)
            && (code == Created && BearsBill(c) ==>
                  forall i :: 0 <= i < |db.txns| && db.txns[i].va == Number(c).vaNo ==> db.txns[i].status != Pending)
            && (Managed(c) && c.rule.Some? && c.rule.value.dynamic && c.generated.None? && Complete(c) ==> code == CreateFailed)
  {
    CompleteExactlyWhen(c);
    if Complete(c) && Number(c).Numbered? {
      L.PendingAnswers(db.txns, Number(c).vaNo);
      NumberedAnswers(db, c, Number(c).customerNo, Number(c).vaNo);
    }
    hide Complete, CreateFieldsValid, CreateNumbered, Inv;
  }

  /** What goes beyond the width is blanks. */
  predicate BlankFrom(s: string, width: nat) {
    forall i :: width <= i < |s| ==> s[i] == ' '
  }

  /** Every value goes into its column: partner id 8, customer number 20, VA type 2, trxId 64 and URL 512 characters,
      and a bill's total 14 digits before the decimals. */
  predicate WithinColumns(c: CreateReq, customerNo: string) {
    && BlankFrom(c.partner, 8) && BlankFrom(customerNo, 20) && BlankFrom(c.vaType, 2) && BlankFrom(c.trxId, 64)
    && BlankFrom(c.url, 512)
    && (BearsBill(c) && c.total.Some? ==> -10_000_000_000_000_000 < c.total.value < 10_000_000_000_000_000)
  }

  /** The registration of `va` can be written: the number is known, or the customer is not, by the columns' contents. */
  predicate CustomerIsFree(db: Db, c: CreateReq, customerNo: string, va: string) {
    && (OnePerCustomer(c) ==> !CustomerRegistered(db.accounts, c.partner, customerNo))
    && (Managed(c) && va !in db.accounts ==> !CustomerRegistered(db.accounts, Clip(c.partner, 8), Clip(customerNo, 20)))
  }

  /** CreateVA succeeds exactly when the request is complete and its number available, everything goes into its column,
      the customer is free, and, for a number with a bill, no bill is open on it. */
  lemma CreatedExactlyWhen(db: Db, c: CreateReq)
    requires Inv(db)
    ensures CreateVA(db, c).code == Created <==>
            && Complete(c) && Number(c).Numbered?
            && WithinColumns(c, Number(c).customerNo) && CustomerIsFree(db, c, Number(c).customerNo, Number(c).vaNo)
            && (BearsBill(c) ==>
                  forall i :: 0 <= i < |db.txns| && db.txns[i].va == Number(c).vaNo ==> db.txns[i].status != Pending)
  {
    CompleteExactlyWhen(c);
    if Complete(c) && Number(c).Numbered? {
      var customerNo, va := Number(c).customerNo, Number(c).vaNo;
      L.PendingAnswers(db.txns, va);
      NoneOpenExactlyWhen(db.txns, va);
      ColumnsFit(c, customerNo, va);
      NumberedCreatedExactlyWhen(db, c, customerNo, va);
    }
    hide Complete, CreateFieldsValid, CreateNumbered, Inv, WithinColumns, CustomerIsFree, AccountFits, BillFits;
  }

  lemma NoneOpenExactlyWhen(txns: seq<Txn>, va: string)
    ensures !AnyPending(txns, va) <==>
            forall i :: 0 <= i < |txns| && txns[i].va == va ==> txns[i].status != Pending
  {
    if !AnyPending(txns, va) {
      assert forall i :: 0 <= i < |txns| ==> !Pends(txns[i], va);
    }
  }

  lemma ColumnsFit(c: CreateReq, customerNo: string, va: string)
    ensures WithinColumns(c, customerNo) <==>
            (if BearsBill(c) then BillFits(c.partner, customerNo, NewBill(c, va))
             else AccountFits(NewAccount(c, customerNo)))
    ensures WithinColumns(c, customerNo) ==> AccountFits(NewAccount(c, customerNo))
  {
  }

  lemma NumberedCreatedExactlyWhen(db: Db, c: CreateReq, customerNo: string, va: string)
    requires CreateFieldsValid(c)
    ensures var b := Best(db.txns, va);
            CreateNumbered(db, c, customerNo, va).code == Created <==>
            && CustomerIsFree(db, c, customerNo, va) && (Managed(c) ==> AccountFits(NewAccount(c, customerNo)))
            && (BearsBill(c) ==>
                  && BillFits(c.partner, customerNo, NewBill(c, va))
                  && (b.None? || db.txns[b.value].status != Pending))
  {
    hide SaveInquiry, CustomerRegistered, AccountFits, BillFits, BillRow;
  }

  lemma CompleteExactlyWhen(c: CreateReq)
    ensures Complete(c) <==> CreateFieldsValid(c) && Number(c) != NumberInvalid
  {
  }

  lemma NumberedAnswers(db: Db, c: CreateReq, customerNo: string, va: string)
    requires CreateFieldsValid(c)
    ensures var code, b := CreateNumbered(db, c, customerNo, va).code, Best(db.txns, va);
            && code != CreateInvalid
            && (code == CreateDuplicate <==> OnePerCustomer(c) && CustomerRegistered(db.accounts, c.partner, customerNo))
            && (code == CreatePending ==> BearsBill(c) && b.Some? && db.txns[b.value].status == Pending)
            && (code == Created && BearsBill(c) ==> b.None? || db.txns[b.value].status != Pending)
  {
    hide StoreAccount, StoreInquiry, CustomerRegistered;
  }

  /** A number CreateVA leaves registered without a bill, before its expiry: an inquiry succeeds, and a payment of any
      positive amount under new ids is accepted and credited. */
  lemma RegisteredNumberTakesPayments(db: Db, c: CreateReq, q: InquiryReq, p: PaymentReq, now: int)
    requires CreateVA(db, c).code == Created && CreatesNoBill(c)
    requires q.va == p.va == Number(c).vaNo
    requires p.va in db.accounts ==> db.accounts[p.va].IsNoBill()
    requires c.expires.Some? ==> now <= c.expires.value
    requires NewToTheLedger(db, p)
    ensures Inquiry(CreateVA(db, c).db, q, now).code == InquirySuccess
    ensures var after := CreateVA(db, c).db; var out := Payment(after, p, now);
            && out.resp.code == PaymentSuccess
            && out.db.credits == db.credits
                 + [Credit(|db.txns|, p.va, p.paymentId, p.paid, Clip(c.url, 512))]
  {
    var after := CreateVA(db, c).db;
    RegistrationStored(db, c);
    RegistrationWritesNoRow(db, c);
    NoBillNumberAnswers(after, q, p, now);
    AcceptedIsCredited(after, p, now);
    hide CreateVA, Inquiry, Payment;
  }

  lemma RegistrationWritesNoRow(db: Db, c: CreateReq)
    requires CreatesNoBill(c)
    ensures CreateVA(db, c).db == db.(accounts := CreateVA(db, c).db.accounts)
  {
  }

  lemma AcceptedIsCredited(db: Db, p: PaymentReq, now: int)
    requires IsNoBillVA(db, p.va) && NewToTheLedger(db, p) && Payment(db, p, now).resp.code == PaymentSuccess
    ensures Payment(db, p, now).db.credits
            == db.credits + [Credit(|db.txns|, p.va, p.paymentId, p.paid, db.accounts[p.va].url)]
  {
  }

  /** A number without a bill that was deleted refuses inquiry and payment, whatever happens elsewhere, until CreateVA
      registers it again; then it takes payments as before. */
  lemma DeletedUntilRegisteredAgain(db: Db, va: string, run: seq<Event>, c: CreateReq, q: InquiryReq, p: PaymentReq,
                                    now: int)
    requires Inv(db) && NoBillNumber(db, va) && forall k :: 0 <= k < |run| ==> !CreatesOn(run[k], va)
    requires var deleted := Run(Step(db, Delete(va)), run);
             && NewToTheLedger(deleted, p) && CreateVA(deleted, c).code == Created
    requires CreatesNoBill(c) && q.va == p.va == va == Number(c).vaNo && (c.expires.Some? ==> now <= c.expires.value)
    ensures var deleted := Run(Step(db, Delete(va)), run);
            && Inquiry(deleted, q, now).code != InquirySuccess && Payment(deleted, p, now).resp.code != PaymentSuccess
            && var again := Step(deleted, Create(c));
            Inquiry(again, q, now).code == InquirySuccess && Payment(again, p, now).resp.code == PaymentSuccess
  {
    var deleted := Run(Step(db, Delete(va)), run);
    DeletionRetires(db, va);
    StepKeeps(db, Delete(va), va);
    StepKeepsInv(db, Delete(va));
    RunKeepsRetired(Step(db, Delete(va)), run, va);
    NoBillNumberAnswers(deleted, q, p, now);
    RegisteredNumberTakesPayments(deleted, c, q, p, now);
    hide Run, Inquiry, Payment, CreateVA, DeleteVA, Inv, NoBillNumber;
  }

  lemma DeletionRetires(db: Db, va: string)
    requires IsNoBillVA(db, va)
    ensures Retired(Step(db, Delete(va)), va)
  {
  }
}
