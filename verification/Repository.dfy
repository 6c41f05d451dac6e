/** The repository: the tables as fields, one method for each statement the use cases issue. */
module Repository {
  import opened Domain
  import T = Tables

  class VARepository {
    var txns: seq<Txn>
    var instalments: seq<Instalment>
    var accounts: map<string, Account>
    var flags: map<FlagKey, Flag>
    var callbacks: seq<Callback>
    var attempts: seq<Attempt>
    ghost var credits: seq<Credit>

    /** The tables as one value. */
    ghost function View(): Db
      reads this
    {
      Db(txns, instalments, accounts, flags, callbacks, attempts, credits)
    }

    constructor ()
      ensures View() == EMPTY_DB
    {
      txns, instalments, accounts, flags, callbacks, attempts := [], [], map[], map[], [], [];
      credits := [];
    }

    method GetInquiry(inquiryId: string) returns (row: Option<nat>)
      ensures row == T.FindKey(txns, Vendor(inquiryId))
    {
      row := T.FindKey(txns, Vendor(inquiryId));
    }

    method GetVAByVirtualAccountNo(va: string) returns (row: Option<nat>)
      ensures row == T.Best(txns, va)
    {
      row := T.Best(txns, va);
    }

    method GetPaymentByPaymentRequestID(paymentId: string) returns (row: Option<nat>)
      ensures row == T.FindPaid(txns, paymentId)
    {
      row := T.FindPaid(txns, paymentId);
    }

    /** The row an instalment pays and what that row's instalments sum to. */
    method FindVAInstalment(paymentId: string) returns (txn: nat, cumulative: int, found: bool)
      ensures found == T.FindInstalment(instalments, paymentId).Some?
      ensures found ==> txn == instalments[T.FindInstalment(instalments, paymentId).value].txn
      ensures found ==> cumulative == T.InstalmentSum(instalments, txn)
    {
      match T.FindInstalment(instalments, paymentId)
      case Some(k) => txn, cumulative, found := instalments[k].txn, T.InstalmentSum(instalments, instalments[k].txn), true;
      case None => txn, cumulative, found := 0, 0, false;
    }

    method GetVAAccount(va: string) returns (account: Option<Account>)
      ensures account == if va in accounts then Some(accounts[va]) else None
    {
      account := if va in accounts then Some(accounts[va]) else None;
    }

    method FindPaymentFlag(key: FlagKey) returns (flag: Option<Flag>)
      ensures flag == if key in flags then Some(flags[key]) else None
    {
      flag := if key in flags then Some(flags[key]) else None;
    }

    /** Reports whether a pending row was there to update. */
    method UpdateVAStatus(va: string, status: Status) returns (updated: bool)
      modifies this`txns
      ensures updated == T.AnyPending(old(txns), va)
      ensures txns == T.UpdateVAStatus(old(txns), va, status)
      ensures !updated ==> txns == old(txns)
    {
      updated := T.AnyPending(txns, va);
      txns := T.UpdateVAStatus(txns, va, status);
    }

    method UpdateVAAccountStatus(va: string, status: AccountStatus) returns (updated: bool)
      modifies this`accounts
      ensures updated == (va in old(accounts) && old(accounts)[va].status == Active)
      ensures accounts == T.UpdateVAAccountStatus(old(accounts), va, status)
      ensures !updated ==> accounts == old(accounts)
    {
      updated := va in accounts && accounts[va].status == Active;
      accounts := T.UpdateVAAccountStatus(accounts, va, status);
    }

    method ClaimInquiryRequestID(row: nat, inquiryId: string)
      requires row < |txns|
      modifies this`txns
      ensures txns == T.ClaimInquiryRequestID(old(txns), row, inquiryId)
    {
      txns := T.ClaimInquiryRequestID(txns, row, inquiryId);
    }

    /** Insert, or re-open the row of the bill's key; a value too long for its column is an error. */
    method SaveInquiry(partner: string, customerNo: string, bill: Txn) returns (saved: bool)
      modifies this`txns
      ensures saved == T.BillFits(partner, customerNo, bill)
      ensures txns == T.StoreInquiry(old(txns), partner, customerNo, bill).GetOr(old(txns))
    {
      saved := T.BillFits(partner, customerNo, bill);
      if !saved { return; }
      var row := T.BillRow(bill);
      match T.FindKey(txns, row.key) {
        case Some(i) => txns := txns[i := T.Reopened(txns[i], row)];
        case None => txns := txns + [row];
      }
    }

    method SavePayment(key: Key, amount: int, paymentId: string, orphan: Txn)
      modifies this`txns, this`credits
      ensures View() == T.SavePayment(old(View()), key, amount, paymentId, orphan)
    {
      ghost var before := View();
      match T.FindKey(txns, key) {
        case Some(i) => txns := txns[i := T.PaidInFull(txns[i], amount, paymentId)];
        case None => txns := txns + [orphan];
      }
      credits := T.SavePayment(before, key, amount, paymentId, orphan).credits;
    }

    /** One transaction: insert unless on file, sum, compare with the total, write both columns back. */
    method SaveVAPayment(txn: nat, paymentId: string, amount: int) returns (paid: int, status: Status, recorded: bool)
      requires txn < |txns|
      modifies this`txns, this`instalments, this`credits
      ensures View() == T.SaveVAPayment(old(View()), txn, paymentId, amount)
      ensures recorded == T.FindInstalment(old(instalments), paymentId).None?
      ensures paid == T.InstalmentSum(instalments, txn)
      ensures status == txns[txn].status
    {
      ghost var before := View();
      recorded := T.FindInstalment(instalments, paymentId).None?;
      if recorded {
        instalments := instalments + [Instalment(txn, paymentId, amount)];
      }
      paid := T.InstalmentSum(instalments, txn);
      status := Pending;
      if paid >= txns[txn].total {
        status := Settled;
      }
      txns := txns[txn := txns[txn].(paid := Some(paid), status := status)];
      credits := T.SaveVAPayment(before, txn, paymentId, amount).credits;
    }

    /** Reports whether the row was inserted; a taken key is the duplicate error. */
    method SaveNoBillPayment(t: Txn) returns (saved: bool)
      modifies this`txns, this`credits
      ensures saved == T.FindKey(old(txns), t.key).None?
      ensures saved ==> Some(View()) == T.SaveNoBillPayment(old(View()), t)
      ensures !saved ==> View() == old(View())
    {
      saved := T.FindKey(txns, t.key).None?;
      if saved {
        credits := credits + [Credit(|txns|, t.va, t.paymentId, t.total, t.url)];
        txns := txns + [t];
      }
    }

    method RecordPaymentFlag(key: FlagKey, flag: Flag)
      modifies this`flags
      ensures flags == T.RecordPaymentFlag(old(flags), key, flag)
    {
      if key !in flags {
        flags := flags[key := flag];
      }
    }

    method CustomerRegistered(partner: string, customerNo: string) returns (taken: bool)
      ensures taken == T.CustomerRegistered(accounts, partner, customerNo)
    {
      taken := T.CustomerRegistered(accounts, partner, customerNo);
    }

    method SaveVAAccount(va: string, account: Account) returns (saved: bool)
      modifies this`accounts
      ensures saved == T.StoreAccount(old(accounts), va, account).Some?
      ensures accounts == T.StoreAccount(old(accounts), va, account).GetOr(old(accounts))
    {
      if !T.AccountFits(account) { return false; }
      var a := T.AccountRow(account);
      if va in accounts {
        var kept := accounts[va];
        accounts := accounts[va := kept.(trxId := a.trxId, url := a.url, expires := a.expires, status := a.status)];
        saved := true;
      } else {
        var taken := CustomerRegistered(a.partner, a.customerNo);
        saved := !taken;
        if saved {
          accounts := accounts[va := a];
        }
      }
    }

    method SettlePendingFromVendor(va: string, paid: int, paymentId: string) returns (settled: bool)
      modifies this`txns, this`credits
      ensures settled == T.AnyPending(old(txns), va)
      ensures View() == T.SettlePendingFromVendor(old(View()), va, paid, paymentId)
      ensures !settled ==> txns == old(txns)
    {
      settled := T.AnyPending(txns, va);
      credits := credits + T.SettleCredits(txns, va, paid, paymentId);
      txns := T.SettlePending(txns, va, paid, paymentId);
    }

    method ListStalePendingTransactions(cutoff: nat, now: int, limit: nat) returns (rows: seq<nat>)
      ensures rows == T.ListStalePending(txns, cutoff, now, limit)
    {
      rows := T.ListStalePending(txns, cutoff, now, limit);
    }

    method CreateStatusInquiryAttempt(attempt: Attempt)
      modifies this`attempts
      ensures attempts == old(attempts) + [attempt]
    {
      attempts := attempts + [attempt];
    }

    method ExpiryAnnounced(va: string) returns (known: bool)
      ensures known == T.ExpiryAnnounced(callbacks, va)
    {
      known := T.ExpiryAnnounced(callbacks, va);
    }

    /** The automatic delivery row a dispatched callback leaves. */
    method RecordCallback(c: Callback)
      modifies this`callbacks
      ensures callbacks == old(callbacks) + [c]
    {
      callbacks := callbacks + [c];
    }
  }
}
