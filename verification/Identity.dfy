/** The identity check of the inquiry, payment and status services, and the numbers CreateVA issues. */
module Identity {
  import opened Domain
  import opened Text
  import S = Steps
  import T = Tables
  import Q = Sequence

  const MAX_PARTNER_SERVICE_ID := 8
  /** The three services share the receive-side limits. */
  const MAX_CUSTOMER_NO := 20
  const MAX_VIRTUAL_ACCOUNT_NO := 28

  datatype Violation =
    | NoPartner | BadPartner | NoCustomerNo | BadCustomerNo | NoVirtualAccountNo | BadVirtualAccountNo

  function RequireVAIdentity(partner: string, customerNo: string, vaNo: string): Option<Violation> {
    if Trim(partner) == "" then Some(NoPartner)
    else if |partner| > MAX_PARTNER_SERVICE_ID then Some(BadPartner)
    else if Trim(customerNo) == "" then Some(NoCustomerNo)
    else if |customerNo| > MAX_CUSTOMER_NO then Some(BadCustomerNo)
    else if Trim(vaNo) == "" then Some(NoVirtualAccountNo)
    else if |vaNo| > MAX_VIRTUAL_ACCOUNT_NO then Some(BadVirtualAccountNo)
    else if !HasSuffix(Trim(vaNo), Trim(customerNo)) then Some(BadVirtualAccountNo)
    else if !HasPrefix(Trim(vaNo), Trim(partner)) then Some(BadVirtualAccountNo)
    else None
  }

  /** What the check demands: no part blank, none too long, and the trimmed VA number starts with the trimmed partner
      id and ends with the trimmed customer number. */
  lemma IdentityPassesExactlyWhen(partner: string, customerNo: string, vaNo: string)
    ensures RequireVAIdentity(partner, customerNo, vaNo).None? <==>
            && Trim(partner) != "" && Trim(customerNo) != "" && Trim(vaNo) != ""
            && |partner| <= 8 && |customerNo| <= 20 && |vaNo| <= 28
            && (exists rest :: Trim(vaNo) == Trim(partner) + rest)
            && (exists start :: Trim(vaNo) == start + Trim(customerNo))
  {
    var va := Trim(vaNo);
    if HasPrefix(va, Trim(partner)) { assert va == Trim(partner) + va[|Trim(partner)|..]; }
    if HasSuffix(va, Trim(customerNo)) { assert va == va[..|va| - |Trim(customerNo)|] + Trim(customerNo); }
    if rest :| va == Trim(partner) + rest { assert va[..|Trim(partner)|] == Trim(partner); }
    if start :| va == start + Trim(customerNo) { assert va[|start|..] == Trim(customerNo); }
  }

  /** Which part is refused, and whether it is missing or malformed; the parts are looked at in order. */
  lemma IdentityRefusedExactlyWhen(partner: string, customerNo: string, vaNo: string)
    ensures var v := RequireVAIdentity(partner, customerNo, vaNo);
            var partnerOk := Trim(partner) != "" && |partner| <= 8;
            var customerOk := partnerOk && Trim(customerNo) != "" && |customerNo| <= 20;
            && (v == Some(NoPartner) <==> Trim(partner) == "")
            && (v == Some(BadPartner) <==> Trim(partner) != "" && |partner| > 8)
            && (v == Some(NoCustomerNo) <==> partnerOk && Trim(customerNo) == "")
            && (v == Some(BadCustomerNo) <==> partnerOk && Trim(customerNo) != "" && |customerNo| > 20)
            && (v == Some(NoVirtualAccountNo) <==> customerOk && Trim(vaNo) == "")
  {
  }

  /** Trimming a concatenation keeps the trimmed halves at its ends. */
  lemma TrimOfConcat(a: string, b: string)
    requires Trim(a) != "" && Trim(b) != ""
    ensures HasPrefix(Trim(a + b), Trim(a)) && HasSuffix(Trim(a + b), Trim(b))
  {
    var la, ra := TrimSplits(a);
    var lb, rb := TrimSplits(b);
    var middle := Trim(a) + (ra + lb) + Trim(b);
    assert middle[0] == Trim(a)[0] && middle[|middle| - 1] == Trim(b)[|Trim(b)| - 1];
    assert a + b == la + middle + rb;
    TrimOfPadding(la, middle, rb);
    assert middle[..|Trim(a)|] == Trim(a);
    assert middle[|middle| - |Trim(b)|..] == Trim(b);
  }

  /** Every number formed by concatenation within the issue limits passes the check exactly when neither half is
      blank and the partner id has at most 8 characters. */
  lemma ConcatenationPassesExactlyWhen(partner: string, customerNo: string)
    requires |customerNo| <= S.MAX_ISSUED_CUSTOMER_NO && |partner + customerNo| <= S.MAX_ISSUED_VA_NO
    ensures RequireVAIdentity(partner, customerNo, partner + customerNo).None?
            <==> Trim(partner) != "" && Trim(customerNo) != "" && |partner| <= MAX_PARTNER_SERVICE_ID
  {
    if Trim(partner) != "" && Trim(customerNo) != "" {
      TrimOfConcat(partner, customerNo);
    }
  }

  lemma CustomerNoNotBlank(vaType: string, n: nat)
    ensures Trim(Q.CustomerNo(vaType, n)) != ""
  {
    var s := Q.CustomerNo(vaType, n);
    assert IsDigit(s[|s| - 1]) by {
      assert s[|s| - 1] == LowDigits(n, Q.SEQUENCE_DIGITS)[15];
    }
    var left, right := TrimSplits(s);
    assert Trim(s) == "" ==> s == left + right;
  }

  /** A number CreateVA derives from a generated customer number, under a two-character VA type, passes the
      check of inquiry, payment and status exactly when the partner id is not blank. */
  lemma DerivedNumberPasses(c: CreateReq, n: nat)
    requires S.CreateFieldsValid(c) && S.IsDynamic(c) && c.vaNo == "" && |c.vaType| == 2
    requires c.generated == Some(Q.CustomerNo(c.vaType, n))
    ensures match S.Number(c)
            case Numbered(customerNo, vaNo) =>
              && customerNo == Q.CustomerNo(c.vaType, n)
              && (RequireVAIdentity(c.partner, customerNo, vaNo).None? <==> Trim(c.partner) != "")
            case NumberInvalid => |c.partner| > MAX_PARTNER_SERVICE_ID
            case NumberUnavailable => false
  {
    var customerNo := Q.CustomerNo(c.vaType, n);
    assert |customerNo| == 18;
    CustomerNoNotBlank(c.vaType, n);
    if |c.partner| <= MAX_PARTNER_SERVICE_ID {
      ConcatenationPassesExactlyWhen(c.partner, customerNo);
    }
  }

  /** What the partner column makes of an id CreateVA stored is at most 8 characters long and trims to the same. */
  lemma StoredPartner(partner: string)
    requires T.Fits(partner, T.PARTNER_WIDTH)
    ensures var stored := T.Clip(partner, T.PARTNER_WIDTH);
            |stored| <= MAX_PARTNER_SERVICE_ID && Trim(stored) == Trim(partner)
  {
    if |partner| > T.PARTNER_WIDTH {
      var stored := partner[..T.PARTNER_WIDTH];
      var left, right := TrimSplits(stored);
      var cut := partner[T.PARTNER_WIDTH..];
      assert partner == left + Trim(stored) + (right + cut);
      TrimOfPadding(left, Trim(stored), right + cut);
    }
  }

  /** The partner id of a created VA fits its column. */
  lemma CreatedPartnerFits(db: Db, c: CreateReq)
    requires S.CreateVA(db, c).code == Created
    ensures T.Fits(c.partner, T.PARTNER_WIDTH)
  {
  }

  /** A static or unmanaged number that CreateVA stored passes the check, under the partner id as stored, exactly
      when neither half is blank. Under the id as the merchant sent it, the id must also have at most 8 characters:
      a longer one was stored only because the excess is blanks. */
  lemma StaticNumberPassesExactlyWhen(db: Db, c: CreateReq)
    requires S.CreateVA(db, c).code == Created && !S.IsDynamic(c)
    ensures RequireVAIdentity(T.Clip(c.partner, T.PARTNER_WIDTH), c.customerNo, c.vaNo).None?
            <==> Trim(c.partner) != "" && Trim(c.customerNo) != ""
    ensures RequireVAIdentity(c.partner, c.customerNo, c.vaNo).None?
            <==> Trim(c.partner) != "" && Trim(c.customerNo) != "" && |c.partner| <= MAX_PARTNER_SERVICE_ID
  {
    CreatedPartnerFits(db, c);
    StoredPartner(c.partner);
    ConcatenationPassesExactlyWhen(c.partner, c.customerNo);
    StoredIdentityPasses(c.partner, c.customerNo);
  }

  lemma StoredIdentityPasses(partner: string, customerNo: string)
    requires T.Fits(partner, T.PARTNER_WIDTH)
    requires |customerNo| <= S.MAX_ISSUED_CUSTOMER_NO && |partner + customerNo| <= S.MAX_ISSUED_VA_NO
    ensures RequireVAIdentity(T.Clip(partner, T.PARTNER_WIDTH), customerNo, partner + customerNo).None?
            <==> Trim(partner) != "" && Trim(customerNo) != ""
  {
    StoredPartner(partner);
    if Trim(partner) != "" && Trim(customerNo) != "" {
      TrimOfConcat(partner, customerNo);
    }
  }

  /** A partner id with more than 8 characters and no blank excess is refused at creation. */
  lemma LongPartnerRefused(db: Db, c: CreateReq, i: nat)
    requires MAX_PARTNER_SERVICE_ID <= i < |c.partner| && c.partner[i] != ' '
    ensures S.CreateVA(db, c).code != Created
  {
    if S.CreateVA(db, c).code == Created {
      CreatedPartnerFits(db, c);
    }
  }
}
