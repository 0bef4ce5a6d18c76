/** `POST /api/donations/bank-transfer`: record a pledge to be paid by bank transfer. */
module BankTransfer {
  import opened Wrappers
  import opened Text
  import opened Donations
  import opened Intake
  import Crypto
  import Store
  import Seqs

  /**
   * `deposit_name_format`: the donor's name followed by the last four digits
   * of the phone number (all of them when there are fewer than four).
   */
  function DepositNameFormat(name: string, phone: string): (r: string)
    ensures |r| == |name| + Min(4, |Digits(phone)|)
    ensures r[..|name|] == name
    ensures AllDigits(r[|name|..])
    ensures Digits(phone) == Digits(phone)[..|Digits(phone)| - (|r| - |name|)] + r[|name|..]
  {
    DigitsSpec(phone);
    var last4 := TakeLast(Digits(phone), 4);
    assert (name + last4)[|name|..] == last4;
    name + last4
  }

  /** A phone number written as three digit groups separated by dashes keeps the groups. */
  lemma DigitsOfDashedGroups(a: string, b: string, c: string)
    requires AllDigits(a) && AllDigits(b) && AllDigits(c)
    ensures Digits(a + ['-'] + b + ['-'] + c) == a + b + c
  {
    var dash := ['-'];
    DigitsAppend(a + dash + b + dash, c);
    DigitsAppend(a + dash + b, dash);
    DigitsAppend(a + dash, b);
    DigitsAppend(a, dash);
    DigitsKeep(a);
    DigitsKeep(b);
    DigitsKeep(c);
    DigitsDrop('-');
  }

  /** For such a number whose last group has four digits, the deposit name ends with that group. */
  lemma DepositNameOfDashedPhone(name: string, a: string, b: string, c: string)
    requires AllDigits(a) && AllDigits(b) && AllDigits(c) && |c| == 4
    ensures DepositNameFormat(name, a + ['-'] + b + ['-'] + c) == name + c
  {
    DigitsOfDashedGroups(a, b, c);
    var digits := a + b + c;
    assert TakeLast(digits, 4) == digits[|digits| - 4..] == c;
  }

  /** The example a donor is shown: name 홍길동 with phone 010-1234-5678. */
  lemma DepositNameExample(name: string, phone: string)
    requires name == "홍길동" && phone == "010-1234-5678"
    ensures DepositNameFormat(name, phone) == "홍길동5678"
  {
    var a, b, c := "010", "1234", "5678";
    assert phone == a + ['-'] + b + ['-'] + c;
    DepositNameOfDashedPhone(name, a, b, c);
  }

  /** The handler; `newId` and `now` are the values the database assigns to the new row. */
  method SubmitBankTransfer(
    store: Store.DonationStore, cfg: Config, req: DonationRequest,
    newId: Id, now: Timestamp, iv: Crypto.Iv, insertError: Option<string>)
    returns (reply: Reply<Id>)
    requires store.Valid()
    modifies store
    ensures store.Valid()
    ensures MissingRequired(req) ==> reply == Error(BadRequest, MissingRequiredMessage)
    ensures reply.Ok? <==>
      && !MissingRequired(req)
      && SealResident(cfg.encryptionSecret, iv, req).Success?
      && SupabaseConfigured(cfg)
      && insertError.None? && newId !in old(store.rows)
    ensures !MissingRequired(req) && SealResident(cfg.encryptionSecret, iv, req).Failure? ==>
      reply == Error(ServerError, Crypto.EncryptionKey(cfg.encryptionSecret).error)
    ensures !MissingRequired(req) && SealResident(cfg.encryptionSecret, iv, req).Success? && !SupabaseConfigured(cfg) ==>
      reply == Error(ServerError, SupabaseNotConfigured)
    ensures !MissingRequired(req) && SealResident(cfg.encryptionSecret, iv, req).Success? && SupabaseConfigured(cfg) ==>
      && (insertError.Some? ==> reply == Error(ServerError, insertError.value))
      && (insertError.None? && newId in old(store.rows) ==> reply == Error(ServerError, Store.DuplicateKey))
    ensures reply.Error? ==> store.rows == old(store.rows) && reply.status in {BadRequest, ServerError}
    ensures reply.Ok? ==>
      && reply.value == newId
      && newId in store.rows
      && store.rows == old(store.rows)[newId := store.rows[newId]]
      && var d := store.rows[newId];
      && d == PendingRecord(req, newId, now, BankTransfer, SealResident(cfg.encryptionSecret, iv, req).value,
                            None, Some(DepositNameFormat(req.name.value, req.phone.value)))
      && d.id == newId && d.createdAt == now
      && d.lectureTitle == req.lectureTitle.value
      && d.name == req.name.value && d.phone == req.phone.value && d.email == req.email.value
      && d.paymentMethod == BankTransfer && d.status == Pending
      && d.kakaopayTid.None? && d.kakaopayOrderId.None?
      && d.depositNameFormat == Some(DepositNameFormat(req.name.value, req.phone.value))
      && d.amount == req.amount.value
      && d.receiptRequired == req.receiptRequired
      && d.lectureDescription == DescriptionField(req)
      && (d.residentNumberEncrypted.Some? <==> ResidentPlaintext(req).Some?)
      && (d.residentNumberEncrypted.Some? ==>
            Crypto.Decrypt(cfg.encryptionSecret, d.residentNumberEncrypted.value) == Success(ResidentPlaintext(req).value))
      && d.depositConfirmedAt.None? && d.depositConfirmedBy.None?
  {
    if MissingRequired(req) {
      return Error(BadRequest, MissingRequiredMessage);
    }
    var depositName := DepositNameFormat(req.name.value, req.phone.value);
    var sealed := SealResident(cfg.encryptionSecret, iv, req);
    if sealed.Failure? {
      return Error(ServerError, sealed.error);
    }
    if !SupabaseConfigured(cfg) {
      return Error(ServerError, SupabaseNotConfigured);
    }
    var record := PendingRecord(req, newId, now, BankTransfer, sealed.value, None, Some(depositName));
    var failure := store.Insert(record, insertError);
    if failure.Some? {
      return Error(ServerError, failure.value);
    }
    reply := Ok(newId);
  }
}
