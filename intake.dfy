/**
 * What the two donation-submission routes share: the JSON body, the
 * required-field check, the optional description, and the conditional
 * encryption of the resident-number prefix.
 */
module Intake {
  import opened Wrappers
  import opened Text
  import opened Donations
  import Crypto

  /** The JSON body of a submission; an absent or `null` field is `None`. */
  datatype DonationRequest = DonationRequest(
    lectureTitle: Option<string>,
    lectureDescription: Option<string>,
    amount: Option<int>,
    name: Option<string>,
    phone: Option<string>,
    email: Option<string>,
    receiptRequired: bool,
    residentNumberPrefix: Option<string>)

  const MissingRequiredMessage: string := "필수 항목을 입력해주세요."

  /** JavaScript truthiness of the amount: present and not zero. */
  predicate AmountTruthy(amount: Option<int>) {
    amount.Some? && amount.value != 0
  }

  /** `!lecture_title || !name || !phone || !email || !amount`: the only server-side validation. */
  predicate MissingRequired(req: DonationRequest) {
    || !Truthy(req.lectureTitle)
    || !Truthy(req.name)
    || !Truthy(req.phone)
    || !Truthy(req.email)
    || !AmountTruthy(req.amount)
  }

  /** `lecture_description || null`. */
  function DescriptionField(req: DonationRequest): (r: Option<string>)
    ensures r.Some? <==> Truthy(req.lectureDescription)
    ensures r.Some? ==> r == req.lectureDescription
  {
    if Truthy(req.lectureDescription) then req.lectureDescription else None
  }

  /** The prefix to encrypt: only when a receipt is asked for and a prefix was sent. */
  function ResidentPlaintext(req: DonationRequest): (r: Option<string>)
    ensures r.Some? <==> req.receiptRequired && Truthy(req.residentNumberPrefix)
    ensures r.Some? ==> r == req.residentNumberPrefix
  {
    if req.receiptRequired && Truthy(req.residentNumberPrefix) then req.residentNumberPrefix else None
  }

  /**
   * The value of `resident_number_encrypted`: `null` unless a receipt is asked
   * for and a prefix was sent; encryption throws on a bad secret; the stored
   * blob decrypts back to the submitted prefix.
   */
  function SealResident(secret: Option<string>, iv: Crypto.Iv, req: DonationRequest): (r: Result<Option<Blob>>)
    ensures r.Success? <==> ResidentPlaintext(req).None? || Crypto.EncryptionKey(secret).Success?
    ensures r.Failure? ==> r.error == Crypto.EncryptionKey(secret).error
    ensures r.Success? ==> (r.value.Some? <==> ResidentPlaintext(req).Some?)
    ensures r.Success? && r.value.Some? ==>
      Crypto.Decrypt(secret, r.value.value) == Success(ResidentPlaintext(req).value)
  {
    match ResidentPlaintext(req)
    case None => Success(None)
    case Some(prefix) =>
      match Crypto.Encrypt(secret, iv, prefix)
      case Failure(e) => Failure(e)
      case Success(blob) =>
        Crypto.DecryptEncrypt(secret, iv, prefix);
        Success(Some(blob))
  }

  /** The `pending` row a submission inserts. */
  function PendingRecord(
    req: DonationRequest, id: Id, now: Timestamp, m: PaymentMethod,
    encrypted: Option<Blob>, orderId: Option<string>, depositName: Option<string>): Donation
    requires !MissingRequired(req)
  {
    Donation(
      id, now, req.lectureTitle.value, DescriptionField(req), req.amount.value, m, Pending,
      None, orderId, req.name.value, req.phone.value, req.email.value, req.receiptRequired,
      encrypted, depositName, None, None)
  }
}
