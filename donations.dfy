/**
 * The donation record, its enumerations, the deployment configuration and the
 * shape of handler replies, with the invariants every stored record keeps.
 */
module Donations {
  import opened Wrappers
  import opened Text

  type Id = string

  /** A point in time (`created_at`), ordered; its text rendering is not modelled. */
  type Timestamp = nat

  /** The decoded bytes of a base64 ciphertext blob. */
  type Blob = seq<byte>

  datatype PaymentMethod = BankTransfer | KakaoPay

  datatype DonationStatus = Pending | Completed | Failed | Cancelled

  /** The value stored in the `payment_method` column. */
  function MethodName(m: PaymentMethod): string {
    match m
    case BankTransfer => "bank_transfer"
    case KakaoPay => "kakaopay"
  }

  /** The value stored in the `status` column. */
  function StatusName(s: DonationStatus): string {
    match s
    case Pending => "pending"
    case Completed => "completed"
    case Failed => "failed"
    case Cancelled => "cancelled"
  }

  /** One row of the `donations` table. */
  datatype Donation = Donation(
    id: Id,
    createdAt: Timestamp,
    lectureTitle: string,
    lectureDescription: Option<string>,
    amount: int,
    paymentMethod: PaymentMethod,
    status: DonationStatus,
    kakaopayTid: Option<string>,
    kakaopayOrderId: Option<string>,
    name: string,
    phone: string,
    email: string,
    receiptRequired: bool,
    residentNumberEncrypted: Option<Blob>,
    depositNameFormat: Option<string>,
    depositConfirmedAt: Option<string>,
    depositConfirmedBy: Option<string>)

  /**
   * The record invariants: processor fields only on KakaoPay records, the
   * deposit-matching name only on bank transfers, an encrypted resident prefix
   * only when a receipt was asked for, and confirmation fields only on
   * completed bank transfers.
   */
  predicate WellFormed(d: Donation) {
    && (d.paymentMethod == BankTransfer ==> d.kakaopayTid.None? && d.kakaopayOrderId.None?)
    && (d.paymentMethod == KakaoPay ==> d.depositNameFormat.None?)
    && (d.residentNumberEncrypted.Some? ==> d.receiptRequired)
    && (d.depositConfirmedAt.Some? || d.depositConfirmedBy.Some? ==>
          d.paymentMethod == BankTransfer && d.status == Completed)
  }

  /** A record is eligible for a tax receipt when it is completed and asked for one. */
  predicate ReceiptEligible(status: DonationStatus, receiptRequired: bool) {
    status == Completed && receiptRequired
  }

  /** Confirming a deposit is allowed only for a pending bank transfer. */
  predicate ConfirmAllowed(d: Donation) {
    d.paymentMethod == BankTransfer && d.status == Pending
  }

  /**
   * How a stored record may change from one state of the store to a later one:
   * everything fixed at creation stays, the status never returns to `pending`,
   * and the processor transaction id and the confirmation fields, once written,
   * stay as they are.
   */
  predicate Evolves(before: Donation, after: Donation) {
    && after.id == before.id
    && after.createdAt == before.createdAt
    && after.lectureTitle == before.lectureTitle
    && after.lectureDescription == before.lectureDescription
    && after.amount == before.amount
    && after.paymentMethod == before.paymentMethod
    && after.kakaopayOrderId == before.kakaopayOrderId
    && after.name == before.name
    && after.phone == before.phone
    && after.email == before.email
    && after.receiptRequired == before.receiptRequired
    && after.residentNumberEncrypted == before.residentNumberEncrypted
    && after.depositNameFormat == before.depositNameFormat
    && (after.status == Pending ==> before.status == Pending)
    && (before.kakaopayTid.Some? ==> after.kakaopayTid == before.kakaopayTid)
    && (before.depositConfirmedAt.Some? ==> after.depositConfirmedAt == before.depositConfirmedAt)
    && (before.depositConfirmedBy.Some? ==> after.depositConfirmedBy == before.depositConfirmedBy)
  }

  /** The environment variables the handlers read. */
  datatype Config = Config(
    adminPassword: Option<string>,
    encryptionSecret: Option<string>,
    kakaopayCid: Option<string>,
    kakaopaySecret: Option<string>,
    supabaseUrl: Option<string>,
    supabaseServiceRoleKey: Option<string>,
    appUrl: Option<string>,
    orgName: Option<string>,
    orgUniqueNumber: Option<string>,
    production: bool)

  /** `getSupabase` throws unless both the URL and the service-role key are set. */
  predicate SupabaseConfigured(cfg: Config) {
    Truthy(cfg.supabaseUrl) && Truthy(cfg.supabaseServiceRoleKey)
  }

  const SupabaseNotConfigured: string := "Supabase not configured"

  const BadRequest: nat := 400
  const Unauthorized: nat := 401
  const NotFound: nat := 404
  const ServerError: nat := 500

  /** A JSON reply: the success payload, or an HTTP error status with its `error` message. */
  datatype Reply<+T> = Ok(value: T) | Error(status: nat, message: string)

  /** The `error` message of an admin request without a session. */
  const UnauthorizedMessage: string := "Unauthorized"
}
