/**
 * `POST /api/donations/kakaopay/approve`: after the donor has paid on the
 * processor's page, approve the payment, mark the donation completed and
 * send a confirmation email.
 */
module KakaoPayApprove {
  import opened Wrappers
  import opened Text
  import opened Donations
  import opened KakaoPayReady
  import Store

  const MissingParameters: string := "필수 파라미터가 없습니다."
  const PaymentNotFound: string := "결제 정보를 찾을 수 없습니다."
  const ApproveFallbackMessage: string := "카카오페이 승인 오류"

  /** The body of the processor's "approve" request, built from the stored record. */
  datatype ApproveRequest = ApproveRequest(
    cid: string,
    tid: Option<string>,
    partnerOrderId: Option<string>,
    partnerUserId: Id,
    pgToken: string)

  /**
   * The handler. `lookupError` is a failure of the row lookup other than a
   * missing row; `processor` is the processor's reply; `updateError` is the
   * outcome of the status update, which the handler does not look at;
   * `clientError` is the exception the mail client's constructor raises, if
   * it does, after the update, which the outer `catch` turns into a server
   * error. `emailAttempted` says whether a confirmation email was sent for.
   */
  method Approve(
    store: Store.DonationStore, cfg: Config, pgToken: Option<string>, donationId: Option<string>,
    lookupError: Option<string>, processor: ProcessorReply, updateError: Option<string>,
    clientError: Option<string>)
    returns (reply: Reply<()>, sent: Option<ApproveRequest>, emailAttempted: bool)
    requires store.Valid()
    modifies store
    ensures store.Valid()
    ensures store.rows.Keys == old(store.rows).Keys
    ensures forall id :: id in old(store.rows) ==> Evolves(old(store.rows)[id], store.rows[id])
    ensures !Truthy(pgToken) || !Truthy(donationId) ==> reply == Error(BadRequest, MissingParameters)
    ensures Truthy(pgToken) && Truthy(donationId) && !SupabaseConfigured(cfg) ==>
      reply == Error(ServerError, SupabaseNotConfigured)
    ensures Truthy(pgToken) && Truthy(donationId) && SupabaseConfigured(cfg)
              && (lookupError.Some? || donationId.value !in old(store.rows)) ==>
      reply == Error(NotFound, PaymentNotFound)
    ensures Truthy(pgToken) && Truthy(donationId) && SupabaseConfigured(cfg)
              && lookupError.None? && donationId.value in old(store.rows) && !ProcessorConfigured(cfg) ==>
      reply == Error(ServerError, ProcessorNotConfigured)
    ensures sent.Some? <==>
      && Truthy(pgToken) && Truthy(donationId) && SupabaseConfigured(cfg)
      && lookupError.None? && donationId.value in old(store.rows)
      && ProcessorConfigured(cfg)
    ensures sent.Some? ==>
      var d := old(store.rows)[donationId.value];
      sent.value == ApproveRequest(cfg.kakaopayCid.value, d.kakaopayTid, d.kakaopayOrderId, d.id, pgToken.value)
    ensures reply.Ok? <==> sent.Some? && ProcessorSucceeded(processor) && clientError.None?
    ensures sent.Some? && !ProcessorSucceeded(processor) ==>
      reply == Error(ServerError, ProcessorMessage(processor, ApproveFallbackMessage))
    ensures sent.Some? && ProcessorSucceeded(processor) && clientError.Some? ==>
      reply == Error(ServerError, clientError.value)
    ensures !(sent.Some? && ProcessorSucceeded(processor)) ==> store.rows == old(store.rows)
    ensures sent.Some? && ProcessorSucceeded(processor) ==>
      var id := donationId.value;
      store.rows == old(store.rows)[id := store.rows[id]]
      && (updateError.None? ==> store.rows[id] == Store.Apply(old(store.rows)[id], Store.MarkCompleted))
      && (updateError.None? ==> store.rows[id].status == Completed)
      && (updateError.Some? ==> store.rows[id] == old(store.rows)[id])
    ensures emailAttempted <==> reply.Ok? && old(store.rows)[donationId.value].email != ""
  {
    sent, emailAttempted := None, false;
    if !Truthy(pgToken) || !Truthy(donationId) {
      return Error(BadRequest, MissingParameters), None, false;
    }
    if !SupabaseConfigured(cfg) {
      return Error(ServerError, SupabaseNotConfigured), None, false;
    }
    var id := donationId.value;
    if lookupError.Some? || id !in store.rows {
      return Error(NotFound, PaymentNotFound), None, false;
    }
    var d := store.rows[id];
    if !ProcessorConfigured(cfg) {
      return Error(ServerError, ProcessorNotConfigured), None, false;
    }
    sent := Some(ApproveRequest(cfg.kakaopayCid.value, d.kakaopayTid, d.kakaopayOrderId, d.id, pgToken.value));
    if !ProcessorSucceeded(processor) {
      return Error(ServerError, ProcessorMessage(processor, ApproveFallbackMessage)), sent, false;
    }
    Store.CompletionIsAllowed(d);
    var _ := store.Update(id, Store.MarkCompleted, updateError);
    if clientError.Some? {
      return Error(ServerError, clientError.value), sent, false;
    }
    emailAttempted := d.email != "";
    reply := Ok(());
  }
}
