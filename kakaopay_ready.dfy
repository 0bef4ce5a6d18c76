/**
 * `POST /api/donations/kakaopay/ready`: record a pending KakaoPay donation,
 * ask the processor to prepare a payment for it, and hand the payment-page
 * URLs back to the browser.
 */
module KakaoPayReady {
  import opened Wrappers
  import opened Text
  import opened Donations
  import opened Intake
  import Crypto
  import Store

  const ProcessorNotConfigured: string := "카카오페이 설정이 필요합니다."
  const ReadyFallbackMessage: string := "카카오페이 API 오류"
  const DefaultBaseUrl: string := "http://localhost:3000"
  const ItemPrefix: string := "[에코행복연구소 자유후원] "

  /** What the handler reads from the processor's reply. */
  datatype ProcessorReply = ProcessorReply(
    httpOk: bool,
    code: Option<int>,
    msg: Option<string>,
    tid: Option<string>,
    pcUrl: Option<string>,
    mobileUrl: Option<string>)

  /** `kakaoRes.ok && kakaoData.code === 0`. */
  predicate ProcessorSucceeded(p: ProcessorReply) {
    p.httpOk && p.code == Some(0)
  }

  /** `kakaoData.msg || fallback`. */
  function ProcessorMessage(p: ProcessorReply, fallback: string): (r: string)
    ensures Truthy(p.msg) ==> r == p.msg.value
    ensures !Truthy(p.msg) ==> r == fallback
  {
    if Truthy(p.msg) then p.msg.value else fallback
  }

  /** Both processor credentials are set. */
  predicate ProcessorConfigured(cfg: Config) {
    Truthy(cfg.kakaopayCid) && Truthy(cfg.kakaopaySecret)
  }

  /** `NEXT_PUBLIC_APP_URL || 'http://localhost:3000'`. */
  function BaseUrl(cfg: Config): string {
    if Truthy(cfg.appUrl) then cfg.appUrl.value else DefaultBaseUrl
  }

  /**
   * `DON-${Date.now()}-${Math.random().toString(36).slice(2, 9)}`: `nowMs` is
   * the clock in milliseconds and `random36` the base-36 rendering of the
   * random number (`0.` followed by its digits).
   */
  function OrderId(nowMs: nat, random36: string): (r: string)
    ensures "DON-" <= r
    ensures |r| <= 4 + |Decimal(nowMs)| + 1 + 7
  {
    "DON-" + Decimal(nowMs) + "-" + Slice(random36, 2, 9)
  }

  /** Two orders created at different milliseconds never share an order id, whatever the random part. */
  lemma OrderIdsDistinct(t1: nat, r1: string, t2: nat, r2: string)
    requires t1 != t2
    ensures OrderId(t1, r1) != OrderId(t2, r2)
  {
    var d1, d2 := Decimal(t1), Decimal(t2);
    var o1, o2 := OrderId(t1, r1), OrderId(t2, r2);
    DecimalRoundTrip(t1);
    DecimalRoundTrip(t2);
    assert d1 != d2;
    assert o1[4 + |d1|] == '-' && o2[4 + |d2|] == '-';
    if |d1| < |d2| {
      assert o2[4 + |d1|] == d2[|d1|];
    } else if |d2| < |d1| {
      assert o1[4 + |d2|] == d1[|d2|];
    } else {
      assert o1[4..4 + |d1|] == d1;
      assert o2[4..4 + |d2|] == d2;
    }
  }

  /** The body of the processor's "ready" request. */
  datatype ReadyRequest = ReadyRequest(
    cid: string,
    partnerOrderId: string,
    partnerUserId: Id,
    itemName: string,
    quantity: int,
    totalAmount: int,
    taxFreeAmount: int,
    approvalUrl: string,
    cancelUrl: string,
    failUrl: string)

  /** The reply to the browser: the processor's transaction id and payment-page URLs. */
  datatype ReadyResult = ReadyResult(tid: Option<string>, pcUrl: Option<string>, mobileUrl: Option<string>)

  /** The request prepared for donation `id` with order `orderId`. */
  function ReadyRequestFor(cfg: Config, req: DonationRequest, id: Id, orderId: string): (r: ReadyRequest)
    requires ProcessorConfigured(cfg) && !MissingRequired(req)
    ensures r.partnerUserId == id && r.partnerOrderId == orderId
    ensures r.totalAmount == req.amount.value && r.quantity == 1 && r.taxFreeAmount == 0
    ensures r.itemName == ItemPrefix + req.lectureTitle.value
    ensures BaseUrl(cfg) <= r.approvalUrl
    ensures |id| <= |r.approvalUrl| && r.approvalUrl[|r.approvalUrl| - |id|..] == id
  {
    var base := BaseUrl(cfg);
    var approval := base + "/success/kakaopay?donation_id=" + id;
    assert approval[|approval| - |id|..] == id;
    ReadyRequest(
      cfg.kakaopayCid.value, orderId, id, ItemPrefix + req.lectureTitle.value, 1,
      req.amount.value, 0, approval, base + "/cancel", base + "/fail")
  }

  /**
   * The handler. `newId`/`now` are what the database assigns to the new row;
   * `processor` is the processor's reply; `tidWriteError` is the outcome of the
   * transaction-id write-back, which the handler does not look at.
   */
  method Ready(
    store: Store.DonationStore, cfg: Config, req: DonationRequest,
    newId: Id, now: Timestamp, nowMs: nat, random36: string, iv: Crypto.Iv,
    insertError: Option<string>, processor: ProcessorReply, tidWriteError: Option<string>)
    returns (reply: Reply<ReadyResult>, sent: Option<ReadyRequest>)
    requires store.Valid()
    modifies store
    ensures store.Valid()
    ensures MissingRequired(req) ==> reply == Error(BadRequest, MissingRequiredMessage)
    ensures !MissingRequired(req) && !ProcessorConfigured(cfg) ==> reply == Error(ServerError, ProcessorNotConfigured)
    ensures sent.Some? <==>
      && !MissingRequired(req) && ProcessorConfigured(cfg)
      && SealResident(cfg.encryptionSecret, iv, req).Success?
      && SupabaseConfigured(cfg)
      && insertError.None? && newId !in old(store.rows)
    ensures !MissingRequired(req) && ProcessorConfigured(cfg) && SealResident(cfg.encryptionSecret, iv, req).Failure? ==>
      reply == Error(ServerError, Crypto.EncryptionKey(cfg.encryptionSecret).error)
    ensures !MissingRequired(req) && ProcessorConfigured(cfg) && SealResident(cfg.encryptionSecret, iv, req).Success?
              && !SupabaseConfigured(cfg) ==>
      reply == Error(ServerError, SupabaseNotConfigured)
    ensures !MissingRequired(req) && ProcessorConfigured(cfg) && SealResident(cfg.encryptionSecret, iv, req).Success?
              && SupabaseConfigured(cfg) ==>
      && (insertError.Some? ==> reply == Error(ServerError, insertError.value))
      && (insertError.None? && newId in old(store.rows) ==> reply == Error(ServerError, Store.DuplicateKey))
    ensures sent.None? ==> store.rows == old(store.rows) && reply.Error?
    ensures sent.Some? ==>
      && sent.value == ReadyRequestFor(cfg, req, newId, OrderId(nowMs, random36))
      && newId in store.rows
      && store.rows == old(store.rows)[newId := store.rows[newId]]
      && var d := store.rows[newId];
      && d == PendingRecord(req, newId, now, KakaoPay, SealResident(cfg.encryptionSecret, iv, req).value,
                            Some(OrderId(nowMs, random36)), None).(kakaopayTid := d.kakaopayTid)
      && d.id == newId && d.createdAt == now
      && d.lectureTitle == req.lectureTitle.value && d.lectureDescription == DescriptionField(req)
      && d.name == req.name.value && d.phone == req.phone.value && d.email == req.email.value
      && d.paymentMethod == KakaoPay && d.status == Pending
      && d.kakaopayOrderId == Some(OrderId(nowMs, random36))
      && d.depositNameFormat.None?
      && d.amount == req.amount.value
      && d.receiptRequired == req.receiptRequired
      && (d.residentNumberEncrypted.Some? <==> ResidentPlaintext(req).Some?)
      && (d.residentNumberEncrypted.Some? ==>
            Crypto.Decrypt(cfg.encryptionSecret, d.residentNumberEncrypted.value) == Success(ResidentPlaintext(req).value))
      && d.kakaopayTid == (if ProcessorSucceeded(processor) && tidWriteError.None? then processor.tid else None)
    ensures reply.Ok? <==> sent.Some? && ProcessorSucceeded(processor)
    ensures reply.Ok? ==> reply.value == ReadyResult(processor.tid, processor.pcUrl, processor.mobileUrl)
    ensures sent.Some? && !ProcessorSucceeded(processor) ==>
      reply == Error(ServerError, ProcessorMessage(processor, ReadyFallbackMessage))
  {
    sent := None;
    if MissingRequired(req) {
      return Error(BadRequest, MissingRequiredMessage), None;
    }
    if !ProcessorConfigured(cfg) {
      return Error(ServerError, ProcessorNotConfigured), None;
    }
    var sealed := SealResident(cfg.encryptionSecret, iv, req);
    if sealed.Failure? {
      return Error(ServerError, sealed.error), None;
    }
    if !SupabaseConfigured(cfg) {
      return Error(ServerError, SupabaseNotConfigured), None;
    }
    var orderId := OrderId(nowMs, random36);
    var record := PendingRecord(req, newId, now, KakaoPay, sealed.value, Some(orderId), None);
    var failure := store.Insert(record, insertError);
    if failure.Some? {
      return Error(ServerError, failure.value), None;
    }
    sent := Some(ReadyRequestFor(cfg, req, newId, orderId));
    if !ProcessorSucceeded(processor) {
      return Error(ServerError, ProcessorMessage(processor, ReadyFallbackMessage)), sent;
    }
    var _ := store.Update(newId, Store.SetTid(processor.tid), tidWriteError);
    reply := Ok(ReadyResult(processor.tid, processor.pcUrl, processor.mobileUrl));
  }
}
