/**
 * The donor's form: client-side validation in a fixed order, the request it
 * sends, and what happens with the reply.
 */
module DonationForm {
  import opened Wrappers
  import opened Text
  import opened Donations
  import opened Intake
  import KakaoPayReady

  const MinAmount: int := 1000
  const PrefixLength: nat := 7
  const CampaignTitle: string := "에코행복연구소 자유후원"

  const AmountTooSmall: string := "최소 기부 금액은 1,000원입니다."
  const FieldsMissing: string := "이름, 연락처, 이메일을 모두 입력해주세요."
  const PrefixNeeded: string := "영수증 발급을 위해 주민번호 앞 7자리를 입력해주세요."
  const GenericError: string := "오류가 발생했습니다."
  const NoPaymentUrl: string := "결제 URL을 받지 못했습니다."

  const BankTransferEndpoint: string := "/api/donations/bank-transfer"
  const ReadyEndpoint: string := "/api/donations/kakaopay/ready"
  const BankTransferSuccessPath: string := "/success/bank-transfer?id="

  /** The form's fields at submission. */
  datatype FormInput = FormInput(
    amount: int,
    name: string,
    phone: string,
    email: string,
    residentNumberPrefix: string,
    receiptRequired: bool,
    paymentMethod: PaymentMethod)

  /** The first failing check, in the order amount, contact fields, resident prefix. */
  function Validate(f: FormInput): (r: Option<string>)
    ensures f.amount < MinAmount ==> r == Some(AmountTooSmall)
    ensures f.amount >= MinAmount && (Trim(f.name) == [] || Trim(f.phone) == [] || Trim(f.email) == []) ==>
      r == Some(FieldsMissing)
    ensures f.amount >= MinAmount && Trim(f.name) != [] && Trim(f.phone) != [] && Trim(f.email) != []
              && f.receiptRequired && |f.residentNumberPrefix| != PrefixLength ==>
      r == Some(PrefixNeeded)
    ensures r.None? <==>
      && f.amount >= MinAmount
      && Trim(f.name) != [] && Trim(f.phone) != [] && Trim(f.email) != []
      && (f.receiptRequired ==> |f.residentNumberPrefix| == PrefixLength)
    ensures r.Some? ==> r.value in {AmountTooSmall, FieldsMissing, PrefixNeeded}
  {
    if f.amount < MinAmount then Some(AmountTooSmall)
    else if Trim(f.name) == [] || Trim(f.phone) == [] || Trim(f.email) == [] then Some(FieldsMissing)
    else if f.receiptRequired && |f.residentNumberPrefix| != PrefixLength then Some(PrefixNeeded)
    else None
  }

  /**
   * The prefix field's value after typing `raw`: the input holds at most seven
   * characters and the change handler strips everything but digits.
   */
  function PrefixInput(raw: string): (r: string)
    ensures |r| <= PrefixLength && AllDigits(r)
    ensures AllDigits(Take(raw, PrefixLength)) ==> r == Take(raw, PrefixLength)
  {
    DigitsSpec(Take(raw, PrefixLength));
    Digits(Take(raw, PrefixLength))
  }

  /** The JSON body both endpoints receive; the prefix is sent only when a receipt is asked for. */
  function BuildRequest(f: FormInput): (r: DonationRequest)
    ensures r.residentNumberPrefix.Some? <==> f.receiptRequired
    ensures r.lectureTitle == Some(CampaignTitle) && r.amount == Some(f.amount)
    ensures r.name == Some(f.name) && r.phone == Some(f.phone) && r.email == Some(f.email)
    ensures r.receiptRequired == f.receiptRequired
  {
    DonationRequest(
      Some(CampaignTitle), None, Some(f.amount), Some(f.name), Some(f.phone), Some(f.email),
      f.receiptRequired, if f.receiptRequired then Some(f.residentNumberPrefix) else None)
  }

  /** A form the client accepts always passes the server's required-field check. */
  lemma ValidFormPassesServerCheck(f: FormInput)
    requires Validate(f).None?
    ensures !MissingRequired(BuildRequest(f))
    ensures f.receiptRequired ==> ResidentPlaintext(BuildRequest(f)) == Some(f.residentNumberPrefix)
  {
    TrimEmptyIffBlank(f.name);
    TrimEmptyIffBlank(f.phone);
    TrimEmptyIffBlank(f.email);
  }

  function Endpoint(m: PaymentMethod): string {
    match m
    case BankTransfer => BankTransferEndpoint
    case KakaoPay => ReadyEndpoint
  }

  /** `data.error || '오류가 발생했습니다.'`. */
  function ErrorText(message: string): (r: string)
    ensures r != []
    ensures message != [] ==> r == message
  {
    if message != [] then message else GenericError
  }

  /** Where the browser goes after "ready": the PC page, else the mobile page, else an error. */
  function RedirectTarget(pcUrl: Option<string>, mobileUrl: Option<string>): (r: Result<string>)
    ensures Truthy(pcUrl) ==> r == Success(pcUrl.value)
    ensures !Truthy(pcUrl) && Truthy(mobileUrl) ==> r == Success(mobileUrl.value)
    ensures r.Failure? <==> !Truthy(pcUrl) && !Truthy(mobileUrl)
    ensures r.Failure? ==> r.error == NoPaymentUrl
  {
    if Truthy(pcUrl) then Success(pcUrl.value)
    else if Truthy(mobileUrl) then Success(mobileUrl.value)
    else Failure(NoPaymentUrl)
  }

  /** The form's component state. */
  class DonationFormState {
    var error: string
    var loading: bool
    /** Where the browser has been sent, if anywhere. */
    var location: Option<string>

    constructor ()
      ensures error == "" && !loading && location.None?
    {
      error, loading, location := "", false, None;
    }

    /** `handleSubmit` up to the request: the endpoint and body to send, or none when a check fails. */
    method Submit(f: FormInput) returns (request: Option<(string, DonationRequest)>)
      modifies this
      ensures Validate(f).Some? ==> request.None? && error == Validate(f).value && loading == old(loading)
      ensures Validate(f).None? ==>
        request == Some((Endpoint(f.paymentMethod), BuildRequest(f))) && error == "" && loading
      ensures location == old(location)
    {
      error := "";
      var problem := Validate(f);
      if problem.Some? {
        error := problem.value;
        return None;
      }
      loading := true;
      request := Some((Endpoint(f.paymentMethod), BuildRequest(f)));
    }

    /** The bank-transfer reply: go to the success page, or show the error and stop loading. */
    method OnBankTransferReply(reply: Reply<Id>)
      modifies this
      ensures reply.Ok? ==>
        location == Some(BankTransferSuccessPath + reply.value) && error == old(error) && loading == old(loading)
      ensures reply.Error? ==>
        error == ErrorText(reply.message) && !loading && location == old(location)
    {
      match reply
      case Ok(id) =>
        location := Some(BankTransferSuccessPath + id);
      case Error(_, message) =>
        error := ErrorText(message);
        loading := false;
    }

    /** The "ready" reply: go to the processor's page, or show the error and stop loading. */
    method OnReadyReply(reply: Reply<KakaoPayReady.ReadyResult>)
      modifies this
      ensures reply.Ok? && RedirectTarget(reply.value.pcUrl, reply.value.mobileUrl).Success? ==>
        && location == Some(RedirectTarget(reply.value.pcUrl, reply.value.mobileUrl).value)
        && error == old(error) && loading == old(loading)
      ensures reply.Ok? && RedirectTarget(reply.value.pcUrl, reply.value.mobileUrl).Failure? ==>
        error == NoPaymentUrl && !loading && location == old(location)
      ensures reply.Error? ==>
        error == ErrorText(reply.message) && !loading && location == old(location)
    {
      match reply
      case Ok(result) =>
        var target := RedirectTarget(result.pcUrl, result.mobileUrl);
        if target.Success? {
          location := Some(target.value);
        } else {
          error := target.error;
          loading := false;
        }
      case Error(_, message) =>
        error := ErrorText(message);
        loading := false;
    }
  }
}
