/**
 * `GET /api/admin/receipts/generate`: tax receipts for the requested
 * donations that are completed and asked for one, as a single PDF or a zip
 * archive of PDFs.
 */
module ReceiptGenerator {
  import opened Wrappers
  import opened Text
  import opened Donations
  import opened AdminAuth
  import Seqs
  import Crypto
  import Store

  const IdsRequired: string := "ids required"
  const NoDonationsFound: string := "No donations found"
  const DefaultOrgName: string := "에코행복연구소 자유후원"
  const ArchiveName: string := "receipts.zip"
  const ResidentLabel: string := "주민번호: "
  const ResidentMask: string := "*******"
  const ResidentUnreadable: string := "주민번호: (암호화됨)"

  // ---------------------------------------------------------------------------
  // Request parsing and selection

  /** The query string: `ids`, `email` and `zip`, each possibly absent. */
  datatype ReceiptQuery = ReceiptQuery(ids: Option<string>, email: Option<string>, zip: Option<string>)

  /** `ids.split(',').filter(Boolean)`. */
  function ParseIds(s: string): (r: seq<string>)
    ensures forall i :: 0 <= i < |r| ==> r[i] != [] && ',' !in r[i]
  {
    NonEmpty(Split(s, ','))
  }

  /** `email === 'true'`. */
  predicate SendEmail(q: ReceiptQuery) {
    q.email == Some("true")
  }

  /** `zip === '1'`. */
  predicate AsZip(q: ReceiptQuery) {
    q.zip == Some("1")
  }

  /** The query's row filter: a requested id, completed, with a receipt asked for. */
  predicate Selected(ids: seq<string>, d: Donation) {
    d.id in ids && ReceiptEligible(d.status, d.receiptRequired)
  }

  /** The rows the query returns, in the order the table yields them. */
  function SelectForReceipt(table: seq<Donation>, ids: seq<string>): (r: seq<Donation>)
    ensures forall i :: 0 <= i < |r| ==> r[i] in table && Selected(ids, r[i])
  {
    Seqs.Filter(table, (d: Donation) => Selected(ids, d))
  }

  /** A row is returned exactly when it is in the table, requested and eligible. */
  lemma SelectionExact(table: seq<Donation>, ids: seq<string>, d: Donation)
    ensures d in SelectForReceipt(table, ids) <==> d in table && d.id in ids && ReceiptEligible(d.status, d.receiptRequired)
  {
    Seqs.FilterMembership(table, (d: Donation) => Selected(ids, d), d);
  }

  // ---------------------------------------------------------------------------
  // Archive entry names

  /** `[a-zA-Z0-9가-힣]`: the characters a file name keeps. */
  predicate SafeChar(c: char) {
    'a' <= c <= 'z' || 'A' <= c <= 'Z' || '0' <= c <= '9' || '가' <= c <= '힣'
  }

  /** `name.replace(/[^a-zA-Z0-9가-힣]/g, '_')`. */
  function SafeName(name: string): (r: string)
    ensures |r| == |name|
    ensures forall i :: 0 <= i < |r| ==> (SafeChar(name[i]) ==> r[i] == name[i]) && (!SafeChar(name[i]) ==> r[i] == '_')
  {
    if name == [] then []
    else [if SafeChar(name[0]) then name[0] else '_'] + SafeName(name[1..])
  }

  /** The sanitised name holds only safe characters and `_`, so no path separator, dot or quote. */
  lemma {:induction false} SafeNameIsSafe(name: string)
    ensures forall c :: c in SafeName(name) ==> SafeChar(c) || c == '_'
    ensures '/' !in SafeName(name) && '\\' !in SafeName(name) && '.' !in SafeName(name) && '"' !in SafeName(name)
  {
    var r := SafeName(name);
    forall c | c in r
      ensures SafeChar(c) || c == '_'
    {
      var i :| 0 <= i < |r| && r[i] == c;
    }
  }

  /** Sanitising twice changes nothing more. */
  lemma SafeNameIdempotent(name: string)
    ensures SafeName(SafeName(name)) == SafeName(name)
  {
    var r := SafeName(name);
    SafeNameIsSafe(name);
    assert forall i :: 0 <= i < |r| ==> SafeChar(r[i]) || r[i] == '_';
  }

  /** `receipt_${safeName}_${id.slice(0, 8)}.pdf`. */
  function EntryName(d: Donation): (r: string)
    ensures "receipt_" <= r
    ensures |r| == |"receipt_"| + |d.name| + 1 + Min(8, |d.id|) + |".pdf"|
  {
    "receipt_" + SafeName(d.name) + "_" + Take(d.id, 8) + ".pdf"
  }

  /** Two donors' entries can only collide when their ids start with the same eight characters. */
  lemma EntryNamesDifferByIdPrefix(d1: Donation, d2: Donation)
    requires |d1.name| == |d2.name| && EntryName(d1) == EntryName(d2)
    ensures Take(d1.id, 8) == Take(d2.id, 8)
  {
    var n := |"receipt_"| + |d1.name| + 1;
    var e1, e2 := EntryName(d1), EntryName(d2);
    assert e1[n..|e1| - 4] == Take(d1.id, 8);
    assert e2[n..|e2| - 4] == Take(d2.id, 8);
  }

  // ---------------------------------------------------------------------------
  // Receipt contents

  /**
   * What a receipt prints besides the donation: the organisation name and
   * registration number, the issue date, the secret for the resident number,
   * and the locale renderings of an amount and a date.
   */
  datatype ReceiptContext = ReceiptContext(
    orgName: string,
    orgUniqueNumber: string,
    issuedOn: string,
    secret: Option<string>,
    amountText: int -> string,
    dateText: Timestamp -> string)

  /** `ORG_NAME || default` and `ORG_UNIQUE_NUMBER || ''`. */
  function ContextFor(cfg: Config, issuedOn: string, amountText: int -> string, dateText: Timestamp -> string): (r: ReceiptContext)
    ensures r.orgName != []
    ensures Truthy(cfg.orgName) ==> r.orgName == cfg.orgName.value
    ensures !Truthy(cfg.orgName) ==> r.orgName == DefaultOrgName
    ensures r.orgUniqueNumber != [] <==> Truthy(cfg.orgUniqueNumber)
    ensures Truthy(cfg.orgUniqueNumber) ==> r.orgUniqueNumber == cfg.orgUniqueNumber.value
    ensures r.issuedOn == issuedOn && r.amountText == amountText && r.dateText == dateText
    ensures r.secret == cfg.encryptionSecret
  {
    ReceiptContext(
      if Truthy(cfg.orgName) then cfg.orgName.value else DefaultOrgName,
      if Truthy(cfg.orgUniqueNumber) then cfg.orgUniqueNumber.value else "",
      issuedOn, cfg.encryptionSecret, amountText, dateText)
  }

  /**
   * The resident-number line: absent when no ciphertext is stored (an empty
   * base64 string is falsy too); the decrypted prefix followed by seven `*`;
   * or a placeholder when decryption fails.
   */
  function ResidentLine(secret: Option<string>, encrypted: Option<Blob>): (r: Option<string>)
    ensures r.None? <==> encrypted.None? || encrypted.value == []
    ensures r.Some? && Crypto.Decrypt(secret, encrypted.value).Success? ==>
      r.value == ResidentLabel + Crypto.Decrypt(secret, encrypted.value).value + ResidentMask
    ensures r.Some? && Crypto.Decrypt(secret, encrypted.value).Failure? ==> r.value == ResidentUnreadable
  {
    if encrypted.None? || encrypted.value == [] then None
    else match Crypto.Decrypt(secret, encrypted.value)
      case Success(rn) => Some(ResidentLabel + rn + ResidentMask)
      case Failure(_) => Some(ResidentUnreadable)
  }

  /** A prefix stored by a submission is printed back, masked, under the same secret. */
  lemma ResidentLineShowsPrefix(secret: Option<string>, iv: Crypto.Iv, prefix: string)
    requires Crypto.EncryptionKey(secret).Success?
    ensures ResidentLine(secret, Some(Crypto.Encrypt(secret, iv, prefix).value)) == Some(ResidentLabel + prefix + ResidentMask)
  {
    Crypto.DecryptEncrypt(secret, iv, prefix);
  }

  /** A stored ciphertext whose tag was altered prints the placeholder instead of failing the receipt. */
  lemma TamperedResidentLineDegrades(secret: Option<string>, iv: Crypto.Iv, prefix: string, j: nat, v: byte)
    requires Crypto.EncryptionKey(secret).Success?
    requires Crypto.IvLength <= j < Crypto.IvLength + Crypto.TagLength
    requires Crypto.Encrypt(secret, iv, prefix).value[j] != v
    ensures ResidentLine(secret, Some(Crypto.Encrypt(secret, iv, prefix).value[j := v])) == Some(ResidentUnreadable)
  {
    Crypto.TagTamperingDetected(secret, iv, prefix, j, v);
  }

  function OptionalLine(line: Option<string>): seq<string> {
    if line.Some? then [line.value] else []
  }

  /**
   * The text lines of one receipt, top to bottom. `u` counts the optional
   * registration-number line and `v` the optional resident-number line; every
   * line after them moves down by that many.
   */
  function ReceiptLines(ctx: ReceiptContext, d: Donation): (r: seq<string>)
    ensures var u := if ctx.orgUniqueNumber != [] then 1 else 0;
            var v := if ResidentLine(ctx.secret, d.residentNumberEncrypted).Some? then 1 else 0;
            && |r| == 11 + u + v
            && r[0] == "기 부 금 영 수 증"
            && r[1] == "단체명: " + ctx.orgName
            && (u == 1 ==> r[2] == "고유번호: " + ctx.orgUniqueNumber)
            && r[2 + u] == "발급일: " + ctx.issuedOn
            && r[3 + u] == "기부자 정보"
            && r[4 + u] == "성명: " + d.name
            && (v == 1 ==> r[5 + u] == ResidentLine(ctx.secret, d.residentNumberEncrypted).value)
            && r[5 + u + v] == "기부금액: " + ctx.amountText(d.amount) + "원"
            && r[6 + u + v] == "기부일자: " + ctx.dateText(d.createdAt)
            && r[7 + u + v] == "적요: " + d.lectureTitle
            && r[8 + u + v] == "위 기부금을 영수증합니다."
            && r[9 + u + v] == ctx.orgName
            && r[10 + u + v] == "대표자 (인)"
  {
    var uniq := if ctx.orgUniqueNumber != [] then Some("고유번호: " + ctx.orgUniqueNumber) else None;
    ["기 부 금 영 수 증", "단체명: " + ctx.orgName]
    + OptionalLine(uniq)
    + ["발급일: " + ctx.issuedOn, "기부자 정보", "성명: " + d.name]
    + OptionalLine(ResidentLine(ctx.secret, d.residentNumberEncrypted))
    + ["기부금액: " + ctx.amountText(d.amount) + "원",
       "기부일자: " + ctx.dateText(d.createdAt),
       "적요: " + d.lectureTitle,
       "위 기부금을 영수증합니다.",
       ctx.orgName,
       "대표자 (인)"]
  }

  // ---------------------------------------------------------------------------
  // The handler

  /** One file of the zip archive: its name and the receipt it holds. */
  datatype ZipEntry = ZipEntry(name: string, lines: seq<string>)

  /** The download: one receipt, or an archive of receipts. */
  datatype Download =
    | Pdf(fileName: string, lines: seq<string>)
    | Zip(fileName: string, entries: seq<ZipEntry>)

  /** The zip branch's loop: one entry per selected donation, in order. */
  method BuildArchive(ctx: ReceiptContext, selected: seq<Donation>) returns (entries: seq<ZipEntry>)
    ensures |entries| == |selected|
    ensures forall i :: 0 <= i < |selected| ==>
      entries[i] == ZipEntry(EntryName(selected[i]), ReceiptLines(ctx, selected[i]))
  {
    entries := [];
    for i := 0 to |selected|
      invariant |entries| == i
      invariant forall k :: 0 <= k < i ==> entries[k] == ZipEntry(EntryName(selected[k]), ReceiptLines(ctx, selected[k]))
    {
      entries := entries + [ZipEntry(EntryName(selected[i]), ReceiptLines(ctx, selected[i]))];
    }
  }

  /**
   * The query of route.ts: the stored rows with a requested id that are
   * completed and asked for a receipt, each once.
   */
  method QueryEligible(store: Store.DonationStore, ids: seq<string>) returns (found: seq<Donation>)
    requires store.Valid()
    ensures forall i :: 0 <= i < |found| ==>
      found[i].id in store.rows && store.rows[found[i].id] == found[i] && Selected(ids, found[i])
    ensures forall id :: id in store.rows && Selected(ids, store.rows[id]) ==> exists i :: 0 <= i < |found| && found[i].id == id
    ensures forall i, j :: 0 <= i < j < |found| ==> found[i].id != found[j].id
  {
    var table := store.Scan();
    found := SelectForReceipt(table, ids);
    Seqs.FilterKeepsDistinct(table, (d: Donation) => Selected(ids, d), (d: Donation) => d.id);
    forall i | 0 <= i < |found|
      ensures found[i].id in store.rows && store.rows[found[i].id] == found[i]
    {
      assert found[i] in table;
    }
    forall id | id in store.rows && Selected(ids, store.rows[id])
      ensures exists i :: 0 <= i < |found| && found[i].id == id
    {
      var j :| 0 <= j < |table| && table[j].id == id;
      SelectionExact(table, ids, table[j]);
      var i :| 0 <= i < |found| && found[i] == table[j];
    }
  }

  /**
   * The handler. `issuedOn`, `amountText` and `dateText` are the locale
   * renderings; `queryError` is a failure of the query. `clientError` is the
   * exception the mail client's constructor raises, if it does, and
   * `renderError` the exception drawing a receipt raises, if it does; neither
   * is caught, so the request ends in a server error. `selected` is what the
   * query returned; `emailAttempted` says whether the receipt was emailed.
   */
  method GenerateReceipts(
    store: Store.DonationStore, cfg: Config, cookies: map<string, Cookie>, query: ReceiptQuery,
    issuedOn: string, amountText: int -> string, dateText: Timestamp -> string, queryError: Option<string>,
    clientError: Option<string>, renderError: Option<string>)
    returns (reply: Reply<Download>, emailAttempted: bool, ghost selected: seq<Donation>)
    requires store.Valid()
    ensures !IsAdminAuthenticated(cookies, cfg.adminPassword) ==> reply == Error(Unauthorized, UnauthorizedMessage)
    ensures IsAdminAuthenticated(cookies, cfg.adminPassword) && !Truthy(query.ids) ==> reply == Error(BadRequest, IdsRequired)
    ensures selected != [] ==> Truthy(query.ids)
    ensures forall i :: 0 <= i < |selected| ==>
      selected[i].id in store.rows && store.rows[selected[i].id] == selected[i] && Selected(ParseIds(query.ids.value), selected[i])
    ensures selected != [] ==>
      forall id :: id in store.rows && Selected(ParseIds(query.ids.value), store.rows[id]) ==> exists i :: 0 <= i < |selected| && selected[i].id == id
    ensures forall i, j :: 0 <= i < j < |selected| ==> selected[i].id != selected[j].id
    ensures IsAdminAuthenticated(cookies, cfg.adminPassword) && Truthy(query.ids) && SupabaseConfigured(cfg) ==>
      (reply.Ok? <==>
         && queryError.None? && (exists id :: id in store.rows && Selected(ParseIds(query.ids.value), store.rows[id]))
         && clientError.None? && renderError.None?)
    ensures IsAdminAuthenticated(cookies, cfg.adminPassword) && Truthy(query.ids) && !SupabaseConfigured(cfg) ==>
      reply == Error(ServerError, SupabaseNotConfigured)
    ensures IsAdminAuthenticated(cookies, cfg.adminPassword) && Truthy(query.ids) && SupabaseConfigured(cfg)
              && (queryError.Some? || !exists id :: id in store.rows && Selected(ParseIds(query.ids.value), store.rows[id])) ==>
      reply == Error(NotFound, NoDonationsFound)
    ensures reply.Error? && reply.status == NotFound ==> reply.message == NoDonationsFound
    ensures selected != [] && clientError.Some? ==> reply == Error(ServerError, clientError.value)
    ensures selected != [] && clientError.None? && renderError.Some? ==> reply == Error(ServerError, renderError.value)
    ensures reply.Ok? ==> |selected| >= 1
    ensures reply.Ok? && AsZip(query) && |selected| > 1 ==>
      var ctx := ContextFor(cfg, issuedOn, amountText, dateText);
      && reply.value.Zip? && reply.value.fileName == ArchiveName
      && |reply.value.entries| == |selected|
      && forall i :: 0 <= i < |selected| ==>
           reply.value.entries[i] == ZipEntry(EntryName(selected[i]), ReceiptLines(ctx, selected[i]))
    ensures reply.Ok? && !(AsZip(query) && |selected| > 1) ==>
      reply.value == Pdf("receipt_" + selected[0].name + ".pdf",
                         ReceiptLines(ContextFor(cfg, issuedOn, amountText, dateText), selected[0]))
    ensures emailAttempted <==> reply.Ok? && reply.value.Pdf? && SendEmail(query) && selected[0].email != ""
  {
    emailAttempted, selected := false, [];
    if !IsAdminAuthenticated(cookies, cfg.adminPassword) {
      return Error(Unauthorized, UnauthorizedMessage), false, [];
    }
    if !Truthy(query.ids) {
      return Error(BadRequest, IdsRequired), false, [];
    }
    var ids := ParseIds(query.ids.value);
    if !SupabaseConfigured(cfg) {
      return Error(ServerError, SupabaseNotConfigured), false, [];
    }
    var found := QueryEligible(store, ids);
    if queryError.Some? || found == [] {
      return Error(NotFound, NoDonationsFound), false, [];
    }
    assert found[0].id in store.rows && Selected(ids, store.rows[found[0].id]);
    selected := found;
    if clientError.Some? {
      return Error(ServerError, clientError.value), false, found;
    }
    if renderError.Some? {
      return Error(ServerError, renderError.value), false, found;
    }
    var ctx := ContextFor(cfg, issuedOn, amountText, dateText);
    if AsZip(query) && |found| > 1 {
      var entries := BuildArchive(ctx, found);
      return Ok(Zip(ArchiveName, entries)), false, found;
    }
    var d := found[0];
    emailAttempted := SendEmail(query) && d.email != "";
    reply := Ok(Pdf("receipt_" + d.name + ".pdf", ReceiptLines(ctx, d)));
  }
}
