/** `GET /api/admin/donations`: every donation, projected to the listed columns, newest first. */
module AdminListing {
  import opened Wrappers
  import opened Donations
  import opened AdminAuth
  import Store

  /**
   * The selected columns: `id, created_at, lecture_title, amount,
   * payment_method, status, name, phone, email, receipt_required,
   * deposit_name_format, deposit_confirmed_at`.
   */
  datatype DonationRow = DonationRow(
    id: Id,
    createdAt: Timestamp,
    lectureTitle: string,
    amount: int,
    paymentMethod: PaymentMethod,
    status: DonationStatus,
    name: string,
    phone: string,
    email: string,
    receiptRequired: bool,
    depositNameFormat: Option<string>,
    depositConfirmedAt: Option<string>)

  function Project(d: Donation): DonationRow {
    DonationRow(
      d.id, d.createdAt, d.lectureTitle, d.amount, d.paymentMethod, d.status,
      d.name, d.phone, d.email, d.receiptRequired, d.depositNameFormat, d.depositConfirmedAt)
  }

  /**
   * The listing does not reveal the encrypted resident number, the processor
   * ids, the description or who confirmed the deposit: records that differ
   * only there list the same.
   */
  lemma ProjectionOmitsPrivateColumns(
    d: Donation, enc: Option<Blob>, tid: Option<string>, orderId: Option<string>,
    description: Option<string>, confirmedBy: Option<string>)
    ensures Project(d.(residentNumberEncrypted := enc, kakaopayTid := tid, kakaopayOrderId := orderId,
                       lectureDescription := description, depositConfirmedBy := confirmedBy)) == Project(d)
  {
  }

  function ProjectAll(ds: seq<Donation>): (r: seq<DonationRow>)
    ensures |r| == |ds|
    ensures forall i :: 0 <= i < |ds| ==> r[i] == Project(ds[i])
  {
    seq(|ds|, i requires 0 <= i < |ds| => Project(ds[i]))
  }

  /** `order('created_at', { ascending: false })`. */
  predicate NewestFirst(rows: seq<DonationRow>) {
    forall i, j :: 0 <= i < j < |rows| ==> rows[i].createdAt >= rows[j].createdAt
  }

  /** Places a row among rows already newest first. */
  function InsertByDate(x: DonationRow, s: seq<DonationRow>): (r: seq<DonationRow>)
    requires NewestFirst(s)
    ensures NewestFirst(r)
    ensures multiset(r) == multiset(s) + multiset{x}
    ensures forall k :: 0 <= k < |r| ==> r[k] == x || r[k] in s
  {
    if s == [] then [x]
    else if x.createdAt >= s[0].createdAt then [x] + s
    else
      var rest := InsertByDate(x, s[1..]);
      HeadIsNewest(s, x, rest);
      assert s == [s[0]] + s[1..];
      [s[0]] + rest
  }

  /** The head of a newest-first sequence is at least as new as anything drawn from its tail or older. */
  lemma HeadIsNewest(s: seq<DonationRow>, x: DonationRow, rest: seq<DonationRow>)
    requires s != [] && NewestFirst(s) && x.createdAt < s[0].createdAt
    requires forall k :: 0 <= k < |rest| ==> rest[k] == x || rest[k] in s[1..]
    ensures forall k :: 0 <= k < |rest| ==> s[0].createdAt >= rest[k].createdAt
  {
    forall k | 0 <= k < |rest|
      ensures s[0].createdAt >= rest[k].createdAt
    {
      if rest[k] != x {
        var m :| 0 <= m < |s[1..]| && s[1..][m] == rest[k];
        assert s[m + 1] == rest[k];
      }
    }
  }

  /** The database's ordering: the same rows, newest first. */
  function SortNewestFirst(s: seq<DonationRow>): (r: seq<DonationRow>)
    ensures NewestFirst(r)
    ensures multiset(r) == multiset(s)
  {
    if s == [] then []
    else
      assert s == [s[0]] + s[1..];
      InsertByDate(s[0], SortNewestFirst(s[1..]))
  }

  /**
   * The handler. `queryError` is a failure of the query; `scanned` is the
   * table as the query read it.
   */
  method ListDonations(store: Store.DonationStore, cfg: Config, cookies: map<string, Cookie>, queryError: Option<string>)
    returns (reply: Reply<seq<DonationRow>>, ghost scanned: seq<Donation>)
    requires store.Valid()
    ensures !IsAdminAuthenticated(cookies, cfg.adminPassword) ==> reply == Error(Unauthorized, UnauthorizedMessage)
    ensures IsAdminAuthenticated(cookies, cfg.adminPassword) && !SupabaseConfigured(cfg) ==>
      reply == Error(ServerError, SupabaseNotConfigured)
    ensures IsAdminAuthenticated(cookies, cfg.adminPassword) && SupabaseConfigured(cfg) ==>
      (reply.Ok? <==> queryError.None?)
    ensures reply.Error? && queryError.Some? && SupabaseConfigured(cfg) && IsAdminAuthenticated(cookies, cfg.adminPassword) ==>
      reply == Error(ServerError, queryError.value)
    ensures reply.Ok? ==>
      && NewestFirst(reply.value)
      && multiset(reply.value) == multiset(ProjectAll(scanned))
      && (forall i :: 0 <= i < |reply.value| ==>
            reply.value[i].id in store.rows && reply.value[i] == Project(store.rows[reply.value[i].id]))
      && (forall id :: id in store.rows ==> Project(store.rows[id]) in reply.value)
    ensures forall i, j :: 0 <= i < j < |scanned| ==> scanned[i].id != scanned[j].id
  {
    scanned := [];
    if !IsAdminAuthenticated(cookies, cfg.adminPassword) {
      return Error(Unauthorized, UnauthorizedMessage), [];
    }
    if !SupabaseConfigured(cfg) {
      return Error(ServerError, SupabaseNotConfigured), [];
    }
    if queryError.Some? {
      return Error(ServerError, queryError.value), [];
    }
    var all := store.Scan();
    scanned := all;
    var rows := SortNewestFirst(ProjectAll(all));
    forall i | 0 <= i < |rows|
      ensures rows[i].id in store.rows && rows[i] == Project(store.rows[rows[i].id])
    {
      assert rows[i] in multiset(ProjectAll(all));
    }
    forall id | id in store.rows
      ensures Project(store.rows[id]) in rows
    {
      var k :| 0 <= k < |all| && all[k].id == id;
      assert ProjectAll(all)[k] in multiset(rows);
    }
    reply := Ok(rows);
  }
}
