/**
 * The admin receipts page: the list of donations a receipt can be issued
 * for, and the single and batch requests it sends to the receipt generator.
 */
module ReceiptsPage {
  import opened Wrappers
  import opened Text
  import opened Donations
  import Seqs
  import AdminListing
  import ReceiptGenerator

  type Row = AdminListing.DonationRow

  const AdminPath: string := "/admin"
  const AllMarker: string := "all"

  /** The page's filter: `receipt_required && status === 'completed'`. */
  predicate Candidate(d: Row) {
    d.receiptRequired && d.status == Completed
  }

  /** The listed donations the page offers receipts for, in listing order. */
  function ReceiptCandidates(rows: seq<Row>): (r: seq<Row>)
    ensures forall i :: 0 <= i < |r| ==> r[i] in rows && ReceiptEligible(r[i].status, r[i].receiptRequired)
  {
    Seqs.Filter(rows, Candidate)
  }

  /** The page offers exactly the listed donations the generator will accept. */
  lemma CandidatesMatchServer(rows: seq<Row>, d: Row)
    ensures d in ReceiptCandidates(rows) <==> d in rows && ReceiptEligible(d.status, d.receiptRequired)
  {
    Seqs.FilterMembership(rows, Candidate, d);
  }

  function Ids(rows: seq<Row>): (r: seq<Id>)
    ensures |r| == |rows| && forall i :: 0 <= i < |rows| ==> r[i] == rows[i].id
  {
    seq(|rows|, i requires 0 <= i < |rows| => rows[i].id)
  }

  /** `donations.map(d => d.id).join(',')`. */
  function JoinIds(rows: seq<Row>): string {
    Join(Ids(rows), ',')
  }

  /** For non-empty ids without commas, the generator's parsing gives back the page's id list. */
  lemma JoinedIdsParseBack(rows: seq<Row>)
    requires forall i :: 0 <= i < |rows| ==> rows[i].id != [] && ',' !in rows[i].id
    ensures ReceiptGenerator.ParseIds(JoinIds(rows)) == Ids(rows)
  {
    JoinThenParse(Ids(rows), ',');
  }

  /** The query text of a boolean: `${sendEmail}`. */
  function BoolText(b: bool): string {
    if b then "true" else "false"
  }

  /** The page's component state. */
  class ReceiptsPageState {
    var donations: seq<Row>
    var loading: bool
    /** The id being generated, `all` for the batch, or none. */
    var processing: Option<string>
    var sendEmail: bool
    /** Where the browser has been sent, if anywhere. */
    var location: Option<string>

    constructor ()
      ensures donations == [] && !loading && processing.None? && sendEmail && location.None?
    {
      donations, loading, processing, sendEmail, location := [], false, None, true, None;
    }

    /** `disabled={!!processing}`. */
    function ButtonsEnabled(): bool
      reads this
    {
      !Truthy(processing)
    }

    /** The batch button is rendered when the list is non-empty. */
    function BatchButtonShown(): bool
      reads this
    {
      |donations| > 0
    }

    /** `fetchDonations` begins. */
    method BeginFetch()
      modifies this
      ensures loading && donations == old(donations) && processing == old(processing)
      ensures sendEmail == old(sendEmail) && location == old(location)
    {
      loading := true;
    }

    /**
     * The listing reply: 401 sends the browser to the login page and leaves
     * the list and the loading flag as they were; otherwise the candidates
     * replace the list when the reply has one, and loading ends.
     */
    method OnListingReply(status: nat, listing: Option<seq<Row>>)
      modifies this
      ensures status == Unauthorized ==>
        location == Some(AdminPath) && donations == old(donations) && loading == old(loading)
      ensures status != Unauthorized ==>
        && donations == (if listing.Some? then ReceiptCandidates(listing.value) else old(donations))
        && !loading && location == old(location)
      ensures processing == old(processing) && sendEmail == old(sendEmail)
    {
      if status == Unauthorized {
        location := Some(AdminPath);
        return;
      }
      if listing.Some? {
        donations := ReceiptCandidates(listing.value);
      }
      loading := false;
    }

    /** `generateOne(id)`: one id, the email flag, no zip flag; the buttons lock. */
    method GenerateOne(id: Id) returns (query: ReceiptGenerator.ReceiptQuery)
      modifies this
      ensures query == ReceiptGenerator.ReceiptQuery(Some(id), Some(BoolText(sendEmail)), None)
      ensures processing == Some(id)
      ensures donations == old(donations) && loading == old(loading)
      ensures sendEmail == old(sendEmail) && location == old(location)
    {
      processing := Some(id);
      query := ReceiptGenerator.ReceiptQuery(Some(id), Some(BoolText(sendEmail)), None);
    }

    /** `generateAll()`: every listed id joined by commas, the email flag and `zip=1`; the buttons lock. */
    method GenerateAll() returns (query: ReceiptGenerator.ReceiptQuery)
      modifies this
      ensures query == ReceiptGenerator.ReceiptQuery(Some(JoinIds(donations)), Some(BoolText(sendEmail)), Some("1"))
      ensures ReceiptGenerator.AsZip(query)
      ensures processing == Some(AllMarker) && !ButtonsEnabled()
      ensures donations == old(donations) && loading == old(loading)
      ensures sendEmail == old(sendEmail) && location == old(location)
    {
      processing := Some(AllMarker);
      query := ReceiptGenerator.ReceiptQuery(Some(JoinIds(donations)), Some(BoolText(sendEmail)), Some("1"));
    }

    /** After the download the buttons unlock. */
    method FinishDownload()
      modifies this
      ensures processing.None? && ButtonsEnabled()
      ensures donations == old(donations) && loading == old(loading)
      ensures sendEmail == old(sendEmail) && location == old(location)
    {
      processing := None;
    }
  }

  /**
   * A batch from this page asks for exactly the listed candidates: for
   * non-empty, comma-free ids, a stored donation is selected by the generator
   * iff its id is on the page and it is eligible.
   */
  lemma BatchSelectsListedCandidates(rows: seq<Row>, d: Donation)
    requires forall i :: 0 <= i < |rows| ==> rows[i].id != [] && ',' !in rows[i].id
    ensures ReceiptGenerator.Selected(ReceiptGenerator.ParseIds(JoinIds(rows)), d) <==>
      (exists i :: 0 <= i < |rows| && rows[i].id == d.id) && ReceiptEligible(d.status, d.receiptRequired)
  {
    JoinedIdsParseBack(rows);
    var ids := Ids(rows);
    if d.id in ids {
      var i :| 0 <= i < |ids| && ids[i] == d.id;
      assert rows[i].id == d.id;
    }
    if exists i :: 0 <= i < |rows| && rows[i].id == d.id {
      var i :| 0 <= i < |rows| && rows[i].id == d.id;
      assert ids[i] == d.id;
    }
  }
}
