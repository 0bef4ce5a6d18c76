/**
 * The admin dashboard: filters over the listed donations, the statistics
 * panel, the CSV export, and the confirm-deposit button.
 */
module AdminDashboard {
  import opened Wrappers
  import opened Text
  import opened Donations
  import Seqs
  import AdminListing

  type Row = AdminListing.DonationRow

  /** The filter sentinel meaning "any value". */
  const All: string := "all"

  // ---------------------------------------------------------------------------
  // Filters

  /** The three filter selections; `receipt == None` is the `'all'` choice. */
  datatype Filters = Filters(payment: string, status: string, receipt: Option<bool>)

  /** Each filter that is not `'all'` must match. */
  predicate Passes(f: Filters, d: Row) {
    && (f.payment == All || MethodName(d.paymentMethod) == f.payment)
    && (f.status == All || StatusName(d.status) == f.status)
    && (f.receipt.None? || d.receiptRequired == f.receipt.value)
  }

  /** The rows the table and the export show, in listing order. */
  function Filtered(rows: seq<Row>, f: Filters): (r: seq<Row>)
    ensures forall i :: 0 <= i < |r| ==> Passes(f, r[i]) && r[i] in rows
  {
    Seqs.Filter(rows, (d: Row) => Passes(f, d))
  }

  /** A row is shown exactly when it is listed and passes every active filter. */
  lemma FilteredExact(rows: seq<Row>, f: Filters, d: Row)
    ensures d in Filtered(rows, f) <==> d in rows && Passes(f, d)
  {
    Seqs.FilterMembership(rows, (d: Row) => Passes(f, d), d);
  }

  /** With every filter on `'all'` the whole listing is shown, in order. */
  lemma AllFiltersShowEverything(rows: seq<Row>)
    ensures Filtered(rows, Filters(All, All, None)) == rows
  {
    Seqs.FilterAll(rows, (d: Row) => Passes(Filters(All, All, None), d));
  }

  // ---------------------------------------------------------------------------
  // Statistics

  datatype Stats = Stats(
    totalAmount: int,
    totalCount: nat,
    receiptCount: nat,
    pendingCount: nat,
    bankCount: nat,
    kakaopayCount: nat)

  predicate IsCompleted(d: Row) { d.status == Completed }
  predicate IsPending(d: Row) { d.status == Pending }
  predicate IsReceiptCompleted(d: Row) { d.receiptRequired && d.status == Completed }
  predicate IsBankCompleted(d: Row) { d.paymentMethod == BankTransfer && d.status == Completed }
  predicate IsKakaoPayCompleted(d: Row) { d.paymentMethod == KakaoPay && d.status == Completed }

  /** The sum of the amounts. */
  function SumAmounts(rows: seq<Row>): int {
    if rows == [] then 0 else rows[0].amount + SumAmounts(rows[1..])
  }

  /** The statistics panel, computed over every listed donation (not the filtered ones). */
  function ComputeStats(rows: seq<Row>): Stats {
    var completed := Seqs.Filter(rows, IsCompleted);
    Stats(
      SumAmounts(completed),
      |completed|,
      |Seqs.Filter(rows, IsReceiptCompleted)|,
      |Seqs.Filter(rows, IsPending)|,
      |Seqs.Filter(rows, IsBankCompleted)|,
      |Seqs.Filter(rows, IsKakaoPayCompleted)|)
  }

  /**
   * The panel's counts are consistent: receipts are among the completed,
   * pending and completed are disjoint, and the two payment methods split the
   * completed donations.
   */
  lemma StatsConsistent(rows: seq<Row>)
    ensures var s := ComputeStats(rows);
      && s.receiptCount <= s.totalCount
      && s.pendingCount + s.totalCount <= |rows|
      && s.bankCount + s.kakaopayCount == s.totalCount
      && s.totalCount <= |rows|
  {
    Seqs.CountMonotone(rows, IsReceiptCompleted, IsCompleted);
    Seqs.CountDisjoint(rows, IsPending, IsCompleted);
    Seqs.CountUnion(rows, IsBankCompleted, IsKakaoPayCompleted, IsCompleted);
  }

  /** With no negative amounts, the total is never negative. */
  lemma {:induction false} TotalAmountNonNegative(rows: seq<Row>)
    requires forall i :: 0 <= i < |rows| ==> rows[i].amount >= 0
    ensures ComputeStats(rows).totalAmount >= 0
  {
    var completed := Seqs.Filter(rows, IsCompleted);
    SumNonNegative(completed);
  }

  lemma {:induction false} SumNonNegative(rows: seq<Row>)
    requires forall i :: 0 <= i < |rows| ==> rows[i].amount >= 0
    ensures SumAmounts(rows) >= 0
  {
    if rows != [] {
      SumNonNegative(rows[1..]);
    }
  }

  // ---------------------------------------------------------------------------
  // Confirm button

  /** The confirm button appears for pending bank transfers. */
  predicate ShowConfirm(d: Row) {
    d.paymentMethod == BankTransfer && d.status == Pending
  }

  /** The button is shown exactly for the records the server will confirm. */
  lemma ConfirmButtonMatchesServer(d: Donation)
    ensures ShowConfirm(AdminListing.Project(d)) <==> ConfirmAllowed(d)
  {
  }

  // ---------------------------------------------------------------------------
  // CSV export

  const Bom: string := "\U{FEFF}"
  const Headers: seq<string> := ["이름", "금액", "결제방식", "상태", "연락처", "이메일", "영수증필요", "입금자명", "신청일시"]

  function MethodLabel(m: PaymentMethod): string {
    if m == BankTransfer then "무통장" else "카카오페이"
  }

  /** `완료`, `대기`, or the raw status value. */
  function CsvStatusLabel(s: DonationStatus): string {
    if s == Completed then "완료" else if s == Pending then "대기" else StatusName(s)
  }

  /** The nine cells of one donation; `dateTime` is the locale rendering of `created_at`. */
  function CsvCells(d: Row, dateTime: Timestamp -> string): (r: seq<string>)
    ensures |r| == |Headers|
    ensures r[0] == d.name && r[4] == d.phone && r[5] == d.email
  {
    [d.name, IntText(d.amount), MethodLabel(d.paymentMethod), CsvStatusLabel(d.status),
     d.phone, d.email, if d.receiptRequired then "Y" else "N",
     if Truthy(d.depositNameFormat) then d.depositNameFormat.value else "",
     dateTime(d.createdAt)]
  }

  /** A cell wrapped in double quotes as the page writes it: inner quotes are left alone. */
  function QuoteAsWritten(c: string): string {
    "\"" + c + "\""
  }

  /** `cells.map(c => `"${c}"`).join(',')`. */
  function CsvLineAsWritten(cells: seq<string>): string {
    if cells == [] then []
    else if |cells| == 1 then QuoteAsWritten(cells[0])
    else QuoteAsWritten(cells[0]) + "," + CsvLineAsWritten(cells[1..])
  }

  /** Two different rows give the same line: a name containing `","` shifts every later column. */
  lemma CsvLineAsWrittenIsAmbiguous()
    ensures ["a\",\"b", "c"] != ["a", "b\",\"c"]
    ensures CsvLineAsWritten(["a\",\"b", "c"]) == CsvLineAsWritten(["a", "b\",\"c"])
  {
    var left, right := ["a\",\"b", "c"], ["a", "b\",\"c"];
    assert left[0] != right[0];
    assert left[1..] == ["c"] && right[1..] == ["b\",\"c"];
    assert CsvLineAsWritten(left) == "\"a\",\"b\"" + "," + "\"c\"";
    assert CsvLineAsWritten(right) == "\"a\"" + "," + "\"b\",\"c\"";
  }

  /** Section 2 of RFC 4180: a quote inside a quoted field is written twice. */
  function Escape(c: string): (r: string)
    ensures |r| >= |c|
  {
    if c == [] then [] else (if c[0] == '"' then "\"\"" else [c[0]]) + Escape(c[1..])
  }

  function Quote(c: string): string {
    "\"" + Escape(c) + "\""
  }

  /** One CSV line: the quoted cells separated by commas. */
  function CsvLine(cells: seq<string>): string {
    if cells == [] then []
    else if |cells| == 1 then Quote(cells[0])
    else Quote(cells[0]) + "," + CsvLine(cells[1..])
  }

  /** Where no cell holds a quote, the corrected line is the line the page writes. */
  lemma {:induction false} CsvLineAgreesWithoutQuotes(cells: seq<string>)
    requires forall i :: 0 <= i < |cells| ==> '"' !in cells[i]
    ensures CsvLine(cells) == CsvLineAsWritten(cells)
  {
    if cells != [] {
      EscapeWithoutQuotes(cells[0]);
      if |cells| > 1 {
        CsvLineAgreesWithoutQuotes(cells[1..]);
      }
    }
  }

  lemma {:induction false} EscapeWithoutQuotes(c: string)
    requires '"' !in c
    ensures Escape(c) == c
  {
    if c != [] {
      EscapeWithoutQuotes(c[1..]);
    }
  }

  /**
   * Reads a quoted field whose opening quote is already consumed: the field's
   * text and what follows the closing quote.
   */
  function Unquote(s: string): (r: (string, string))
    ensures |r.1| <= |s|
  {
    if s == [] then ([], [])
    else if s[0] == '"' then
      if |s| >= 2 && s[1] == '"' then
        var (c, rest) := Unquote(s[2..]);
        ("\"" + c, rest)
      else ([], s[1..])
    else
      var (c, rest) := Unquote(s[1..]);
      ([s[0]] + c, rest)
  }

  /** Reads the cells of a line made of quoted fields. */
  function ParseLine(s: string): seq<string>
    decreases |s|
  {
    if s == [] || s[0] != '"' then []
    else
      var field := Unquote(s[1..]);
      if field.1 != [] && field.1[0] == ',' then [field.0] + ParseLine(field.1[1..]) else [field.0]
  }

  /** Reading an escaped field and its closing quote gives back the field and the rest. */
  lemma {:induction false} UnquoteEscape(c: string, t: string)
    requires t == [] || t[0] != '"'
    ensures Unquote(Escape(c) + "\"" + t) == (c, t)
  {
    if c == [] {
      assert Escape(c) + "\"" + t == ['"'] + t;
    } else {
      UnquoteEscape(c[1..], t);
      var s := Escape(c) + "\"" + t;
      if c[0] == '"' {
        assert s == "\"\"" + (Escape(c[1..]) + "\"" + t);
        assert s[2..] == Escape(c[1..]) + "\"" + t;
        assert "\"" + c[1..] == c;
      } else {
        assert s == [c[0]] + (Escape(c[1..]) + "\"" + t);
        assert s[1..] == Escape(c[1..]) + "\"" + t;
        assert [c[0]] + c[1..] == c;
      }
    }
  }

  /** One quoted field followed by `t`: the parser yields the field, then goes on after a comma. */
  lemma ParseQuoted(c: string, t: string)
    requires t == [] || t[0] != '"'
    ensures t != [] && t[0] == ',' ==> ParseLine(Quote(c) + t) == [c] + ParseLine(t[1..])
    ensures !(t != [] && t[0] == ',') ==> ParseLine(Quote(c) + t) == [c]
  {
    var body := Escape(c) + "\"" + t;
    assert Quote(c) + t == ['"'] + body;
    ParseAfterQuote(body);
    UnquoteEscape(c, t);
  }

  /** After an opening quote, the parser reads one field and goes on only after a comma. */
  lemma ParseAfterQuote(x: string)
    ensures var field := Unquote(x);
      ParseLine(['"'] + x) == if field.1 != [] && field.1[0] == ',' then [field.0] + ParseLine(field.1[1..]) else [field.0]
  {
    assert (['"'] + x)[1..] == x;
  }

  /** Every line written with the corrected quoting reads back as its cells. */
  lemma {:induction false} CsvLineRoundTrip(cells: seq<string>)
    requires |cells| >= 1
    ensures ParseLine(CsvLine(cells)) == cells
  {
    if |cells| == 1 {
      assert CsvLine(cells) == Quote(cells[0]) + [];
      ParseQuoted(cells[0], []);
    } else {
      var tail := "," + CsvLine(cells[1..]);
      assert CsvLine(cells) == Quote(cells[0]) + tail;
      ParseQuoted(cells[0], tail);
      assert tail[1..] == CsvLine(cells[1..]);
      CsvLineRoundTrip(cells[1..]);
      assert [cells[0]] + cells[1..] == cells;
    }
  }

  /** So two different rows never give the same corrected line. */
  lemma CsvLineInjective(a: seq<string>, b: seq<string>)
    requires |a| >= 1 && |b| >= 1 && CsvLine(a) == CsvLine(b)
    ensures a == b
  {
    CsvLineRoundTrip(a);
    CsvLineRoundTrip(b);
  }

  /** A joined list avoids every character that neither the separator nor any piece holds. */
  lemma {:induction false} JoinAvoids(parts: seq<string>, sep: char, x: char)
    requires x != sep && forall k :: 0 <= k < |parts| ==> x !in parts[k]
    ensures x !in Join(parts, sep)
  {
    if |parts| > 1 {
      JoinAvoids(parts[1..], sep, x);
    }
  }

  /** A line written by the page holds a character other than a quote or a comma only if a cell does. */
  lemma {:induction false} CsvLineAsWrittenAvoids(cells: seq<string>, x: char)
    requires x != '"' && x != ','
    requires forall k :: 0 <= k < |cells| ==> x !in cells[k]
    ensures x !in CsvLineAsWritten(cells)
  {
    if |cells| > 1 {
      CsvLineAsWrittenAvoids(cells[1..], x);
    }
  }

  /** The header line `headers.join(',')`. */
  function HeaderLine(): (r: string)
    ensures '\n' !in r
  {
    assert forall k :: 0 <= k < |Headers| ==> '\n' !in Headers[k];
    JoinAvoids(Headers, ',', '\n');
    Join(Headers, ',')
  }

  /** The lines of the shown donations, in order, each written by `line`. */
  function RowLines(shown: seq<Row>, dateTime: Timestamp -> string, line: seq<string> -> string): (r: seq<string>)
    ensures |r| == |shown|
    ensures forall i :: 0 <= i < |shown| ==> r[i] == line(CsvCells(shown[i], dateTime))
  {
    seq(|shown|, i requires 0 <= i < |shown| => line(CsvCells(shown[i], dateTime)))
  }

  /** The export as the page writes it: a byte-order mark, then the header line and the rows' lines joined by newlines. */
  function ExportCsv(shown: seq<Row>, dateTime: Timestamp -> string): (r: string)
    ensures Bom <= r
  {
    Bom + Join([HeaderLine()] + RowLines(shown, dateTime, CsvLineAsWritten), '\n')
  }

  /**
   * When no cell holds a line break, the text after the byte-order mark splits
   * on newlines into the header line followed by one line per shown donation,
   * in order, each written as the page writes it.
   */
  lemma ExportCsvLines(shown: seq<Row>, dateTime: Timestamp -> string)
    requires forall i, k :: 0 <= i < |shown| && 0 <= k < |Headers| ==> '\n' !in CsvCells(shown[i], dateTime)[k]
    ensures Split(ExportCsv(shown, dateTime)[|Bom|..], '\n') == [Join(Headers, ',')] + RowLines(shown, dateTime, CsvLineAsWritten)
  {
    var rows := RowLines(shown, dateTime, CsvLineAsWritten);
    forall i | 0 <= i < |rows|
      ensures '\n' !in rows[i]
    {
      CsvLineAsWrittenAvoids(CsvCells(shown[i], dateTime), '\n');
    }
    var parts := [HeaderLine()] + rows;
    assert forall j :: 0 <= j < |parts| ==> '\n' !in parts[j] by {
      forall j | 0 <= j < |parts|
        ensures '\n' !in parts[j]
      {
        if j > 0 {
          assert parts[j] == rows[j - 1];
        }
      }
    }
    SplitJoin(parts, '\n');
    assert ExportCsv(shown, dateTime)[|Bom|..] == Join(parts, '\n');
  }

  /** The export with the corrected quoting of section 2 of RFC 4180. */
  function ExportCsvEscaped(shown: seq<Row>, dateTime: Timestamp -> string): (r: string)
    ensures Bom <= r
  {
    Bom + Join([HeaderLine()] + RowLines(shown, dateTime, CsvLine), '\n')
  }

  /** Where no cell holds a quote, the corrected export is byte for byte the page's export. */
  lemma ExportsAgreeWithoutQuotes(shown: seq<Row>, dateTime: Timestamp -> string)
    requires forall i, k :: 0 <= i < |shown| && 0 <= k < |Headers| ==> '"' !in CsvCells(shown[i], dateTime)[k]
    ensures ExportCsvEscaped(shown, dateTime) == ExportCsv(shown, dateTime)
  {
    forall i | 0 <= i < |shown|
      ensures CsvLine(CsvCells(shown[i], dateTime)) == CsvLineAsWritten(CsvCells(shown[i], dateTime))
    {
      CsvLineAgreesWithoutQuotes(CsvCells(shown[i], dateTime));
    }
    assert RowLines(shown, dateTime, CsvLine) == RowLines(shown, dateTime, CsvLineAsWritten);
  }

  // ---------------------------------------------------------------------------
  // Component state

  /**
   * The page's state: whether logged in, the listed rows, the loading flag
   * and the three filter selections.
   */
  class Dashboard {
    var authenticated: bool
    var donations: seq<Row>
    var loading: bool
    var filters: Filters

    /** The rows the table and the export show. */
    function Shown(): seq<Row>
      reads this
    {
      Filtered(donations, filters)
    }

    /** The statistics panel: over every listed row, whatever the filters. */
    function Panel(): Stats
      reads this
    {
      ComputeStats(donations)
    }

    constructor ()
      ensures !authenticated && donations == [] && !loading
      ensures filters == Filters(All, All, None) && Shown() == donations
    {
      authenticated, donations, loading := false, [], false;
      filters := Filters(All, All, None);
    }

    /**
     * A filter selection changes: the table and the export show the rows
     * passing the new filters, while the listing and the statistics panel
     * stay as they were.
     */
    method SetFilters(f: Filters)
      modifies this
      ensures filters == f
      ensures donations == old(donations) && authenticated == old(authenticated) && loading == old(loading)
      ensures Shown() == Filtered(old(donations), f)
      ensures forall i :: 0 <= i < |Shown()| ==> Shown()[i] in old(donations) && Passes(f, Shown()[i])
      ensures Panel() == old(Panel())
    {
      filters := f;
    }

    /** `fetchDonations` begins: loading starts and nothing else changes. */
    method BeginFetch()
      modifies this
      ensures loading && donations == old(donations) && authenticated == old(authenticated)
      ensures filters == old(filters)
    {
      loading := true;
    }

    /**
     * The login reply: on `success` the page unlocks and begins fetching the
     * listing; otherwise an alert is shown and the page stays as it was.
     */
    method OnLoginReply(success: bool) returns (alerted: bool)
      modifies this
      ensures alerted == !success
      ensures filters == old(filters)
      ensures success ==> authenticated && loading && donations == old(donations)
      ensures !success ==>
        authenticated == old(authenticated) && loading == old(loading) && donations == old(donations)
    {
      if success {
        authenticated := true;
        BeginFetch();
        return false;
      }
      return true;
    }

    /** `fetchDonations`: the listing replaces the rows when the reply has one; loading ends either way. */
    method OnListingReply(listing: Option<seq<Row>>)
      modifies this
      ensures donations == if listing.Some? then listing.value else old(donations)
      ensures !loading && authenticated == old(authenticated) && filters == old(filters)
      ensures Shown() == Filtered(donations, old(filters)) && Panel() == ComputeStats(donations)
    {
      if listing.Some? {
        donations := listing.value;
      }
      loading := false;
    }

    /**
     * The confirm reply: when the server accepted, the listing is fetched again
     * (loading starts); otherwise the page stays exactly as it was.
     */
    method OnConfirmReply(ok: bool)
      modifies this
      ensures filters == old(filters)
      ensures ok ==> loading && donations == old(donations) && authenticated == old(authenticated)
      ensures !ok ==>
        loading == old(loading) && donations == old(donations) && authenticated == old(authenticated)
    {
      if ok {
        BeginFetch();
      }
    }
  }
}
