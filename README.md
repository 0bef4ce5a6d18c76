# Donation lifecycle of the echohappiness donation site, in Dafny

The site takes donations for the 에코행복연구소 campaign in two ways. A donor
can pledge a **bank transfer**, which an administrator later confirms by
matching the deposit against a deposit name. Or the donor can pay through
**KakaoPay**, in two steps: "ready" prepares the payment, and "approve"
completes it after the donor has paid on the processor's page. A donor who asks
for a tax receipt gives the first seven digits of their resident registration
number. That prefix is stored encrypted and printed, masked, on the receipt.
Administrators log in with a single password. They can list donations, confirm
deposits, and issue receipts as one PDF or as a zip archive of PDFs.

This project models that lifecycle and proves properties about it:

- The donations table is a class, `Store.DonationStore`, holding a map from id
  to record. Its invariant (`Valid`) says that every record is filed under its
  own id and keeps the record invariants (`Donations.WellFormed`).
- Each route handler is a method over the store. It takes every outside input as
  a parameter: configuration, cookies, clock values, random bytes, the payment
  processor's reply, and database errors.
- Each handler's contract gives:
  - every error reply, with its status and message;
  - the exact new state of the table;
  - the rule that a stored record only evolves as `Donations.Evolves` allows:
    fixed fields stay fixed, and a status never returns to `pending`.
- The pure derivations are functions, with lemmas that connect them:
  - the deposit name and the KakaoPay order id;
  - id parsing, receipt selection and entry names;
  - the masked resident-number line;
  - the form's validation;
  - the dashboard's filters, statistics and CSV export;
  - the blob framing of the encrypted prefix.
- The three client pages keep their component state in small classes: the
  donation form, the admin dashboard and the receipts page.

Modules (one per source file, plus shared ones):

| file | module | models |
|---|---|---|
| wrappers.dfy | `Wrappers` | `Option`, `Result` |
| seqs.dfy | `Seqs` | `Array.prototype.filter` and counting lemmas |
| text.dfy | `Text` | JavaScript string operations: truthiness, `replace(/\D/g,'')`, `slice`, `split`/`join`, `String(n)`, hex, `trim` |
| donations.dfy | `Donations` | src/lib/types.ts: the record, its enums, the configuration, replies |
| store.dfy | `Store` | the `donations` table: insert, partial update, unordered scan |
| crypto.dfy | `Crypto` | src/lib/crypto.ts |
| intake.dfy | `Intake` | the request body and required-field check the two submission routes share |
| bank_transfer.dfy | `BankTransfer` | src/app/api/donations/bank-transfer/route.ts |
| kakaopay_ready.dfy | `KakaoPayReady` | src/app/api/donations/kakaopay/ready/route.ts |
| kakaopay_approve.dfy | `KakaoPayApprove` | src/app/api/donations/kakaopay/approve/route.ts |
| admin_auth.dfy | `AdminAuth` | src/lib/admin-auth.ts |
| admin_login.dfy | `AdminLogin` | src/app/api/admin/login/route.ts |
| confirm_deposit.dfy | `ConfirmDeposit` | src/app/api/admin/confirm-deposit/route.ts |
| admin_donations.dfy | `AdminListing` | src/app/api/admin/donations/route.ts |
| receipts_generate.dfy | `ReceiptGenerator` | src/app/api/admin/receipts/generate/route.ts |
| donation_form.dfy | `DonationForm` | src/components/DonationForm.tsx |
| admin_page.dfy | `AdminDashboard` | src/app/admin/page.tsx |
| receipts_page.dfy | `ReceiptsPage` | src/app/admin/receipts/page.tsx |

## Model

| member | source | states |
|---|---|---|
| Text.DigitsSpec | src/app/api/donations/bank-transfer/route.ts:33 | Stripping non-digits keeps exactly the digits of the input, in order. It leaves a digit string unchanged and is idempotent. |
| Text.DigitsAppend | src/app/api/donations/bank-transfer/route.ts:33 | Stripping non-digits distributes over concatenation. |
| Text.TakeLast | src/app/api/donations/bank-transfer/route.ts:33 | `slice(-n)` returns the last `min(n, length)` elements, and they are a suffix of the input. |
| Text.Slice | src/app/api/donations/kakaopay/ready/route.ts:62 | `slice(start, end)` is the clamped drop of the clamped take. It is never longer than `end - start`. |
| Text.JoinSplit | src/app/admin/receipts/page.tsx:62 | Joining the pieces of a split gives back the original string. |
| Text.SplitJoin | src/app/api/admin/receipts/generate/route.ts:86 | Splitting a join of separator-free pieces gives back the pieces. |
| Text.JoinThenParse | src/app/api/admin/receipts/generate/route.ts:86 | For non-empty, separator-free pieces, split-then-drop-empty inverts the join. |
| Text.DecimalRoundTrip | src/app/api/donations/kakaopay/ready/route.ts:62 | The decimal rendering of a millisecond timestamp reads back as the same number. |
| Text.HexRoundTrip | src/app/api/admin/login/route.ts:21 | `toString('hex')` loses nothing: the bytes can be read back from the text. |
| Text.TrimEmptyIffBlank | src/components/DonationForm.tsx:42-45 | `trim()` gives the empty string exactly when the input is all JavaScript whitespace. |
| Store.CompletionIsAllowed | src/app/api/donations/kakaopay/approve/route.ts:65-68 | Setting the status to `completed` keeps the record invariants and is an allowed evolution. |
| Store.ConfirmationIsAllowed | src/app/api/admin/confirm-deposit/route.ts:34-45 | Confirming a pending bank transfer keeps the invariants and is an allowed evolution. It leaves a record that cannot be confirmed again. |
| Store.DonationStore.constructor | src/lib/types.ts:4-22 | An empty table satisfies the table invariant. |
| Store.DonationStore.Insert | src/app/api/donations/bank-transfer/route.ts:42-58 | An insert succeeds iff the database reports no error and the id is new. On success exactly the new row is added. Otherwise the table is unchanged, and the failure is the database's error or the primary-key violation. The table invariant is kept. |
| Store.DonationStore.Update | src/app/api/donations/kakaopay/ready/route.ts:103-106 | An update by id patches only the matching row, and only when there is no error. A missing row is not an error. The table invariant is kept when the patched record stays well formed. |
| Store.DonationStore.Scan | src/app/api/admin/donations/route.ts:18-21 | Without an ordering, the query yields every stored record exactly once. |
| Crypto.EncryptionKey | src/lib/crypto.ts:7-13 | A secret shorter than 32 UTF-16 units (or none) is the explicit error. A key exists iff the first 32 characters are all ASCII, so that they are 32 UTF-8 bytes; otherwise the cipher rejects the key length. The key is those 32 characters, and the padding never adds anything. |
| Crypto.Utf16Length | src/lib/crypto.ts:9 | `length` counts UTF-16 units, never fewer than the characters. |
| Crypto.NonAsciiSecretHasNoKey | src/lib/crypto.ts:9-12 | A secret long enough by `length` whose first character is not ASCII still yields no key. |
| Crypto.TextRoundTrip | src/lib/crypto.ts:38 | Decoding the byte encoding of a text gives the text back. |
| Crypto.OpenSeal | src/lib/crypto.ts:18-21 | Deciphering with the same key and iv undoes enciphering. |
| Crypto.UnframeFrame | src/lib/crypto.ts:29-33 | Splitting at offsets 16 and 32 recovers the iv, tag and ciphertext of `iv ++ tag ++ ciphertext`. |
| Crypto.FrameUnframe | src/lib/crypto.ts:29-33 | For any blob, the three parts the split yields glue back into the blob. |
| Crypto.Encrypt | src/lib/crypto.ts:15-25 | Encryption succeeds iff the key check passes; otherwise it fails with the key error. The blob is 32 bytes longer than the encoded text and starts with the iv. |
| Crypto.Decrypt | src/lib/crypto.ts:27-39 | With a bad secret, decryption fails with the key error. An empty blob fails with an invalid-iv error. |
| Crypto.DecryptEncrypt | src/lib/crypto.ts:15-39 | Decrypting the output of encrypt gives back the original text. |
| Crypto.DistinctIvsGiveDistinctBlobs | src/lib/crypto.ts:17 | Two encryptions of the same text under different ivs give different blobs. |
| Crypto.TagTamperingDetected | src/lib/crypto.ts:35-38 | Changing any byte of the tag makes decryption fail. |
| Intake.DescriptionField | src/app/api/donations/bank-transfer/route.ts:46 | `lecture_description \|\| null`: the description is kept iff it is non-empty. |
| Intake.ResidentPlaintext | src/app/api/donations/bank-transfer/route.ts:36-39 | A prefix is encrypted iff a receipt is asked for and a non-empty prefix was sent. |
| Intake.SealResident | src/app/api/donations/kakaopay/ready/route.ts:43-46 | The stored field is present iff a prefix is to be encrypted, and it decrypts back to that prefix. A bad secret fails only when there is something to encrypt. |
| BankTransfer.DepositNameFormat | src/app/api/donations/bank-transfer/route.ts:33-34 | The deposit name is the donor's name followed by the last `min(4, #digits)` digits of the phone number. Those digits are a suffix of the phone's digit string. |
| BankTransfer.DigitsOfDashedGroups | src/app/api/donations/bank-transfer/route.ts:33 | A number written as dash-separated digit groups strips to the concatenated groups. |
| BankTransfer.DepositNameOfDashedPhone | src/app/api/donations/bank-transfer/route.ts:33-34 | For such a number whose last group has four digits, the deposit name is the name plus that group. |
| BankTransfer.DepositNameExample | src/app/api/donations/bank-transfer/route.ts:33-34 | 홍길동 with 010-1234-5678 gives 홍길동5678. |
| BankTransfer.SubmitBankTransfer | src/app/api/donations/bank-transfer/route.ts:12-73 | A missing field gives 400. A bad secret, an unconfigured database, an insert error and a duplicate id each give 500 with their own message, and every error leaves the table unchanged. Success requires every check to pass. It adds exactly one row, the pending record built from the request: id, `created_at`, title, description, amount, name, phone, email, the boolean receipt flag, the deposit name, no processor fields, and an encrypted prefix that decrypts to the submitted one. The reply is the new id. The table invariant is kept. |
| KakaoPayReady.ProcessorMessage | src/app/api/donations/kakaopay/ready/route.ts:96-101 | The processor's `msg` when it is non-empty, else the fixed fallback. |
| KakaoPayReady.OrderId | src/app/api/donations/kakaopay/ready/route.ts:62 | The order id starts with `DON-`. It is at most 5 + 7 characters longer than the timestamp's digits. |
| KakaoPayReady.OrderIdsDistinct | src/app/api/donations/kakaopay/ready/route.ts:62 | Orders created at different milliseconds never share an order id, whatever the random part. |
| KakaoPayReady.ReadyRequestFor | src/app/api/donations/kakaopay/ready/route.ts:80-91 | The request names the new donation as the partner user and carries the order id, the amount, quantity 1 and tax-free amount 0. The approval URL starts with the base URL and ends with the donation id. |
| KakaoPayReady.Ready | src/app/api/donations/kakaopay/ready/route.ts:12-120 | A missing field gives 400 and missing credentials give 500; a bad secret, an unconfigured database, an insert error and a duplicate id give 500 with their own messages; none of these inserts anything. The processor is called iff the row was inserted. That row is the pending KakaoPay record built from the request (id, `created_at`, title, description, amount, name, phone, email, receipt flag, encrypted prefix), with the order id and no deposit name. Its tid is written only when the processor succeeds and the write-back does not fail. A processor failure gives 500 with its message and leaves the row pending. Success returns the tid and both redirect URLs. |
| KakaoPayApprove.Approve | src/app/api/donations/kakaopay/approve/route.ts:12-100 | Missing parameters give 400. An unconfigured database gives 500, an unknown id 404, and missing credentials 500. The request carries the stored tid and order id. On processor success with no update error, the row becomes exactly the old row with status `completed`; neither status nor method is checked first. If the mail client then fails to construct, the reply is 500 with its message while the row stays completed. Every outcome before the update leaves the table unchanged. Email is attempted iff the reply is success and the record has an address; a failed send never changes the reply. |
| AdminAuth.SessionValue | src/lib/admin-auth.ts:7 | The session value is present iff an `admin_session` cookie is, and it is that cookie's value. |
| AdminAuth.IsAdminAuthenticated | src/lib/admin-auth.ts:5-9 | The gate holds iff a non-empty `admin_session` cookie is present and a non-empty admin password is configured. |
| AdminAuth.GateShut | src/lib/admin-auth.ts:7-8 | No cookie, an empty cookie, or no password keeps the gate shut. |
| AdminAuth.AnyCookieOpensGate | src/lib/admin-auth.ts:8 | Once a password is set, any non-empty cookie value opens the gate, issued or not. |
| AdminLogin.SessionCookieFor | src/app/api/admin/login/route.ts:21-31 | The token is 64 hex digits that encode the 32 random bytes. The cookie is httpOnly, secure only in production, `sameSite` lax and path `/`, and expires exactly 24 hours after issue. |
| AdminLogin.CookieJar.Set | src/app/api/admin/login/route.ts:24-25 | Setting a cookie replaces only that name. |
| AdminLogin.Login | src/app/api/admin/login/route.ts:7-34 | No configured password gives 500 with its message. A wrong password gives 401 (`Rejected`). In both cases no cookie is set. The right password sets exactly the session cookie, after which the admin gate holds. |
| ConfirmDeposit.Confirm | src/app/api/admin/confirm-deposit/route.ts:13-74 | No session gives 401 and a missing id 400. An unconfigured database gives 500, an unknown id or a failed lookup 404, and a record that is not a pending bank transfer 400. An update error gives 500 with its message; every outcome before a successful update leaves the table unchanged. A successful update sets only status, confirmation time and confirmer `admin`. If the mail client then fails to construct, the reply is 500 with its message while the row stays confirmed. Success requires every step to pass. Email is attempted iff the reply is success and there is an address. |
| ConfirmDeposit.ConfirmTwice | src/app/api/admin/confirm-deposit/route.ts:34-45 | After a successful confirmation, a second one is refused with 400 and the first confirmation's time and confirmer remain. |
| AdminListing.ProjectionOmitsPrivateColumns | src/app/api/admin/donations/route.ts:20 | Records differing only in the encrypted prefix, tid, order id, description or confirmer list identically. |
| AdminListing.ProjectAll | src/app/api/admin/donations/route.ts:20 | Each listed row is the projection of the record at the same position. |
| AdminListing.InsertByDate | src/app/api/admin/donations/route.ts:21 | Inserting into a newest-first list keeps it newest first and adds exactly that row. |
| AdminListing.HeadIsNewest | src/app/api/admin/donations/route.ts:21 | The head of a newest-first list is at least as new as its tail and anything older than it. |
| AdminListing.SortNewestFirst | src/app/api/admin/donations/route.ts:21 | The ordering gives a permutation of its input, newest `created_at` first. |
| AdminListing.ListDonations | src/app/api/admin/donations/route.ts:12-28 | No session gives 401; an unconfigured database gives 500; a query error gives 500 with its message. On success the rows are newest first and a permutation of the projected table: every stored record appears, and nothing else. |
| ReceiptGenerator.ParseIds | src/app/api/admin/receipts/generate/route.ts:86 | Every parsed id is non-empty and free of commas. |
| ReceiptGenerator.SelectForReceipt | src/app/api/admin/receipts/generate/route.ts:88-93 | Every selected record is in the table, requested, completed and asked for a receipt. |
| ReceiptGenerator.SelectionExact | src/app/api/admin/receipts/generate/route.ts:88-93 | A record is selected iff it is in the table, requested, completed and asked for a receipt. Ineligible ids are dropped silently. |
| ReceiptGenerator.SafeName | src/app/api/admin/receipts/generate/route.ts:113 | The safe name has the name's length; a safe character stays, and every other character becomes `_`. |
| ReceiptGenerator.SafeNameIsSafe | src/app/api/admin/receipts/generate/route.ts:113 | A safe name holds only `[a-zA-Z0-9가-힣_]`, so no slash, backslash, dot or quote. |
| ReceiptGenerator.SafeNameIdempotent | src/app/api/admin/receipts/generate/route.ts:113 | Sanitising twice is sanitising once. |
| ReceiptGenerator.EntryName | src/app/api/admin/receipts/generate/route.ts:114 | The entry name starts with `receipt_`. Its length is fixed by the name's length and `min(8, id length)`. |
| ReceiptGenerator.EntryNamesDifferByIdPrefix | src/app/api/admin/receipts/generate/route.ts:114 | Two entries for equally long names collide only when the ids share their first eight characters. |
| ReceiptGenerator.ContextFor | src/app/api/admin/receipts/generate/route.ts:16-17 | A configured organisation name is the one printed, else the default. A configured registration number is the one printed, and its line appears iff one is configured. The issue date and the locale renderings are passed through. |
| ReceiptGenerator.ResidentLine | src/app/api/admin/receipts/generate/route.ts:50-57 | The line is omitted iff no ciphertext is stored. Otherwise it is the decrypted prefix followed by seven `*`, or the placeholder when decryption fails. |
| ReceiptGenerator.ResidentLineShowsPrefix | src/app/api/admin/receipts/generate/route.ts:50-53 | A prefix stored by a submission is printed back masked, under the same secret. |
| ReceiptGenerator.TamperedResidentLineDegrades | src/app/api/admin/receipts/generate/route.ts:54-56 | A ciphertext with an altered tag prints the placeholder; the receipt is still produced. |
| ReceiptGenerator.ReceiptLines | src/app/api/admin/receipts/generate/route.ts:19-70 | The receipt's lines in order: title, organisation, the registration number when configured, issue date, donor heading, name, the resident line when there is one, amount in won, donation date, title of the campaign, the statement, organisation, representative. It has 11 lines plus the two optional ones. |
| ReceiptGenerator.BuildArchive | src/app/api/admin/receipts/generate/route.ts:111-115 | The archive has one entry per selected donation, in order, each named by `EntryName` and holding that donation's receipt. |
| ReceiptGenerator.QueryEligible | src/app/api/admin/receipts/generate/route.ts:88-93 | The query returns every stored record that is requested, completed and asked for a receipt, and nothing else, each once (distinct ids). |
| ReceiptGenerator.GenerateReceipts | src/app/api/admin/receipts/generate/route.ts:72-156 | No session gives 401 and missing `ids` 400. An unconfigured database gives 500. A query error or an empty selection gives 404 with its message. The selection is exactly the requested eligible records, each once. After the query, a failure to construct the mail client, or a failure drawing a receipt, gives 500 with its message. A zip is returned iff `zip=1` and more than one record is selected; otherwise one PDF is returned for the first selected record, named after the donor. Email is attempted only in the single-PDF case, with `email=true` and an address. |
| DonationForm.Validate | src/components/DonationForm.tsx:36-50 | Checks run in the order amount (at least 1000), trimmed name/phone/email, then a 7-character prefix when a receipt is wanted. Each check's own message is reported when it is the first to fail, and a form passes iff all checks hold. |
| DonationForm.PrefixInput | src/components/DonationForm.tsx:265-270 | The prefix field holds at most 7 characters, all digits, and keeps a typed digit string unchanged. |
| DonationForm.BuildRequest | src/components/DonationForm.tsx:56-65 | The body carries the campaign title, the amount and the contact fields. The prefix is sent iff a receipt is wanted. |
| DonationForm.ValidFormPassesServerCheck | src/components/DonationForm.tsx:36-65 | A form the client accepts always passes the server's required-field check. When a receipt is wanted, the server encrypts exactly the typed prefix. |
| DonationForm.ErrorText | src/components/DonationForm.tsx:68 | The server's error message if non-empty, else the generic message. |
| DonationForm.RedirectTarget | src/components/DonationForm.tsx:84-90 | The PC URL if present, else the mobile URL, else the no-URL error. |
| DonationForm.DonationFormState.constructor | src/components/DonationForm.tsx:22-23 | The form starts with no error, not loading, and without navigating. |
| DonationForm.DonationFormState.Submit | src/components/DonationForm.tsx:33-65 | A failing check sets its message and sends nothing. Otherwise the error is cleared, loading starts, and the endpoint matching the payment method gets the built body. |
| DonationForm.DonationFormState.OnBankTransferReply | src/components/DonationForm.tsx:67-69 | Success navigates to the success page with the id. An error shows its message and stops loading. |
| DonationForm.DonationFormState.OnReadyReply | src/components/DonationForm.tsx:82-95 | Success navigates to the redirect target. A missing URL or an error shows its message and stops loading. |
| AdminDashboard.Filtered | src/app/admin/page.tsx:65-70 | Every shown row is listed and passes every active filter. |
| AdminDashboard.FilteredExact | src/app/admin/page.tsx:65-70 | A row is shown iff it is listed and each filter not set to `all` matches it. |
| AdminDashboard.AllFiltersShowEverything | src/app/admin/page.tsx:65-70 | With all three filters on `all`, the whole listing is shown in order. |
| AdminDashboard.StatsConsistent | src/app/admin/page.tsx:72-79 | Receipts ≤ completed, pending + completed ≤ all, and bank + KakaoPay = completed. |
| AdminDashboard.TotalAmountNonNegative | src/app/admin/page.tsx:73 | With non-negative amounts, the completed total is non-negative. |
| AdminDashboard.SumNonNegative | src/app/admin/page.tsx:73 | A sum of non-negative amounts is non-negative. |
| AdminDashboard.ConfirmButtonMatchesServer | src/app/admin/page.tsx:227 | The confirm button is shown exactly for the records the confirm route accepts. |
| AdminDashboard.CsvCells | src/app/admin/page.tsx:83-93 | A CSV row has the nine header columns, with name, phone and email in their places. |
| AdminDashboard.CsvLineAsWrittenIsAmbiguous | src/app/admin/page.tsx:94 | As written, two different rows produce the same CSV line. |
| AdminDashboard.Escape | src/app/admin/page.tsx:94 | Quote doubling never shortens a cell. What it achieves is stated by UnquoteEscape and CsvLineRoundTrip. |
| AdminDashboard.EscapeWithoutQuotes | src/app/admin/page.tsx:94 | A cell without quotes is unchanged by escaping. |
| AdminDashboard.CsvLineAgreesWithoutQuotes | src/app/admin/page.tsx:94 | When no cell holds a quote, the corrected line equals the line the page writes. |
| AdminDashboard.Unquote | src/app/admin/page.tsx:94 | Reading a quoted field never grows the remaining text. |
| AdminDashboard.UnquoteEscape | src/app/admin/page.tsx:94 | Reading an escaped field followed by its closing quote gives back the field and the rest. |
| AdminDashboard.ParseQuoted | src/app/admin/page.tsx:94 | A correctly quoted field is read back as itself, and the parser continues after a following comma. |
| AdminDashboard.CsvLineRoundTrip | src/app/admin/page.tsx:94 | A line written with RFC 4180 quote doubling reads back as its cells. |
| AdminDashboard.CsvLineInjective | src/app/admin/page.tsx:94 | With the correction, different rows give different lines. |
| AdminDashboard.ExportCsv | src/app/admin/page.tsx:81-94 | The export as the page writes it, cells quoted without escaping. It starts with the byte-order mark. |
| AdminDashboard.ExportCsvLines | src/app/admin/page.tsx:81-94 | When no cell holds a line break, the text after the byte-order mark splits on newlines into the header line followed by one line per shown donation, in order, each quoted as the page quotes it. |
| AdminDashboard.ExportCsvEscaped | src/app/admin/page.tsx:94 | The corrected export, with quote doubling, also starts with the byte-order mark. |
| AdminDashboard.ExportsAgreeWithoutQuotes | src/app/admin/page.tsx:94 | When no cell holds a quote, the corrected export equals the page's export. |
| AdminDashboard.Dashboard.constructor | src/app/admin/page.tsx:23-28 | The page starts logged out, empty and not loading, with every filter on `all`, so the table shows the whole listing. |
| AdminDashboard.Dashboard.SetFilters | src/app/admin/page.tsx:65-79 | Changing a filter makes the table show exactly the listed rows passing the new filters, while the listing and the statistics panel stay the same: the statistics are computed over all rows, not the filtered ones. |
| AdminDashboard.Dashboard.OnLoginReply | src/app/admin/page.tsx:30-48 | `success` unlocks the page and begins fetching the listing (loading starts). Otherwise an alert is shown and the page stays as it was. |
| AdminDashboard.Dashboard.BeginFetch | src/app/admin/page.tsx:47-48 | Fetching starts loading and changes nothing else. |
| AdminDashboard.Dashboard.OnListingReply | src/app/admin/page.tsx:49-52 | A reply with a listing replaces the rows; loading ends either way. The filters are kept, so the table shows the new rows passing them and the panel is computed over all new rows. |
| AdminDashboard.Dashboard.OnConfirmReply | src/app/admin/page.tsx:55-63 | When the server accepted the confirmation, the listing is fetched again (loading starts, rows kept until the reply). Otherwise every field keeps its value. |
| ReceiptsPage.ReceiptCandidates | src/app/admin/receipts/page.tsx:36-40 | Every offered donation is listed and eligible by the server's own predicate. |
| ReceiptsPage.CandidatesMatchServer | src/app/admin/receipts/page.tsx:36-40 | A donation is offered iff it is listed, completed and asked for a receipt. |
| ReceiptsPage.Ids | src/app/admin/receipts/page.tsx:62 | The id list has the listed ids, position by position. |
| ReceiptsPage.JoinedIdsParseBack | src/app/admin/receipts/page.tsx:62 | For non-empty, comma-free ids, the generator's parsing of the joined ids gives back the page's list. |
| ReceiptsPage.BatchSelectsListedCandidates | src/app/admin/receipts/page.tsx:60-66 | A batch asks the generator for exactly the listed ids: a stored record is selected iff its id is on the page and it is eligible. |
| ReceiptsPage.ReceiptsPageState.constructor | src/app/admin/receipts/page.tsx:18-21 | The page starts empty, not loading, not processing, with email sending on. |
| ReceiptsPage.ReceiptsPageState.BeginFetch | src/app/admin/receipts/page.tsx:27-28 | Fetching starts loading and changes nothing else. |
| ReceiptsPage.ReceiptsPageState.OnListingReply | src/app/admin/receipts/page.tsx:29-43 | A 401 navigates to `/admin` and leaves the list and the loading flag as they were. Otherwise the candidates replace the list when there is a listing, and loading ends. |
| ReceiptsPage.ReceiptsPageState.GenerateOne | src/app/admin/receipts/page.tsx:45-48 | The request is one id and the email flag, with no zip flag; the buttons lock on that id. |
| ReceiptsPage.ReceiptsPageState.GenerateAll | src/app/admin/receipts/page.tsx:60-65 | The request is every listed id joined by commas, the email flag and `zip=1`; the buttons lock. |
| ReceiptsPage.ReceiptsPageState.FinishDownload | src/app/admin/receipts/page.tsx:72-73 | After a download the buttons unlock and nothing else changes. |

## Left out

- AES-256-GCM is not modelled. A concrete stand-in authenticated stream cipher takes its place: a keystream from key and iv, and a 16-byte tag over the ciphertext. Round trip, framing and tag checking are proved for the stand-in; the cryptographic strength of GCM is not.
- UTF-8 is not modelled. Text becomes bytes through a fixed three-bytes-per-character stand-in, and decoding, like Node's, never throws.
- Base64 is not modelled: the stored field is the decoded byte string.
- Crypto.EncryptionKey: the key is kept as its 32 ASCII characters rather than their bytes. The cipher's key-length failure is folded into the key check. So for an empty blob under a non-ASCII secret, the model reports the key-length error where Node's decipher reports the empty iv first; both fail.
- `crypto.randomBytes`, `Date.now`, `Math.random` and `new Date().toISOString()` are not modelled. Their results are parameters (`iv`, `seed`, `nowMs`, `random36`, `nowIso`).
- The database is an in-memory map.
  - Its errors are parameters (`insertError`, `lookupError`, `updateError`, `queryError`).
  - The ids and `created_at` values it assigns are parameters (`newId`, `now`), and `created_at` is a natural number.
  - Read errors other than a missing row follow the source's 404.
- The KakaoPay HTTP calls are not modelled. The processor's reply (`ok`, `code`, `msg`, `tid`, URLs) is a parameter. The request body is returned so that contracts can state it. The `Authorization` header is not modelled.
- Sending email (Resend) is not modelled. Only whether a message was attempted is returned; a failed send is caught in the source and changes nothing.
- KakaoPayApprove.Approve: whether `new Resend(...)` throws (the library needs `RESEND_API_KEY`) is library behaviour outside this model. It is the parameter `clientError`; when it is set, the reply is 500 after the donation was already marked completed.
- ConfirmDeposit.Confirm: the same holds for `new Resend(...)` in confirm-deposit. It is the parameter `clientError`; when it is set, the reply is 500 after the deposit was already confirmed.
- ReceiptGenerator.GenerateReceipts: whether `new Resend(...)` throws, and whether pdf-lib can draw the receipt text, are library behaviour outside this model. They are the parameters `clientError` and `renderError`, and either one gives a 500. The receipt is drawn with the standard Helvetica fonts, which in pdf-lib encode only WinAnsi; then every receipt, whose title is Hangul, would fail to draw. Without pdf-lib's source this is not claimed as a finding.
- PDF layout is not modelled: coordinates, fonts, the `y` cursor and page size. A receipt is its list of text lines.
- Zip compression and streaming are not modelled. An archive is its list of named entries.
- `toLocaleString` and `toLocaleDateString` are parameters (`amountText`, `dateText`, `dateTime`, `issuedOn`).
- In the form, `Number(amount)` and the truthiness of non-string JSON values are not modelled. The amount is an integer, the text fields are strings, and `receipt_required` is a boolean.
- Next.js's own 500 page for an exception outside a `try` is not modelled. That covers `getSupabase` throwing in confirm-deposit, the listing and receipt generation, the mail-client failure in confirm-deposit, and the mail-client and drawing failures in receipt generation. The model replies 500 with the exception's message, as the routes that do catch it reply.
- Messages of exceptions thrown inside Node's crypto are not modelled. The invalid-iv and authentication-failure strings are representative; only the fact that decryption fails is used.
- URL encoding of query strings and redirect URLs is not modelled.
- The success, fail and cancel pages, the landing page and the layout are not modelled (UI only). So are the dashboard's table markup and its download plumbing (`Blob`, object URLs, the download file names).
- Concurrency is not modelled: the handlers run one at a time, so the race between the read and the update in confirm-deposit is not captured.
- ReceiptGenerator.SafeName: the model works on Unicode code points, while the source's regular expression replaces UTF-16 code units. A character outside the Basic Multilingual Plane becomes one `_` here and two in the source.
- KakaoPayReady.OrderId: the base-36 random part is a parameter, so the model does not say that it consists of base-36 digits.

## Findings

| source | as written | input that shows it | evidently intended | confidence | as-written member | corrected member |
|---|---|---|---|---|---|---|
| src/app/admin/page.tsx:94 | every CSV cell is wrapped as `"${c}"` without doubling quotes inside it | a donor named `a","b` next to a row whose next cell is `c` gives the same line as the cells `a` and `b","c` (any name or email containing `"` shifts or merges columns) | RFC 4180 quoting: a `"` inside a quoted cell is written `""`, so that every line reads back as its own cells | not executed | AdminDashboard.CsvLineAsWrittenIsAmbiguous | AdminDashboard.CsvLineRoundTrip |
