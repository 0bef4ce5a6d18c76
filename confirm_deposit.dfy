/**
 * `POST /api/admin/confirm-deposit`: the administrator records that a bank
 * transfer has arrived, which completes the donation.
 */
module ConfirmDeposit {
  import opened Wrappers
  import opened Text
  import opened Donations
  import opened AdminAuth
  import Store

  const IdRequired: string := "id required"
  const DonationNotFound: string := "Not found"
  const InvalidForConfirm: string := "Invalid donation for confirm"

  /** Who the confirmation is recorded as. */
  const Confirmer: string := "admin"

  /**
   * Whether a request gets as far as a successful update: an administrator,
   * an id, a configured database, a found row that may be confirmed, and no
   * update error.
   */
  predicate UpdateSucceeds(
    rows: map<Id, Donation>, cfg: Config, cookies: map<string, Cookie>, id: Option<string>,
    lookupError: Option<string>, updateError: Option<string>)
  {
    && IsAdminAuthenticated(cookies, cfg.adminPassword) && Truthy(id) && SupabaseConfigured(cfg)
    && lookupError.None? && id.value in rows
    && ConfirmAllowed(rows[id.value])
    && updateError.None?
  }

  /**
   * The handler. `nowIso` is `new Date().toISOString()`; `lookupError` is a
   * failure of the row lookup other than a missing row; `updateError` is the
   * outcome of the update; `clientError` is the exception the mail client's
   * constructor raises, if it does, after the update and outside any `catch`.
   * `emailAttempted` says whether a confirmation email was sent for.
   */
  method Confirm(
    store: Store.DonationStore, cfg: Config, cookies: map<string, Cookie>, id: Option<string>,
    nowIso: string, lookupError: Option<string>, updateError: Option<string>, clientError: Option<string>)
    returns (reply: Reply<()>, emailAttempted: bool)
    requires store.Valid()
    modifies store
    ensures store.Valid()
    ensures !IsAdminAuthenticated(cookies, cfg.adminPassword) ==> reply == Error(Unauthorized, UnauthorizedMessage)
    ensures IsAdminAuthenticated(cookies, cfg.adminPassword) && !Truthy(id) ==> reply == Error(BadRequest, IdRequired)
    ensures reply.Ok? <==>
      UpdateSucceeds(old(store.rows), cfg, cookies, id, lookupError, updateError) && clientError.None?
    ensures IsAdminAuthenticated(cookies, cfg.adminPassword) && Truthy(id) && !SupabaseConfigured(cfg) ==>
      reply == Error(ServerError, SupabaseNotConfigured)
    ensures IsAdminAuthenticated(cookies, cfg.adminPassword) && Truthy(id) && SupabaseConfigured(cfg)
            && (lookupError.Some? || id.value !in old(store.rows)) ==>
      reply == Error(NotFound, DonationNotFound)
    ensures IsAdminAuthenticated(cookies, cfg.adminPassword) && Truthy(id) && SupabaseConfigured(cfg)
            && lookupError.None? && id.value in old(store.rows) && !ConfirmAllowed(old(store.rows)[id.value]) ==>
      reply == Error(BadRequest, InvalidForConfirm)
    ensures IsAdminAuthenticated(cookies, cfg.adminPassword) && Truthy(id) && SupabaseConfigured(cfg)
            && lookupError.None? && id.value in old(store.rows) && ConfirmAllowed(old(store.rows)[id.value])
            && updateError.Some? ==>
      reply == Error(ServerError, updateError.value)
    ensures UpdateSucceeds(old(store.rows), cfg, cookies, id, lookupError, updateError) && clientError.Some? ==>
      reply == Error(ServerError, clientError.value)
    ensures !UpdateSucceeds(old(store.rows), cfg, cookies, id, lookupError, updateError) ==>
      store.rows == old(store.rows)
    ensures UpdateSucceeds(old(store.rows), cfg, cookies, id, lookupError, updateError) ==>
      var d := old(store.rows)[id.value];
      store.rows == old(store.rows)[id.value := d.(status := Completed,
                                                     depositConfirmedAt := Some(nowIso),
                                                     depositConfirmedBy := Some(Confirmer))]
    ensures forall k :: k in old(store.rows) ==> k in store.rows && Evolves(old(store.rows)[k], store.rows[k])
    ensures emailAttempted <==> reply.Ok? && old(store.rows)[id.value].email != ""
  {
    emailAttempted := false;
    if !IsAdminAuthenticated(cookies, cfg.adminPassword) {
      return Error(Unauthorized, UnauthorizedMessage), false;
    }
    if !Truthy(id) {
      return Error(BadRequest, IdRequired), false;
    }
    if !SupabaseConfigured(cfg) {
      return Error(ServerError, SupabaseNotConfigured), false;
    }
    var key := id.value;
    if lookupError.Some? || key !in store.rows {
      return Error(NotFound, DonationNotFound), false;
    }
    var d := store.rows[key];
    if !ConfirmAllowed(d) {
      return Error(BadRequest, InvalidForConfirm), false;
    }
    Store.ConfirmationIsAllowed(d, nowIso, Confirmer);
    var failure := store.Update(key, Store.MarkDepositConfirmed(nowIso, Confirmer), updateError);
    if failure.Some? {
      return Error(ServerError, failure.value), false;
    }
    if clientError.Some? {
      return Error(ServerError, clientError.value), false;
    }
    emailAttempted := d.email != "";
    reply := Ok(());
  }

  /**
   * Confirming the same donation twice: the second request is refused and the
   * first confirmation's time and confirmer stay as they were.
   */
  method ConfirmTwice(
    store: Store.DonationStore, cfg: Config, cookies: map<string, Cookie>, id: string,
    firstIso: string, secondIso: string)
    returns (first: Reply<()>, second: Reply<()>)
    requires store.Valid()
    modifies store
    ensures first.Ok? ==>
      && second == Error(BadRequest, InvalidForConfirm)
      && id in store.rows && store.rows[id].depositConfirmedAt == Some(firstIso)
      && store.rows[id].depositConfirmedBy == Some(Confirmer)
  {
    var emailed;
    first, emailed := Confirm(store, cfg, cookies, Some(id), firstIso, None, None, None);
    second, emailed := Confirm(store, cfg, cookies, Some(id), secondIso, None, None, None);
  }
}
