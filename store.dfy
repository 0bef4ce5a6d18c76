/**
 * The `donations` table as an in-memory map from id to record, with the three
 * partial updates the route handlers issue and an unordered full scan.
 */
module Store {
  import opened Wrappers
  import opened Donations

  /** The partial updates issued by the handlers. */
  datatype Patch =
    | SetTid(tid: Option<string>)                    // KakaoPay "ready": `{ kakaopay_tid }`
    | MarkCompleted                                  // KakaoPay "approve": `{ status: 'completed' }`
    | MarkDepositConfirmed(confirmedAt: string, confirmedBy: string)   // deposit confirmation

  /** The record after a patch. */
  function Apply(d: Donation, p: Patch): (r: Donation)
    ensures r.id == d.id
  {
    match p
    case SetTid(tid) => d.(kakaopayTid := tid)
    case MarkCompleted => d.(status := Completed)
    case MarkDepositConfirmed(at, who) =>
      d.(status := Completed, depositConfirmedAt := Some(at), depositConfirmedBy := Some(who))
  }

  /** Completing a record keeps every invariant and is an allowed evolution. */
  lemma CompletionIsAllowed(d: Donation)
    requires WellFormed(d)
    ensures WellFormed(Apply(d, MarkCompleted)) && Evolves(d, Apply(d, MarkCompleted))
  {
  }

  /** Confirming a pending bank transfer keeps every invariant and is an allowed evolution. */
  lemma ConfirmationIsAllowed(d: Donation, at: string, who: string)
    requires WellFormed(d) && ConfirmAllowed(d)
    ensures WellFormed(Apply(d, MarkDepositConfirmed(at, who)))
    ensures Evolves(d, Apply(d, MarkDepositConfirmed(at, who)))
    ensures !ConfirmAllowed(Apply(d, MarkDepositConfirmed(at, who)))
  {
  }

  /** The message Postgres gives when an insert reuses an existing primary key. */
  const DuplicateKey: string := "duplicate key value violates unique constraint \"donations_pkey\""

  class DonationStore {
    var rows: map<Id, Donation>

    /** Every record is filed under its own id and keeps the record invariants. */
    ghost predicate Valid()
      reads this
    {
      forall id :: id in rows ==> rows[id].id == id && WellFormed(rows[id])
    }

    constructor ()
      ensures Valid() && rows == map[]
    {
      rows := map[];
    }

    /**
     * `insert(...).select().single()`: `error` is the database's own failure,
     * if any; an id already in the table fails as a primary-key violation.
     */
    method Insert(d: Donation, error: Option<string>) returns (failure: Option<string>)
      requires Valid() && WellFormed(d)
      modifies this
      ensures Valid()
      ensures failure.None? <==> error.None? && d.id !in old(rows)
      ensures failure.Some? && error.Some? ==> failure == error
      ensures failure.Some? && error.None? ==> failure == Some(DuplicateKey)
      ensures rows == if failure.None? then old(rows)[d.id := d] else old(rows)
    {
      if error.Some? {
        failure := error;
      } else if d.id in rows {
        failure := Some(DuplicateKey);
      } else {
        failure := None;
        rows := rows[d.id := d];
      }
    }

    /**
     * `update(patch).eq('id', id)`: on success the matching row, if there is
     * one, is patched; no matching row is not an error.
     */
    method Update(id: Id, p: Patch, error: Option<string>) returns (failure: Option<string>)
      requires Valid() && (id in rows ==> WellFormed(Apply(rows[id], p)))
      modifies this
      ensures Valid()
      ensures failure == error
      ensures rows == if error.None? && id in old(rows) then old(rows)[id := Apply(old(rows)[id], p)] else old(rows)
    {
      failure := error;
      if error.None? && id in rows {
        rows := rows[id := Apply(rows[id], p)];
      }
    }

    /** `select(...)` without `order`: every record exactly once, in an unspecified order. */
    method Scan() returns (all: seq<Donation>)
      requires Valid()
      ensures forall i :: 0 <= i < |all| ==> all[i].id in rows && rows[all[i].id] == all[i]
      ensures forall id :: id in rows ==> exists i :: 0 <= i < |all| && all[i].id == id
      ensures forall i, j :: 0 <= i < j < |all| ==> all[i].id != all[j].id
    {
      all := [];
      var left := rows.Keys;
      while left != {}
        invariant left <= rows.Keys
        invariant forall i :: 0 <= i < |all| ==> all[i].id in rows && all[i].id !in left && rows[all[i].id] == all[i]
        invariant forall id :: id in rows && id !in left ==> exists i :: 0 <= i < |all| && all[i].id == id
        invariant forall i, j :: 0 <= i < j < |all| ==> all[i].id != all[j].id
        decreases left
      {
        var id :| id in left;
        ghost var before := all;
        all := all + [rows[id]];
        left := left - {id};
        forall k | k in rows && k !in left
          ensures exists i :: 0 <= i < |all| && all[i].id == k
        {
          if k == id {
            assert all[|all| - 1].id == k;
          } else {
            var i :| 0 <= i < |before| && before[i].id == k;
            assert all[i].id == k;
          }
        }
      }
    }
  }
}
