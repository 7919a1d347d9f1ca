/** The actor check `isUserActive`: may the acting user perform a bulk action? */
module Authorization {
  import opened Users

  /** What the status lookup by id hands to its callback: a storage error, or
      the `status` texts of the rows found. */
  datatype Lookup = StorageError | Rows(statuses: seq<string>)

  /** What `isUserActive` hands to its own callback: the error, or a verdict. */
  datatype ActiveCheck = CheckFailed | Checked(isActive: bool)

  /** The verdict: active only when a row came back and the first row's status
      is exactly the text "active"; a storage error is passed on as an error. */
  function IsUserActive(q: Lookup): (r: ActiveCheck)
    ensures r.CheckFailed? <==> q.StorageError?
    ensures r == Checked(true) <==> q.Rows? && |q.statuses| > 0 && q.statuses[0] == "active"
  {
    match q
    case StorageError => CheckFailed
    case Rows(rows) =>
      if |rows| == 0 || rows[0] != "active" then Checked(false) else Checked(true)
  }

  /** The rows the lookup returns from a table: at most one, since `id` is the
      primary key. */
  function SelectStatus(t: Table, id: Id): (rows: seq<string>)
    ensures |rows| <= 1
    ensures |rows| == 1 <==> id in t
    ensures id in t ==> rows[0] == StatusText(t[id].status)
  {
    if id in t then [StatusText(t[id].status)] else []
  }

  /** The lookup as it reaches `isUserActive`: the storage either fails or
      answers from the table. */
  function StatusLookup(t: Table, id: Id, fails: bool): (q: Lookup)
    ensures q.StorageError? <==> fails
    ensures !fails ==> q.statuses == SelectStatus(t, id)
  {
    if fails then StorageError else Rows(SelectStatus(t, id))
  }

  /** Against a table, the check answers "active" exactly for a user that
      exists and whose status is Active, and fails exactly when storage fails. */
  lemma CheckAgainstTable(t: Table, id: Id, fails: bool)
    ensures IsUserActive(StatusLookup(t, id, fails)) ==
              if fails then CheckFailed else Checked(id in t && t[id].status == Active)
  {
  }

  /** A missing actor and a blocked actor get the same verdict: the caller
      cannot tell them apart. */
  lemma MissingAndBlockedAlike(t: Table, missing: Id, blocked: Id)
    requires missing !in t
    requires blocked in t && t[blocked].status == Blocked
    ensures IsUserActive(Rows(SelectStatus(t, missing))) == Checked(false)
    ensures IsUserActive(Rows(SelectStatus(t, missing))) == IsUserActive(Rows(SelectStatus(t, blocked)))
  {
  }

  /** Only the first returned row is consulted. */
  lemma OnlyFirstRowConsulted(rows: seq<string>, more: seq<string>)
    requires |rows| > 0
    ensures IsUserActive(Rows(rows + more)) == IsUserActive(Rows(rows[..1]))
  {
  }
}
