/** The `/block-users`, `/unblock-users` and `/delete-users` handlers: one chain
    of early exits shared by all three, then one bulk statement. */
module Handlers {
  import opened Users
  import opened Statements
  import opened Authorization
  import opened BulkActions

  /** The `ids` field of the request body: anything that is not an array, or an
      array of ids. */
  datatype Targets = NotAList | List(ids: seq<Id>)

  /** Why a request is turned away before the bulk statement is issued. */
  datatype Rejection =
    | MissingActor  // no `currentUserId`
    | CheckError    // the actor lookup failed in storage
    | NotAllowed    // the actor is missing from the table or not active
    | NoTargets     // `ids` is not an array, or is empty

  /** What the gates decide: turn the request away, or write over these ids. */
  datatype Decision = Reject(reason: Rejection) | Proceed(ids: seq<Id>)

  /** The handler's reply. */
  datatype Response = Rejected(reason: Rejection) | WriteFailed | Done

  /** The HTTP status code of a reply. */
  function Code(r: Response): (c: int)
    ensures c == 200 <==> r == Done
    ensures c == 400 <==> r == Rejected(MissingActor) || r == Rejected(NoTargets)
    ensures c == 403 <==> r == Rejected(NotAllowed)
    ensures c == 500 <==> r == Rejected(CheckError) || r == WriteFailed
  {
    match r
    case Rejected(MissingActor) => 400
    case Rejected(CheckError) => 500
    case Rejected(NotAllowed) => 403
    case Rejected(NoTargets) => 400
    case WriteFailed => 500
    case Done => 200
  }

  /** The gates, in the order the handlers apply them: actor present, lookup
      succeeded, actor active, then a non-empty list of targets. */
  function Decide(actor: Option<Id>, lookup: Lookup, targets: Targets): (d: Decision)
    ensures d.Proceed? <==>
              actor.Some? && IsUserActive(lookup) == Checked(true) && targets.List? && |targets.ids| > 0
    ensures d.Proceed? ==> d.ids == targets.ids
    ensures actor.None? ==> d == Reject(MissingActor)
    ensures actor.Some? && lookup.StorageError? ==> d == Reject(CheckError)
    ensures actor.Some? && IsUserActive(lookup) == Checked(false) ==> d == Reject(NotAllowed)
    ensures actor.Some? && IsUserActive(lookup) == Checked(true) && (targets.NotAList? || targets.ids == []) ==>
              d == Reject(NoTargets)
  {
    if actor.None? then Reject(MissingActor)
    else match IsUserActive(lookup)
      case CheckFailed => Reject(CheckError)
      case Checked(false) => Reject(NotAllowed)
      case Checked(true) =>
        if targets.NotAList? || |targets.ids| == 0 then Reject(NoTargets)
        else Proceed(targets.ids)
  }

  /** The reply for a decision, given whether the bulk statement failed. */
  function Reply(d: Decision, writeFails: bool): (r: Response)
    ensures r == Done <==> d.Proceed? && !writeFails
    ensures r == WriteFailed <==> d.Proceed? && writeFails
    ensures d.Reject? ==> r == Rejected(d.reason)
  {
    match d
    case Reject(why) => Rejected(why)
    case Proceed(_) => if writeFails then WriteFailed else Done
  }

  /** The table after a decision: only a bulk statement that was issued and did
      not fail changes it. */
  function Effect(action: Action, t: Table, d: Decision, writeFails: bool): (r: Table)
    ensures r != t ==> d.Proceed? && !writeFails
    ensures r.Keys <= t.Keys
    ensures forall k :: k in t && (d.Reject? || k !in d.ids) ==> k in r && r[k] == t[k]
  {
    if d.Proceed? && !writeFails then Apply(action, t, d.ids) else t
  }

  /** The request as a whole, against a table whose lookup may fail. */
  function Outcome(action: Action, t: Table, actor: Option<Id>, targets: Targets,
                   lookupFails: bool, writeFails: bool): (out: (Response, Table))
    ensures actor.None? ==> out == (Rejected(MissingActor), t)
    ensures actor.Some? && lookupFails ==> out == (Rejected(CheckError), t)
    ensures out.0 != Done ==> out.1 == t
    ensures out.1.Keys <= t.Keys
  {
    var d := Decide(actor, if actor.Some? then StatusLookup(t, actor.value, lookupFails) else StorageError, targets);
    (Reply(d, writeFails), Effect(action, t, d, writeFails))
  }

  /** A missing actor is answered 400 whatever the lookup and the targets. */
  lemma MissingActorFirst(lookup: Lookup, targets: Targets)
    ensures Code(Reply(Decide(None, lookup, targets), false)) == 400
  {
  }

  /** A failed actor lookup is a server error, never a refusal, whatever the targets. */
  lemma LookupErrorIsServerError(actor: Id, targets: Targets, writeFails: bool)
    ensures Code(Reply(Decide(Some(actor), StorageError, targets), writeFails)) == 500
  {
  }

  /** Authorization is decided before the targets are looked at: an actor that
      is not active gets 403 even with an empty or malformed `ids`. */
  lemma AuthorizationBeforeTargets(actor: Id, lookup: Lookup, targets: Targets, writeFails: bool)
    requires IsUserActive(lookup) == Checked(false)
    ensures Code(Reply(Decide(Some(actor), lookup, targets), writeFails)) == 403
  {
  }

  /** An active actor with an empty or non-array `ids` gets 400. */
  lemma TargetsCheckedLast(actor: Id, lookup: Lookup, targets: Targets, writeFails: bool)
    requires IsUserActive(lookup) == Checked(true)
    requires targets.NotAList? || targets.ids == []
    ensures Code(Reply(Decide(Some(actor), lookup, targets), writeFails)) == 400
  {
  }

  /** Nothing changes unless every gate passed and the write succeeded; when
      they did, the reply is 200 and the table is the bulk statement's effect. */
  lemma ChangesOnlyWhenDone(action: Action, t: Table, actor: Option<Id>, targets: Targets,
                            lookupFails: bool, writeFails: bool)
    ensures var (resp, t') := Outcome(action, t, actor, targets, lookupFails, writeFails);
            (resp != Done ==> t' == t) &&
            (resp == Done ==> targets.List? && t' == Apply(action, t, targets.ids))
  {
  }

  /** An active actor blocking ids that do not include itself, then unblocking
      the same ids, gets 200 twice; every targeted existing row ends active and
      every other row is as it was. */
  lemma BlockThenUnblockByActiveActor(t: Table, actor: Id, ids: seq<Id>)
    requires actor in t && t[actor].status == Active && actor !in ids && ids != []
    ensures var (r1, t1) := Outcome(Block, t, Some(actor), List(ids), false, false);
            var (r2, t2) := Outcome(Unblock, t1, Some(actor), List(ids), false, false);
            r1 == Done && r2 == Done && t2.Keys == t.Keys &&
            (forall k :: k in t && k in ids ==> t2[k].status == Active) &&
            (forall k :: k in t && k !in ids ==> t2[k] == t[k])
  {
    var t1 := Apply(Block, t, ids);
    CheckAgainstTable(t, actor, false);
    CheckAgainstTable(t1, actor, false);
    BlockThenUnblock(t, ids);
  }

  /** An actor that blocks itself is refused (403) on its next request, so it
      cannot undo the block itself. */
  lemma SelfBlockLocksOut(t: Table, actor: Id, ids: seq<Id>, next: Action, nextTargets: Targets)
    requires actor in t && t[actor].status == Active && actor in ids
    ensures var (r1, t1) := Outcome(Block, t, Some(actor), List(ids), false, false);
            r1 == Done &&
            Code(Outcome(next, t1, Some(actor), nextTargets, false, false).0) == 403
  {
    CheckAgainstTable(t, actor, false);
    CheckAgainstTable(Apply(Block, t, ids), actor, false);
  }

  /** Once an actor is missing or Blocked, it stays so: its own requests get 403
      (or 500 when the lookup fails), and only a successful unblock by another
      actor that lists it, or nothing, brings it back. */
  lemma LockedOutStaysOut(action: Action, t: Table, actor: Id, requester: Option<Id>,
                          targets: Targets, lookupFails: bool, writeFails: bool)
    requires actor !in t || t[actor].status == Blocked
    ensures var (r, t') := Outcome(action, t, requester, targets, lookupFails, writeFails);
            (requester == Some(actor) ==> Code(r) == 403 || Code(r) == 500) &&
            ((actor !in t' || t'[actor].status == Blocked) ||
             (r == Done && action == Unblock && requester != Some(actor) &&
              targets.List? && actor in targets.ids))
  {
    if requester.Some? {
      CheckAgainstTable(t, requester.value, lookupFails);
    }
  }

  /** An actor may delete itself; its next request is refused (403), as for any
      id without a row. */
  lemma SelfDeleteLocksOut(t: Table, actor: Id, ids: seq<Id>, next: Action, nextTargets: Targets)
    requires actor in t && t[actor].status == Active && actor in ids
    ensures var (r1, t1) := Outcome(Delete, t, Some(actor), List(ids), false, false);
            r1 == Done && actor !in t1 &&
            Code(Outcome(next, t1, Some(actor), nextTargets, false, false).0) == 403
  {
    CheckAgainstTable(t, actor, false);
    CheckAgainstTable(Apply(Delete, t, ids), actor, false);
  }

  /** Deleting one existing and one missing id, by an active actor, answers 200
      and removes exactly the existing row. */
  lemma DeleteWithMissingId(t: Table, actor: Id, present: Id, absent: Id)
    requires actor in t && t[actor].status == Active
    requires present in t && absent !in t
    ensures Outcome(Delete, t, Some(actor), List([present, absent]), false, false) == (Done, t - {present})
  {
    CheckAgainstTable(t, actor, false);
    DeleteExistingAndMissing(t, present, absent);
  }

  /** The service: the users table and the statements sent to storage so far. */
  class UsersService {
    var users: Table
    var sent: seq<Statement>

    /** The table keeps its unique index on `email`, and every statement sent
        binds exactly as many values as it has marks. */
    ghost predicate Valid()
      reads this
    {
      EmailsUnique(users) && forall st :: st in sent ==> WellBound(st)
    }

    constructor (initial: Table)
      requires EmailsUnique(initial)
      ensures Valid() && users == initial && sent == []
    {
      users := initial;
      sent := [];
    }

    /** The lookup of `isUserActive`: sends the statement, and the storage either
        fails or answers from the table. */
    method QueryStatus(actor: Id, fails: bool) returns (q: Lookup)
      requires Valid()
      modifies this`sent
      ensures Valid()
      ensures sent == old(sent) + [SelectStatusStatement(actor)]
      ensures q == StatusLookup(users, actor, fails)
    {
      sent := sent + [SelectStatusStatement(actor)];
      if fails {
        q := StorageError;
      } else {
        q := Rows(SelectStatus(users, actor));
      }
    }

    /** The block statement takes effect: listed rows become Blocked. */
    method BlockRows(ids: seq<Id>)
      requires Valid()
      modifies this`users
      ensures Valid()
      ensures users == SetStatus(old(users), ids, Blocked)
    {
      users := SetStatus(users, ids, Blocked);
      KeepsEmailsUnique(Block, old(users), ids);
    }

    /** The unblock statement takes effect: listed rows become Active. */
    method UnblockRows(ids: seq<Id>)
      requires Valid()
      modifies this`users
      ensures Valid()
      ensures users == SetStatus(old(users), ids, Active)
    {
      users := SetStatus(users, ids, Active);
      KeepsEmailsUnique(Unblock, old(users), ids);
    }

    /** The delete statement takes effect: listed rows are removed. */
    method DeleteRows(ids: seq<Id>)
      requires Valid()
      modifies this`users
      ensures Valid()
      ensures users == RemoveIds(old(users), ids)
    {
      users := RemoveIds(users, ids);
      KeepsEmailsUnique(Delete, old(users), ids);
    }

    /** Sends the bulk statement of `action`; when storage does not fail, it
        takes effect on the table. */
    method Execute(action: Action, ids: seq<Id>, fails: bool) returns (ok: bool)
      requires Valid()
      modifies this
      ensures Valid()
      ensures sent == old(sent) + [BulkStatement(action, ids)]
      ensures ok == !fails
      ensures users == if ok then Apply(action, old(users), ids) else old(users)
    {
      var st := BulkStatement(action, ids);
      assert WellBound(st);
      sent := sent + [st];
      ok := !fails;
      if ok {
        match action
        case Block => BlockRows(ids);
        case Unblock => UnblockRows(ids);
        case Delete => DeleteRows(ids);
      }
    }

    /** One bulk request: the early exits in order, then one bulk statement.
        A missing actor sends nothing; otherwise the lookup is sent, and the
        bulk statement only when every gate passed. */
    method HandleBulk(action: Action, actor: Option<Id>, targets: Targets,
                      lookupFails: bool, writeFails: bool) returns (resp: Response)
      requires Valid()
      modifies this
      ensures Valid()
      ensures (resp, users) == Outcome(action, old(users), actor, targets, lookupFails, writeFails)
      ensures actor.None? ==> sent == old(sent)
      ensures actor.Some? ==>
                var d := Decide(actor, StatusLookup(old(users), actor.value, lookupFails), targets);
                sent == old(sent) + [SelectStatusStatement(actor.value)] +
                        (if d.Proceed? then [BulkStatement(action, d.ids)] else [])
    {
      if actor.None? {
        return Rejected(MissingActor);
      }
      var lookup := QueryStatus(actor.value, lookupFails);
      var check := IsUserActive(lookup);
      if check.CheckFailed? {
        return Rejected(CheckError);
      }
      if !check.isActive {
        return Rejected(NotAllowed);
      }
      if targets.NotAList? || |targets.ids| == 0 {
        return Rejected(NoTargets);
      }
      var ok := Execute(action, targets.ids, writeFails);
      resp := if ok then Done else WriteFailed;
    }

    /** POST /block-users. */
    method BlockUsers(actor: Option<Id>, targets: Targets, lookupFails: bool, writeFails: bool)
      returns (resp: Response)
      requires Valid()
      modifies this
      ensures Valid()
      ensures (resp, users) == Outcome(Block, old(users), actor, targets, lookupFails, writeFails)
      ensures actor.None? ==> sent == old(sent)
      ensures actor.Some? ==>
                var d := Decide(actor, StatusLookup(old(users), actor.value, lookupFails), targets);
                sent == old(sent) + [SelectStatusStatement(actor.value)] +
                        (if d.Proceed? then [BulkStatement(Block, d.ids)] else [])
      ensures resp == Done ==> forall k :: k in old(users) && k in targets.ids ==> users[k].status == Blocked
    {
      resp := HandleBulk(Block, actor, targets, lookupFails, writeFails);
    }

    /** POST /unblock-users. */
    method UnblockUsers(actor: Option<Id>, targets: Targets, lookupFails: bool, writeFails: bool)
      returns (resp: Response)
      requires Valid()
      modifies this
      ensures Valid()
      ensures (resp, users) == Outcome(Unblock, old(users), actor, targets, lookupFails, writeFails)
      ensures actor.None? ==> sent == old(sent)
      ensures actor.Some? ==>
                var d := Decide(actor, StatusLookup(old(users), actor.value, lookupFails), targets);
                sent == old(sent) + [SelectStatusStatement(actor.value)] +
                        (if d.Proceed? then [BulkStatement(Unblock, d.ids)] else [])
      ensures resp == Done ==> forall k :: k in old(users) && k in targets.ids ==> users[k].status == Active
    {
      resp := HandleBulk(Unblock, actor, targets, lookupFails, writeFails);
    }

    /** POST /delete-users. */
    method DeleteUsers(actor: Option<Id>, targets: Targets, lookupFails: bool, writeFails: bool)
      returns (resp: Response)
      requires Valid()
      modifies this
      ensures Valid()
      ensures (resp, users) == Outcome(Delete, old(users), actor, targets, lookupFails, writeFails)
      ensures actor.None? ==> sent == old(sent)
      ensures actor.Some? ==>
                var d := Decide(actor, StatusLookup(old(users), actor.value, lookupFails), targets);
                sent == old(sent) + [SelectStatusStatement(actor.value)] +
                        (if d.Proceed? then [BulkStatement(Delete, d.ids)] else [])
      ensures resp == Done ==> forall k :: k in users <==> k in old(users) && k !in targets.ids
    {
      resp := HandleBulk(Delete, actor, targets, lookupFails, writeFails);
    }
  }
}
