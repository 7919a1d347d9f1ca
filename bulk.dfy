/** What the three bulk statements do to the users table: a status update or a
    delete of the rows whose id is in a list. */
module BulkActions {
  import opened Users
  import opened Statements

  /** The status update over a list of ids: every existing row whose
      id is listed gets status `s`; nothing else changes, and listed ids
      without a row match nothing. */
  function SetStatus(t: Table, ids: seq<Id>, s: Status): (r: Table)
    ensures r.Keys == t.Keys
    ensures forall k :: k in t && k in ids ==> r[k].status == s && SameExceptStatus(r[k], t[k])
    ensures forall k :: k in t && k !in ids ==> r[k] == t[k]
  {
    map k | k in t :: if k in ids then t[k].(status := s) else t[k]
  }

  /** The delete over a list of ids: exactly the existing rows whose id
      is listed disappear; every other row stays as it was. */
  function RemoveIds(t: Table, ids: seq<Id>): (r: Table)
    ensures forall k :: k in r <==> k in t && k !in ids
    ensures forall k :: k in r ==> r[k] == t[k]
  {
    map k | k in t && k !in ids :: t[k]
  }

  /** The effect of the bulk statement of `action` over `ids`. */
  function Apply(action: Action, t: Table, ids: seq<Id>): (r: Table)
    ensures r.Keys <= t.Keys
    ensures action != Delete ==> r.Keys == t.Keys
    ensures forall k :: k in r ==> SameExceptStatus(r[k], t[k])
    ensures forall k :: k in t && k !in ids ==> k in r && r[k] == t[k]
  {
    match action
    case Block => SetStatus(t, ids, Blocked)
    case Unblock => SetStatus(t, ids, Active)
    case Delete => RemoveIds(t, ids)
  }

  /** Setting a status twice on the same ids: the second one wins, so block
      then unblock is the same as unblock alone, and each action is idempotent. */
  lemma LastStatusWins(t: Table, ids: seq<Id>, first: Status, second: Status)
    ensures SetStatus(SetStatus(t, ids, first), ids, second) == SetStatus(t, ids, second)
  {
    var lhs := SetStatus(SetStatus(t, ids, first), ids, second);
    var rhs := SetStatus(t, ids, second);
    assert lhs.Keys == rhs.Keys;
    forall k | k in lhs
      ensures lhs[k] == rhs[k]
    {
      if k in ids {
        assert lhs[k] == t[k].(status := second);
      }
    }
  }

  /** Block followed by unblock on the same ids leaves every targeted existing
      row active and every other row exactly as it was before the block. */
  lemma BlockThenUnblock(t: Table, ids: seq<Id>)
    ensures Apply(Unblock, Apply(Block, t, ids), ids).Keys == t.Keys
    ensures forall k :: k in t && k in ids ==> Apply(Unblock, Apply(Block, t, ids), ids)[k].status == Active
    ensures forall k :: k in t && k !in ids ==> Apply(Unblock, Apply(Block, t, ids), ids)[k] == t[k]
  {
    LastStatusWins(t, ids, Blocked, Active);
  }

  /** Deleting the same ids twice removes nothing more. */
  lemma DeleteIdempotent(t: Table, ids: seq<Id>)
    ensures RemoveIds(RemoveIds(t, ids), ids) == RemoveIds(t, ids)
  {
  }

  /** The statement matches ids, not positions: two lists naming the same ids,
      in any order and with any repetition, have the same effect. */
  lemma SameIdsSameEffect(action: Action, t: Table, ids: seq<Id>, others: seq<Id>)
    requires forall k :: k in ids <==> k in others
    ensures Apply(action, t, ids) == Apply(action, t, others)
  {
    var lhs, rhs := Apply(action, t, ids), Apply(action, t, others);
    forall k
      ensures k in lhs <==> k in rhs
    {
      assert k in ids <==> k in others;
    }
    assert lhs.Keys == rhs.Keys;
    forall k | k in lhs
      ensures lhs[k] == rhs[k]
    {
      assert k in ids <==> k in others;
    }
  }

  /** Listed ids that match no row are ignored. */
  lemma UnknownIdsIgnored(action: Action, t: Table, ids: seq<Id>, unknown: seq<Id>)
    requires forall k :: k in unknown ==> k !in t
    ensures Apply(action, t, ids + unknown) == Apply(action, t, ids)
  {
    var lhs, rhs := Apply(action, t, ids + unknown), Apply(action, t, ids);
    forall k | k in t
      ensures k in ids + unknown <==> k in ids
    {
      assert k !in unknown;
    }
    assert lhs.Keys == rhs.Keys;
    forall k | k in lhs
      ensures lhs[k] == rhs[k]
    {
      assert k in ids + unknown <==> k in ids;
    }
  }

  /** Deleting one existing and one missing id removes exactly the existing row. */
  lemma DeleteExistingAndMissing(t: Table, present: Id, absent: Id)
    requires present in t && absent !in t
    ensures Apply(Delete, t, [present, absent]) == t - {present}
  {
  }

  /** No bulk action breaks the unique index on `email`. */
  lemma KeepsEmailsUnique(action: Action, t: Table, ids: seq<Id>)
    requires EmailsUnique(t)
    ensures EmailsUnique(Apply(action, t, ids))
  {
  }

  /** The status machine: an existing targeted row ends in the state the action
      names, whatever state it was in; delete takes it out of the table. */
  lemma ActionOutcomeOnTarget(action: Action, t: Table, ids: seq<Id>, k: Id)
    requires k in t && k in ids
    ensures action == Block ==> Apply(action, t, ids)[k].status == Blocked
    ensures action == Unblock ==> Apply(action, t, ids)[k].status == Active
    ensures action == Delete ==> k !in Apply(action, t, ids)
  {
  }
}
