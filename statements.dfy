/** The SQL statements the handlers send to storage: their text, built from a
    placeholder list, and the positional parameters bound to them. */
module Statements {
  import opened Users

  /** The three bulk actions, one per endpoint. */
  datatype Action = Block | Unblock | Delete

  /** A parameterised statement: its text and the values bound to its `?` marks, in order. */
  datatype Statement = Statement(sql: string, params: seq<Id>)

  /** Number of `?` parameter marks in a statement text. */
  function MarkCount(s: string): nat
  {
    if s == [] then 0 else (if s[0] == '?' then 1 else 0) + MarkCount(s[1..])
  }

  /** A text without a `?` character binds nothing. */
  lemma {:induction false} NoMarks(s: string)
    requires '?' !in s
    ensures MarkCount(s) == 0
  {
    if s != [] {
      NoMarks(s[1..]);
    }
  }

  /** Marks of a concatenation add up. */
  lemma {:induction false} MarkCountConcat(a: string, b: string)
    ensures MarkCount(a + b) == MarkCount(a) + MarkCount(b)
  {
    if a == [] {
      assert a + b == b;
    } else {
      assert (a + b)[1..] == a[1..] + b;
      MarkCountConcat(a[1..], b);
    }
  }

  /** Text around a placeholder list that has no marks of its own adds none. */
  lemma MarksFramed(before: string, inner: string, after: string)
    requires '?' !in before && '?' !in after
    ensures MarkCount(before + inner + after) == MarkCount(inner)
  {
    NoMarks(before);
    NoMarks(after);
    MarkCountConcat(before, inner);
    MarkCountConcat(before + inner, after);
  }

  /** A statement binds exactly as many values as its text has marks. */
  predicate WellBound(st: Statement)
  {
    MarkCount(st.sql) == |st.params|
  }

  /** Array.prototype.join: the parts separated by `sep`, no separator before the
      first part or after the last. */
  function Join(parts: seq<string>, sep: string): (r: string)
    ensures |parts| == 0 ==> r == ""
    ensures |parts| > 0 ==> parts[0] <= r
    ensures |parts| > 1 ==> parts[0] + sep <= r
    ensures |parts| > 0 ==> |parts[|parts| - 1]| <= |r| && r[|r| - |parts[|parts| - 1]|..] == parts[|parts| - 1]
    decreases |parts|
  {
    if |parts| == 0 then ""
    else if |parts| == 1 then parts[0]
    else parts[0] + sep + Join(parts[1..], sep)
  }

  /** One "?" per id: the placeholder mapped from each of `n` ids. */
  function Marks(n: nat): (m: seq<string>)
    ensures |m| == n && forall i :: 0 <= i < n ==> m[i] == "?"
  {
    seq(n, _ => "?")
  }

  /** The placeholder list: one mark per id, joined with commas. */
  function Placeholders(ids: seq<Id>): (p: string)
    ensures MarkCount(p) == |ids|
    ensures |ids| == 0 ==> p == ""
    ensures |ids| > 0 ==> |p| == 2 * |ids| - 1 && p[0] == '?' && p[|p| - 1] == '?'
  {
    JoinMarksShape(|ids|);
    Join(Marks(|ids|), ",")
  }

  /** `?` at the even positions and `,` at the odd ones, nothing else. */
  predicate Alternating(p: string)
  {
    forall i :: 0 <= i < |p| ==> p[i] == if i % 2 == 0 then '?' else ','
  }

  /** Putting a mark and a comma in front keeps the alternation. */
  lemma PrefixKeepsAlternating(rest: string)
    requires Alternating(rest)
    ensures Alternating("?" + "," + rest)
  {
    var p := "?" + "," + rest;
    forall i | 2 <= i < |p|
      ensures p[i] == if i % 2 == 0 then '?' else ','
    {
      assert p[i] == rest[i - 2];
      assert (i - 2) % 2 == i % 2;
    }
  }

  /** `?,?,...,?` with `n` marks, written out mark by mark. */
  function MarkList(n: nat): string
  {
    if n <= 1 then (if n == 0 then "" else "?") else "?" + "," + MarkList(n - 1)
  }

  /** Joining one mark per id with commas gives exactly `?,?,...,?`. */
  lemma {:induction false} JoinMarksIsMarkList(n: nat)
    ensures Join(Marks(n), ",") == MarkList(n)
  {
    if n == 1 {
      assert Marks(1) == ["?"];
    } else if n > 1 {
      assert Marks(n)[1..] == Marks(n - 1);
      JoinMarksIsMarkList(n - 1);
    }
  }

  /** `?,?,...,?` with `n` marks is empty for none, else `2n - 1` characters
      alternating mark and comma, with exactly `n` marks. */
  lemma {:induction false} MarkListShape(n: nat)
    ensures n == 0 ==> MarkList(n) == ""
    ensures n > 0 ==> |MarkList(n)| == 2 * n - 1
    ensures Alternating(MarkList(n))
    ensures MarkCount(MarkList(n)) == n
  {
    if n == 1 {
      assert Alternating("?");
      assert MarkCount("?") == 1 by { assert "?"[1..] == ""; }
    } else if n > 1 {
      MarkListShape(n - 1);
      PrefixKeepsAlternating(MarkList(n - 1));
      assert ("?" + "," + MarkList(n - 1))[1..] == "," + MarkList(n - 1);
      assert ("," + MarkList(n - 1))[1..] == MarkList(n - 1);
    }
  }

  /** The placeholder list for `n` ids is `?,?,...,?`: `n` marks at the even
      positions, single commas at the odd ones, nothing else. */
  lemma JoinMarksShape(n: nat)
    ensures n == 0 ==> Join(Marks(n), ",") == ""
    ensures n > 0 ==> |Join(Marks(n), ",")| == 2 * n - 1
    ensures Alternating(Join(Marks(n), ","))
    ensures MarkCount(Join(Marks(n), ",")) == n
  {
    JoinMarksIsMarkList(n);
    MarkListShape(n);
  }

  /** Shape of the placeholder string for a list of ids: `2n - 1` characters,
      marks and commas alternating, starting and ending with a mark. */
  lemma PlaceholdersShape(ids: seq<Id>)
    ensures |ids| == 0 ==> Placeholders(ids) == ""
    ensures |ids| > 0 ==> |Placeholders(ids)| == 2 * |ids| - 1
    ensures |ids| > 0 ==> Placeholders(ids)[0] == '?' && Placeholders(ids)[|Placeholders(ids)| - 1] == '?'
    ensures Alternating(Placeholders(ids))
    ensures MarkCount(Placeholders(ids)) == |ids|
  {
    JoinMarksShape(|ids|);
  }

  // The fixed texts below are written as concatenations of short literals:
  // the verifier decides that a short literal has no `?` cheaply, a long one not.

  /** Fixed text of the actor lookup, up to its one mark, which closes it. */
  const SelectStatusPrefix := "SELECT status " + "FROM users " + "WHERE id = "

  /** Fixed text of each bulk statement, up to its placeholder list; the list is
      followed by a closing parenthesis. */
  function BulkPrefix(action: Action): (p: string)
    ensures '?' !in p
    ensures |p| > 0 && p[|p| - 1] == '('
  {
    match action
    case Block => "UPDATE users " + "SET status = " + "'blocked'" + " WHERE id IN ("
    case Unblock => "UPDATE users " + "SET status = " + "'active'" + " WHERE id IN ("
    case Delete => "DELETE FROM users " + "WHERE id IN ("
  }

  /** The fixed texts of the statements are free of marks. */
  lemma FixedTextsUnmarked()
    ensures '?' !in SelectStatusPrefix && '?' !in ")"
  {
  }

  /** The lookup issued by the actor check: one mark, bound to the actor's id. */
  function SelectStatusStatement(actor: Id): (st: Statement)
    ensures WellBound(st) && st.params == [actor]
  {
    FixedTextsUnmarked();
    NoMarks(SelectStatusPrefix);
    MarkCountConcat(SelectStatusPrefix, "?");
    Statement(SelectStatusPrefix + "?", [actor])
  }

  /** The bulk statement text for an action over a placeholder list. */
  function BulkSql(action: Action, placeholders: string): (sql: string)
    ensures MarkCount(sql) == MarkCount(placeholders)
    ensures BulkPrefix(action) <= sql && sql[|sql| - 1] == ')'
  {
    FixedTextsUnmarked();
    MarksFramed(BulkPrefix(action), placeholders, ")");
    BulkPrefix(action) + placeholders + ")"
  }

  /** The bulk statement for an action and a target list, with the targets bound
      as its parameters: its marks match its parameters one for one. */
  function BulkStatement(action: Action, ids: seq<Id>): (st: Statement)
    ensures st.params == ids && WellBound(st)
  {
    Statement(BulkSql(action, Placeholders(ids)), ids)
  }
}
