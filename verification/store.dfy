/**
  The record store as the services use it: an ordered collection of records
  that answers equality-filtered reads in store order and applies
  filtered updates. Reads never fail in this model.
*/
module Store {
  import Wrappers

  /**
    The rows matching a filter, in store order: what `readRecords` returns.
    The ensures below say only which rows are read; the order is pinned down
    by `SelectAppend` and `SelectConcat`.
  */
  function Select<T>(rows: seq<T>, matches: T -> bool): (r: seq<T>)
    ensures |r| <= |rows|
    ensures forall x :: x in r ==> x in rows && matches(x)
    ensures forall x :: x in rows && matches(x) ==> x in r
  {
    if |rows| == 0 then []
    else (if matches(rows[0]) then [rows[0]] else []) + Select(rows[1..], matches)
  }

  /** Selecting from a store with one more row counts that row exactly when it matches. */
  lemma {:induction false} SelectAppend<T>(rows: seq<T>, row: T, matches: T -> bool)
    ensures Select(rows + [row], matches) == Select(rows, matches) + (if matches(row) then [row] else [])
  {
    if |rows| == 0 {
      assert rows + [row] == [row];
    } else {
      assert (rows + [row])[1..] == rows[1..] + [row];
      SelectAppend(rows[1..], row, matches);
    }
  }

  /** A selection over two consecutive stretches of a store is the two selections in turn. */
  lemma {:induction false} SelectConcat<T>(front: seq<T>, back: seq<T>, matches: T -> bool)
    ensures Select(front + back, matches) == Select(front, matches) + Select(back, matches)
  {
    if |front| == 0 {
      assert front + back == back;
    } else {
      assert (front + back)[1..] == front[1..] + back;
      SelectConcat(front[1..], back, matches);
    }
  }

  /** Narrowing a selection by a stricter filter is selecting with that filter directly. */
  lemma {:induction false} SelectNarrow<T>(rows: seq<T>, wide: T -> bool, narrow: T -> bool)
    requires forall x :: narrow(x) ==> wide(x)
    ensures Select(Select(rows, wide), narrow) == Select(rows, narrow)
  {
    if |rows| > 0 {
      var head := if wide(rows[0]) then [rows[0]] else [];
      SelectConcat(head, Select(rows[1..], wide), narrow);
      SelectNarrow(rows[1..], wide, narrow);
    }
  }

  /**
    The store after an update: every matching row is rewritten by `apply`,
    every other row is left as it was.
  */
  function UpdateWhere<T>(rows: seq<T>, matches: T -> bool, apply: T -> T): (r: seq<T>)
    ensures |r| == |rows|
    ensures forall i :: 0 <= i < |rows| && matches(rows[i]) ==> r[i] == apply(rows[i])
    ensures forall i :: 0 <= i < |rows| && !matches(rows[i]) ==> r[i] == rows[i]
  {
    seq(|rows|, i requires 0 <= i < |rows| => if matches(rows[i]) then apply(rows[i]) else rows[i])
  }

  /**
    The store's answer to a create request, before its schema checks: the id
    it assigned (none leaves the schema default) and the creation time, or a
    failure of its own.
  */
  datatype StoreReply = Accepted(assignedId: Wrappers.Option<int>, at: int) | Faulted(error: string)

  /** A schema constraint the store enforces on create. */
  datatype Violation = MissingRequired(field: string) | NotInEnum(field: string) | DuplicateKey(field: string)

  /** An update whose rewrite preserves a filter leaves the number of rows that filter selects unchanged. */
  lemma {:induction false} SelectAfterUpdate<T>(rows: seq<T>, matches: T -> bool, apply: T -> T, keep: T -> bool)
    requires forall x :: keep(apply(x)) == keep(x)
    ensures |Select(UpdateWhere(rows, matches, apply), keep)| == |Select(rows, keep)|
  {
    if |rows| > 0 {
      var updated := UpdateWhere(rows, matches, apply);
      assert updated[1..] == UpdateWhere(rows[1..], matches, apply);
      SelectAfterUpdate(rows[1..], matches, apply, keep);
    }
  }
}
