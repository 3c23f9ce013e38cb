/**
 * The `ledger_entries` table behind server/src/dao/ledgerDao.ts:42-78, held in memory: rows in
 * insertion order and the next id SQLite's `last_insert_rowid()` will hand out. Rows are never
 * deleted; only `is_reverted` of a row is ever changed after it is written.
 */
module LedgerStore {
  import opened Wrappers
  import opened Denominations
  import opened Ledger

  datatype StoreError = OriginalNotFound(entryId: int)

  /** Ids strictly increase along the rows, so each id names at most one row. */
  predicate IdsIncreasing(rows: seq<LedgerEntry>) {
    forall i, j | 0 <= i < j < |rows| :: rows[i].id < rows[j].id
  }

  lemma IncreasingIsUnique(rows: seq<LedgerEntry>)
    requires IdsIncreasing(rows)
    ensures UniqueIds(rows)
  {
    forall e1, e2 | e1 in rows && e2 in rows && e1.id == e2.id
      ensures e1 == e2
    {
      var i :| 0 <= i < |rows| && rows[i] == e1;
      var j :| 0 <= j < |rows| && rows[j] == e2;
      assert !(i < j) && !(j < i);
    }
  }

  /**
   * `SELECT * ... WHERE pos_instance_id = ? ORDER BY created_at DESC`, with creation order being
   * insertion order: the rows of one instance, newest first.
   */
  function NewestFirst(rows: seq<LedgerEntry>, posInstanceId: string): (r: seq<LedgerEntry>)
    ensures forall e :: e in r <==> e in rows && e.posInstanceId == posInstanceId
    ensures |r| <= |rows|
  {
    if rows == [] then [] else
      var last := rows[|rows| - 1];
      assert rows == rows[..|rows| - 1] + [last];
      (if last.posInstanceId == posInstanceId then [last] else []) + NewestFirst(rows[..|rows| - 1], posInstanceId)
  }

  predicate IdsDecreasing(rows: seq<LedgerEntry>) {
    forall i, j | 0 <= i < j < |rows| :: rows[i].id > rows[j].id
  }

  /** Every row of the listing of a prefix has an id below that of any later row. */
  lemma NewestFirstBelow(rows: seq<LedgerEntry>, posInstanceId: string, bound: int)
    requires forall i | 0 <= i < |rows| :: rows[i].id < bound
    ensures forall x | x in NewestFirst(rows, posInstanceId) :: x.id < bound
  {
    forall x | x in NewestFirst(rows, posInstanceId)
      ensures x.id < bound
    {
      var k :| 0 <= k < |rows| && rows[k] == x;
    }
  }

  /** When ids increase with insertion, the listing has strictly decreasing ids. */
  lemma {:induction false} NewestFirstDescending(rows: seq<LedgerEntry>, posInstanceId: string)
    requires IdsIncreasing(rows)
    ensures IdsDecreasing(NewestFirst(rows, posInstanceId))
  {
    if rows != [] {
      var n := |rows|;
      var init := rows[..n - 1];
      var last := rows[n - 1];
      NewestFirstDescending(init, posInstanceId);
      var tail := NewestFirst(init, posInstanceId);
      if last.posInstanceId == posInstanceId {
        NewestFirstBelow(init, posInstanceId, last.id);
        ConsDecreasing(last, tail);
      }
    }
  }

  lemma ConsDecreasing(x: LedgerEntry, tail: seq<LedgerEntry>)
    requires IdsDecreasing(tail) && forall y | y in tail :: y.id < x.id
    ensures IdsDecreasing([x] + tail)
  {
    var r := [x] + tail;
    forall i, j | 0 <= i < j < |r|
      ensures r[i].id > r[j].id
    {
      assert r[j] == tail[j - 1];
      if i > 0 {
        assert r[i] == tail[i - 1];
      } else {
        assert tail[j - 1] in tail;
      }
    }
  }

  /**
   * `UPDATE ledger_entries SET is_reverted = TRUE WHERE id = ?`: the rows with that id are
   * flagged and every other field of every row is kept.
   */
  function MarkReverted(rows: seq<LedgerEntry>, entryId: int): (r: seq<LedgerEntry>)
    ensures |r| == |rows|
    ensures forall i | 0 <= i < |rows| ::
              && r[i].id == rows[i].id
              && r[i].data == rows[i].data
              && r[i].posInstanceId == rows[i].posInstanceId
              && r[i].isReverted == (rows[i].isReverted || rows[i].id == entryId)
  {
    if rows == [] then [] else
      var head := if rows[0].id == entryId then rows[0].(isReverted := true) else rows[0];
      [head] + MarkReverted(rows[1..], entryId)
  }

  /** Flagging the same id twice is the same as flagging it once. */
  lemma MarkRevertedTwice(rows: seq<LedgerEntry>, entryId: int)
    ensures MarkReverted(MarkReverted(rows, entryId), entryId) == MarkReverted(rows, entryId)
  {
    var once := MarkReverted(rows, entryId);
    var twice := MarkReverted(once, entryId);
    assert forall i | 0 <= i < |rows| :: twice[i] == once[i];
  }

  /** `SELECT pos_instance_id FROM ledger_entries WHERE id = ?`, taking the first row found. */
  function InstanceOf(rows: seq<LedgerEntry>, entryId: int): (r: Option<string>)
    ensures r.None? <==> entryId !in Ids(rows)
    ensures r.Some? ==> exists e | e in rows :: e.id == entryId && e.posInstanceId == r.value
  {
    if rows == [] then None
    else if rows[0].id == entryId then Some(rows[0].posInstanceId)
    else
      assert Ids(rows) == {rows[0].id} + Ids(rows[1..]) by {
        assert rows == [rows[0]] + rows[1..];
      }
      InstanceOf(rows[1..], entryId)
  }

  /** Flagging rows keeps every id, the id order and each row's instance. */
  lemma MarkRevertedKeeps(rows: seq<LedgerEntry>, entryId: int)
    ensures Ids(MarkReverted(rows, entryId)) == Ids(rows)
    ensures IdsIncreasing(rows) ==> IdsIncreasing(MarkReverted(rows, entryId))
    ensures InstanceOf(MarkReverted(rows, entryId), entryId) == InstanceOf(rows, entryId)
  {
    var m := MarkReverted(rows, entryId);
    forall k | k in Ids(rows)
      ensures k in Ids(m)
    {
      var i :| 0 <= i < |rows| && rows[i].id == k;
      assert m[i].id == k;
    }
    forall k | k in Ids(m)
      ensures k in Ids(rows)
    {
      var i :| 0 <= i < |m| && m[i].id == k;
      assert rows[i].id == k;
    }
    InstanceOfMarked(rows, entryId);
  }

  /** Flagging an id no row has changes nothing. */
  lemma MarkRevertedAbsent(rows: seq<LedgerEntry>, entryId: int)
    requires entryId !in Ids(rows)
    ensures MarkReverted(rows, entryId) == rows
  {
    var m := MarkReverted(rows, entryId);
    forall i | 0 <= i < |rows|
      ensures m[i] == rows[i]
    {
      assert rows[i] in rows;
    }
  }

  /** Flagging keeps every id below a bound that all ids were below. */
  lemma MarkRevertedBelow(rows: seq<LedgerEntry>, entryId: int, bound: int)
    requires forall i | 0 <= i < |rows| :: rows[i].id < bound
    ensures var m := MarkReverted(rows, entryId); forall i | 0 <= i < |m| :: m[i].id < bound
  {
  }

  lemma {:induction false} InstanceOfMarked(rows: seq<LedgerEntry>, entryId: int)
    ensures InstanceOf(MarkReverted(rows, entryId), entryId) == InstanceOf(rows, entryId)
  {
    if rows != [] {
      var m := MarkReverted(rows, entryId);
      assert m[1..] == MarkReverted(rows[1..], entryId);
      InstanceOfMarked(rows[1..], entryId);
    }
  }

  /** Ids increase along the rows and stay below the next id to be handed out. */
  predicate ValidRows(rows: seq<LedgerEntry>, nextId: int) {
    nextId >= 1 && IdsIncreasing(rows) && forall i | 0 <= i < |rows| :: rows[i].id < nextId
  }

  /** Flagging rows keeps them valid, their ids and each id's instance. */
  lemma MarkRevertedValid(rows: seq<LedgerEntry>, nextId: int, entryId: int)
    requires ValidRows(rows, nextId)
    ensures ValidRows(MarkReverted(rows, entryId), nextId)
    ensures Ids(MarkReverted(rows, entryId)) == Ids(rows)
    ensures InstanceOf(MarkReverted(rows, entryId), entryId) == InstanceOf(rows, entryId)
  {
    MarkRevertedKeeps(rows, entryId);
    MarkRevertedBelow(rows, entryId, nextId);
  }

  class Store {
    var rows: seq<LedgerEntry>
    var nextId: int

    ghost predicate Valid()
      reads this
    {
      ValidRows(rows, nextId)
    }

    constructor ()
      ensures Valid() && rows == [] && nextId == 1
    {
      rows := [];
      nextId := 1;
    }

    /**
     * `createLedgerEntry`: appends one row with a fresh id, the given instance and payload, not
     * flagged reverted, and returns that row.
     */
    method CreateLedgerEntry(posInstanceId: string, data: EntryData) returns (e: LedgerEntry)
      requires Valid()
      modifies this
      ensures Valid()
      ensures e == LedgerEntry(old(nextId), posInstanceId, data, false)
      ensures e.id !in Ids(old(rows))
      ensures rows == old(rows) + [e] && nextId == old(nextId) + 1
    {
      e := LedgerEntry(nextId, posInstanceId, data, false);
      assert forall x | x in rows :: x.id < nextId;
      rows := rows + [e];
      nextId := nextId + 1;
    }

    /** `listLedgerEntriesByPosInstance`: this instance's rows, newest first. */
    function ListByInstance(posInstanceId: string): (r: seq<LedgerEntry>)
      reads this
      ensures r == NewestFirst(rows, posInstanceId)
      ensures forall e :: e in r <==> e in rows && e.posInstanceId == posInstanceId
    {
      NewestFirst(rows, posInstanceId)
    }

    /**
     * `UPDATE ledger_entries SET is_reverted = TRUE WHERE id = ?`: the rows with that id are
     * flagged, nothing else changes, and no row is added.
     */
    method SetReverted(entryId: int)
      requires Valid()
      modifies this
      ensures Valid()
      ensures rows == MarkReverted(old(rows), entryId) && nextId == old(nextId)
      ensures InstanceOf(rows, entryId) == InstanceOf(old(rows), entryId)
    {
      MarkRevertedValid(rows, nextId, entryId);
      rows := MarkReverted(rows, entryId);
    }

    /**
     * `revertLedgerEntry`: flags the row, then fails if no row has the id and otherwise appends a
     * reversal of it in the row's instance. Neither the flag nor the entry type of the target is
     * checked, so a second revert, or the revert of a reversal, appends another reversal.
     */
    method RevertLedgerEntry(entryId: int) returns (r: Outcome<StoreError>)
      requires Valid()
      modifies this
      ensures Valid()
      ensures entryId !in Ids(old(rows)) ==>
        r == Fail(OriginalNotFound(entryId)) && rows == old(rows) && nextId == old(nextId)
      ensures entryId in Ids(old(rows)) ==>
        && r == Pass
        && nextId == old(nextId) + 1
        && rows == MarkReverted(old(rows), entryId) +
             [LedgerEntry(old(nextId), InstanceOf(old(rows), entryId).value, Reversal(entryId), false)]
    {
      ghost var before := rows;
      SetReverted(entryId);
      var instance := InstanceOf(rows, entryId);
      if instance.None? {
        MarkRevertedAbsent(before, entryId);
        return Fail(OriginalNotFound(entryId));
      }
      var reversal := CreateLedgerEntry(instance.value, Reversal(entryId));
      r := Pass;
    }
  }
}
