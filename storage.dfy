/**
 * The `{prefix}change_log` table as an in-memory list of rows in insertion
 * order plus the AUTO_INCREMENT counter that numbers them.
 */
module Storage {
  import opened Php

  /** One row of the log table. A NULL column is `None`. */
  datatype LogEntry = LogEntry(
    id: nat,
    timestamp: string,            // 'YYYY-MM-DD HH:MM:SS'
    userId: Option<int>,
    userLogin: string,
    actionType: string,
    objectType: string,
    objectId: int,
    objectName: string,
    description: string,
    oldValue: Option<string>,
    newValue: Option<string>,
    ipAddress: string,
    userAgent: string)

  /** The rows of `rows` that satisfy `keep`, in their original order. */
  function FilterRows(rows: seq<LogEntry>, keep: LogEntry -> bool): seq<LogEntry>
  {
    if rows == [] then []
    else (if keep(rows[0]) then [rows[0]] else []) + FilterRows(rows[1..], keep)
  }

  /** A row survives the filter iff it was there and satisfies the predicate. */
  lemma {:induction false} FilterRowsMembers(rows: seq<LogEntry>, keep: LogEntry -> bool, e: LogEntry)
    ensures e in FilterRows(rows, keep) <==> e in rows && keep(e)
  {
    if rows != [] {
      FilterRowsMembers(rows[1..], keep, e);
      assert rows == [rows[0]] + rows[1..];
    }
  }

  /** Splitting the rows by a predicate loses and duplicates nothing. */
  lemma {:induction false} FilterRowsPartition(rows: seq<LogEntry>, keep: LogEntry -> bool)
    ensures |FilterRows(rows, keep)| + |FilterRows(rows, e => !keep(e))| == |rows|
  {
    if rows != [] {
      FilterRowsPartition(rows[1..], keep);
    }
  }

  /** Ids strictly increase from the first row to the last. */
  ghost predicate IdsIncrease(rows: seq<LogEntry>)
  {
    forall i, j :: 0 <= i < j < |rows| ==> rows[i].id < rows[j].id
  }

  /** Filtering keeps the id order, because it only drops rows. */
  lemma {:induction false} FilterRowsKeepsOrder(rows: seq<LogEntry>, keep: LogEntry -> bool)
    requires IdsIncrease(rows)
    ensures IdsIncrease(FilterRows(rows, keep))
  {
    if rows != [] {
      var rest := FilterRows(rows[1..], keep);
      FilterRowsKeepsOrder(rows[1..], keep);
      forall e | e in rest ensures rows[0].id < e.id {
        FilterRowsMembers(rows[1..], keep, e);
        var k :| 0 <= k < |rows[1..]| && rows[1..][k] == e;
        assert rows[k + 1] == e;
      }
      var r := FilterRows(rows, keep);
      if keep(rows[0]) {
        assert r == [rows[0]] + rest;
        forall i, j | 0 <= i < j < |r| ensures r[i].id < r[j].id {
          if i == 0 {
            assert r[j] == rest[j - 1];
            assert r[j] in rest;
          } else {
            assert r[i] == rest[i - 1] && r[j] == rest[j - 1];
          }
        }
      } else {
        assert r == rest;
      }
    }
  }

  class LogTable {
    var rows: seq<LogEntry>
    var nextId: nat

    /** Every id is below the counter and ids increase along the table. */
    ghost predicate Valid()
      reads this
    {
      IdsIncrease(rows) && forall i :: 0 <= i < |rows| ==> rows[i].id < nextId
    }

    /** The table right after `dbDelta` created it: empty, AUTO_INCREMENT at 1. */
    constructor()
      ensures Valid() && rows == [] && nextId == 1
    {
      rows := [];
      nextId := 1;
    }

    /** `$wpdb->insert`: the row is appended under the next id. */
    method Insert(e: LogEntry)
      requires Valid()
      modifies this
      ensures Valid()
      ensures rows == old(rows) + [e.(id := old(nextId))]
      ensures nextId == old(nextId) + 1
    {
      rows := rows + [e.(id := nextId)];
      nextId := nextId + 1;
    }

    /** `DELETE ... WHERE p`: removes exactly the rows satisfying `p`; returns how many. */
    method DeleteWhere(p: LogEntry -> bool) returns (deleted: nat)
      requires Valid()
      modifies this`rows
      ensures Valid()
      ensures rows == FilterRows(old(rows), e => !p(e))
      ensures deleted == |FilterRows(old(rows), p)|
      ensures |rows| + deleted == |old(rows)|
    {
      FilterRowsKeepsOrder(rows, e => !p(e));
      FilterRowsPartition(rows, p);
      var kept := FilterRows(rows, e => !p(e));
      forall i | 0 <= i < |kept| ensures kept[i].id < nextId {
        FilterRowsMembers(rows, e => !p(e), kept[i]);
      }
      deleted := |FilterRows(rows, p)|;
      rows := kept;
    }
  }
}
