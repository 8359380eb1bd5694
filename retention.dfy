/**
 * Reading and pruning the log table: the count, cap and chunk loop of
 * `export_logs_to_csv`, `delete_logs`, and the two cleanup routines of
 * log-changes.php. The cutoff of a cleanup (`gmdate( ..., strtotime( ... ) )`)
 * and the insert time (`current_time( 'mysql' )`) are parameters.
 */
module Retention {
  import opened Php
  import opened Host
  import opened Storage
  import opened Settings
  import opened Queries
  import opened Recorder

  /** Export refuses more rows than this. */
  const ExportCap: nat := 50000

  /** Rows fetched per query while exporting. */
  const ChunkSize: nat := 1000

  datatype ExportOutcome =
    | NothingToExport                                           // `wp_die( 'No logs to export.' )`
    | TooMany(count: nat)                                       // `wp_die( 'Too many logs ...' )`, before any output
    | Streamed(count: nat, offsets: seq<nat>, rows: seq<LogEntry>)  // the OFFSET of each fetch, and the rows written

  /** The rows the export and delete queries see: filtered only when values are bound. */
  function Selected(rows: seq<LogEntry>, clauses: seq<Clause>, values: seq<SqlValue>, fold: string -> string): seq<LogEntry>
  {
    if values != [] then FilterRows(rows, r => Satisfies(r, clauses, values, fold)) else rows
  }

  function Min(a: int, b: int): int
  {
    if a <= b then a else b
  }

  /** The number of fetches of the chunk loop: the count divided by the chunk size, rounded up. */
  lemma ChunkCount(count: nat, fetches: nat)
    requires ChunkSize * fetches >= count
    requires fetches == 0 || ChunkSize * (fetches - 1) < count
    ensures fetches == (count + ChunkSize - 1) / ChunkSize
  {
  }

  /**
   * `export_logs_to_csv` as written, without the CSV text: the count decides
   * between refusing and streaming, and the chunk loop then writes every
   * selected row. `get_var` returns the COUNT(*) as a string, so the guard
   * `$count === 0` never holds and an empty selection streams a file holding
   * only the header row.
   */
  method ExportLogsToCsv(table: LogTable, clauses: seq<Clause>, values: seq<SqlValue>, fold: string -> string)
    returns (out: ExportOutcome)
    ensures !out.NothingToExport?
    ensures out.TooMany? <==> |Selected(table.rows, clauses, values, fold)| > ExportCap
    ensures out.TooMany? ==> out.count == |Selected(table.rows, clauses, values, fold)|
    ensures out.Streamed? ==>
      && out.count == |Selected(table.rows, clauses, values, fold)|
      && out.rows == Selected(table.rows, clauses, values, fold)
      && |out.offsets| == (out.count + ChunkSize - 1) / ChunkSize
      && (forall i :: 0 <= i < |out.offsets| ==> out.offsets[i] == ChunkSize * i && out.offsets[i] < out.count)
    ensures |Selected(table.rows, clauses, values, fold)| == 0 ==> out == Streamed(0, [], [])
  {
    var matching := Selected(table.rows, clauses, values, fold);
    var count := NatText(|matching|);
    if Identical(PStr(count), PInt(0)) {
      return NothingToExport;
    }
    var n := |matching|;
    if n > ExportCap {
      return TooMany(n);
    }
    var offsets, written := StreamChunks(matching);
    return Streamed(n, offsets, written);
  }

  /**
   * The export with the empty-selection guard the message evidently
   * intends: nothing is streamed when no row matches.
   */
  method ExportLogsCheckingEmpty(table: LogTable, clauses: seq<Clause>, values: seq<SqlValue>, fold: string -> string)
    returns (out: ExportOutcome)
    ensures out.NothingToExport? <==> |Selected(table.rows, clauses, values, fold)| == 0
    ensures out.TooMany? <==> |Selected(table.rows, clauses, values, fold)| > ExportCap
    ensures out.TooMany? ==> out.count == |Selected(table.rows, clauses, values, fold)|
    ensures out.Streamed? ==>
      && 0 < out.count == |Selected(table.rows, clauses, values, fold)|
      && out.rows == Selected(table.rows, clauses, values, fold)
      && |out.offsets| == (out.count + ChunkSize - 1) / ChunkSize
      && (forall i :: 0 <= i < |out.offsets| ==> out.offsets[i] == ChunkSize * i && out.offsets[i] < out.count)
  {
    var matching := Selected(table.rows, clauses, values, fold);
    var n := |matching|;
    if n == 0 {
      return NothingToExport;
    }
    if n > ExportCap {
      return TooMany(n);
    }
    var offsets, written := StreamChunks(matching);
    return Streamed(n, offsets, written);
  }

  /**
   * The `while ( $offset < $count )` loop: one fetch of up to 1000 rows per
   * offset 0, 1000, ... below the count, writing every row once, in order.
   */
  method StreamChunks(matching: seq<LogEntry>) returns (offsets: seq<nat>, written: seq<LogEntry>)
    ensures written == matching
    ensures |offsets| == (|matching| + ChunkSize - 1) / ChunkSize
    ensures forall i :: 0 <= i < |offsets| ==> offsets[i] == ChunkSize * i && offsets[i] < |matching|
  {
    var n := |matching|;
    var offset := 0;
    offsets, written := [], [];
    while offset < n
      invariant offset == ChunkSize * |offsets|
      invariant |offsets| == 0 || ChunkSize * (|offsets| - 1) < n
      invariant forall i :: 0 <= i < |offsets| ==> offsets[i] == ChunkSize * i && offsets[i] < n
      invariant written == matching[..Min(offset, n)]
    {
      var logs := matching[offset..Min(offset + ChunkSize, n)];
      assert matching[..Min(offset + ChunkSize, n)] == matching[..offset] + logs;
      written := written + logs;
      offsets := offsets + [offset];
      offset := offset + ChunkSize;
    }
    ChunkCount(n, |offsets|);
    assert written == matching;
  }

  /** Filtering with predicates that agree on every row gives the same rows. */
  lemma {:induction false} FilterRowsSame(rows: seq<LogEntry>, p: LogEntry -> bool, q: LogEntry -> bool)
    requires forall r :: p(r) == q(r)
    ensures FilterRows(rows, p) == FilterRows(rows, q)
  {
    if rows != [] {
      FilterRowsSame(rows[1..], p, q);
    }
  }

  /** A filter every row passes keeps the whole table. */
  lemma {:induction false} FilterRowsAll(rows: seq<LogEntry>, p: LogEntry -> bool)
    requires forall r :: p(r)
    ensures FilterRows(rows, p) == rows
  {
    if rows != [] {
      FilterRowsAll(rows[1..], p);
      assert [rows[0]] + rows[1..] == rows;
    }
  }

  /** Export and delete driven by `build_filter_clauses` select exactly the rows the request admits. */
  lemma ExportSelectsAdmitted(query: Query, h: Foreign, rows: seq<LogEntry>)
    ensures Selected(rows, ClausesFor(query, h, AllCriteria), ValuesFor(query, h, AllCriteria), h.fold)
      == FilterRows(rows, r => Admits(query, h, r))
  {
    var clauses, values := ClausesFor(query, h, AllCriteria), ValuesFor(query, h, AllCriteria);
    if values != [] {
      forall r | true ensures Satisfies(r, clauses, values, h.fold) <==> Admits(query, h, r) {
        ExportFilterMeaning(query, h, r);
      }
      FilterRowsSame(rows, r => Satisfies(r, clauses, values, h.fold), r => Admits(query, h, r));
    } else {
      ExportFilterShape(query, h);
      assert clauses == [];
      forall r | true ensures Admits(query, h, r) {
        ExportFilterMeaning(query, h, r);
      }
      FilterRowsAll(rows, r => Admits(query, h, r));
    }
  }

  datatype DeleteOutcome = Refused | Deleted(count: nat)

  /**
   * `delete_logs`: refuses without both clauses and values; otherwise
   * removes exactly the matching rows and returns the count taken before.
   */
  method DeleteLogs(table: LogTable, clauses: seq<Clause>, values: seq<SqlValue>, fold: string -> string)
    returns (out: DeleteOutcome)
    requires table.Valid()
    modifies table`rows
    ensures table.Valid()
    ensures out.Refused? <==> clauses == [] || values == []
    ensures out.Refused? ==> table.rows == old(table.rows)
    ensures out.Deleted? ==>
      && out.count == |FilterRows(old(table.rows), r => Satisfies(r, clauses, values, fold))|
      && table.rows == FilterRows(old(table.rows), r => !Satisfies(r, clauses, values, fold))
      && |table.rows| + out.count == |old(table.rows)|
  {
    if clauses == [] || values == [] {
      return Refused;
    }
    var matches := r => Satisfies(r, clauses, values, fold);
    FilterRowsSame(table.rows, e => !matches(e), r => !Satisfies(r, clauses, values, fold));
    var count := |FilterRows(table.rows, matches)|;
    var _ := table.DeleteWhere(matches);
    return Deleted(count);
  }

  /** `isset( $settings['cleanup_days'] ) ? absint( ... ) : 21` */
  function CleanupDays(settings: map<string, Setting>, h: Foreign): nat
  {
    if "cleanup_days" !in settings then 21
    else
      match settings["cleanup_days"]
      case Num(n) => if n < 0 then -n else n
      case Text(s) => h.absint(s)
  }

  /** Rows a cleanup removes: those stamped strictly before the cutoff. */
  predicate Expired(r: LogEntry, cutoff: string)
  {
    TextLess(r.timestamp, cutoff)
  }

  /** The row `auto_cleanup_old_logs` writes about itself. */
  function AutoCleanupRow(deleted: nat, days: nat, now: string): LogEntry
  {
    LogEntry(0, now, Some(0), "System", "cleanup", "log", 0, "Automatic Cleanup",
             "Automatically deleted " + NatText(deleted) + " log entries older than " + NatText(days) + " days",
             None, None, "", "WordPress Cron")
  }

  /** The row `manual_cleanup_old_logs` writes about itself, as the current user. */
  function ManualCleanupRow(deleted: nat, days: nat, user: User, server: Server, h: Foreign, now: string): LogEntry
  {
    LogEntry(0, now, Some(user.id), user.login, "cleanup", "log", 0, "Manual Cleanup",
             "Manually deleted " + NatText(deleted) + " log entries older than " + NatText(days) + " days",
             None, None, UserIp(server, h), UserAgent(server, h))
  }

  /** `auto_cleanup_old_logs`: delete what is older than the cutoff, then record that, if anything went. */
  method AutoCleanupOldLogs(plugin: LogChanges, h: Foreign, cutoff: string, now: string) returns (deleted: nat)
    requires plugin.Valid()
    modifies plugin.table
    ensures plugin.Valid()
    ensures deleted == |FilterRows(old(plugin.table.rows), r => Expired(r, cutoff))|
    ensures plugin.table.rows == FilterRows(old(plugin.table.rows), r => !Expired(r, cutoff))
      + (if deleted > 0
         then [AutoCleanupRow(deleted, CleanupDays(plugin.settings, h), now).(id := old(plugin.table.nextId))]
         else [])
    ensures plugin.table.nextId == old(plugin.table.nextId) + (if deleted > 0 then 1 else 0)
  {
    var days := CleanupDays(plugin.settings, h);
    var expired := r => Expired(r, cutoff);
    FilterRowsSame(plugin.table.rows, e => !expired(e), r => !Expired(r, cutoff));
    deleted := plugin.table.DeleteWhere(expired);
    if deleted > 0 {
      plugin.table.Insert(AutoCleanupRow(deleted, days, now));
    } else {
      assert plugin.table.rows + [] == plugin.table.rows;
    }
  }

  /** `manual_cleanup_old_logs`: the same deletion, recorded under the current user and request. */
  method ManualCleanupOldLogs(plugin: LogChanges, user: User, server: Server, h: Foreign, cutoff: string, now: string)
    returns (deleted: nat)
    requires plugin.Valid()
    modifies plugin.table
    ensures plugin.Valid()
    ensures deleted == |FilterRows(old(plugin.table.rows), r => Expired(r, cutoff))|
    ensures plugin.table.rows == FilterRows(old(plugin.table.rows), r => !Expired(r, cutoff))
      + (if deleted > 0
         then [ManualCleanupRow(deleted, CleanupDays(plugin.settings, h), user, server, h, now).(id := old(plugin.table.nextId))]
         else [])
    ensures plugin.table.nextId == old(plugin.table.nextId) + (if deleted > 0 then 1 else 0)
  {
    var days := CleanupDays(plugin.settings, h);
    var expired := r => Expired(r, cutoff);
    FilterRowsSame(plugin.table.rows, e => !expired(e), r => !Expired(r, cutoff));
    deleted := plugin.table.DeleteWhere(expired);
    if deleted > 0 {
      var ip := GetUserIp(server, h);
      var ua := UserAgent(server, h);
      plugin.table.Insert(LogEntry(0, now, Some(user.id), user.login, "cleanup", "log", 0, "Manual Cleanup",
        "Manually deleted " + NatText(deleted) + " log entries older than " + NatText(days) + " days",
        None, None, ip, ua));
    } else {
      assert plugin.table.rows + [] == plugin.table.rows;
    }
  }

  /** The rows a cleanup keeps are exactly the earlier rows that are not older than the cutoff. */
  lemma CleanupKeepsUnexpiredRows(rows: seq<LogEntry>, cutoff: string, e: LogEntry)
    ensures e in FilterRows(rows, r => !Expired(r, cutoff)) <==> e in rows && !Expired(e, cutoff)
  {
    FilterRowsMembers(rows, r => !Expired(r, cutoff), e);
  }

  /** A cleanup that finds nothing expired leaves the table as it was. */
  lemma NothingExpiredNothingChanges(rows: seq<LogEntry>, cutoff: string)
    requires |FilterRows(rows, r => Expired(r, cutoff))| == 0
    ensures FilterRows(rows, r => !Expired(r, cutoff)) == rows
  {
    var expired := r => Expired(r, cutoff);
    FilterRowsPartition(rows, expired);
    FilterRowsSame(rows, r => !Expired(r, cutoff), e => !expired(e));
    FilterRowsShort(rows, r => !Expired(r, cutoff));
  }

  /** A filter that keeps as many rows as there are keeps them all. */
  lemma {:induction false} FilterRowsShort(rows: seq<LogEntry>, p: LogEntry -> bool)
    requires |FilterRows(rows, p)| == |rows|
    ensures FilterRows(rows, p) == rows
  {
    if rows != [] {
      FilterRowsLength(rows[1..], p);
      FilterRowsShort(rows[1..], p);
      assert [rows[0]] + rows[1..] == rows;
    }
  }

  lemma {:induction false} FilterRowsLength(rows: seq<LogEntry>, p: LogEntry -> bool)
    ensures |FilterRows(rows, p)| <= |rows|
  {
    if rows != [] {
      FilterRowsLength(rows[1..], p);
    }
  }
}
