# Log Changes: a verified model of the change recorder

Log Changes is a WordPress plugin that writes one row to its own table,
`{prefix}change_log`, for each administrative change made by a logged-in
user. It also records logins and failed logins. Its logout tracker goes
through the logged-in-user path and so, as written, records nothing (see
Findings). Administrators can
filter, export or delete the rows, and a daily cron job prunes rows older than
a configured number of days.

This project models the core of the plugin in Dafny:

- **The option filter.** `compile_patterns` turns wildcard lines such as
  `_transient_*` into anchored matchers. `should_skip_option` decides, with a
  fixed precedence, whether an option change is recorded: the allowlist, the
  `wp_user_roles` toggle, the built-in noise prefixes, the exclusion patterns,
  and then the two extension hooks (module `Patterns`).
- **The settings sanitisers.** `log_changes_sanitize_settings`,
  `log_changes_sanitize_patterns`, and the default exclusion and allowlist
  texts (module `Settings`).
- **The recorder.** The plugin object with its loaded settings and compiled
  filter state, `get_user_ip`, `log_change`, `log_login_event`, and the
  option and login trackers that feed them (module `Recorder`). The log table
  is a class holding its rows and its AUTO_INCREMENT counter (module
  `Storage`).
- **The request filter.** `build_filter_clauses`, the listing's own copy of
  its first four blocks, and what a row must satisfy to pass the resulting
  WHERE clause (module `Queries`).
- **Retention.** The count, cap and chunk loop of `export_logs_to_csv`,
  `delete_logs`, and the automatic and manual cleanups (module `Retention`).
- **PHP helpers.** `trim`, `explode`/`implode`, `empty()` on strings, and
  decimal text (module `Php`). WordPress, PHP-extension and database
  functions are uninterpreted parameters (`Host`).

Methods that change state are proved against specification functions. For
example, the new rows are `FilterRows(old rows, …)` plus the record row.
Loops carry the invariants that tie them to those functions. The lemmas
then state what the functions mean: the compiled matcher against a
declarative wildcard semantics, the WHERE clause against the request's
criteria, and the cleaner as idempotent.

## Model

| member | source | states |
|---|---|---|
| Patterns.Compile | log-changes.php:119 | One matcher item per pattern character: `*` becomes a run, every other character a literal (the effect of `preg_quote` followed by turning `\*` into `.*`). |
| Patterns.CompiledMeaning | log-changes.php:119 | The regex body between `^` and `$` of a compiled pattern matches a name exactly when the name is the pattern with each `*` replaced by a run of non-newline characters. |
| Patterns.RegexMatches | log-changes.php:119 | The anchored `/^…$/` match: the body matches the whole name, or the name minus one final newline, which `$` without the `D` modifier tolerates. |
| Patterns.RegexMeaning | log-changes.php:119 | The whole `preg_match` accepts a name iff it is the pattern with each `*` filled by a newline-free run, possibly followed by one final newline. |
| Patterns.LiteralPatternIsExact | log-changes.php:119 | A line without `*` matches only that exact name, or that name followed by one newline, since `$` without the `D` modifier allows a final newline. |
| Patterns.PrefixPatternMatch | log-changes.php:119 | The regex body of a line `prefix*` matches exactly the names that start with the prefix and have no newline after it. |
| Patterns.PrefixRegexMatch | log-changes.php:119 | The whole `preg_match` of `prefix*` accepts exactly the names that start with the prefix and have no newline after it, apart from possibly one final newline. |
| Patterns.AnchoredAtStart | log-changes.php:119 | The matcher is anchored with `^`: a name whose first character differs from a literal first pattern character is never matched. |
| Patterns.SkipDecision | log-changes.php:1005-1041 | An allowlisted option is decided by the should-log hook alone. Any other option is skipped iff one of these holds: it is `wp_user_roles` with the toggle off, it has a built-in prefix, some compiled exclusion matches, it is a custom exclusion, or the hook declines. |
| Patterns.ShouldSkipOption | log-changes.php:1005-1041 | The skip decision: the allowlist defers to the should-log hook; otherwise `wp_user_roles` with its toggle off, the built-in prefixes, the compiled exclusions, the hook's extra exclusions and the hook's verdict are tried in order. |
| Patterns.BuiltinSkip | log-changes.php:1019-1022 | The built-in skip: the option starts with `cron`, `doing_cron`, `_transient` or `_site_transient`. |
| Patterns.BuiltinSkipIsPrefixOnly | log-changes.php:1019-1022 | The built-in regex tests prefixes only: `cronology` is skipped and `my_transient_x` is not. |
| Patterns.AnyPatternMatchesExists | log-changes.php:1025-1029 | The exclusion loop returns true iff some compiled pattern matches the option. |
| Php.TrimMeaning | log-changes.php:117 | `trim` removes exactly the leading and trailing whitespace characters and keeps the infix between them. |
| Php.JoinSplit | includes/settings-page.php:416 | `implode` undoes `explode` on the same delimiter. |
| Php.SplitJoin | includes/settings-page.php:434 | `explode` undoes `implode` when no piece contains the delimiter. |
| Settings.SanitizePatterns | includes/settings-page.php:414-435 | The loop returns `SanitizedPatterns(patterns)`: the lines trimmed, empty lines dropped, characters outside `[a-zA-Z0-9_*-]` removed, and lines left empty dropped, in order. |
| Settings.SanitizedLinesClean | includes/settings-page.php:420-432 | Every kept line is non-empty, is not "0", and uses only the allowed characters. |
| Settings.SanitizedLinesAppend | includes/settings-page.php:420-432 | The cleaner works line by line: cleaning a concatenation cleans each part, so line order is kept. |
| Settings.SanitizedLinesOfClean | includes/settings-page.php:420-432 | Lines that are already clean are kept unchanged. |
| Settings.SanitizePatternsIdempotent | includes/settings-page.php:414-435 | Cleaning a cleaned text changes nothing. |
| Settings.StripDisallowedMeaning | includes/settings-page.php:427 | The `preg_replace` keeps only allowed characters and leaves an all-allowed line as it is. |
| Settings.StripDisallowedAppend | includes/settings-page.php:427 | The `preg_replace` works character by character: stripping `a + b` is stripping `a`, then `b`. |
| Settings.StripDisallowedChar | includes/settings-page.php:427 | A single character is kept iff it is in `[a-zA-Z0-9_*-]`; with the lemma above, every allowed character is kept, in order. |
| Settings.ClampDays | includes/settings-page.php:402 | The result lies in 1..365, equals the input inside that range, and is the nearer bound outside it. |
| Settings.CheckboxValue | includes/settings-page.php:387 | A checkbox is stored as 1 iff the field is present and not PHP-empty, and as 0 otherwise. |
| Settings.SanitizeCheckboxes | includes/settings-page.php:374-388 | All nine checkbox fields are set, each to its 0/1 value, and no other key is set. |
| Settings.SanitizeSettings | includes/settings-page.php:370-406 | Checkboxes are always present. Pattern fields are present iff posted, and then cleaned. `cleanup_days` is present iff posted, and then clamped. No other key appears. |
| Settings.DefaultExclusionsAreClean | includes/settings-page.php:293-332 | The default exclusion lines are clean, and their joined text is a fixed point of the cleaner. |
| Settings.DefaultAllowlistIsClean | includes/settings-page.php:339-362 | The default allowlist text is a fixed point of the cleaner. |
| Settings.DefaultAllowlistHasNoWildcard | includes/settings-page.php:339-362 | No default allowlist line holds a `*`, so each names a single option. |
| Settings.DefaultExclusions | includes/settings-page.php:293-332 | The default exclusion text: the default lines joined with newlines. |
| Settings.DefaultAllowlist | includes/settings-page.php:339-362 | The default allowlist text: the default lines joined with newlines. |
| Storage.FilterRowsMembers | log-changes.php:2118 | A row survives a `DELETE … WHERE p` iff it was in the table and does not satisfy `p`. |
| Storage.FilterRowsPartition | log-changes.php:2115-2118 | The rows counted and the rows kept add up to the table. |
| Storage.FilterRowsKeepsOrder | log-changes.php:2118 | Deleting rows keeps the remaining ids increasing. |
| Storage.LogTable.Insert | log-changes.php:323-340 | `$wpdb->insert` appends the row under the next AUTO_INCREMENT id and keeps ids increasing. |
| Storage.LogTable.DeleteWhere | log-changes.php:2118 | Exactly the matching rows are removed, the rest keep their order, and the number removed is returned. |
| Recorder.ScanForwarded | log-changes.php:351-364 | The nested loops return the first entry, across the forwarded headers in order, that the IP validator accepts. |
| Recorder.FirstValidIn | log-changes.php:358-362 | The inner loop returns the first valid entry of one header, or none. |
| Recorder.ScanDirect | log-changes.php:367-373 | The loop returns the first direct header whose whole unslashed value is valid. |
| Recorder.GetUserIp | log-changes.php:348-376 | The method returns `UserIp`: the sanitised first valid candidate, forwarded entries before direct headers, or ''. |
| Recorder.UserIpIsValidatedCandidate | log-changes.php:348-376 | The address is '' or the sanitised form of a candidate the validator accepted. If no candidate is valid, it is ''. |
| Recorder.ForwardedBeforeDirect | log-changes.php:353-375 | If any forwarded entry is valid, the address comes from the forwarded headers and never from a direct header. |
| Recorder.FirstValidAppend | log-changes.php:353-375 | The search tries every candidate of the first list before any of the second. |
| Recorder.UserAgent | log-changes.php:321 | The stored user agent is the first min(255, n) characters of the sanitised, unslashed header of length n, and '' without the header. |
| Recorder.StoredValue | log-changes.php:334-335 | The column is NULL iff the value is null. Arrays and objects are stored as JSON, and strings are stored as they are. |
| Recorder.StoredUserId | log-changes.php:327 | `user_id` is NULL iff the id is 0, and is the id otherwise. |
| Recorder.ChangeRowFields | log-changes.php:323-340 | A change row records the current user's id and login, both values as stored, and the request's address and user agent. |
| Recorder.ChangeRow | log-changes.php:323-340 | The row `log_change` inserts: current user, stored values, request address and agent, `current_time`. |
| Recorder.LoginRow | log-changes.php:1134-1150 | The row `log_login_event` inserts: the object name doubles as the login, and the values are NULL. |
| Recorder.DefaultSettings | log-changes.php:87-100 | The defaults of `load_settings`: every toggle on except `log_wp_user_roles`, 21 days, both pattern texts empty. |
| Recorder.LoadedSettings | log-changes.php:85-102 | `wp_parse_args` gives every stored key its stored value, and every other default key its default. |
| Recorder.NoSavedSettings | log-changes.php:87-104 | Before anything is saved, both lists are empty and user-role logging is off. `wp_user_roles` is skipped, and any other option without a built-in prefix is decided by the hooks alone. |
| Recorder.TrimmedLinesMeaning | log-changes.php:114-121 | Every line `compile_patterns` keeps is the trim of an input line and is not PHP-empty. |
| Recorder.TrimmedLinesAppend | log-changes.php:114-121 | Keeping lines works line by line, so order is preserved. |
| Recorder.CompileAllPointwise | log-changes.php:114-121 | One matcher per kept exclusion line, in the same order. |
| Recorder.SavedPatternLines | log-changes.php:113-115 | A pattern text saved by the settings cleaner is read back by `compile_patterns` as exactly the cleaned lines. |
| Recorder.UserRolesToggleAlone | includes/settings-page.php:313 | With the default exclusion text saved, `wp_user_roles` is skipped whatever its toggle says, unless it is allowlisted, because the default list names it. |
| Recorder.DefaultExclusionsCatchUserRoles | includes/settings-page.php:313 | A matcher compiled from the default exclusion lines matches `wp_user_roles`. |
| Recorder.LogChanges.constructor | log-changes.php:67-104 | The settings are the defaults merged with the stored array. The compiled filter state is the one those settings determine. |
| Recorder.LogChanges.CompilePatterns | log-changes.php:111-135 | The method appends one matcher per kept exclusion line and each kept allowlist line, and only when the setting is not PHP-empty. |
| Recorder.LogChanges.AppendExclusions | log-changes.php:113-123 | The exclusion loop appends the compiled kept lines in order. |
| Recorder.LogChanges.AppendAllowlist | log-changes.php:125-134 | The allowlist loop appends the kept lines in order. |
| Recorder.LogChanges.LogChange | log-changes.php:308-341 | Without a logged-in user the table is unchanged. Otherwise exactly one change row is appended under the next id. |
| Recorder.LogChanges.LogLoginEvent | log-changes.php:1128-1152 | Exactly one row is always appended, whoever is logged in. The object name doubles as the login, and there are no values. |
| Recorder.LogChanges.TrackOptionAdd | log-changes.php:895-922 | An 'added' row with a NULL old value is written iff option logging is on, the filter keeps the option and a user is logged in. Otherwise nothing changes. |
| Recorder.LogChanges.TrackOptionUpdate | log-changes.php:930-958 | An 'updated' row with both values is written iff the change is tracked and a user is logged in. Otherwise nothing changes. |
| Recorder.LogChanges.TrackOptionDelete | log-changes.php:966-991 | A 'deleted' row with no values is written iff tracked with both values null and a user is logged in. Otherwise nothing changes. |
| Recorder.LogChanges.TrackUserLogin | log-changes.php:1049-1065 | A 'login' row is always written for the user's id and login name. |
| Recorder.LogChanges.TrackUserLogout | log-changes.php:1072-1092 | A 'logout' row is written iff `get_userdata` finds the user and a current user is still set. Otherwise nothing changes. |
| Recorder.LogChanges.TrackUserLogoutAsLeavingUser | log-changes.php:1076-1091 | The corrected logout tracker writes one 'logout' row under the user who logs out iff `get_userdata` finds that user. Otherwise nothing changes. |
| Recorder.LogChanges.TrackLoginFailed | log-changes.php:1100-1116 | A 'login_failed' row is always written, with a NULL user id. |
| Queries.BuildFilterClauses | log-changes.php:1933-1982 | The six blocks emit exactly `ClausesFor`/`ValuesFor` over the six criteria in their fixed order. |
| Queries.AddFieldClause | log-changes.php:1940-1960 | A field block adds its clause, with its values, iff the parameter is non-empty. The search term is bound twice. |
| Queries.AddDateClause | log-changes.php:1963-1979 | A date block adds its bound iff the date is non-empty and matches the date regex, extended to midnight or to 23:59:59. |
| Queries.ExportFilterShape | log-changes.php:1933-1982 | The lists are parallel, one clause per requested criterion, in the fixed order, none twice, with one extra value for the search. |
| Queries.ExportFilterMeaning | log-changes.php:1933-1982 | A row passes the export filter iff it meets every requested criterion, the whole-day date range included. |
| Queries.FilterMeaning | log-changes.php:1933-1982 | For any list of criteria, the emitted lists are parallel, and a row passes iff it meets every criterion considered. |
| Queries.SatisfiesExtend | log-changes.php:1996-1998 | Joining one more clause with AND narrows the filter by exactly that clause. |
| Queries.ListingFilterClauses | log-changes.php:2333-2353 | The listing's four blocks emit exactly `ClausesFor`/`ValuesFor` over the four non-date criteria. |
| Queries.ListingFilterShape | log-changes.php:2333-2353 | The listing's lists are parallel and ordered, and hold only non-date clauses. |
| Queries.ListingFilterMeaning | log-changes.php:2333-2353 | A row is listed iff it meets every requested criterion other than the dates. |
| Queries.ListingCoversExport | log-changes.php:1963-1979 | Every row the export admits is listed, and without a date the two agree. |
| Queries.ListingIgnoresDates | log-changes.php:1963-1970 | A row before a valid `date_from` is listed but never exported. |
| Retention.ExportLogsToCsv | log-changes.php:1990-2093 | The export is refused iff more than 50000 rows match. Otherwise the matching rows, in the model's one fixed order, are written once each, fetched at offsets 0, 1000, … below the count. It never reports "No logs to export" (see Findings). |
| Retention.ExportLogsCheckingEmpty | log-changes.php:2006-2008 | The corrected export refuses iff no row matches, and otherwise behaves as the export above. |
| Retention.StreamChunks | log-changes.php:2054-2089 | The chunk loop makes ⌈count/1000⌉ fetches at offsets 0, 1000, … and, over the model's one fixed row order, writes every selected row exactly once, in order. |
| Retention.ExportSelectsAdmitted | log-changes.php:1993-2003 | The export's selection, with the builder's lists, is exactly the rows the request admits. |
| Retention.DeleteLogs | log-changes.php:2102-2121 | The delete is refused iff the clause list or the value list is empty. Otherwise it returns the number of matching rows, and the table keeps exactly the other rows. |
| Retention.AutoCleanupOldLogs | log-changes.php:2127-2168 | Exactly the rows older than the cutoff are deleted and counted. One 'System' cleanup row is appended iff any row went. |
| Retention.CleanupDays | log-changes.php:2131 | The retention period: the absolute value of a stored number (`absint`), `absint` of stored text, or 21 when unset. |
| Retention.AutoCleanupRow | log-changes.php:2147-2164 | The automatic cleanup's own row: user id 0, login 'System', no address, agent 'WordPress Cron'. |
| Retention.ManualCleanupRow | log-changes.php:2197-2214 | The manual cleanup's own row: the current user, the request's address and agent. |
| Retention.ManualCleanupOldLogs | log-changes.php:2176-2218 | The same deletion as the automatic cleanup, recorded iff any row went, under the current user with the request's address and user agent. |
| Retention.CleanupKeepsUnexpiredRows | log-changes.php:2137-2142 | A row is kept by a cleanup iff it was in the table and is not older than the cutoff. |
| Retention.NothingExpiredNothingChanges | log-changes.php:2137-2145 | When nothing is older than the cutoff, the table is left as it was. |

## Left out

- The hook wiring (`init_hooks`, activation, the cron schedule, the menu and settings links) and every tracker other than the option and login trackers, including posts, users, plugins, themes, media, menus, widgets, upgrades, the customizer and third-party plugins. Each of those trackers checks its own toggle and skip conditions (for example `track_post_save` returns early when `log_post_changes` is empty, and on autosaves and revisions), then formats a description for `log_change`. Those checks are not modelled; `log_change` is.
- `handle_export_delete_actions`, the nonce and capability checks, the admin page rendering, pagination, the settings form, assets/js and uninstall.php. They are user interface and WordPress glue.
- SQL text, `$wpdb->prepare` and `esc_like`. A clause is modelled by what it requires of a row. The LIKE operand `%term%` is modelled as "contains the term".
- Database collation is an uninterpreted `fold` applied to both sides. MySQL's conversion of a malformed date string to DATETIME is not modelled: timestamps compare as text.
- Retention.ExportLogsToCsv: does not model `ORDER BY timestamp DESC`. The rows are written in table order, and the CSV text, the BOM, the headers, `fopen` failure and `exit` are not modelled.
- Retention.StreamChunks: "every row exactly once" holds for the model's single fixed row order only. The source runs a separate `LIMIT … OFFSET …` query per chunk, ordered by a non-unique one-second `timestamp` and outside any transaction, so rows tied across a chunk boundary, or a row logged during the export, can be duplicated or skipped.
- Retention.DeleteLogs: `$wpdb->query` returning false, and a race between the count and the delete, are not modelled.
- Retention.AutoCleanupOldLogs: the cutoff is a parameter, because `strtotime` and `gmdate` read the clock. A `$wpdb->query` failure is not modelled.
- Retention.ManualCleanupOldLogs: the cutoff is a parameter, as for the automatic cleanup.
- Recorder.LogChanges.TrackUserLogout: the current user is a parameter. WordPress resets it to 0 before `wp_logout` fires, which is the Finding below.
- Storage.LogTable.Insert: `$wpdb->insert` failing, and the column widths it enforces, are not modelled, so an insert always appends. Recorder.LogChanges.LogLoginEvent and Recorder.LogChanges.TrackLoginFailed therefore always append a row, while in the source a failed login whose typed username is longer than the `varchar(60)` `user_login` column leaves no row.
- Recorder.GetUserIp: `filter_var( …, FILTER_VALIDATE_IP )`, `sanitize_text_field` and `wp_unslash` are uninterpreted functions.
- Recorder.StoredValue: `wp_json_encode` is uninterpreted and its failure is not modelled. Floats and resources are not among the modelled values.
- Patterns.Compile: the model works at character level and has no byte-level UTF-8. `preg_quote` is modelled by its effect of making every character literal.
- `current_time( 'mysql' )` is a parameter `now`. `get_option` is the `stored` map.
- Form input and `$_GET` values are strings. Numeric settings read from the database are `Num`.

## Findings

| source | as written | input that shows it | evidently intended | confidence | as-written member | corrected member |
|---|---|---|---|---|---|---|
| log-changes.php:2006 | `if ( $count === 0 )`, where `$count` comes from `$wpdb->get_var`, which returns the count as a string | A filter that matches no row: `$count` is `"0"`, `"0" === 0` is false, and a CSV holding only the header row is streamed | Stop with "No logs to export." when nothing matches | high, not executed | Retention.ExportLogsToCsv | Retention.ExportLogsCheckingEmpty |
| log-changes.php:1085 | `track_user_logout` writes through `log_change`, which returns without writing when there is no current user | Any logout on WordPress 5.5 or later: `wp_logout()` sets the current user to 0 before the `wp_logout` action passes `$user_id`, so `log_change` finds no user and no 'logout' row is written | Record one 'logout' row for the user who logs out | medium, not executed | Recorder.LogChanges.TrackUserLogout | Recorder.LogChanges.TrackUserLogoutAsLeavingUser |
