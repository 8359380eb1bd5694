/**
 * The recording side of the `Log_Changes` class in log-changes.php: the
 * settings it loads, the pattern compiler, client-IP selection, the two row
 * writers (`log_change`, which needs a logged-in user, and `log_login_event`,
 * which does not) and the option and login trackers built on them.
 *
 * `$_SERVER` is the `server` parameter (raw, before `wp_unslash`), the
 * current user and `current_time( 'mysql' )` are parameters, and the
 * WordPress helpers come in through `Host`.
 */
module Recorder {
  import opened Php
  import opened Host
  import opened Patterns
  import opened Settings
  import opened Storage

  type Server = map<string, string>

  /** A `WP_User` as the recorder reads it; `id` is 0 when nobody is logged in. */
  datatype User = User(id: nat, login: string)

  // ---------------------------------------------------------------------------
  // get_user_ip

  /** Proxy headers whose values are comma-separated lists, client first. */
  const ForwardedKeys: seq<string> := ["HTTP_X_FORWARDED_FOR", "HTTP_X_FORWARDED", "HTTP_FORWARDED_FOR", "HTTP_FORWARDED"]

  /** Headers taken whole, ending with the connection's own address. */
  const DirectKeys: seq<string> := ["HTTP_CLIENT_IP", "HTTP_X_CLUSTER_CLIENT_IP", "REMOTE_ADDR"]

  /** `array_map( 'trim', explode( ',', $v ) )` */
  function ForwardedEntries(v: string): seq<string>
  {
    var parts := Split(v, ',');
    seq(|parts|, i requires 0 <= i < |parts| => Trim(parts[i]))
  }

  /** The entries of the forwarded headers present, header by header, left to right. */
  function ForwardedCandidates(server: Server, h: Foreign, keys: seq<string>): seq<string>
  {
    if keys == [] then []
    else
      (if keys[0] in server then ForwardedEntries(h.unslash(server[keys[0]])) else [])
        + ForwardedCandidates(server, h, keys[1..])
  }

  /** The unslashed values of the direct headers present, in key order. */
  function DirectCandidates(server: Server, h: Foreign, keys: seq<string>): seq<string>
  {
    if keys == [] then []
    else
      (if keys[0] in server then [h.unslash(server[keys[0]])] else [])
        + DirectCandidates(server, h, keys[1..])
  }

  /** Every string `get_user_ip` tries, in the order it tries them. */
  function IpCandidates(server: Server, h: Foreign): seq<string>
  {
    ForwardedCandidates(server, h, ForwardedKeys) + DirectCandidates(server, h, DirectKeys)
  }

  /** The first candidate the validator accepts. */
  function FirstValid(cands: seq<string>, valid: string -> bool): Option<string>
  {
    if cands == [] then None
    else if valid(cands[0]) then Some(cands[0])
    else FirstValid(cands[1..], valid)
  }

  /** A valid candidate with no valid one before it is the one picked. */
  lemma {:induction false} FirstValidAt(cands: seq<string>, valid: string -> bool, j: nat)
    requires j < |cands| && valid(cands[j])
    requires forall m :: 0 <= m < j ==> !valid(cands[m])
    ensures FirstValid(cands, valid) == Some(cands[j])
  {
    if j > 0 {
      FirstValidAt(cands[1..], valid, j - 1);
    }
  }

  /** Nothing is picked iff no candidate is valid. */
  lemma {:induction false} FirstValidNone(cands: seq<string>, valid: string -> bool)
    ensures FirstValid(cands, valid) == None <==> forall m :: 0 <= m < |cands| ==> !valid(cands[m])
  {
    if cands != [] {
      FirstValidNone(cands[1..], valid);
      if !valid(cands[0]) {
        forall m | 1 <= m < |cands| ensures cands[m] == cands[1..][m - 1] { }
      }
    }
  }

  /** The search tries the whole of `a` before any of `b`. */
  lemma {:induction false} FirstValidAppend(a: seq<string>, b: seq<string>, valid: string -> bool)
    ensures FirstValid(a + b, valid) == if FirstValid(a, valid).Some? then FirstValid(a, valid) else FirstValid(b, valid)
  {
    if a != [] {
      FirstValidAppend(a[1..], b, valid);
      AppendTail(a, b);
    } else {
      AppendEmpty(b);
    }
  }

  /** What `get_user_ip` returns: the sanitised first valid candidate, or ''. */
  function UserIp(server: Server, h: Foreign): string
  {
    match FirstValid(IpCandidates(server, h), h.isValidIp)
    case Some(ip) => h.sanitizeText(ip)
    case None => ""
  }

  /** The forwarded-header half of `get_user_ip`: the first valid entry of the listed headers. */
  method ScanForwarded(server: Server, h: Foreign, keys: seq<string>) returns (found: Option<string>)
    ensures found == FirstValid(ForwardedCandidates(server, h, keys), h.isValidIp)
  {
    var k := 0;
    while k < |keys|
      invariant 0 <= k <= |keys|
      invariant FirstValid(ForwardedCandidates(server, h, keys), h.isValidIp)
        == FirstValid(ForwardedCandidates(server, h, keys[k..]), h.isValidIp)
    {
      var key := keys[k];
      ghost var rest := ForwardedCandidates(server, h, keys[k + 1..]);
      SuffixStep(keys, k);
      if key in server {
        var ipList := ForwardedEntries(h.unslash(server[key]));
        FirstValidAppend(ipList, rest, h.isValidIp);
        var first := FirstValidIn(ipList, h.isValidIp);
        if first.Some? {
          return first;
        }
      } else {
        AppendEmpty(rest);
      }
      k := k + 1;
    }
    return None;
  }

  /** The inner `foreach` over one header's entries: the first entry the validator accepts. */
  method FirstValidIn(ipList: seq<string>, valid: string -> bool) returns (found: Option<string>)
    ensures found == FirstValid(ipList, valid)
  {
    var j := 0;
    while j < |ipList|
      invariant 0 <= j <= |ipList|
      invariant forall m :: 0 <= m < j ==> !valid(ipList[m])
    {
      if valid(ipList[j]) {
        FirstValidAt(ipList, valid, j);
        return Some(ipList[j]);
      }
      j := j + 1;
    }
    FirstValidNone(ipList, valid);
    return None;
  }

  /** The direct-header half of `get_user_ip`: the first listed header whose whole value is valid. */
  method ScanDirect(server: Server, h: Foreign, keys: seq<string>) returns (found: Option<string>)
    ensures found == FirstValid(DirectCandidates(server, h, keys), h.isValidIp)
  {
    var k := 0;
    while k < |keys|
      invariant 0 <= k <= |keys|
      invariant FirstValid(DirectCandidates(server, h, keys), h.isValidIp)
        == FirstValid(DirectCandidates(server, h, keys[k..]), h.isValidIp)
    {
      var key := keys[k];
      var rest := DirectCandidates(server, h, keys[k + 1..]);
      SuffixStep(keys, k);
      if key in server && h.isValidIp(h.unslash(server[key])) {
        return Some(h.unslash(server[key]));
      }
      if key in server {
        AppendTail([h.unslash(server[key])], rest);
      } else {
        AppendEmpty(rest);
      }
      k := k + 1;
    }
    return None;
  }

  /** `get_user_ip`: the forwarded lists first, then the direct headers, sanitising what it returns. */
  method GetUserIp(server: Server, h: Foreign) returns (ip: string)
    ensures ip == UserIp(server, h)
  {
    FirstValidAppend(ForwardedCandidates(server, h, ForwardedKeys), DirectCandidates(server, h, DirectKeys), h.isValidIp);
    var found := ScanForwarded(server, h, ForwardedKeys);
    if found.Some? {
      return h.sanitizeText(found.value);
    }
    found := ScanDirect(server, h, DirectKeys);
    if found.Some? {
      return h.sanitizeText(found.value);
    }
    return "";
  }

  /** Every address `get_user_ip` can return is the sanitised form of a validated candidate, or ''. */
  lemma UserIpIsValidatedCandidate(server: Server, h: Foreign)
    ensures UserIp(server, h) == ""
      || (exists i :: 0 <= i < |IpCandidates(server, h)|
            && h.isValidIp(IpCandidates(server, h)[i])
            && UserIp(server, h) == h.sanitizeText(IpCandidates(server, h)[i]))
    ensures (forall i :: 0 <= i < |IpCandidates(server, h)| ==> !h.isValidIp(IpCandidates(server, h)[i]))
      ==> UserIp(server, h) == ""
  {
    var c := IpCandidates(server, h);
    FirstValidNone(c, h.isValidIp);
    FirstValidMember(c, h.isValidIp);
  }

  lemma {:induction false} FirstValidMember(cands: seq<string>, valid: string -> bool)
    ensures FirstValid(cands, valid).Some? ==>
      exists i :: 0 <= i < |cands| && valid(cands[i]) && FirstValid(cands, valid).value == cands[i]
  {
    if cands != [] && !valid(cands[0]) {
      FirstValidMember(cands[1..], valid);
      if FirstValid(cands, valid).Some? {
        var i :| 0 <= i < |cands[1..]| && valid(cands[1..][i]) && FirstValid(cands, valid).value == cands[1..][i];
        assert cands[i + 1] == cands[1..][i];
      }
    }
  }

  /** A forwarded entry that validates beats every direct header. */
  lemma ForwardedBeforeDirect(server: Server, h: Foreign)
    requires exists i :: (0 <= i < |ForwardedCandidates(server, h, ForwardedKeys)|
      && h.isValidIp(ForwardedCandidates(server, h, ForwardedKeys)[i]))
    ensures FirstValid(ForwardedCandidates(server, h, ForwardedKeys), h.isValidIp).Some?
    ensures UserIp(server, h) == h.sanitizeText(FirstValid(ForwardedCandidates(server, h, ForwardedKeys), h.isValidIp).value)
  {
    var f := ForwardedCandidates(server, h, ForwardedKeys);
    FirstValidNone(f, h.isValidIp);
    FirstValidAppend(f, DirectCandidates(server, h, DirectKeys), h.isValidIp);
  }

  // ---------------------------------------------------------------------------
  // The row writers

  /** The stored user agent: sanitised, unslashed and cut to 255 characters, or '' without the header. */
  function UserAgent(server: Server, h: Foreign): (ua: string)
    ensures |ua| <= 255
    ensures "HTTP_USER_AGENT" in server ==> ua <= h.sanitizeText(h.unslash(server["HTTP_USER_AGENT"]))
    ensures "HTTP_USER_AGENT" in server ==>
      var header := h.sanitizeText(h.unslash(server["HTTP_USER_AGENT"]));
      |ua| == (if |header| <= 255 then |header| else 255)
    ensures "HTTP_USER_AGENT" !in server ==> ua == ""
  {
    if "HTTP_USER_AGENT" in server then Prefix(h.sanitizeText(h.unslash(server["HTTP_USER_AGENT"])), 255) else ""
  }

  /** What a `%s` column receives for a value: JSON for arrays and objects, NULL for null, text otherwise. */
  function StoredValue(v: PhpValue, h: Foreign): (r: Option<string>)
    ensures r.None? <==> v.PNull?
    ensures IsStructured(v) ==> r == Some(h.jsonEncode(v))
    ensures v.PStr? ==> r == Some(v.s)
  {
    match v
    case PNull => None
    case PBool(b) => Some(if b then "1" else "")
    case PInt(i) => Some(IntText(i))
    case PStr(s) => Some(s)
    case PArray(_) => Some(h.jsonEncode(v))
    case PObject(_, _) => Some(h.jsonEncode(v))
  }

  /** `$user_id ? $user_id : null` */
  function StoredUserId(id: int): (r: Option<int>)
    ensures r.None? <==> id == 0
    ensures r.Some? ==> r.value == id
  {
    if id != 0 then Some(id) else None
  }

  /** The row `log_change` writes for a logged-in user (its id is set by the table). */
  function ChangeRow(user: User, actionType: string, objectType: string, objectId: int, objectName: string,
                     description: string, oldValue: PhpValue, newValue: PhpValue,
                     server: Server, h: Foreign, now: string): LogEntry
  {
    LogEntry(0, now, StoredUserId(user.id), user.login, actionType, objectType, objectId, objectName,
             description, StoredValue(oldValue, h), StoredValue(newValue, h), UserIp(server, h), UserAgent(server, h))
  }

  /** The row `log_login_event` writes: the object name doubles as the login, no values. */
  function LoginRow(actionType: string, objectType: string, objectId: int, objectName: string,
                    description: string, userId: int, server: Server, h: Foreign, now: string): LogEntry
  {
    LogEntry(0, now, StoredUserId(userId), objectName, actionType, objectType, objectId, objectName,
             description, None, None, UserIp(server, h), UserAgent(server, h))
  }

  /** What a change row records about the user, the values and the request. */
  lemma ChangeRowFields(user: User, actionType: string, objectType: string, objectId: int, objectName: string,
                        description: string, oldValue: PhpValue, newValue: PhpValue,
                        server: Server, h: Foreign, now: string)
    requires user.id != 0
    ensures var e := ChangeRow(user, actionType, objectType, objectId, objectName, description, oldValue, newValue, server, h, now);
      && e.userId == Some(user.id as int) && e.userLogin == user.login
      && (IsStructured(oldValue) ==> e.oldValue == Some(h.jsonEncode(oldValue)))
      && (IsStructured(newValue) ==> e.newValue == Some(h.jsonEncode(newValue)))
      && (oldValue.PNull? <==> e.oldValue.None?) && (newValue.PNull? <==> e.newValue.None?)
      && |e.userAgent| <= 255 && e.ipAddress == UserIp(server, h)
  {
  }

  // ---------------------------------------------------------------------------
  // Settings and compiled patterns

  /** `$defaults` of `load_settings`: both pattern lists empty, user-role logging off. */
  function DefaultSettings(): map<string, Setting>
  {
    map[
      "log_option_changes" := Num(1), "log_wp_user_roles" := Num(0), "log_post_changes" := Num(1),
      "log_user_changes" := Num(1), "log_plugin_changes" := Num(1), "log_theme_changes" := Num(1),
      "log_media_changes" := Num(1), "log_menu_changes" := Num(1), "log_widget_changes" := Num(1),
      "cleanup_days" := Num(21), "option_exclusions" := Text(""), "option_allowlist" := Text("")]
  }

  /** `wp_parse_args( $stored, $defaults )`: stored values win, defaults fill the gaps. */
  function LoadedSettings(stored: map<string, Setting>): (r: map<string, Setting>)
    ensures r.Keys == stored.Keys + DefaultSettings().Keys
    ensures forall k :: k in stored ==> r[k] == stored[k]
    ensures forall k :: k in DefaultSettings() && k !in stored ==> r[k] == DefaultSettings()[k]
  {
    DefaultSettings() + stored
  }

  /** `! empty( $settings[$key] )`; a missing key reads as null. */
  predicate Enabled(settings: map<string, Setting>, key: string)
  {
    key in settings && !SettingEmpty(settings[key])
  }

  /** What `compile_patterns` keeps of one line: the line trimmed, unless that is PHP-empty. */
  function KeptLine(line: string): seq<string>
  {
    var t := Trim(line);
    if EmptyText(t) then [] else [t]
  }

  /** The trimmed lines that are not PHP-empty, in order. */
  function TrimmedLines(lines: seq<string>): seq<string>
  {
    if lines == [] then [] else KeptLine(lines[0]) + TrimmedLines(lines[1..])
  }

  /** The lines of a pattern setting that `compile_patterns` keeps. */
  function PatternLines(settings: map<string, Setting>, key: string): seq<string>
  {
    if Enabled(settings, key) then TrimmedLines(Split(SettingText(settings[key]), '\n')) else []
  }

  function CompileAll(lines: seq<string>): seq<Compiled>
  {
    if lines == [] then [] else [Compile(lines[0])] + CompileAll(lines[1..])
  }

  /** One step of the `foreach` in `compile_patterns`: the line at `i` is kept or dropped. */
  lemma TrimmedLinesStep(lines: seq<string>, i: nat)
    requires i < |lines|
    ensures TrimmedLines(lines[i..]) == KeptLine(lines[i]) + TrimmedLines(lines[i + 1..])
  {
    SuffixStep(lines, i);
  }

  lemma CompileAllCons(t: string, rest: seq<string>)
    ensures CompileAll([t] + rest) == [Compile(t)] + CompileAll(rest)
  {
    AppendTail([t], rest);
  }

  /** One compiled pattern per kept line, in the same order. */
  lemma {:induction false} CompileAllPointwise(lines: seq<string>)
    ensures |CompileAll(lines)| == |lines|
    ensures forall i :: 0 <= i < |lines| ==> CompileAll(lines)[i] == Compile(lines[i])
  {
    if lines != [] {
      CompileAllPointwise(lines[1..]);
      forall i | 1 <= i < |lines| ensures CompileAll(lines)[i] == Compile(lines[i]) {
        assert lines[i] == lines[1..][i - 1];
      }
    }
  }

  /** Keeping lines works line by line: it distributes over concatenation. */
  lemma {:induction false} TrimmedLinesAppend(a: seq<string>, b: seq<string>)
    ensures TrimmedLines(a + b) == TrimmedLines(a) + TrimmedLines(b)
  {
    if a == [] {
      AppendEmpty(b);
    } else {
      TrimmedLinesAppend(a[1..], b);
      AppendTail(a, b);
      AppendAssoc(KeptLine(a[0]), TrimmedLines(a[1..]), TrimmedLines(b));
    }
  }

  /** Every kept line is trimmed and not PHP-empty. */
  lemma {:induction false} TrimmedLinesMeaning(lines: seq<string>)
    ensures forall i :: 0 <= i < |TrimmedLines(lines)| ==>
      !EmptyText(TrimmedLines(lines)[i]) && exists j :: 0 <= j < |lines| && TrimmedLines(lines)[i] == Trim(lines[j])
  {
    if lines != [] {
      TrimmedLinesMeaning(lines[1..]);
      var t := Trim(lines[0]);
      var rest := TrimmedLines(lines[1..]);
      var head := if EmptyText(t) then [] else [t];
      forall i | 0 <= i < |TrimmedLines(lines)|
        ensures exists j :: 0 <= j < |lines| && TrimmedLines(lines)[i] == Trim(lines[j])
      {
        if i < |head| {
          assert TrimmedLines(lines)[i] == Trim(lines[0]);
        } else {
          var j :| 0 <= j < |lines[1..]| && rest[i - |head|] == Trim(lines[1..][j]);
          assert TrimmedLines(lines)[i] == Trim(lines[j + 1]);
        }
      }
    }
  }

  /** Lines the settings cleaner produced survive `compile_patterns` unchanged. */
  lemma {:induction false} TrimmedCleanLines(lines: seq<string>)
    requires CleanLines(lines)
    ensures TrimmedLines(lines) == lines
  {
    if lines != [] {
      TrimIdentity(lines[0]);
      TrimmedCleanLines(lines[1..]);
    }
  }

  /** Compiling a saved pattern text sees exactly the lines the cleaner kept. */
  lemma SavedPatternLines(settings: map<string, Setting>, key: string, lines: seq<string>)
    requires CleanLines(lines)
    requires key in settings && settings[key] == Text(Join(lines, '\n'))
    ensures PatternLines(settings, key) == lines
  {
    if lines == [] {
    } else {
      assert forall i :: 0 <= i < |lines| ==> '\n' !in lines[i];
      SplitJoin(lines, '\n');
      TrimmedCleanLines(lines);
      if |lines| == 1 {
        assert !EmptyText(lines[0]);
      } else {
        assert |Join(lines, '\n')| > 1;
      }
    }
  }

  /** The filter state a settings array yields once `compile_patterns` has run. */
  function ConfigOf(settings: map<string, Setting>): FilterConfig
  {
    FilterConfig(PatternLines(settings, "option_allowlist"), Enabled(settings, "log_wp_user_roles"),
                 CompileAll(PatternLines(settings, "option_exclusions")))
  }

  /**
   * Before any settings are saved both lists are empty and user-role logging
   * is off: `wp_user_roles` is skipped, and any other option not under a
   * built-in prefix is decided by the two hooks alone.
   */
  lemma NoSavedSettings(option: string, oldValue: PhpValue, newValue: PhpValue, hooks: OptionHooks)
    ensures ConfigOf(LoadedSettings(map[])) == FilterConfig([], false, [])
    ensures ShouldSkipOption(ConfigOf(LoadedSettings(map[])), "wp_user_roles", oldValue, newValue, hooks)
    ensures option != "wp_user_roles" && !BuiltinSkip(option) ==>
      (ShouldSkipOption(ConfigOf(LoadedSettings(map[])), option, oldValue, newValue, hooks) <==>
        (option in hooks.customExclusions || !hooks.shouldLog(option, oldValue, newValue)))
  {
    var s := LoadedSettings(map[]);
    assert s == DefaultSettings();
    assert PatternLines(s, "option_allowlist") == [];
    assert PatternLines(s, "option_exclusions") == [];
  }

  /**
   * With the default exclusion text saved, `wp_user_roles` is skipped by its
   * own pattern whatever `log_wp_user_roles` says, unless it is allowlisted.
   */
  lemma UserRolesToggleAlone(stored: map<string, Setting>, oldValue: PhpValue, newValue: PhpValue, hooks: OptionHooks)
    requires "option_exclusions" in stored && stored["option_exclusions"] == Text(DefaultExclusions())
    requires "wp_user_roles" !in PatternLines(LoadedSettings(stored), "option_allowlist")
    ensures ShouldSkipOption(ConfigOf(LoadedSettings(stored)), "wp_user_roles", oldValue, newValue, hooks)
  {
    var s := LoadedSettings(stored);
    DefaultExclusionsAreClean();
    SavedPatternLines(s, "option_exclusions", DefaultExclusionLines);
    DefaultExclusionsCatchUserRoles();
  }

  /** Among the compiled default exclusions, the literal `wp_user_roles` matches that option. */
  lemma DefaultExclusionsCatchUserRoles()
    ensures AnyPatternMatches(CompileAll(DefaultExclusionLines), "wp_user_roles")
  {
    var before := TransientDefaults + CronDefaults + AssetVersionDefaults + CounterDefaults;
    var after := [UserRoleDefaults[1]] + SessionCacheDefaults + TemporaryDefaults + GeneratedDefaults + InternalStateDefaults;
    assert DefaultExclusionLines == before + ["wp_user_roles"] + after;
    LiteralPatternIsExact("wp_user_roles", "wp_user_roles");
    CompiledLineMatches(before + ["wp_user_roles"] + after, |before|, "wp_user_roles");
  }

  /** If one kept line's matcher fires, the compiled list skips the option. */
  lemma {:induction false} CompiledLineMatches(lines: seq<string>, i: nat, name: string)
    requires i < |lines| && RegexMatches(Compile(lines[i]), name)
    ensures AnyPatternMatches(CompileAll(lines), name)
  {
    if i > 0 {
      CompiledLineMatches(lines[1..], i - 1, name);
    }
  }

  // ---------------------------------------------------------------------------
  // The plugin object

  class LogChanges {
    var settings: map<string, Setting>
    var exclusionPatterns: seq<Compiled>
    var allowlistOptions: seq<string>
    const table: LogTable

    ghost predicate Valid()
      reads table
    {
      table.Valid()
    }

    /** The filter state `should_skip_option` consults. */
    function Config(): FilterConfig
      reads this
    {
      FilterConfig(allowlistOptions, Enabled(settings, "log_wp_user_roles"), exclusionPatterns)
    }

    /** The constructor's `load_settings`: defaults merged with the stored array, then `compile_patterns`. */
    constructor(stored: map<string, Setting>, table: LogTable)
      requires table.Valid()
      ensures this.table == table && Valid()
      ensures settings == LoadedSettings(stored)
      ensures Config() == ConfigOf(settings)
    {
      this.table := table;
      settings := LoadedSettings(stored);
      exclusionPatterns := [];
      allowlistOptions := [];
      new;
      CompilePatterns();
      AppendEmpty(CompileAll(PatternLines(settings, "option_exclusions")));
      AppendEmpty(PatternLines(settings, "option_allowlist"));
    }

    /** `compile_patterns`: appends one matcher per kept exclusion line and each kept allowlist line. */
    method CompilePatterns()
      modifies this`exclusionPatterns, this`allowlistOptions
      ensures exclusionPatterns == old(exclusionPatterns) + CompileAll(PatternLines(settings, "option_exclusions"))
      ensures allowlistOptions == old(allowlistOptions) + PatternLines(settings, "option_allowlist")
    {
      if Enabled(settings, "option_exclusions") {
        AppendExclusions(Split(SettingText(settings["option_exclusions"]), '\n'));
      } else {
        assert exclusionPatterns + [] == exclusionPatterns;
      }
      if Enabled(settings, "option_allowlist") {
        AppendAllowlist(Split(SettingText(settings["option_allowlist"]), '\n'));
      } else {
        assert allowlistOptions + [] == allowlistOptions;
      }
    }

    /** The exclusion `foreach` of `compile_patterns`. */
    method AppendExclusions(patterns: seq<string>)
      modifies this`exclusionPatterns
      ensures exclusionPatterns == old(exclusionPatterns) + CompileAll(TrimmedLines(patterns))
    {
      var i := 0;
      while i < |patterns|
        invariant 0 <= i <= |patterns|
        invariant exclusionPatterns + CompileAll(TrimmedLines(patterns[i..]))
          == old(exclusionPatterns) + CompileAll(TrimmedLines(patterns))
      {
        var pattern := Trim(patterns[i]);
        ghost var rest := TrimmedLines(patterns[i + 1..]);
        TrimmedLinesStep(patterns, i);
        if !EmptyText(pattern) {
          CompileAllCons(pattern, rest);
          AppendAssoc(exclusionPatterns, [Compile(pattern)], CompileAll(rest));
          exclusionPatterns := exclusionPatterns + [Compile(pattern)];
        } else {
          AppendEmpty(rest);
        }
        i := i + 1;
      }
      AppendEmpty(exclusionPatterns);
    }

    /** The allowlist `foreach` of `compile_patterns`. */
    method AppendAllowlist(options: seq<string>)
      modifies this`allowlistOptions
      ensures allowlistOptions == old(allowlistOptions) + TrimmedLines(options)
    {
      var i := 0;
      while i < |options|
        invariant 0 <= i <= |options|
        invariant allowlistOptions + TrimmedLines(options[i..]) == old(allowlistOptions) + TrimmedLines(options)
      {
        var option := Trim(options[i]);
        ghost var rest := TrimmedLines(options[i + 1..]);
        TrimmedLinesStep(options, i);
        if !EmptyText(option) {
          AppendAssoc(allowlistOptions, [option], rest);
          allowlistOptions := allowlistOptions + [option];
        } else {
          AppendEmpty(rest);
        }
        i := i + 1;
      }
      AppendEmpty(allowlistOptions);
    }

    /** `log_change`: nothing without a logged-in user, otherwise exactly one row. */
    method LogChange(actionType: string, objectType: string, objectId: int, objectName: string,
                     description: string, oldValue: PhpValue, newValue: PhpValue,
                     user: User, server: Server, h: Foreign, now: string)
      requires Valid()
      modifies table
      ensures Valid()
      ensures user.id == 0 ==> table.rows == old(table.rows) && table.nextId == old(table.nextId)
      ensures user.id != 0 ==>
        && table.rows == old(table.rows) + [ChangeRow(user, actionType, objectType, objectId, objectName,
             description, oldValue, newValue, server, h, now).(id := old(table.nextId))]
        && table.nextId == old(table.nextId) + 1
    {
      if user.id == 0 {
        return;
      }
      var ip := GetUserIp(server, h);
      var ua := UserAgent(server, h);
      table.Insert(LogEntry(0, now, StoredUserId(user.id), user.login, actionType, objectType, objectId, objectName,
                            description, StoredValue(oldValue, h), StoredValue(newValue, h), ip, ua));
    }

    /** `log_login_event`: always exactly one row, whoever is logged in. */
    method LogLoginEvent(actionType: string, objectType: string, objectId: int, objectName: string,
                         description: string, userId: int, server: Server, h: Foreign, now: string)
      requires Valid()
      modifies table
      ensures Valid()
      ensures table.rows == old(table.rows)
        + [LoginRow(actionType, objectType, objectId, objectName, description, userId, server, h, now).(id := old(table.nextId))]
      ensures table.nextId == old(table.nextId) + 1
    {
      var ip := GetUserIp(server, h);
      var ua := UserAgent(server, h);
      table.Insert(LogEntry(0, now, StoredUserId(userId), objectName, actionType, objectType, objectId, objectName,
                            description, None, None, ip, ua));
    }

    /** Whether an option change passes the category toggle and the filter (the trackers' two early returns). */
    predicate OptionTracked(option: string, oldValue: PhpValue, newValue: PhpValue, hooks: OptionHooks)
      reads this
    {
      Enabled(settings, "log_option_changes") && !ShouldSkipOption(Config(), option, oldValue, newValue, hooks)
    }

    /** `track_option_add`: an 'added' row with the new value, when tracked and a user is logged in. */
    method TrackOptionAdd(option: string, value: PhpValue, hooks: OptionHooks,
                          user: User, server: Server, h: Foreign, now: string)
      requires Valid()
      modifies table
      ensures Valid()
      ensures OptionTracked(option, PNull, value, hooks) && user.id != 0 ==>
        && table.rows == old(table.rows) + [ChangeRow(user, "added", "option", 0, option, "Option added: " + option,
             PNull, value, server, h, now).(id := old(table.nextId))]
        && table.nextId == old(table.nextId) + 1
      ensures !(OptionTracked(option, PNull, value, hooks) && user.id != 0) ==>
        table.rows == old(table.rows) && table.nextId == old(table.nextId)
    {
      if !OptionTracked(option, PNull, value, hooks) {
        return;
      }
      LogChange("added", "option", 0, option, "Option added: " + option, PNull, value, user, server, h, now);
    }

    /** `track_option_update`: an 'updated' row with both values, when tracked and a user is logged in. */
    method TrackOptionUpdate(option: string, oldValue: PhpValue, value: PhpValue, hooks: OptionHooks,
                             user: User, server: Server, h: Foreign, now: string)
      requires Valid()
      modifies table
      ensures Valid()
      ensures OptionTracked(option, oldValue, value, hooks) && user.id != 0 ==>
        && table.rows == old(table.rows) + [ChangeRow(user, "updated", "option", 0, option, "Option updated: " + option,
             oldValue, value, server, h, now).(id := old(table.nextId))]
        && table.nextId == old(table.nextId) + 1
      ensures !(OptionTracked(option, oldValue, value, hooks) && user.id != 0) ==>
        table.rows == old(table.rows) && table.nextId == old(table.nextId)
    {
      if !OptionTracked(option, oldValue, value, hooks) {
        return;
      }
      LogChange("updated", "option", 0, option, "Option updated: " + option, oldValue, value, user, server, h, now);
    }

    /** `track_option_delete`: a 'deleted' row without values, when tracked and a user is logged in. */
    method TrackOptionDelete(option: string, hooks: OptionHooks,
                             user: User, server: Server, h: Foreign, now: string)
      requires Valid()
      modifies table
      ensures Valid()
      ensures OptionTracked(option, PNull, PNull, hooks) && user.id != 0 ==>
        && table.rows == old(table.rows) + [ChangeRow(user, "deleted", "option", 0, option, "Option deleted: " + option,
             PNull, PNull, server, h, now).(id := old(table.nextId))]
        && table.nextId == old(table.nextId) + 1
      ensures !(OptionTracked(option, PNull, PNull, hooks) && user.id != 0) ==>
        table.rows == old(table.rows) && table.nextId == old(table.nextId)
    {
      if !OptionTracked(option, PNull, PNull, hooks) {
        return;
      }
      LogChange("deleted", "option", 0, option, "Option deleted: " + option, PNull, PNull, user, server, h, now);
    }

    /** `track_user_login`: a 'login' row for the user who just logged in. */
    method TrackUserLogin(userLogin: string, user: User, server: Server, h: Foreign, now: string)
      requires Valid()
      modifies table
      ensures Valid()
      ensures table.rows == old(table.rows) + [LoginRow("login", "user", user.id, userLogin,
        "User logged in: " + userLogin + " (ID: " + IntText(user.id) + ")", user.id, server, h, now).(id := old(table.nextId))]
      ensures table.nextId == old(table.nextId) + 1
    {
      LogLoginEvent("login", "user", user.id, userLogin,
        "User logged in: " + userLogin + " (ID: " + IntText(user.id) + ")", user.id, server, h, now);
    }

    /** `track_login_failed`: a 'login_failed' row whose user id is NULL. */
    method TrackLoginFailed(username: string, errorMessage: string, server: Server, h: Foreign, now: string)
      requires Valid()
      modifies table
      ensures Valid()
      ensures table.rows == old(table.rows) + [LoginRow("login_failed", "user", 0, username,
        "Failed login attempt for: " + username + " (Error: " + errorMessage + ")", 0, server, h, now).(id := old(table.nextId))]
      ensures table.rows[|table.rows| - 1].userId == None
      ensures table.nextId == old(table.nextId) + 1
    {
      LogLoginEvent("login_failed", "user", 0, username,
        "Failed login attempt for: " + username + " (Error: " + errorMessage + ")", 0, server, h, now);
    }

    /**
     * `track_user_logout`: goes through `log_change`, so a row is written only
     * when `get_userdata` finds the user and someone is still the current user.
     */
    method TrackUserLogout(userId: int, userdata: Option<User>, current: User, server: Server, h: Foreign, now: string)
      requires Valid()
      modifies table
      ensures Valid()
      ensures userdata.Some? && current.id != 0 ==>
        && table.rows == old(table.rows) + [ChangeRow(current, "logout", "user", userId, userdata.value.login,
             "User logged out: " + userdata.value.login + " (ID: " + IntText(userId) + ")",
             PNull, PNull, server, h, now).(id := old(table.nextId))]
        && table.nextId == old(table.nextId) + 1
      ensures !(userdata.Some? && current.id != 0) ==>
        table.rows == old(table.rows) && table.nextId == old(table.nextId)
    {
      if userdata.None? {
        return;
      }
      var login := userdata.value.login;
      LogChange("logout", "user", userId, login,
        "User logged out: " + login + " (ID: " + IntText(userId) + ")", PNull, PNull, current, server, h, now);
    }

    /**
     * The logout tracker as evidently intended: the row is written under the
     * user who is logging out, so it no longer depends on the current user,
     * which WordPress has already reset to 0 when `wp_logout` fires.
     */
    method TrackUserLogoutAsLeavingUser(userId: int, userdata: Option<User>, server: Server, h: Foreign, now: string)
      requires Valid()
      modifies table
      ensures Valid()
      ensures userdata.Some? && userdata.value.id != 0 ==>
        && table.rows == old(table.rows) + [ChangeRow(userdata.value, "logout", "user", userId, userdata.value.login,
             "User logged out: " + userdata.value.login + " (ID: " + IntText(userId) + ")",
             PNull, PNull, server, h, now).(id := old(table.nextId))]
        && table.nextId == old(table.nextId) + 1
      ensures !(userdata.Some? && userdata.value.id != 0) ==>
        table.rows == old(table.rows) && table.nextId == old(table.nextId)
    {
      if userdata.None? {
        return;
      }
      var login := userdata.value.login;
      LogChange("logout", "user", userId, login,
        "User logged out: " + login + " (ID: " + IntText(userId) + ")", PNull, PNull, userdata.value, server, h, now);
    }
  }
}
