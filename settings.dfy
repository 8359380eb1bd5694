/**
 * Settings sanitisation from includes/settings-page.php: the pattern-text
 * cleaner, the settings-array sanitiser and the two default pattern lists.
 * The settings form posts strings, so the input array is a map from field
 * names to strings; `absint` comes from the `Foreign` functions.
 */
module Settings {
  import opened Php
  import opened Host

  /** A stored setting value: the sanitiser writes integers and pattern texts. */
  datatype Setting = Num(n: int) | Text(s: string)

  /** PHP's `empty()` on a stored setting. */
  predicate SettingEmpty(v: Setting)
  {
    match v
    case Num(n) => n == 0
    case Text(s) => EmptyText(s)
  }

  /** The string PHP makes of a stored setting when it is used as text. */
  function SettingText(v: Setting): string
  {
    match v
    case Num(n) => IntText(n)
    case Text(s) => s
  }

  /** The character class `[a-zA-Z0-9_*-]` kept by the pattern cleaner. */
  predicate PatternChar(c: char)
  {
    ('a' <= c <= 'z') || ('A' <= c <= 'Z') || ('0' <= c <= '9') || c == '_' || c == '*' || c == '-'
  }

  /** `preg_replace('/[^a-zA-Z0-9_*-]/', '', $line)` */
  function StripDisallowed(s: string): string
  {
    if s == [] then []
    else
      var rest := StripDisallowed(s[1..]);
      if PatternChar(s[0]) then [s[0]] + rest else rest
  }

  /** Stripping leaves only pattern characters, and leaves a string of pattern characters alone. */
  lemma {:induction false} StripDisallowedMeaning(s: string)
    ensures forall i :: 0 <= i < |StripDisallowed(s)| ==> PatternChar(StripDisallowed(s)[i])
    ensures (forall i :: 0 <= i < |s| ==> PatternChar(s[i])) ==> StripDisallowed(s) == s
  {
    if s != [] {
      StripDisallowedMeaning(s[1..]);
      assert s == [s[0]] + s[1..];
    }
  }

  /** Stripping works character by character: it distributes over concatenation. */
  lemma {:induction false} StripDisallowedAppend(a: string, b: string)
    ensures StripDisallowed(a + b) == StripDisallowed(a) + StripDisallowed(b)
  {
    if a == [] {
      assert a + b == b;
    } else {
      StripDisallowedAppend(a[1..], b);
      assert (a + b)[0] == a[0] && (a + b)[1..] == a[1..] + b;
      AppendAssoc([a[0]], StripDisallowed(a[1..]), StripDisallowed(b));
    }
  }

  /** One character is kept iff it is in the class, and dropped otherwise. */
  lemma StripDisallowedChar(c: char)
    ensures PatternChar(c) ==> StripDisallowed([c]) == [c]
    ensures !PatternChar(c) ==> StripDisallowed([c]) == []
  {
    assert [c][1..] == [];
  }

  /** A line the cleaner keeps unchanged: non-empty, not "0", pattern characters only. */
  predicate CleanLine(s: string)
  {
    !EmptyText(s) && forall i :: 0 <= i < |s| ==> PatternChar(s[i])
  }

  /** What the cleaner keeps of one input line: nothing, or the line trimmed and stripped. */
  function SanitizedLine(line: string): (r: seq<string>)
    ensures |r| <= 1
  {
    var trimmed := Trim(line);
    if EmptyText(trimmed) then []
    else
      var kept := StripDisallowed(trimmed);
      if EmptyText(kept) then [] else [kept]
  }

  /** The lines `log_changes_sanitize_patterns` keeps, in order. */
  function SanitizedLines(lines: seq<string>): (r: seq<string>)
    ensures |r| <= |lines|
  {
    if lines == [] then [] else SanitizedLine(lines[0]) + SanitizedLines(lines[1..])
  }

  /** What `log_changes_sanitize_patterns` returns. */
  function SanitizedPatterns(patterns: string): string
  {
    Join(SanitizedLines(Split(patterns, '\n')), '\n')
  }

  /** Every kept line is non-empty, not "0", and uses only `[a-zA-Z0-9_*-]`. */
  lemma {:induction false} SanitizedLinesClean(lines: seq<string>)
    ensures forall i :: 0 <= i < |SanitizedLines(lines)| ==> CleanLine(SanitizedLines(lines)[i])
  {
    if lines != [] {
      SanitizedLinesClean(lines[1..]);
      StripDisallowedMeaning(Trim(lines[0]));
    }
  }

  /** The cleaner works line by line: it distributes over concatenation, so line order is kept. */
  lemma {:induction false} SanitizedLinesAppend(a: seq<string>, b: seq<string>)
    ensures SanitizedLines(a + b) == SanitizedLines(a) + SanitizedLines(b)
  {
    if a != [] {
      SanitizedLinesAppend(a[1..], b);
      AppendTail(a, b);
      AppendAssoc(SanitizedLine(a[0]), SanitizedLines(a[1..]), SanitizedLines(b));
    } else {
      AppendEmpty(b);
    }
  }

  /** Clean lines are kept unchanged. */
  lemma {:induction false} SanitizedLinesOfClean(lines: seq<string>)
    requires forall i :: 0 <= i < |lines| ==> CleanLine(lines[i])
    ensures SanitizedLines(lines) == lines
  {
    if lines != [] {
      var line := lines[0];
      assert forall j :: 0 <= j < |line| ==> !IsTrimmed(line[j]) by {
        forall j | 0 <= j < |line| ensures !IsTrimmed(line[j]) {
          assert PatternChar(line[j]);
        }
      }
      TrimIdentity(line);
      StripDisallowedMeaning(line);
      SanitizedLinesOfClean(lines[1..]);
      assert lines == [line] + lines[1..];
    }
  }

  /** Clean lines joined by newlines are a fixed point of the cleaner. */
  lemma SanitizedPatternsFixedPoint(lines: seq<string>)
    requires CleanLines(lines)
    ensures SanitizedPatterns(Join(lines, '\n')) == Join(lines, '\n')
  {
    if lines == [] {
      assert Split("", '\n') == [""];
      assert SanitizedLines([""]) == [];
    } else {
      assert forall i :: 0 <= i < |lines| ==> '\n' !in lines[i];
      SplitJoin(lines, '\n');
      SanitizedLinesOfClean(lines);
    }
  }

  /** Cleaning twice is cleaning once. */
  lemma SanitizePatternsIdempotent(patterns: string)
    ensures SanitizedPatterns(SanitizedPatterns(patterns)) == SanitizedPatterns(patterns)
  {
    var lines := SanitizedLines(Split(patterns, '\n'));
    SanitizedLinesClean(Split(patterns, '\n'));
    SanitizedPatternsFixedPoint(lines);
  }

  /** Cleaning one more line appends what that line keeps. */
  lemma SanitizedLinesStep(lines: seq<string>, i: nat)
    requires i < |lines|
    ensures SanitizedLines(lines[..i + 1]) == SanitizedLines(lines[..i]) + SanitizedLine(lines[i])
  {
    assert lines[..i + 1] == lines[..i] + [lines[i]];
    SanitizedLinesAppend(lines[..i], [lines[i]]);
    assert [lines[i]][1..] == [];
  }

  /** `log_changes_sanitize_patterns`: trim, drop empty lines, strip disallowed characters, drop lines left empty. */
  method SanitizePatterns(patterns: string) returns (r: string)
    ensures r == SanitizedPatterns(patterns)
  {
    var lines := Split(patterns, '\n');
    var sanitized: seq<string> := [];
    var i := 0;
    while i < |lines|
      invariant 0 <= i <= |lines|
      invariant sanitized == SanitizedLines(lines[..i])
    {
      SanitizedLinesStep(lines, i);
      var line := Trim(lines[i]);
      if !EmptyText(line) {
        line := StripDisallowed(line);
        if !EmptyText(line) {
          sanitized := sanitized + [line];
        }
      }
      i := i + 1;
    }
    assert lines[..i] == lines;
    r := Join(sanitized, '\n');
  }

  // ---------------------------------------------------------------------------
  // log_changes_sanitize_settings

  /** The nine checkbox fields, in the order the sanitiser visits them. */
  const CheckboxFields: seq<string> := [
    "log_option_changes", "log_wp_user_roles", "log_post_changes", "log_user_changes",
    "log_plugin_changes", "log_theme_changes", "log_media_changes", "log_menu_changes",
    "log_widget_changes"]

  const PatternFields: set<string> := {"option_exclusions", "option_allowlist"}

  /** `max( 1, min( 365, $days ) )` */
  function ClampDays(days: int): (r: int)
    ensures 1 <= r <= 365
    ensures 1 <= days <= 365 ==> r == days
    ensures days > 365 ==> r == 365
    ensures days < 1 ==> r == 1
  {
    if days < 1 then 1 else if days > 365 then 365 else days
  }

  /** `! empty( $input[ $field ] ) ? 1 : 0`, a missing field being empty. */
  function CheckboxValue(input: map<string, string>, field: string): (r: Setting)
    ensures r == Num(1) || r == Num(0)
    ensures r == Num(1) <==> field in input && !EmptyText(input[field])
  {
    if field in input && !EmptyText(input[field]) then Num(1) else Num(0)
  }

  /** The checkbox loop of `log_changes_sanitize_settings`: each of the nine fields set to 0 or 1. */
  method SanitizeCheckboxes(input: map<string, string>) returns (r: map<string, Setting>)
    ensures forall f :: f in CheckboxFields ==> f in r && r[f] == CheckboxValue(input, f)
    ensures forall k :: k in r ==> k in CheckboxFields
  {
    r := map[];
    var i := 0;
    while i < |CheckboxFields|
      invariant 0 <= i <= |CheckboxFields|
      invariant forall j :: 0 <= j < i ==> CheckboxFields[j] in r && r[CheckboxFields[j]] == CheckboxValue(input, CheckboxFields[j])
      invariant forall k :: k in r ==> k in CheckboxFields[..i]
    {
      var field := CheckboxFields[i];
      r := r[field := CheckboxValue(input, field)];
      i := i + 1;
    }
    assert CheckboxFields[..i] == CheckboxFields;
  }

  lemma OtherFieldsAreNotCheckboxes()
    ensures "option_exclusions" !in CheckboxFields && "option_allowlist" !in CheckboxFields
    ensures "cleanup_days" !in CheckboxFields && "cleanup_days" !in PatternFields
  {
  }

  /**
   * `log_changes_sanitize_settings`: every checkbox present as 0 or 1, the
   * pattern texts cleaned when present, `cleanup_days` clamped to 1..365 when
   * present, and nothing else.
   */
  method SanitizeSettings(input: map<string, string>, h: Foreign) returns (r: map<string, Setting>)
    ensures forall f :: f in CheckboxFields ==> f in r && r[f] == CheckboxValue(input, f)
    ensures forall f :: f in PatternFields ==>
      (f in r <==> f in input) && (f in input ==> r[f] == Text(SanitizedPatterns(input[f])))
    ensures "cleanup_days" in r <==> "cleanup_days" in input
    ensures "cleanup_days" in input ==> r["cleanup_days"] == Num(ClampDays(h.absint(input["cleanup_days"])))
    ensures forall k :: k in r ==> k in CheckboxFields || k in PatternFields || k == "cleanup_days"
  {
    r := SanitizeCheckboxes(input);
    OtherFieldsAreNotCheckboxes();
    if "option_exclusions" in input {
      var cleaned := SanitizePatterns(input["option_exclusions"]);
      r := r["option_exclusions" := Text(cleaned)];
    }
    if "option_allowlist" in input {
      var cleaned := SanitizePatterns(input["option_allowlist"]);
      r := r["option_allowlist" := Text(cleaned)];
    }
    if "cleanup_days" in input {
      var days := h.absint(input["cleanup_days"]);
      r := r["cleanup_days" := Num(ClampDays(days))];
    }
  }

  // ---------------------------------------------------------------------------
  // Default pattern lists (form defaults only; the plugin's own defaults are
  // empty).  The groups follow the comments of the source lists.

  const TransientDefaults: seq<string> := ["_transient_*", "_site_transient_*"]
  const CronDefaults: seq<string> := ["cron", "doing_cron"]
  const AssetVersionDefaults: seq<string> := ["__*_asset_version", "*_version_*"]
  const CounterDefaults: seq<string> := ["*hit_count*", "*page_views*", "*visitor_count*"]
  const UserRoleDefaults: seq<string> := ["wp_user_roles", "*_user_roles"]
  const SessionCacheDefaults: seq<string> := ["*_session_*", "*_cache_*"]
  const TemporaryDefaults: seq<string> := ["*_temp_*", "*_tmp_*"]
  const GeneratedDefaults: seq<string> := ["rewrite_rules", "can_compress_scripts"]
  const InternalStateDefaults: seq<string> := ["*_doing_*", "*_processing_*"]

  const DefaultExclusionLines: seq<string> :=
    TransientDefaults + CronDefaults + AssetVersionDefaults + CounterDefaults + UserRoleDefaults
    + SessionCacheDefaults + TemporaryDefaults + GeneratedDefaults + InternalStateDefaults

  const SiteDefaults: seq<string> := ["blogname", "blogdescription", "siteurl", "home", "admin_email"]
  const ReadingDefaults: seq<string> := ["posts_per_page", "date_format", "time_format"]
  const DiscussionDefaults: seq<string> := ["default_comment_status", "comment_moderation"]
  const PermalinkDefaults: seq<string> := ["permalink_structure", "category_base", "tag_base"]

  const DefaultAllowlistLines: seq<string> :=
    SiteDefaults + ReadingDefaults + DiscussionDefaults + PermalinkDefaults

  /** `log_changes_get_default_exclusions` */
  function DefaultExclusions(): string
  {
    Join(DefaultExclusionLines, '\n')
  }

  /** `log_changes_get_default_allowlist` */
  function DefaultAllowlist(): string
  {
    Join(DefaultAllowlistLines, '\n')
  }

  predicate CleanLines(lines: seq<string>)
  {
    forall i :: 0 <= i < |lines| ==> CleanLine(lines[i])
  }

  lemma CleanLinesAppend(a: seq<string>, b: seq<string>)
    requires CleanLines(a) && CleanLines(b)
    ensures CleanLines(a + b)
  {
    forall i | 0 <= i < |a + b| ensures CleanLine((a + b)[i]) {
      if i >= |a| {
        assert (a + b)[i] == b[i - |a|];
      }
    }
  }

  lemma TransientDefaultsClean()
    ensures CleanLines(TransientDefaults)
  {
    assert CleanLine("_transient_*");
    assert CleanLine("_site_transient_*");
  }

  lemma CronDefaultsClean()
    ensures CleanLines(CronDefaults)
  {
    assert CleanLine("cron");
    assert CleanLine("doing_cron");
  }

  lemma AssetVersionDefaultsClean()
    ensures CleanLines(AssetVersionDefaults)
  {
    assert CleanLine("__*_asset_version");
    assert CleanLine("*_version_*");
  }

  lemma CounterDefaultsClean()
    ensures CleanLines(CounterDefaults)
  {
    assert CleanLine("*hit_count*");
    assert CleanLine("*page_views*");
    assert CleanLine("*visitor_count*");
  }

  lemma UserRoleDefaultsClean()
    ensures CleanLines(UserRoleDefaults)
  {
    assert CleanLine("wp_user_roles");
    assert CleanLine("*_user_roles");
  }

  lemma SessionCacheDefaultsClean()
    ensures CleanLines(SessionCacheDefaults)
  {
    assert CleanLine("*_session_*");
    assert CleanLine("*_cache_*");
  }

  lemma TemporaryDefaultsClean()
    ensures CleanLines(TemporaryDefaults)
  {
    assert CleanLine("*_temp_*");
    assert CleanLine("*_tmp_*");
  }

  lemma GeneratedDefaultsClean()
    ensures CleanLines(GeneratedDefaults)
  {
    assert CleanLine("rewrite_rules");
    assert CleanLine("can_compress_scripts");
  }

  lemma InternalStateDefaultsClean()
    ensures CleanLines(InternalStateDefaults)
  {
    assert CleanLine("*_doing_*");
    assert CleanLine("*_processing_*");
  }

  lemma SiteDefaultsClean()
    ensures CleanLines(SiteDefaults)
  {
    assert CleanLine("blogname");
    assert CleanLine("blogdescription");
    assert CleanLine("siteurl");
    assert CleanLine("home");
    assert CleanLine("admin_email");
  }

  lemma ReadingDefaultsClean()
    ensures CleanLines(ReadingDefaults)
  {
    assert CleanLine("posts_per_page");
    assert CleanLine("date_format");
    assert CleanLine("time_format");
  }

  lemma DiscussionDefaultsClean()
    ensures CleanLines(DiscussionDefaults)
  {
    assert CleanLine("default_comment_status");
    assert CleanLine("comment_moderation");
  }

  lemma PermalinkDefaultsClean()
    ensures CleanLines(PermalinkDefaults)
  {
    assert CleanLine("permalink_structure");
    assert CleanLine("category_base");
    assert CleanLine("tag_base");
  }

  /** The default exclusion text is a fixed point of the cleaner. */
  lemma DefaultExclusionsAreClean()
    ensures CleanLines(DefaultExclusionLines)
    ensures SanitizedPatterns(DefaultExclusions()) == DefaultExclusions()
  {
    TransientDefaultsClean();
    CronDefaultsClean();
    AssetVersionDefaultsClean();
    CounterDefaultsClean();
    UserRoleDefaultsClean();
    SessionCacheDefaultsClean();
    TemporaryDefaultsClean();
    GeneratedDefaultsClean();
    InternalStateDefaultsClean();
    var a := TransientDefaults;
    CleanLinesAppend(a, CronDefaults);
    a := a + CronDefaults;
    CleanLinesAppend(a, AssetVersionDefaults);
    a := a + AssetVersionDefaults;
    CleanLinesAppend(a, CounterDefaults);
    a := a + CounterDefaults;
    CleanLinesAppend(a, UserRoleDefaults);
    a := a + UserRoleDefaults;
    CleanLinesAppend(a, SessionCacheDefaults);
    a := a + SessionCacheDefaults;
    CleanLinesAppend(a, TemporaryDefaults);
    a := a + TemporaryDefaults;
    CleanLinesAppend(a, GeneratedDefaults);
    a := a + GeneratedDefaults;
    CleanLinesAppend(a, InternalStateDefaults);
    a := a + InternalStateDefaults;
    assert a == DefaultExclusionLines;
    SanitizedPatternsFixedPoint(DefaultExclusionLines);
  }

  /** The default allowlist text is a fixed point of the cleaner. */
  lemma DefaultAllowlistIsClean()
    ensures SanitizedPatterns(DefaultAllowlist()) == DefaultAllowlist()
  {
    SiteDefaultsClean();
    ReadingDefaultsClean();
    DiscussionDefaultsClean();
    PermalinkDefaultsClean();
    var a := SiteDefaults;
    CleanLinesAppend(a, ReadingDefaults);
    a := a + ReadingDefaults;
    CleanLinesAppend(a, DiscussionDefaults);
    a := a + DiscussionDefaults;
    CleanLinesAppend(a, PermalinkDefaults);
    a := a + PermalinkDefaults;
    assert a == DefaultAllowlistLines;
    SanitizedPatternsFixedPoint(DefaultAllowlistLines);
  }

  /** The default allowlist names options exactly: none of its lines holds a wildcard. */
  lemma DefaultAllowlistHasNoWildcard()
    ensures forall i :: 0 <= i < |DefaultAllowlistLines| ==> '*' !in DefaultAllowlistLines[i]
  {
  }
}
