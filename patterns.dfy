/**
 * The option-change filter: wildcard exclusion patterns compiled to anchored
 * matchers, the built-in noise prefixes, and the fixed precedence that decides
 * whether a changed option is skipped (log-changes.php, `compile_patterns`
 * and `should_skip_option`).
 */
module Patterns {
  import opened Php

  /**
   * One unit of a compiled exclusion regex.  `preg_quote` makes every
   * character literal and `str_replace('\*', '.*', ...)` turns each quoted
   * `*` back into `.*`, so a compiled pattern is a sequence of literal
   * characters and "any run" items.
   */
  datatype Item = Lit(c: char) | AnyRun

  type Compiled = seq<Item>

  /** The regex body `compile_patterns` builds from one trimmed line. */
  function Compile(p: string): (r: Compiled)
    ensures |r| == |p|
    ensures forall i :: 0 <= i < |p| ==> (r[i].AnyRun? <==> p[i] == '*')
    ensures forall i :: 0 <= i < |p| && p[i] != '*' ==> r[i] == Lit(p[i])
  {
    if p == [] then []
    else [if p[0] == '*' then AnyRun else Lit(p[0])] + Compile(p[1..])
  }

  /**
   * Whole-string match of a compiled body: `.*` matches any run of characters
   * other than a newline (PCRE without the `s` modifier).
   */
  predicate ItemsMatch(t: Compiled, s: string)
    decreases |t| + |s|
  {
    if t == [] then s == []
    else match t[0]
      case AnyRun => ItemsMatch(t[1..], s) || (s != [] && s[0] != '\n' && ItemsMatch(t, s[1..]))
      case Lit(c) => s != [] && s[0] == c && ItemsMatch(t[1..], s[1..])
  }

  /**
   * `preg_match('/^' . body . '$/', name)`: without the `D` modifier `$` also
   * matches just before one final newline.
   */
  predicate RegexMatches(t: Compiled, name: string)
  {
    ItemsMatch(t, name) || (name != [] && name[|name| - 1] == '\n' && ItemsMatch(t, name[..|name| - 1]))
  }

  // ---------------------------------------------------------------------------
  // Reference meaning of a wildcard pattern: replace each `*` by a run of
  // non-newline characters ("fills"), keep every other character literally.

  function Stars(p: string): nat
  {
    if p == [] then 0 else (if p[0] == '*' then 1 else 0) + Stars(p[1..])
  }

  predicate NoNewlines(fills: seq<string>)
  {
    forall i :: 0 <= i < |fills| ==> '\n' !in fills[i]
  }

  function Expand(p: string, fills: seq<string>): string
    requires |fills| == Stars(p)
  {
    if p == [] then []
    else if p[0] == '*' then fills[0] + Expand(p[1..], fills[1..])
    else [p[0]] + Expand(p[1..], fills)
  }

  ghost predicate Wildcard(p: string, s: string)
  {
    exists fills :: |fills| == Stars(p) && NoNewlines(fills) && Expand(p, fills) == s
  }

  lemma {:induction false} MatchWitness(p: string, s: string) returns (fills: seq<string>)
    requires ItemsMatch(Compile(p), s)
    ensures |fills| == Stars(p) && NoNewlines(fills) && Expand(p, fills) == s
    decreases |p| + |s|
  {
    if p == [] {
      fills := [];
    } else {
      var t := Compile(p);
      assert t[1..] == Compile(p[1..]);
      if p[0] == '*' {
        if ItemsMatch(Compile(p[1..]), s) {
          var f := MatchWitness(p[1..], s);
          fills := [""] + f;
          assert fills[1..] == f;
        } else {
          var f := MatchWitness(p, s[1..]);
          fills := [[s[0]] + f[0]] + f[1..];
          assert fills[1..] == f[1..];
          assert s == [s[0]] + s[1..];
        }
      } else {
        fills := MatchWitness(p[1..], s[1..]);
        assert s == [s[0]] + s[1..];
      }
    }
  }

  lemma {:induction false} RunThenMatch(rest: Compiled, f: string, x: string)
    requires '\n' !in f && ItemsMatch(rest, x)
    ensures ItemsMatch([AnyRun] + rest, f + x)
    decreases |f|
  {
    var t := [AnyRun] + rest;
    assert t[1..] == rest;
    if f == [] {
      assert f + x == x;
    } else {
      RunThenMatch(rest, f[1..], x);
      assert (f + x)[1..] == f[1..] + x;
    }
  }

  lemma {:induction false} ExpandMatches(p: string, fills: seq<string>)
    requires |fills| == Stars(p) && NoNewlines(fills)
    ensures ItemsMatch(Compile(p), Expand(p, fills))
  {
    if p != [] {
      var t := Compile(p);
      assert t[1..] == Compile(p[1..]);
      if p[0] == '*' {
        assert NoNewlines(fills[1..]);
        ExpandMatches(p[1..], fills[1..]);
        assert t == [AnyRun] + Compile(p[1..]);
        RunThenMatch(Compile(p[1..]), fills[0], Expand(p[1..], fills[1..]));
      } else {
        ExpandMatches(p[1..], fills);
      }
    }
  }

  /**
   * The regex body (`ItemsMatch`, the part between `^` and `$`) of a compiled
   * pattern matches exactly the strings obtained from the pattern by filling
   * each `*`.
   */
  lemma CompiledMeaning(p: string, s: string)
    ensures ItemsMatch(Compile(p), s) <==> Wildcard(p, s)
  {
    if ItemsMatch(Compile(p), s) {
      var fills := MatchWitness(p, s);
    }
    if Wildcard(p, s) {
      var fills :| |fills| == Stars(p) && NoNewlines(fills) && Expand(p, fills) == s;
      ExpandMatches(p, fills);
    }
  }

  /** A pattern without `*` matches only itself (or itself plus the newline PCRE's `$` tolerates). */
  lemma {:induction false} LiteralPatternIsExact(p: string, name: string)
    requires '*' !in p
    ensures RegexMatches(Compile(p), name) <==> (name == p || name == p + "\n")
  {
    LiteralExpand(p);
    CompiledMeaning(p, name);
    if name != [] {
      CompiledMeaning(p, name[..|name| - 1]);
      if name[..|name| - 1] == p && name[|name| - 1] == '\n' {
        assert name == p + "\n";
      }
    }
    if name == p + "\n" {
      assert name[..|name| - 1] == p;
    }
    assert Expand(p, []) == p;
  }

  lemma {:induction false} LiteralExpand(p: string)
    requires '*' !in p
    ensures Stars(p) == 0 && Expand(p, []) == p
  {
    if p != [] {
      LiteralExpand(p[1..]);
      assert p == [p[0]] + p[1..];
    }
  }

  // ---------------------------------------------------------------------------
  // The decision chain of should_skip_option.

  /** The four built-in prefixes of `/^(cron|doing_cron|_transient|_site_transient)/`. */
  predicate BuiltinSkip(option: string)
  {
    "cron" <= option || "doing_cron" <= option || "_transient" <= option || "_site_transient" <= option
  }

  /** The `foreach` over compiled exclusions, returning on the first match. */
  predicate AnyPatternMatches(patterns: seq<Compiled>, option: string)
  {
    patterns != [] && (RegexMatches(patterns[0], option) || AnyPatternMatches(patterns[1..], option))
  }

  lemma {:induction false} AnyPatternMatchesExists(patterns: seq<Compiled>, option: string)
    ensures AnyPatternMatches(patterns, option) <==> exists i :: 0 <= i < |patterns| && RegexMatches(patterns[i], option)
  {
    if patterns != [] {
      AnyPatternMatchesExists(patterns[1..], option);
      if exists i :: 0 <= i < |patterns| && RegexMatches(patterns[i], option) {
        var i :| 0 <= i < |patterns| && RegexMatches(patterns[i], option);
        if i > 0 {
          assert RegexMatches(patterns[1..][i - 1], option);
        }
      }
    }
  }

  /** The filter state held by the plugin object once `compile_patterns` has run. */
  datatype FilterConfig = FilterConfig(
    allowlist: seq<string>,
    logWpUserRoles: bool,        // `! empty( $settings['log_wp_user_roles'] )`
    exclusions: seq<Compiled>)

  /**
   * The results of the two extension hooks: `log_changes_should_log_option`
   * (its truthiness, per option and values) and `log_changes_option_exclusions`
   * (an empty list when the hook returns a non-array).
   */
  datatype OptionHooks = OptionHooks(
    shouldLog: (string, PhpValue, PhpValue) -> bool,
    customExclusions: seq<string>)

  /** `should_skip_option`: true when the option change is not recorded. */
  predicate ShouldSkipOption(cfg: FilterConfig, option: string, oldValue: PhpValue, newValue: PhpValue, hooks: OptionHooks)
  {
    if option in cfg.allowlist then !hooks.shouldLog(option, oldValue, newValue)
    else if option == "wp_user_roles" && !cfg.logWpUserRoles then true
    else if BuiltinSkip(option) then true
    else if AnyPatternMatches(cfg.exclusions, option) then true
    else option in hooks.customExclusions || !hooks.shouldLog(option, oldValue, newValue)
  }

  /**
   * The precedence of the filter: an allowlisted name is decided by the
   * should-log hook alone; any other name is skipped iff one of the five
   * rules fires.
   */
  lemma SkipDecision(cfg: FilterConfig, option: string, oldValue: PhpValue, newValue: PhpValue, hooks: OptionHooks)
    ensures option in cfg.allowlist ==>
      (ShouldSkipOption(cfg, option, oldValue, newValue, hooks) <==> !hooks.shouldLog(option, oldValue, newValue))
    ensures option !in cfg.allowlist ==>
      (ShouldSkipOption(cfg, option, oldValue, newValue, hooks) <==>
        || (option == "wp_user_roles" && !cfg.logWpUserRoles)
        || BuiltinSkip(option)
        || (exists i :: 0 <= i < |cfg.exclusions| && RegexMatches(cfg.exclusions[i], option))
        || option in hooks.customExclusions
        || !hooks.shouldLog(option, oldValue, newValue))
  {
    AnyPatternMatchesExists(cfg.exclusions, option);
  }

  /** The built-in skip is a prefix test only: "cronology" is skipped, "my_transient_x" is not. */
  lemma BuiltinSkipIsPrefixOnly()
    ensures BuiltinSkip("cronology")
    ensures !BuiltinSkip("my_transient_x")
  {
    var s := "my_transient_x";
    assert s[0] == 'm';
    assert "cron"[0] == 'c' && "doing_cron"[0] == 'd' && "_transient"[0] == '_' && "_site_transient"[0] == '_';
  }

  lemma {:induction false} CompileAppend(a: string, b: string)
    ensures Compile(a + b) == Compile(a) + Compile(b)
  {
    var l, r := Compile(a + b), Compile(a) + Compile(b);
    assert |l| == |r|;
    forall i | 0 <= i < |l| ensures l[i] == r[i] {
      if i < |a| {
        assert (a + b)[i] == a[i];
      } else {
        assert (a + b)[i] == b[i - |a|];
      }
    }
  }

  lemma {:induction false} RunMatches(x: string)
    ensures ItemsMatch([AnyRun], x) <==> '\n' !in x
  {
    assert [AnyRun][1..] == [];
    if x != [] {
      RunMatches(x[1..]);
      assert x == [x[0]] + x[1..];
    }
  }

  lemma {:induction false} LiteralPrefixMatch(lit: string, rest: Compiled, name: string)
    requires '*' !in lit
    ensures ItemsMatch(Compile(lit) + rest, name) <==> lit <= name && ItemsMatch(rest, name[|lit|..])
  {
    if lit != [] {
      var t := Compile(lit) + rest;
      assert t[0] == Lit(lit[0]);
      assert t[1..] == Compile(lit[1..]) + rest;
      if name != [] {
        assert ItemsMatch(t, name) <==> name[0] == lit[0] && ItemsMatch(t[1..], name[1..]);
        LiteralPrefixMatch(lit[1..], rest, name[1..]);
        assert lit <= name <==> lit[0] == name[0] && lit[1..] <= name[1..];
        if lit <= name {
          assert name[1..][|lit| - 1..] == name[|lit|..];
        }
      }
    } else {
      assert Compile(lit) + rest == rest;
      assert name[|lit|..] == name;
    }
  }

  /**
   * The regex body of a pattern of the form `prefix*` (such as
   * `_transient_*`) matches exactly the names that start with the prefix and
   * have no newline after it.
   */
  lemma PrefixPatternMatch(lit: string, name: string)
    requires '*' !in lit
    ensures ItemsMatch(Compile(lit + "*"), name) <==> lit <= name && '\n' !in name[|lit|..]
  {
    CompileAppend(lit, "*");
    assert Compile("*") == [AnyRun];
    LiteralPrefixMatch(lit, [AnyRun], name);
    if lit <= name {
      RunMatches(name[|lit|..]);
    }
  }

  /**
   * The whole `preg_match`: a name matches iff it is the pattern with each `*`
   * filled, or is such a string followed by the one newline `$` tolerates.
   */
  lemma RegexMeaning(p: string, name: string)
    ensures RegexMatches(Compile(p), name) <==>
      Wildcard(p, name) || (name != [] && name[|name| - 1] == '\n' && Wildcard(p, name[..|name| - 1]))
  {
    CompiledMeaning(p, name);
    if name != [] {
      CompiledMeaning(p, name[..|name| - 1]);
    }
  }

  /**
   * The whole `preg_match` of `prefix*`: the name starts with the prefix and
   * has no newline after it, except possibly one final newline.
   */
  lemma PrefixRegexMatch(lit: string, name: string)
    requires '*' !in lit
    ensures RegexMatches(Compile(lit + "*"), name) <==>
      (lit <= name && '\n' !in name[|lit|..])
      || (name != [] && name[|name| - 1] == '\n' && lit <= name[..|name| - 1] && '\n' !in name[|lit|..|name| - 1])
  {
    PrefixPatternMatch(lit, name);
    if name != [] {
      var body := name[..|name| - 1];
      PrefixPatternMatch(lit, body);
      if lit <= body {
        assert body[|lit|..] == name[|lit|..|name| - 1];
      }
    }
  }

  /** A pattern that starts with a literal is anchored at the start of the name. */
  lemma AnchoredAtStart(p: string, name: string)
    requires p != [] && p[0] != '*'
    requires name != [] && name[0] != p[0]
    ensures !RegexMatches(Compile(p), name)
  {
    assert Compile(p)[0] == Lit(p[0]);
    assert name[..|name| - 1] != [] ==> name[..|name| - 1][0] == name[0];
  }
}
