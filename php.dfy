/**
 * The handful of PHP string and value semantics the plugin's core relies on:
 * `trim`, `explode`/`implode` on one delimiter, `empty()`, the decimal text
 * of an integer, and the byte-wise order in which MySQL compares DATETIME
 * text.  PHP strings are byte strings; here each `char` stands for one byte.
 */
module Php {

  datatype Option<T> = None | Some(value: T)

  /** A PHP value as the recorder receives it (floats and resources are not modelled). */
  datatype PhpValue =
    | PNull
    | PBool(b: bool)
    | PInt(i: int)
    | PStr(s: string)
    | PArray(items: seq<PhpValue>)
    | PObject(className: string, fields: seq<PhpValue>)

  /** PHP's `===` on scalars: same type and same value. */
  predicate Identical(a: PhpValue, b: PhpValue)
  {
    a == b
  }

  /** `is_array($v) || is_object($v)` */
  predicate IsStructured(v: PhpValue) {
    v.PArray? || v.PObject?
  }

  /** PHP's `empty()` on a string: the empty string and "0". */
  predicate EmptyText(s: string) {
    s == "" || s == "0"
  }

  /** The six characters PHP's `trim()` removes by default. */
  predicate IsTrimmed(c: char) {
    c == ' ' || c == '\t' || c == '\n' || c == '\r' || c == '\0' || c == '\U{000B}'
  }

  function TrimLeft(s: string): string
  {
    if s != [] && IsTrimmed(s[0]) then TrimLeft(s[1..]) else s
  }

  function TrimRight(s: string): string
  {
    if s != [] && IsTrimmed(s[|s| - 1]) then TrimRight(s[..|s| - 1]) else s
  }

  /** PHP's `trim($s)`. */
  function Trim(s: string): string
  {
    TrimRight(TrimLeft(s))
  }

  lemma {:induction false} TrimLeftMeaning(s: string)
    ensures var r := TrimLeft(s);
      && |r| <= |s| && r == s[|s| - |r|..]
      && (r != [] ==> !IsTrimmed(r[0]))
      && forall i :: 0 <= i < |s| - |r| ==> IsTrimmed(s[i])
  {
    if s != [] && IsTrimmed(s[0]) {
      var t := s[1..];
      TrimLeftMeaning(t);
      assert TrimLeft(s) == TrimLeft(t);
      forall i | 1 <= i < |s| ensures s[i] == t[i - 1] { }
    }
  }

  lemma {:induction false} TrimRightMeaning(s: string)
    ensures var r := TrimRight(s);
      && |r| <= |s| && r == s[..|r|]
      && (r != [] ==> !IsTrimmed(r[|r| - 1]))
      && forall i :: |r| <= i < |s| ==> IsTrimmed(s[i])
  {
    if s != [] && IsTrimmed(s[|s| - 1]) {
      TrimRightMeaning(s[..|s| - 1]);
    }
  }

  /**
   * `trim` removes exactly the trimmed characters at both ends: the result is
   * the infix of `s` after the `k` leading trimmed characters; it neither
   * starts nor ends with a trimmed character, and everything cut off is one.
   */
  lemma TrimMeaning(s: string, k: nat)
    requires k == |s| - |TrimLeft(s)|
    ensures k + |Trim(s)| <= |s| && Trim(s) == s[k..k + |Trim(s)|]
    ensures Trim(s) != [] ==> !IsTrimmed(Trim(s)[0]) && !IsTrimmed(Trim(s)[|Trim(s)| - 1])
    ensures forall i :: 0 <= i < k ==> IsTrimmed(s[i])
    ensures forall i :: k + |Trim(s)| <= i < |s| ==> IsTrimmed(s[i])
  {
    var l := TrimLeft(s);
    TrimLeftMeaning(s);
    TrimRightMeaning(l);
    var r := TrimRight(l);
    assert l == s[k..];
    assert r == l[..|r|];
    assert r == s[k..k + |r|];
    forall i | k + |r| <= i < |s| ensures IsTrimmed(s[i]) {
      assert s[i] == l[i - k];
    }
  }

  /** A string that neither starts nor ends with a trimmed character is its own trim. */
  lemma TrimIdentity(s: string)
    requires s != [] ==> !IsTrimmed(s[0]) && !IsTrimmed(s[|s| - 1])
    ensures Trim(s) == s
  {
  }

  /** PHP's `explode(d, s)`: the pieces between occurrences of `d`; "" gives [""]. */
  function Split(s: string, d: char): (r: seq<string>)
    ensures |r| >= 1
    ensures forall i :: 0 <= i < |r| ==> d !in r[i]
  {
    if s == [] then [[]]
    else
      var rest := Split(s[1..], d);
      if s[0] == d then [[]] + rest else [[s[0]] + rest[0]] + rest[1..]
  }

  /** PHP's `implode(d, ls)`. */
  function Join(ls: seq<string>, d: char): string
  {
    if |ls| == 0 then ""
    else if |ls| == 1 then ls[0]
    else ls[0] + [d] + Join(ls[1..], d)
  }

  /** Joining the pieces of a split gives back the split string. */
  lemma {:induction false} JoinSplit(s: string, d: char)
    ensures Join(Split(s, d), d) == s
  {
    if s != [] {
      var rest := Split(s[1..], d);
      JoinSplit(s[1..], d);
      if s[0] == d {
        assert Split(s, d) == [[]] + rest;
        assert Join([[]] + rest, d) == [] + [d] + Join(rest, d);
      } else {
        var r := Split(s, d);
        assert r == [[s[0]] + rest[0]] + rest[1..];
        if |rest| == 1 {
          assert Join(r, d) == [s[0]] + rest[0];
        } else {
          assert Join(rest, d) == rest[0] + [d] + Join(rest[1..], d);
          assert r[1..] == rest[1..];
          assert Join(r, d) == [s[0]] + rest[0] + [d] + Join(rest[1..], d);
        }
      }
    }
  }

  /** Splitting a join of delimiter-free pieces gives back the pieces. */
  lemma {:induction false} SplitJoin(ls: seq<string>, d: char)
    requires |ls| >= 1
    requires forall i :: 0 <= i < |ls| ==> d !in ls[i]
    ensures Split(Join(ls, d), d) == ls
  {
    if |ls| == 1 {
      SplitNoDelimiter(ls[0], d);
    } else {
      SplitJoin(ls[1..], d);
      SplitAppend(ls[0], Join(ls[1..], d), d);
      assert [ls[0]] + ls[1..] == ls;
    }
  }

  lemma {:induction false} SplitNoDelimiter(s: string, d: char)
    requires d !in s
    ensures Split(s, d) == [s]
  {
    if s != [] {
      SplitNoDelimiter(s[1..], d);
      assert [s[0]] + s[1..] == s;
    }
  }

  lemma {:induction false} SplitAppend(a: string, b: string, d: char)
    requires d !in a
    ensures Split(a + [d] + b, d) == [a] + Split(b, d)
  {
    if a == [] {
      assert [] + [d] + b == [d] + b;
      assert ([d] + b)[1..] == b;
    } else {
      SplitAppend(a[1..], b, d);
      assert (a + [d] + b)[1..] == a[1..] + [d] + b;
      assert [a[0]] + a[1..] == a;
    }
  }

  /** Decimal text of a natural number, as PHP's `%d` / string conversion writes it. */
  function NatText(n: nat): (r: string)
    ensures |r| >= 1
    ensures forall i :: 0 <= i < |r| ==> '0' <= r[i] <= '9'
  {
    var digit := ['0' + (n % 10) as char];
    if n < 10 then digit else NatText(n / 10) + digit
  }

  /** Decimal text of an integer, with a leading '-' for negatives. */
  function IntText(i: int): string
  {
    if i < 0 then "-" + NatText(-i) else NatText(i)
  }

  /** Byte-wise lexicographic order; for well-formed 'YYYY-MM-DD HH:MM:SS' text it is DATETIME order. */
  predicate TextLess(a: string, b: string)
    decreases |a|
  {
    if a == [] then b != []
    else if b == [] then false
    else a[0] < b[0] || (a[0] == b[0] && TextLess(a[1..], b[1..]))
  }

  predicate TextLessEq(a: string, b: string) {
    a == b || TextLess(a, b)
  }

  /** The text order is strict: `a < b` rules out `b <= a`. */
  lemma {:induction false} TextLessAsymmetric(a: string, b: string)
    requires TextLess(a, b)
    ensures !TextLessEq(b, a)
  {
    if a != [] && b != [] && a[0] == b[0] {
      TextLessAsymmetric(a[1..], b[1..]);
      assert a == [a[0]] + a[1..] && b == [b[0]] + b[1..];
    }
  }

  /** `substr($s, 0, $n)` for n >= 0. */
  function Prefix(s: string, n: nat): (r: string)
    ensures |r| <= n && r <= s
    ensures |s| <= n ==> r == s
  {
    if |s| <= n then s else s[..n]
  }

  // ---------------------------------------------------------------------------
  // Sequence facts, stated once so that proofs over sequences of strings
  // need not rediscover them element by element.

  lemma AppendAssoc<T>(x: seq<T>, y: seq<T>, z: seq<T>)
    ensures (x + y) + z == x + (y + z)
  {
  }

  lemma AppendTail<T>(a: seq<T>, b: seq<T>)
    requires a != []
    ensures (a + b)[0] == a[0] && (a + b)[1..] == a[1..] + b
  {
  }

  lemma SuffixStep<T>(s: seq<T>, i: nat)
    requires i < |s|
    ensures s[i..] != [] && s[i..][0] == s[i] && s[i..][1..] == s[i + 1..]
  {
  }

  lemma AppendEmpty<T>(a: seq<T>)
    ensures a + [] == a && [] + a == a
  {
  }
}

/**
 * The WordPress, PHP-extension and database functions the core calls but
 * does not define, passed in as uninterpreted functions.
 */
module Host {
  import opened Php

  datatype Foreign = Foreign(
    isValidIp: string -> bool,          // `filter_var( $ip, FILTER_VALIDATE_IP )` is truthy
    sanitizeText: string -> string,     // `sanitize_text_field`
    unslash: string -> string,          // `wp_unslash`
    absint: string -> nat,              // `absint`
    jsonEncode: PhpValue -> string,     // `wp_json_encode`
    fold: string -> string)             // the table collation's case folding, for `=` and `LIKE`
}
