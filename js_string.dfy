/**
 * The JavaScript string primitives the core relies on, written out so that their
 * edge cases are explicit: `trim`, `toLowerCase`, `split`, `replaceAll`,
 * `includes`, `startsWith`, `parseInt(s, 10)` and `String(n)` for integers.
 */
module JsString {
  import opened Wrappers

  /** WhiteSpace or LineTerminator in the sense of ECMAScript: what `trim` strips and `\s` matches. */
  const JsSpaces: set<char> := {
    '\t', '\n', '\U{000B}', '\U{000C}', '\r', ' ', '\U{00A0}', '\U{1680}',
    '\U{2000}', '\U{2001}', '\U{2002}', '\U{2003}', '\U{2004}', '\U{2005}', '\U{2006}',
    '\U{2007}', '\U{2008}', '\U{2009}', '\U{200A}',
    '\U{2028}', '\U{2029}', '\U{202F}', '\U{205F}', '\U{3000}', '\U{FEFF}'
  }

  predicate IsJsSpace(c: char) {
    c in JsSpaces
  }

  /** The LineTerminator characters: where `^` matches under the `m` flag. */
  predicate IsLineTerminator(c: char) {
    c == '\n' || c == '\r' || c == '\U{2028}' || c == '\U{2029}'
  }

  predicate NoSpace(s: string) {
    forall i :: 0 <= i < |s| ==> !IsJsSpace(s[i])
  }

  /** `a || b` on an optional string: an absent or empty `a` falls through to `b`. */
  function OrElse(a: Option<string>, b: string): (r: string)
    ensures a.Some? && a.value != "" ==> r == a.value
    ensures (a.None? || a.value == "") ==> r == b
  {
    if a.Some? && a.value != "" then a.value else b
  }

  /** A present, non-empty string: what JavaScript treats as true. */
  predicate Truthy(a: Option<string>) {
    a.Some? && a.value != ""
  }

  // ---------------------------------------------------------------- trim

  /** The index of the first character at or after `i` that is not white space. */
  function SpaceEnd(s: string, i: nat): (k: nat)
    requires i <= |s|
    ensures i <= k <= |s|
    ensures forall j :: i <= j < k ==> IsJsSpace(s[j])
    ensures k == |s| || !IsJsSpace(s[k])
    decreases |s| - i
  {
    if i < |s| && IsJsSpace(s[i]) then SpaceEnd(s, i + 1) else i
  }

  /** The index just past the last character before `i`, and not before `lo`, that is not white space. */
  function SpaceStart(s: string, lo: nat, i: nat): (e: nat)
    requires lo <= i <= |s|
    ensures lo <= e <= i
    ensures forall j :: e <= j < i ==> IsJsSpace(s[j])
    ensures e == lo || !IsJsSpace(s[e - 1])
    decreases i
  {
    if lo < i && IsJsSpace(s[i - 1]) then SpaceStart(s, lo, i - 1) else i
  }

  /** `s.trimStart()`. */
  function TrimStart(s: string): (r: string)
    ensures |r| <= |s| && r == s[|s| - |r|..]
    ensures forall i :: 0 <= i < |s| - |r| ==> IsJsSpace(s[i])
    ensures r == [] || !IsJsSpace(r[0])
  {
    s[SpaceEnd(s, 0)..]
  }

  /** `s.trimEnd()`. */
  function TrimEnd(s: string): (r: string)
    ensures |r| <= |s| && r == s[..|r|]
    ensures forall i :: |r| <= i < |s| ==> IsJsSpace(s[i])
    ensures r == [] || !IsJsSpace(r[|r| - 1])
  {
    s[..SpaceStart(s, 0, |s|)]
  }

  /** `s.trim()`: the result is `s` without its leading and trailing white space, and nothing else is removed. */
  function Trim(s: string): (r: string)
    ensures var k := SpaceEnd(s, 0);
      && k + |r| <= |s| && r == s[k..k + |r|]
      && (forall i :: 0 <= i < k ==> IsJsSpace(s[i]))
      && (forall i :: k + |r| <= i < |s| ==> IsJsSpace(s[i]))
    ensures r == [] || (!IsJsSpace(r[0]) && !IsJsSpace(r[|r| - 1]))
  {
    s[SpaceEnd(s, 0)..SpaceStart(s, SpaceEnd(s, 0), |s|)]
  }

  /** Whatever strips only white space from both ends and leaves non-space ends is `trim()`. */
  lemma TrimUnique(s: string, k: nat, e: nat)
    requires k <= e <= |s|
    requires forall i :: 0 <= i < k ==> IsJsSpace(s[i])
    requires forall i :: e <= i < |s| ==> IsJsSpace(s[i])
    requires k == e ==> forall i :: 0 <= i < |s| ==> IsJsSpace(s[i])
    requires k < e ==> !IsJsSpace(s[k]) && !IsJsSpace(s[e - 1])
    ensures Trim(s) == s[k..e]
  {
    if k < e {
      assert SpaceEnd(s, 0) == k;
    }
  }

  /** A string that starts with no white space is its own `trimStart()`. */
  lemma TrimStartKeeps(s: string)
    requires s == [] || !IsJsSpace(s[0])
    ensures TrimStart(s) == s
  {
    assert SpaceEnd(s, 0) == 0;
  }

  lemma TrimIdempotent(s: string)
    ensures Trim(Trim(s)) == Trim(s)
  {
    var r := Trim(s);
    TrimUnique(r, 0, |r|);
  }

  lemma SliceAfterHead(c: string, t: string, a: nat, b: nat)
    requires |c| == 1 && a <= b <= |t|
    ensures (c + t)[a + 1..b + 1] == t[a..b]
  {
  }

  /** One leading space makes no difference to `trim()`. */
  lemma TrimLeadingSpace(t: string)
    ensures Trim(" " + t) == Trim(t)
  {
    var s := " " + t;
    var k := SpaceEnd(t, 0);
    var e := SpaceStart(t, k, |t|);
    assert Trim(s) == s[k + 1..e + 1] by {
      assert SpaceEnd(s, 0) == SpaceEnd(s, 1);
      SpaceEndShift(t, 0);
      SpaceStartShift(t, k, |t|);
    }
    SliceAfterHead(" ", t, k, e);
  }

  lemma {:induction false} SpaceEndShift(t: string, i: nat)
    requires i <= |t|
    ensures SpaceEnd(" " + t, i + 1) == SpaceEnd(t, i) + 1
    decreases |t| - i
  {
    var s := " " + t;
    if i < |t| {
      assert s[i + 1] == t[i];
      if IsJsSpace(t[i]) {
        SpaceEndShift(t, i + 1);
      }
    }
  }

  lemma {:induction false} SpaceStartShift(t: string, lo: nat, i: nat)
    requires lo <= i <= |t|
    ensures SpaceStart(" " + t, lo + 1, i + 1) == SpaceStart(t, lo, i) + 1
    decreases i
  {
    var s := " " + t;
    if lo < i {
      assert s[i] == t[i - 1];
      if IsJsSpace(t[i - 1]) {
        SpaceStartShift(t, lo, i - 1);
      }
    }
  }

  // ---------------------------------------------------------------- case

  /** `toLowerCase` on one character; only the ASCII letters are mapped (see README). */
  function LowerChar(c: char): (d: char)
    ensures 'A' <= c <= 'Z' ==> 'a' <= d <= 'z'
    ensures !('A' <= c <= 'Z') ==> d == c
  {
    if 'A' <= c <= 'Z' then (c as int + 32) as char else c
  }

  /** Lower-casing neither creates nor removes white space. */
  lemma LowerCharSpace(c: char)
    ensures IsJsSpace(LowerChar(c)) <==> IsJsSpace(c)
  {
  }

  function ToLower(s: string): (r: string)
    ensures |r| == |s| && forall i :: 0 <= i < |s| ==> r[i] == LowerChar(s[i])
  {
    if s == [] then [] else [LowerChar(s[0])] + ToLower(s[1..])
  }

  // ---------------------------------------------------------------- search

  predicate StartsWith(s: string, prefix: string) {
    |prefix| <= |s| && s[..|prefix|] == prefix
  }

  predicate EndsWith(s: string, suffix: string) {
    |suffix| <= |s| && s[|s| - |suffix|..] == suffix
  }

  /** `s.includes(pat)`. */
  predicate Contains(s: string, pat: string)
    decreases |s|
  {
    StartsWith(s, pat) || (s != [] && Contains(s[1..], pat))
  }

  // ---------------------------------------------------------------- split / join

  function Join(parts: seq<string>, sep: string): string {
    if parts == [] then []
    else if |parts| == 1 then parts[0]
    else parts[0] + sep + Join(parts[1..], sep)
  }

  /** `s.split(sep)` for a one-character separator: joining the parts back gives `s`. */
  function Split(s: string, sep: char): (parts: seq<string>)
    ensures |parts| >= 1
    ensures forall p :: p in parts ==> sep !in p
    ensures Join(parts, [sep]) == s
  {
    if s == [] then [""]
    else
      var rest := Split(s[1..], sep);
      if s[0] == sep then
        assert Join([""] + rest, [sep]) == "" + [sep] + Join(rest, [sep]);
        [""] + rest
      else
        var first := [s[0]] + rest[0];
        assert sep !in first by {
          assert rest[0] in rest;
        }
        assert Join([first] + rest[1..], [sep]) == [s[0]] + Join(rest, [sep]) by {
          if |rest| > 1 {
            assert ([first] + rest[1..])[1..] == rest[1..];
          }
        }
        [first] + rest[1..]
  }

  /** A part free of the separator, then the separator: the part comes out first and the rest is split on its own. */
  lemma {:induction false} SplitAfter(a: string, rest: string, sep: char)
    requires sep !in a
    ensures Split(a + [sep] + rest, sep) == [a] + Split(rest, sep)
  {
    var s := a + [sep] + rest;
    if a == [] {
      assert s[1..] == rest;
    } else {
      assert s[1..] == a[1..] + [sep] + rest;
      SplitAfter(a[1..], rest, sep);
      assert [s[0]] + a[1..] == a;
    }
  }

  /** A string without the separator splits into itself alone. */
  lemma {:induction false} SplitNoSep(a: string, sep: char)
    requires sep !in a
    ensures Split(a, sep) == [a]
  {
    if a != [] {
      SplitNoSep(a[1..], sep);
      assert [a[0]] + a[1..] == a;
    }
  }

  /** `parts.join(sep).split(sep)` gives the parts back when none of them holds the separator. */
  lemma {:induction false} SplitJoin(parts: seq<string>, sep: char)
    requires |parts| >= 1
    requires forall p :: p in parts ==> sep !in p
    ensures Split(Join(parts, [sep]), sep) == parts
  {
    if |parts| == 1 {
      SplitNoSep(parts[0], sep);
    } else {
      assert parts[0] in parts;
      assert forall p :: p in parts[1..] ==> p in parts;
      SplitJoin(parts[1..], sep);
      SplitAfter(parts[0], Join(parts[1..], [sep]), sep);
      assert [parts[0]] + parts[1..] == parts;
    }
  }

  // ---------------------------------------------------------------- replaceAll

  /**
   * `s.replaceAll(pat, rep)` for a literal pattern: occurrences are found from left
   * to right and do not overlap. (No `$` substitution pattern occurs in any
   * replacement the core passes.)
   */
  function ReplaceAll(s: string, pat: string, rep: string): string
    requires pat != []
    decreases |s|
  {
    if |s| < |pat| then s
    else if s[..|pat|] == pat then rep + ReplaceAll(s[|pat|..], pat, rep)
    else [s[0]] + ReplaceAll(s[1..], pat, rep)
  }

  /** A string without the pattern is returned unchanged. */
  lemma {:induction false} ReplaceAllAbsent(s: string, pat: string, rep: string)
    requires pat != [] && !Contains(s, pat)
    ensures ReplaceAll(s, pat, rep) == s
  {
    if |s| >= |pat| {
      ReplaceAllAbsent(s[1..], pat, rep);
    }
  }

  /** Replacing a pattern by itself changes nothing: `replaceAll` only ever touches occurrences. */
  lemma {:induction false} ReplaceAllSelf(s: string, pat: string)
    requires pat != []
    ensures ReplaceAll(s, pat, pat) == s
    decreases |s|
  {
    if |s| >= |pat| {
      if s[..|pat|] == pat {
        ReplaceAllSelf(s[|pat|..], pat);
        assert s == s[..|pat|] + s[|pat|..];
      } else {
        ReplaceAllSelf(s[1..], pat);
        assert s == [s[0]] + s[1..];
      }
    }
  }

  /** A string contains every pattern its tail contains. */
  lemma ContainsCons(c: char, s: string, pat: string)
    requires Contains(s, pat)
    ensures Contains([c] + s, pat)
  {
    assert ([c] + s)[1..] == s;
  }

  lemma {:induction false} ContainsLength(s: string, pat: string)
    requires Contains(s, pat)
    ensures |pat| <= |s|
    decreases |s|
  {
    if !StartsWith(s, pat) {
      ContainsLength(s[1..], pat);
    }
  }

  /** Where the pattern occurs, the replacement occurs in the result. */
  lemma {:induction false} ReplaceAllPresent(s: string, pat: string, rep: string)
    requires pat != [] && Contains(s, pat)
    ensures Contains(ReplaceAll(s, pat, rep), rep)
    decreases |s|
  {
    ContainsLength(s, pat);
    if s[..|pat|] == pat {
      var r := ReplaceAll(s, pat, rep);
      assert r[..|rep|] == rep;
    } else {
      ReplaceAllPresent(s[1..], pat, rep);
      ContainsCons(s[0], ReplaceAll(s[1..], pat, rep), rep);
    }
  }

  /** A string contains every pattern that starts at one of its positions. */
  lemma {:induction false} ContainsAt(s: string, j: nat, pat: string)
    requires j <= |s| && StartsWith(s[j..], pat)
    ensures Contains(s, pat)
    decreases j
  {
    if j > 0 {
      assert s[1..][j - 1..] == s[j..];
      ContainsAt(s[1..], j - 1, pat);
    }
  }

  /** The pattern starts at none of the first `n` positions of `s`. */
  predicate NoMatchBefore(s: string, n: nat, pat: string) {
    forall j :: 0 <= j < n && j <= |s| ==> !StartsWith(s[j..], pat)
  }

  /**
   * A prefix at none of whose positions the pattern starts is copied as is, and
   * the scan goes on after it.
   */
  lemma {:induction false} ReplaceAllKeepsPrefix(x: string, rest: string, pat: string, rep: string)
    requires pat != [] && NoMatchBefore(x + rest, |x|, pat)
    ensures ReplaceAll(x + rest, pat, rep) == x + ReplaceAll(rest, pat, rep)
    decreases |x|
  {
    var s := x + rest;
    if x != [] {
      if |s| >= |pat| {
        assert s[0..] == s;
        assert s[..|pat|] != pat;
        assert ReplaceAll(s, pat, rep) == [s[0]] + ReplaceAll(s[1..], pat, rep);
        var t := x[1..] + rest;
        assert s[1..] == t;
        assert NoMatchBefore(t, |x[1..]|, pat) by {
          forall j | 0 <= j < |x[1..]| ensures !StartsWith(t[j..], pat) {
            assert t[j..] == s[j + 1..];
          }
        }
        ReplaceAllKeepsPrefix(x[1..], rest, pat, rep);
        assert [x[0]] + x[1..] == x;
      } else {
        assert |rest| < |pat|;
      }
    }
  }

  /** An occurrence at the front is replaced, and the scan goes on after it. */
  lemma ReplaceAllAtMatch(pat: string, rest: string, rep: string)
    requires pat != []
    ensures ReplaceAll(pat + rest, pat, rep) == rep + ReplaceAll(rest, pat, rep)
  {
    assert (pat + rest)[..|pat|] == pat;
    assert (pat + rest)[|pat|..] == rest;
  }

  /**
   * The first occurrence of the pattern splits the string: what precedes it is
   * kept, it becomes the replacement, and the remainder is treated the same way.
   * "First" means that no occurrence lies in front of it or overlaps it from the left.
   */
  lemma ReplaceAllSplit(a: string, b: string, pat: string, rep: string)
    requires pat != [] && !Contains(a + pat[..|pat| - 1], pat)
    ensures ReplaceAll(a + pat + b, pat, rep) == ReplaceAll(a, pat, rep) + rep + ReplaceAll(b, pat, rep)
    ensures ReplaceAll(a, pat, rep) == a
  {
    var front := a + pat[..|pat| - 1];
    var s := a + (pat + b);
    forall j | 0 <= j < |a| ensures !StartsWith(s[j..], pat) {
      if StartsWith(s[j..], pat) {
        assert front[j..][..|pat|] == s[j..][..|pat|];
        ContainsAt(front, j, pat);
      }
    }
    assert NoMatchBefore(s, |a|, pat);
    ReplaceAllKeepsPrefix(a, pat + b, pat, rep);
    ReplaceAllAtMatch(pat, b, rep);
    assert !Contains(a, pat) by {
      if Contains(a, pat) {
        ContainsPrefix(a, pat[..|pat| - 1], pat);
      }
    }
    ReplaceAllAbsent(a, pat, rep);
    assert a + pat + b == s;
  }

  /** A string contains every pattern its prefix contains. */
  lemma {:induction false} ContainsPrefix(a: string, b: string, pat: string)
    requires Contains(a, pat)
    ensures Contains(a + b, pat)
    decreases |a|
  {
    if StartsWith(a, pat) {
      assert (a + b)[..|pat|] == a[..|pat|];
    } else {
      ContainsPrefix(a[1..], b, pat);
      assert (a + b)[1..] == a[1..] + b;
    }
  }

  /** A string contains every pattern its suffix contains. */
  lemma {:induction false} ContainsSuffix(a: string, b: string, pat: string)
    requires Contains(b, pat)
    ensures Contains(a + b, pat)
    decreases |a|
  {
    if a != [] {
      ContainsSuffix(a[1..], b, pat);
      ContainsCons(a[0], a[1..] + b, pat);
      assert [a[0]] + (a[1..] + b) == a + b;
    } else {
      assert a + b == b;
    }
  }

  /** `parts.join(sep)` contains each of the parts. */
  lemma {:induction false} JoinContainsPart(parts: seq<string>, sep: string, i: nat)
    requires i < |parts|
    ensures Contains(Join(parts, sep), parts[i])
    decreases |parts|
  {
    if |parts| == 1 {
      assert Contains(parts[0], parts[0]) by { assert parts[0][..|parts[0]|] == parts[0]; }
    } else if i == 0 {
      assert Contains(parts[0], parts[0]) by { assert parts[0][..|parts[0]|] == parts[0]; }
      ContainsPrefix(parts[0], sep + Join(parts[1..], sep), parts[0]);
      assert parts[0] + (sep + Join(parts[1..], sep)) == Join(parts, sep);
    } else {
      JoinContainsPart(parts[1..], sep, i - 1);
      ContainsSuffix(parts[0] + sep, Join(parts[1..], sep), parts[i]);
    }
  }

  // ---------------------------------------------------------------- numbers

  predicate IsDigit(c: char) {
    '0' <= c <= '9'
  }

  /** One or more ASCII digits: the regex `\d+`. */
  predicate IsDigits(s: string) {
    s != [] && forall i :: 0 <= i < |s| ==> IsDigit(s[i])
  }

  function DigitChar(d: nat): char
    requires d < 10
  {
    ('0' as int + d) as char
  }

  /** The value of a run of decimal digits, most significant first. */
  function DigitsValue(s: string): nat
    requires forall i :: 0 <= i < |s| ==> IsDigit(s[i])
  {
    if s == [] then 0
    else
      assert IsDigit(s[|s| - 1]);
      DigitsValue(s[..|s| - 1]) * 10 + (s[|s| - 1] as int - '0' as int)
  }

  /** `String(n)` for a natural number. */
  function NatToString(n: nat): (r: string)
    ensures IsDigits(r)
    decreases n
  {
    if n < 10 then [DigitChar(n)] else NatToString(n / 10) + [DigitChar(n % 10)]
  }

  /** `String(n)` for an integer. */
  function IntToString(n: int): string {
    if n < 0 then "-" + NatToString(-n) else NatToString(n)
  }

  lemma {:induction false} NatToStringValue(n: nat)
    ensures DigitsValue(NatToString(n)) == n
    decreases n
  {
    if n >= 10 {
      var s := NatToString(n);
      assert s[..|s| - 1] == NatToString(n / 10);
      NatToStringValue(n / 10);
    }
  }

  /** The longest prefix of `s` made of digits. */
  function DigitPrefix(s: string): (d: string)
    ensures |d| <= |s| && d == s[..|d|]
    ensures forall i :: 0 <= i < |d| ==> IsDigit(s[i])
    ensures |d| < |s| ==> !IsDigit(s[|d|])
  {
    if s != [] && IsDigit(s[0]) then [s[0]] + DigitPrefix(s[1..]) else []
  }

  /**
   * `parseInt(s, 10)`: leading white space is skipped, one optional sign is read,
   * then the longest run of digits; without a digit the result is NaN (`None`).
   */
  function ParseInt(s: string): (r: Option<int>)
    ensures r.None? <==> DigitPrefix(SignStripped(TrimStart(s))) == []
  {
    var t := TrimStart(s);
    var d := DigitPrefix(SignStripped(t));
    var v: int := DigitsValue(d);
    if d == [] then None
    else if t[0] == '-' then Some(-v)
    else Some(v)
  }

  function SignStripped(t: string): string {
    if t != [] && (t[0] == '-' || t[0] == '+') then t[1..] else t
  }

  /** `parseInt(String(n), 10) == n`: decimal printing and parsing are inverse. */
  lemma ParseIntOfIntToString(n: int)
    ensures ParseInt(IntToString(n)) == Some(n)
  {
    if n >= 0 {
      NatToStringValue(n);
      ParseIntOfDigits(NatToString(n));
    } else {
      var digits := NatToString(-n);
      NatToStringValue(-n);
      var s := "-" + digits;
      assert s[0] == '-' && s[1..] == digits;
      TrimStartKeeps(s);
      DigitPrefixAll(digits);
    }
  }

  /** `parseInt(d, 10)` of a run of digits is its decimal value. */
  lemma ParseIntOfDigits(d: string)
    requires IsDigits(d)
    ensures ParseInt(d) == Some(DigitsValue(d))
  {
    assert SignStripped(d) == d by {
      assert IsDigit(d[0]);
    }
    TrimStartKeeps(d);
    DigitPrefixAll(d);
  }

  lemma {:induction false} DigitPrefixAll(s: string)
    requires forall i :: 0 <= i < |s| ==> IsDigit(s[i])
    ensures DigitPrefix(s) == s
  {
    if s != [] {
      DigitPrefixAll(s[1..]);
    }
  }
}
