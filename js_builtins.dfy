/** The JavaScript built-ins the pipeline relies on: the string operations
    `trim`, `toLowerCase`, `includes` and `startsWith`, and the array
    operations `find`, `slice(-n)` and `join`. Strings are sequences of Unicode
    scalar values. */
module JsBuiltins {
  import opened Wrappers

  /** The code points that `String.prototype.trim` removes: the ECMAScript
      WhiteSpace and LineTerminator productions (TAB, LF, VT, FF, CR, SP, NBSP,
      the other space separators U+1680, U+2000 to U+200A, U+202F, U+205F and
      U+3000, then LS, PS and ZWNBSP). */
  predicate IsWhitespace(c: char) {
    || c == '\t' || c == '\n' || c == '\U{000B}' || c == '\U{000C}' || c == '\r' || c == ' '
    || c == '\U{00A0}' || c == '\U{1680}' || '\U{2000}' <= c <= '\U{200A}'
    || c == '\U{2028}' || c == '\U{2029}' || c == '\U{202F}' || c == '\U{205F}' || c == '\U{3000}'
    || c == '\U{FEFF}'
  }

  predicate AllWhitespace(s: string) {
    forall i :: 0 <= i < |s| ==> IsWhitespace(s[i])
  }

  /** `sub` occurs in `s` starting at index `i`. */
  predicate OccursAt(s: string, sub: string, i: nat) {
    i + |sub| <= |s| && s[i..i + |sub|] == sub
  }

  /** Drops the leading whitespace: what is dropped is all whitespace, and what
      is kept is a suffix of `s` that does not start with whitespace. */
  function TrimStart(s: string): (r: string)
    ensures |r| <= |s| && r == s[|s| - |r|..]
    ensures AllWhitespace(s[..|s| - |r|])
    ensures r != [] ==> !IsWhitespace(r[0])
  {
    if s != [] && IsWhitespace(s[0]) then
      var r := TrimStart(s[1..]);
      TrimStartStep(s, r);
      r
    else
      assert s[0..] == s;
      s
  }

  /** What is kept after dropping `s[1..]`'s leading whitespace is also what is
      kept of `s` when `s` starts with whitespace. */
  lemma TrimStartStep(s: string, r: string)
    requires s != [] && IsWhitespace(s[0])
    requires |r| <= |s| - 1 && r == s[1..][|s| - 1 - |r|..] && AllWhitespace(s[1..][..|s| - 1 - |r|])
    ensures |r| <= |s| && r == s[|s| - |r|..] && AllWhitespace(s[..|s| - |r|])
  {
    var k := |s| - |r|;
    assert s[1..][k - 1..] == s[k..];
    forall i | 0 < i < k ensures IsWhitespace(s[..k][i]) {
      assert s[..k][i] == s[1..][..k - 1][i - 1];
    }
  }

  /** Drops the trailing whitespace: what is dropped is all whitespace, and what
      is kept is a prefix of `s` that does not end with whitespace. */
  function TrimEnd(s: string): (r: string)
    ensures |r| <= |s| && r == s[..|r|]
    ensures AllWhitespace(s[|r|..])
    ensures r != [] ==> !IsWhitespace(r[|r| - 1])
  {
    if s != [] && IsWhitespace(s[|s| - 1]) then TrimEnd(s[..|s| - 1]) else s
  }

  /** `s.trim()`: the part of `s` between its leading and trailing whitespace. */
  function Trim(s: string): (r: string)
    ensures r == [] <==> AllWhitespace(s)
    ensures r != [] ==> !IsWhitespace(r[0]) && !IsWhitespace(r[|r| - 1])
    ensures Padded(s, r, |s| - |TrimStart(s)|)
  {
    TrimPadded(s);
    TrimBlank(s);
    TrimEnd(TrimStart(s))
  }

  /** `r` occurs in `s` at `lo` with nothing but whitespace before and after
      it. */
  predicate Padded(s: string, r: string, lo: nat) {
    OccursAt(s, r, lo) && AllWhitespace(s[..lo]) && AllWhitespace(s[lo + |r|..])
  }

  /** What `Trim` keeps is one slice of `s`, with only whitespace around it. */
  lemma TrimPadded(s: string)
    ensures Padded(s, TrimEnd(TrimStart(s)), |s| - |TrimStart(s)|)
  {
    PaddedSlice(s, TrimStart(s), TrimEnd(TrimStart(s)));
  }

  /** A prefix `r` of a suffix `t` of `s`, where `s` has only whitespace before
      `t` and `t` only whitespace after `r`, sits in `s` between whitespace. */
  lemma PaddedSlice(s: string, t: string, r: string)
    requires |t| <= |s| && t == s[|s| - |t|..] && AllWhitespace(s[..|s| - |t|])
    requires |r| <= |t| && r == t[..|r|] && AllWhitespace(t[|r|..])
    ensures Padded(s, r, |s| - |t|)
  {
    PrefixOfSuffix(s, t, r);
    assert s[|s| - |t| + |r|..] == t[|r|..];
  }

  /** A prefix `r` of a suffix `t` of `s` occurs in `s` where `t` starts. */
  lemma PrefixOfSuffix(s: string, t: string, r: string)
    requires |t| <= |s| && t == s[|s| - |t|..]
    requires |r| <= |t| && r == t[..|r|]
    ensures OccursAt(s, r, |s| - |t|)
  {
    var lo := |s| - |t|;
    assert s[lo..lo + |r|] == s[lo..][..|r|];
  }

  /** What `Trim` keeps is empty only when all of `s` is whitespace. */
  lemma TrimBlank(s: string)
    ensures TrimEnd(TrimStart(s)) == [] <==> AllWhitespace(s)
  {
    var t := TrimStart(s);
    var lo := |s| - |t|;
    if TrimEnd(t) == [] {
      assert t[0..] == t;
      WhitespaceSplit(s, lo);
    }
    if AllWhitespace(s) {
      WhitespaceSuffix(s, t);
    }
  }

  /** A suffix of an all-whitespace string is all whitespace. */
  lemma WhitespaceSuffix(s: string, t: string)
    requires AllWhitespace(s)
    requires |t| <= |s| && t == s[|s| - |t|..]
    ensures AllWhitespace(t)
  {
    forall i | 0 <= i < |t| ensures IsWhitespace(t[i]) {
      assert t[i] == s[|s| - |t| + i];
    }
  }

  /** `s` is all whitespace when both sides of a split of it are. */
  lemma WhitespaceSplit(s: string, k: nat)
    requires k <= |s| && AllWhitespace(s[..k]) && AllWhitespace(s[k..])
    ensures AllWhitespace(s)
  {
    WhitespaceConcat(s[..k], s[k..]);
    assert s[..k] + s[k..] == s;
  }

  lemma {:induction false} WhitespaceConcat(a: string, b: string)
    requires AllWhitespace(a) && AllWhitespace(b)
    ensures AllWhitespace(a + b)
  {
    forall i | 0 <= i < |a + b| ensures IsWhitespace((a + b)[i]) {
      if i >= |a| {
        assert (a + b)[i] == b[i - |a|];
      }
    }
  }

  /** `!s.trim()`: the message is empty or all whitespace. */
  predicate IsBlank(s: string)
    ensures IsBlank(s) <==> AllWhitespace(s)
  {
    Trim(s) == []
  }

  /** `toLowerCase` of one code point. ASCII capitals move to lower case; U+0130
      and U+212A are the only other code points whose lower-case form holds an
      ASCII letter, and they are mapped as Unicode maps them. Every other code
      point is kept. */
  function LowerCase(c: char): (r: string)
    ensures |r| >= 1
    ensures forall i :: 0 <= i < |r| ==> !('A' <= r[i] <= 'Z')
    ensures 'a' <= c <= 'z' ==> r == [c]
  {
    if 'A' <= c <= 'Z' then [(c as int + 32) as char]
    else if c == '\U{0130}' then "i\U{0307}"
    else if c == '\U{212A}' then "k"
    else [c]
  }

  /** `s.toLowerCase()`, code point by code point. */
  function ToLower(s: string): (r: string)
    ensures |r| >= |s|
    ensures forall i :: 0 <= i < |r| ==> !('A' <= r[i] <= 'Z')
  {
    if s == [] then [] else LowerCase(s[0]) + ToLower(s[1..])
  }

  /** Lower-casing works piece by piece, so a substring of `s` turns into a
      substring of `ToLower(s)`. */
  lemma {:induction false} ToLowerAppend(a: string, b: string)
    ensures ToLower(a + b) == ToLower(a) + ToLower(b)
  {
    if a != [] {
      assert (a + b)[1..] == a[1..] + b;
      ToLowerAppend(a[1..], b);
    } else {
      assert a + b == b;
    }
  }

  /** `v` is `w`, a word of small ASCII letters, written with any of its
      letters as capitals. */
  predicate AsciiCaseVariant(v: string, w: string) {
    |v| == |w| && forall i :: 0 <= i < |v| ==>
      'a' <= w[i] <= 'z' && (v[i] == w[i] || v[i] as int == w[i] as int - 32)
  }

  /** Lower-casing any ASCII case variant of a small-letter word gives back
      that word: the case-insensitive match the keyword tests rely on. */
  lemma {:induction false} ToLowerAsciiVariant(v: string, w: string)
    requires AsciiCaseVariant(v, w)
    ensures ToLower(v) == w
  {
    if v != [] {
      assert AsciiCaseVariant(v[1..], w[1..]) by {
        forall i | 0 <= i < |v[1..]|
          ensures 'a' <= w[1..][i] <= 'z' && (v[1..][i] == w[1..][i] || v[1..][i] as int == w[1..][i] as int - 32)
        {
          assert v[1..][i] == v[i + 1] && w[1..][i] == w[i + 1];
        }
      }
      ToLowerAsciiVariant(v[1..], w[1..]);
      assert LowerCase(v[0]) == [w[0]];
      assert w == [w[0]] + w[1..];
    }
  }

  /** `s.includes(sub)`. */
  predicate Includes(s: string, sub: string) {
    exists i: nat :: i <= |s| && OccursAt(s, sub, i)
  }

  /** A trigger word written in any mix of cases inside the message is found in
      the lower-cased message. */
  lemma IncludesLowered(s: string, sub: string)
    requires Includes(s, sub)
    ensures Includes(ToLower(s), ToLower(sub))
  {
    var i: nat :| i <= |s| && OccursAt(s, sub, i);
    var pre, post := s[..i], s[i + |sub|..];
    assert s == pre + sub + post;
    ToLowerAppend(pre + sub, post);
    ToLowerAppend(pre, sub);
    var j: nat := |ToLower(pre)|;
    assert OccursAt(ToLower(s), ToLower(sub), j);
  }

  /** `s.startsWith(prefix)`. */
  predicate StartsWith(s: string, prefix: string)
    ensures StartsWith(s, prefix) <==> OccursAt(s, prefix, 0)
  {
    |prefix| <= |s| && s[..|prefix|] == prefix
  }

  /** `xs.slice(-n)` for `n > 0`: the last `n` elements, or all of them when
      there are fewer. */
  function LastN<T>(xs: seq<T>, n: nat): (r: seq<T>)
    requires n > 0
    ensures |r| == if |xs| < n then |xs| else n
    ensures xs == xs[..|xs| - |r|] + r
  {
    if |xs| <= n then xs else xs[|xs| - n..]
  }

  /** `parts.join(sep)`. */
  function Join(parts: seq<string>, sep: string): string {
    if |parts| == 0 then ""
    else if |parts| == 1 then parts[0]
    else parts[0] + sep + Join(parts[1..], sep)
  }

  /** `xs.find(p)`: the first element satisfying `p`, if any. */
  function Find<T>(xs: seq<T>, p: T -> bool): (r: Option<T>)
    ensures r.None? <==> forall i :: 0 <= i < |xs| ==> !p(xs[i])
    ensures r.Some? ==> exists k :: 0 <= k < |xs| && xs[k] == r.value && p(r.value)
                                  && forall i :: 0 <= i < k ==> !p(xs[i])
  {
    if xs == [] then None
    else if p(xs[0]) then Some(xs[0])
    else
      var r := Find(xs[1..], p);
      assert forall i :: 1 <= i < |xs| ==> xs[i] == xs[1..][i - 1];
      assert r.Some? ==> exists k :: 0 <= k < |xs| && xs[k] == r.value && p(r.value)
                                    && forall i :: 0 <= i < k ==> !p(xs[i]) by {
        if r.Some? {
          var k :| 0 <= k < |xs[1..]| && xs[1..][k] == r.value && p(r.value)
                   && forall i :: 0 <= i < k ==> !p(xs[1..][i]);
          assert xs[k + 1] == r.value;
        }
      }
      r
  }

  /** When exactly one element satisfies `p`, `find` returns it. */
  lemma FindUnique<T>(xs: seq<T>, p: T -> bool, k: nat)
    requires k < |xs| && p(xs[k])
    requires forall i :: 0 <= i < |xs| && i != k ==> !p(xs[i])
    ensures Find(xs, p) == Some(xs[k])
  {
  }
}
