/**
 * The pieces of JavaScript's string library the scheduler relies on:
 * white space as `String.prototype.trim` and the regular-expression class `\s`
 * understand it, `trim` itself, ASCII case folding as the `i` flag applies it,
 * and `Array.prototype.join`.
 */
module Text {

  /**
   * The ECMAScript WhiteSpace and LineTerminator code points: tab, line feed, vertical tab,
   * form feed, carriage return, space, no-break space, the other Unicode space separators
   * (U+1680, U+2000 to U+200A, U+202F, U+205F, U+3000), the byte-order mark U+FEFF and the
   * line and paragraph separators U+2028 and U+2029. This is the set `trim` removes and the
   * regular-expression class `\s` matches.
   */
  predicate IsWhitespace(c: char) {
    c == ' ' || '\t' <= c <= '\r' || c == '\U{A0}' || c == '\U{1680}' || '\U{2000}' <= c <= '\U{200A}'
    || c == '\U{2028}' || c == '\U{2029}' || c == '\U{202F}' || c == '\U{205F}' || c == '\U{3000}' || c == '\U{FEFF}'
  }

  predicate AllWhitespace(s: string) {
    forall i :: 0 <= i < |s| ==> IsWhitespace(s[i])
  }

  /** Neither end of `s` is white space: what `trim` guarantees of its result. */
  predicate Trimmed(s: string) {
    s == [] || (!IsWhitespace(s[0]) && !IsWhitespace(s[|s| - 1]))
  }

  /** `s.trimStart()`: the suffix of `s` left after its leading white space. */
  function TrimStart(s: string): (r: string)
    ensures |r| <= |s| && r == s[|s| - |r|..]
    ensures r == [] || !IsWhitespace(r[0])
  {
    if s != [] && IsWhitespace(s[0]) then TrimStart(s[1..]) else s
  }

  /** What `trimStart` removes is white space. */
  lemma {:induction false} TrimStartRemovesWhitespace(s: string)
    ensures AllWhitespace(s[..|s| - |TrimStart(s)|])
  {
    if s != [] && IsWhitespace(s[0]) {
      TrimStartRemovesWhitespace(s[1..]);
      WhitespaceCons(s, |s| - |TrimStart(s)|);
    }
  }

  /** `s.trimEnd()`: the prefix of `s` left before its trailing white space. */
  function TrimEnd(s: string): (r: string)
    ensures |r| <= |s| && r == s[..|r|]
    ensures r == [] || !IsWhitespace(r[|r| - 1])
  {
    if s != [] && IsWhitespace(s[|s| - 1]) then TrimEnd(s[..|s| - 1]) else s
  }

  /** What `trimEnd` removes is white space. */
  lemma {:induction false} TrimEndRemovesWhitespace(s: string)
    ensures AllWhitespace(s[|TrimEnd(s)|..])
  {
    if s != [] && IsWhitespace(s[|s| - 1]) {
      TrimEndRemovesWhitespace(s[..|s| - 1]);
      WhitespaceSnoc(s, |TrimEnd(s)|);
    }
  }

  /** `s.trim()`. */
  function Trim(s: string): (r: string)
    ensures Trimmed(r)
    ensures |r| <= |s|
  {
    TrimEnd(TrimStart(s))
  }

  /** Leading white space does not change `trimStart`. */
  lemma {:induction false} TrimStartSkips(w: string, t: string)
    requires AllWhitespace(w)
    ensures TrimStart(w + t) == TrimStart(t)
  {
    if w == [] {
      assert w + t == t;
    } else {
      assert (w + t)[0] == w[0] && (w + t)[1..] == w[1..] + t;
      TrimStartSkips(w[1..], t);
    }
  }

  /** Trailing white space does not change `trimEnd`. */
  lemma {:induction false} TrimEndSkips(t: string, w: string)
    requires AllWhitespace(w)
    ensures TrimEnd(t + w) == TrimEnd(t)
  {
    if w == [] {
      assert t + w == t;
    } else {
      assert (t + w)[|t + w| - 1] == w[|w| - 1] && (t + w)[..|t + w| - 1] == t + w[..|w| - 1];
      TrimEndSkips(t, w[..|w| - 1]);
    }
  }

  /** A trimmed string followed by white space trims back to itself. */
  lemma TrimTrailing(x: string, r: string)
    requires Trimmed(x) && AllWhitespace(r)
    ensures Trim(x + r) == x
  {
    if x == [] {
      EmptyUnit(r);
      TrimStartSkips(r, []);
    } else {
      assert (x + r)[0] == x[0];
      TrimEndSkips(x, r);
    }
  }

  /** Trimming a trimmed core padded with white space on both sides gives the core back. */
  lemma TrimPadded(l: string, x: string, r: string)
    requires AllWhitespace(l) && AllWhitespace(r) && Trimmed(x)
    ensures Trim(l + x + r) == x
  {
    Assoc(l, x, r);
    TrimStartSkips(l, x + r);
    TrimTrailing(x, r);
  }

  /** Every string is its trim padded with white space: `trim` only removes white space, from the ends. */
  lemma TrimShape(s: string) returns (l: string, r: string)
    ensures AllWhitespace(l) && AllWhitespace(r)
    ensures s == l + Trim(s) + r
  {
    var u := TrimStart(s);
    var t := TrimEnd(u);
    TrimStartRemovesWhitespace(s);
    TrimEndRemovesWhitespace(u);
    l := s[..|s| - |u|];
    r := u[|t|..];
    Nested(s, u, t);
  }

  /** A trimmed string is its own trim. */
  lemma TrimKeeps(t: string)
    requires Trimmed(t)
    ensures Trim(t) == t
  {
    EmptyUnit(t);
    TrimTrailing(t, []);
  }

  /** `trim` is idempotent. */
  lemma TrimIdempotent(s: string)
    ensures Trim(Trim(s)) == Trim(s)
  {
    TrimKeeps(Trim(s));
  }

  /** `trim` yields the empty string exactly for strings made only of white space. */
  lemma TrimEmptyIff(s: string)
    ensures Trim(s) == [] <==> AllWhitespace(s)
  {
    var l, r := TrimShape(s);
    if AllWhitespace(s) {
      EmptyUnit(s);
      TrimStartSkips(s, []);
    } else if Trim(s) == [] {
      AllWhitespaceAppend(l, r);
      EmptyUnit(l);
      assert false;
    }
  }

  /** White space on either side of a string does not change its trim. */
  lemma TrimAbsorbs(w1: string, s: string, w2: string)
    requires AllWhitespace(w1) && AllWhitespace(w2)
    ensures Trim(w1 + s + w2) == Trim(s)
  {
    var l, r := TrimShape(s);
    AllWhitespaceAppend(w1, l);
    AllWhitespaceAppend(r, w2);
    Regroup5(w1, l, Trim(s), r, w2);
    TrimPadded(w1 + l, Trim(s), r + w2);
  }

  /** `trimStart` stops at the first character that is not white space. */
  lemma TrimStartAt(l: string, t: string)
    requires AllWhitespace(l) && (t == [] || !IsWhitespace(t[0]))
    ensures TrimStart(l + t) == t
  {
    TrimStartSkips(l, t);
  }

  /** The ASCII lower-case letter for an upper-case one; every other character unchanged. */
  function AsciiLower(c: char): (d: char)
    ensures 'A' <= c <= 'Z' ==> d as int == c as int + 32
    ensures !('A' <= c <= 'Z') ==> d == c
  {
    if 'A' <= c <= 'Z' then (c as int + 32) as char else c
  }

  /** `parts.join(sep)`. */
  function Join(parts: seq<string>, sep: string): string
  {
    if |parts| == 0 then "" else if |parts| == 1 then parts[0] else parts[0] + sep + Join(parts[1..], sep)
  }

  /** Joining two leading parts in front of a non-empty rest. */
  lemma JoinTwo(a: string, b: string, rest: seq<string>, sep: string)
    requires rest != []
    ensures Join([a, b] + rest, sep) == a + sep + (b + sep + Join(rest, sep))
  {
    var ps := [a, b] + rest;
    assert ps[1..] == [b] + rest;
    assert ps[1..][1..] == rest;
  }

  /** The white-space strings are closed under concatenation. */
  lemma AllWhitespaceAppend(a: string, b: string)
    requires AllWhitespace(a) && AllWhitespace(b)
    ensures AllWhitespace(a + b)
  {
    forall i | 0 <= i < |a + b| ensures IsWhitespace((a + b)[i]) {
      if i < |a| { assert (a + b)[i] == a[i]; } else { assert (a + b)[i] == b[i - |a|]; }
    }
  }

  /** `trim` keeps a contiguous window of its argument. */
  lemma TrimWindow(s: string) returns (a: nat, b: nat)
    ensures a <= b <= |s| && Trim(s) == s[a..b]
  {
    var l, r := TrimShape(s);
    a, b := |l|, |l| + |Trim(s)|;
    assert s[a..b] == (l + Trim(s) + r)[|l|..|l| + |Trim(s)|];
  }

  // ---------------------------------------------------------------------------
  // Windows of sequences

  /** A slice of a slice is a slice of the whole; used by `AiService.WindowOfWindow`. */
  lemma SliceOfSlice(s: string, a: nat, b: nat, c: nat, d: nat)
    requires a <= b <= |s| && c <= d <= b - a
    ensures s[a..b][c..d] == s[a + c..a + d]
  {
    assert forall k :: 0 <= k < d - c ==> s[a..b][c..d][k] == s[a + c + k];
  }

  /** Regrouping a concatenation of seven pieces around the fourth; `PromptComposer.PromptShape` uses it. */
  lemma Regroup(a: string, b: string, c: string, x: string, d: string, e: string, f: string)
    ensures a + b + (c + x + d + e + f) == (a + b + c) + x + (d + e + f)
  {
  }

  /** Regrouping a concatenation of five pieces around the middle one; `TrimAbsorbs` uses it. */
  lemma Regroup5(a: string, b: string, x: string, c: string, d: string)
    ensures a + (b + x + c) + d == (a + b) + x + (c + d)
  {
  }

  /**
   * `s`, cut as `l + x + r`, with pieces `w1` and `w2` around it and `f` after. Used by
   * `AiService.CleanBothFences`, where stating it inline next to the `Trim` terms is too costly.
   */
  lemma SplitAround(h: string, w1: string, s: string, w2: string, f: string, l: string, x: string, r: string)
    requires s == l + x + r
    ensures h + w1 + s + w2 + f == h + ((w1 + l) + x + (r + w2)) + f
  {
  }

  /** `s`, cut as `l + x + r`, after a head and a piece `w`; used by `AiService.CleanOpeningFenceOnly`. */
  lemma SplitAfterHead(h: string, w: string, s: string, l: string, x: string, r: string)
    requires s == l + x + r
    ensures h + w + s == h + ((w + l) + x + r)
  {
  }

  /** `s`, cut as `l + x + r`, before a piece `w` and a tail `f`; used by `AiService.CleanClosingFenceOnly`. */
  lemma SplitBeforeTail(s: string, w: string, f: string, l: string, x: string, r: string)
    requires s == l + x + r
    ensures s + w + f == l + (x + (r + w) + f)
  {
  }

  /** `x` sits right after `h`; used by `PromptComposer.FieldLayout` and `PromptComposer.PromptShape`. */
  lemma InfixAt(h: string, x: string, t: string)
    ensures (h + x + t)[|h|..|h| + |x|] == x
  {
  }

  /** The empty string is a unit of concatenation; used by the `Trim` lemmas above. */
  lemma EmptyUnit(s: string)
    ensures s + [] == s && [] + s == s
  {
  }

  /** Concatenation is associative; used by `TrimPadded`. */
  lemma Assoc(a: string, b: string, c: string)
    ensures a + b + c == a + (b + c)
  {
  }

  /** A prefix `t` of a suffix `u` of `s` splits `s` in three; used by `TrimShape`. */
  lemma Nested(s: string, u: string, t: string)
    requires |u| <= |s| && u == s[|s| - |u|..] && |t| <= |u| && t == u[..|t|]
    ensures s == s[..|s| - |u|] + t + u[|t|..]
  {
    assert u == t + u[|t|..];
    assert s == s[..|s| - |u|] + u;
  }

  /** A prefix of a suffix of a suffix of `t` is a window of `t`; used by `AiService.UnfenceWindow`. */
  lemma SuffixSuffixPrefix(t: string, t2: string, t3: string, t4: string) returns (i: nat, j: nat)
    requires |t2| <= |t| && t2 == t[|t| - |t2|..]
    requires |t3| <= |t2| && t3 == t2[|t2| - |t3|..]
    requires |t4| <= |t3| && t4 == t3[..|t4|]
    ensures i <= j <= |t| && t4 == t[i..j]
  {
    i := |t| - |t3|;
    j := i + |t4|;
    assert t3 == t[i..];
    assert t4 == t[i..][..|t4|];
  }

  /** White space, then a white-space prefix of the rest; used by `TrimStartRemovesWhitespace`. */
  lemma WhitespaceCons(s: string, k: nat)
    requires 1 <= k <= |s| && IsWhitespace(s[0]) && AllWhitespace(s[1..][..k - 1])
    ensures AllWhitespace(s[..k])
  {
    forall i | 0 <= i < k ensures IsWhitespace(s[..k][i]) {
      if i > 0 {
        assert s[..k][i] == s[1..][..k - 1][i - 1];
      }
    }
  }

  /** A white-space suffix of the front, then white space; used by `TrimEndRemovesWhitespace`. */
  lemma WhitespaceSnoc(s: string, k: nat)
    requires k < |s| && IsWhitespace(s[|s| - 1]) && AllWhitespace(s[..|s| - 1][k..])
    ensures AllWhitespace(s[k..])
  {
    forall i | 0 <= i < |s| - k ensures IsWhitespace(s[k..][i]) {
      if i < |s| - 1 - k {
        assert s[k..][i] == s[..|s| - 1][k..][i];
      }
    }
  }
}
