/**
 The few JavaScript string operations the generator relies on, written out
 over `seq<char>`: `trim`, `indexOf`, `lastIndexOf`, `includes`, and
 `replace(/\s+/g, "-")`. Positions are positions in the character sequence.
 */
module JsString {

  /** ECMAScript WhiteSpace and LineTerminator code points: the set that both
      `String.prototype.trim` and the regular-expression class `\s` use. */
  predicate IsWhitespace(c: char)
  {
    || c == '\t' || c == '\n' || c == '\U{000B}' || c == '\U{000C}' || c == '\r'
    || c == ' ' || c == '\U{00A0}' || c == '\U{1680}'
    || ('\U{2000}' <= c <= '\U{200A}')
    || c == '\U{2028}' || c == '\U{2029}' || c == '\U{202F}' || c == '\U{205F}'
    || c == '\U{3000}' || c == '\U{FEFF}'
  }

  predicate AllWhitespace(s: string)
  {
    forall i | 0 <= i < |s| :: IsWhitespace(s[i])
  }

  predicate NoWhitespace(s: string)
  {
    forall i | 0 <= i < |s| :: !IsWhitespace(s[i])
  }

  /** `sub` occurs in `s` starting at position `i`. */
  predicate OccursAt(s: string, sub: string, i: int)
  {
    0 <= i && i + |sub| <= |s| && s[i..i + |sub|] == sub
  }

  /** `s.includes(sub)`. */
  predicate Contains(s: string, sub: string)
  {
    exists i | 0 <= i <= |s| - |sub| :: OccursAt(s, sub, i)
  }

  predicate StartsWith(s: string, prefix: string)
  {
    |prefix| <= |s| && s[..|prefix|] == prefix
  }

  /** A text starts with whatever was put in front of it. */
  lemma StartsWithConcat(prefix: string, s: string)
    ensures StartsWith(prefix + s, prefix)
  {
    assert (prefix + s)[..|prefix|] == prefix;
  }

  /** The first position at or after `i` that holds no whitespace, or `|s|`. */
  function SkipWhitespace(s: string, i: nat): (n: nat)
    requires i <= |s|
    ensures i <= n <= |s|
    ensures forall k | i <= k < n :: IsWhitespace(s[k])
    ensures n == |s| || !IsWhitespace(s[n])
    decreases |s| - i
  {
    if i == |s| || !IsWhitespace(s[i]) then i else SkipWhitespace(s, i + 1)
  }

  /** Moving back from `j`, but not below `lo`, over whitespace: the end of
      the last non-whitespace character before `j`, or `lo`. */
  function SkipWhitespaceBack(s: string, lo: nat, j: nat): (m: nat)
    requires lo <= j <= |s|
    ensures lo <= m <= j
    ensures forall k | m <= k < j :: IsWhitespace(s[k])
    ensures m == lo || !IsWhitespace(s[m - 1])
    decreases j
  {
    if j == lo || !IsWhitespace(s[j - 1]) then j else SkipWhitespaceBack(s, lo, j - 1)
  }

  /** How many characters `trim` removes from the front of `s`. */
  function TrimOffset(s: string): (n: nat)
    ensures n <= |s|
    ensures forall k | 0 <= k < n :: IsWhitespace(s[k])
    ensures n == |s| || !IsWhitespace(s[n])
  {
    SkipWhitespace(s, 0)
  }

  /** `s.trim()`: the middle part of `s` that starts at `TrimOffset(s)`,
      with only whitespace on either side of it and at neither end of it. */
  function Trim(s: string): (r: string)
    ensures TrimOffset(s) + |r| <= |s|
    ensures r == s[TrimOffset(s)..TrimOffset(s) + |r|]
    ensures forall k | 0 <= k < TrimOffset(s) :: IsWhitespace(s[k])
    ensures forall k | TrimOffset(s) + |r| <= k < |s| :: IsWhitespace(s[k])
    ensures r == [] || (!IsWhitespace(r[0]) && !IsWhitespace(r[|r| - 1]))
  {
    var n := TrimOffset(s);
    var m := SkipWhitespaceBack(s, n, |s|);
    s[n..m]
  }

  /** `s.indexOf(c)`: the first position of `c`, or -1 when `c` does not occur. */
  function IndexOf(s: string, c: char): (r: int)
    ensures -1 <= r < |s|
    ensures r == -1 ==> forall k | 0 <= k < |s| :: s[k] != c
    ensures r >= 0 ==> s[r] == c && forall k | 0 <= k < r :: s[k] != c
  {
    if s == [] then -1
    else if s[0] == c then 0
    else
      var k := IndexOf(s[1..], c);
      assert forall j | 1 <= j < |s| :: s[j] == s[1..][j - 1];
      if k == -1 then -1 else k + 1
  }

  /** `s.lastIndexOf(c)`: the last position of `c`, or -1 when `c` does not occur. */
  function LastIndexOf(s: string, c: char): (r: int)
    ensures -1 <= r < |s|
    ensures r == -1 ==> forall k | 0 <= k < |s| :: s[k] != c
    ensures r >= 0 ==> s[r] == c && forall k | r < k < |s| :: s[k] != c
  {
    if s == [] then -1
    else if s[|s| - 1] == c then |s| - 1
    else
      var k := LastIndexOf(s[..|s| - 1], c);
      assert forall j | 0 <= j < |s| - 1 :: s[j] == s[..|s| - 1][j];
      k
  }

  /** `s.replace(/\s+/g, "-")`: every maximal run of whitespace becomes one `-`. */
  function ReplaceWhitespaceRuns(s: string): string
  {
    ReplaceRunsFrom(s, false)
  }

  /** The left-to-right scan behind `ReplaceWhitespaceRuns`; `inRun` records
      that the character just before `s` was whitespace, so its run already
      produced its `-`. */
  function ReplaceRunsFrom(s: string, inRun: bool): string
  {
    if s == [] then []
    else if !IsWhitespace(s[0]) then [s[0]] + ReplaceRunsFrom(s[1..], false)
    else if inRun then ReplaceRunsFrom(s[1..], true)
    else "-" + ReplaceRunsFrom(s[1..], true)
  }

  /** Whether the scan is inside a whitespace run after reading `p`. */
  function EndsInRun(p: string, inRun: bool): bool
  {
    if p == [] then inRun else IsWhitespace(p[|p| - 1])
  }

  // ---------------------------------------------------------------------
  // Lemmas
  // ---------------------------------------------------------------------

  /** `includes` holds as soon as one occurrence is exhibited. */
  lemma ContainsAt(s: string, sub: string, i: nat)
    requires OccursAt(s, sub, i)
    ensures Contains(s, sub)
  {
  }

  /** Every text contains itself. */
  lemma ContainsSelf(s: string)
    ensures Contains(s, s)
  {
    assert s[0..|s|] == s;
    ContainsAt(s, s, 0);
  }

  /** Text put in front keeps an occurrence. */
  lemma {:induction false} ContainsAfter(a: string, s: string, sub: string)
    requires Contains(s, sub)
    ensures Contains(a + s, sub)
  {
    var i :| 0 <= i <= |s| - |sub| && OccursAt(s, sub, i);
    assert (a + s)[|a| + i..|a| + i + |sub|] == s[i..i + |sub|];
    ContainsAt(a + s, sub, |a| + i);
  }

  /** Text put after keeps an occurrence. */
  lemma {:induction false} ContainsBefore(s: string, b: string, sub: string)
    requires Contains(s, sub)
    ensures Contains(s + b, sub)
  {
    var i :| 0 <= i <= |s| - |sub| && OccursAt(s, sub, i);
    assert (s + b)[i..i + |sub|] == s[i..i + |sub|];
    ContainsAt(s + b, sub, i);
  }

  /** A character in neither part is not in their concatenation. */
  lemma NotInConcat(c: char, a: string, b: string)
    requires c !in a && c !in b
    ensures c !in a + b
  {
  }

  /** A string lacking one of the characters of `sub` cannot contain `sub`. */
  lemma {:induction false} MissingCharRulesOut(s: string, sub: string, k: nat)
    requires k < |sub| && sub[k] !in s
    ensures !Contains(s, sub)
  {
    forall i | 0 <= i <= |s| - |sub|
      ensures !OccursAt(s, sub, i)
    {
      assert s[i + k] in s;
      assert s[i..i + |sub|][k] == s[i + k];
    }
  }

  /** Trimming twice is trimming once. */
  lemma TrimIdempotent(s: string)
    ensures Trim(Trim(s)) == Trim(s)
  {
    var t := Trim(s);
    assert TrimOffset(t) == 0;
    assert SkipWhitespaceBack(t, 0, |t|) == |t|;
  }

  /** The scan emits no whitespace, never lengthens its input, and emits
      something for every non-empty input it starts outside a run. */
  lemma {:induction false} ReplaceRunsFromShape(s: string, inRun: bool)
    ensures NoWhitespace(ReplaceRunsFrom(s, inRun))
    ensures |ReplaceRunsFrom(s, inRun)| <= |s|
    ensures !inRun ==> (ReplaceRunsFrom(s, inRun) == [] <==> s == [])
  {
    if s != [] {
      ReplaceRunsFromShape(s[1..], IsWhitespace(s[0]));
    }
  }

  /** The replaced text has no whitespace left, is no longer than the
      original, and is empty only when the original is. */
  lemma ReplaceRunsShape(s: string)
    ensures NoWhitespace(ReplaceWhitespaceRuns(s))
    ensures |ReplaceWhitespaceRuns(s)| <= |s|
    ensures ReplaceWhitespaceRuns(s) == [] <==> s == []
  {
    ReplaceRunsFromShape(s, false);
  }

  /** The scan is a homomorphism: reading `p + x` is reading `p`, then
      reading `x` in the state `p` left it in. */
  lemma {:induction false} ReplaceRunsAppend(p: string, x: string, inRun: bool)
    ensures ReplaceRunsFrom(p + x, inRun) == ReplaceRunsFrom(p, inRun) + ReplaceRunsFrom(x, EndsInRun(p, inRun))
  {
    if p == [] {
      assert p + x == x;
    } else {
      assert (p + x)[0] == p[0];
      assert (p + x)[1..] == p[1..] + x;
      var next := IsWhitespace(p[0]);
      ReplaceRunsAppend(p[1..], x, next);
      assert EndsInRun(p[1..], next) == EndsInRun(p, inRun);
    }
  }

  /** Inside a run, further whitespace produces nothing. */
  lemma {:induction false} ReplaceRunsSkipsRun(w: string, q: string)
    requires AllWhitespace(w)
    requires q == [] || !IsWhitespace(q[0])
    ensures ReplaceRunsFrom(w + q, true) == ReplaceRunsFrom(q, false)
  {
    if w == [] {
      assert w + q == q;
    } else {
      assert (w + q)[1..] == w[1..] + q;
      ReplaceRunsSkipsRun(w[1..], q);
    }
  }

  /** A string without whitespace is left unchanged by the replacement. */
  lemma {:induction false} ReplaceRunsIdentity(s: string)
    requires NoWhitespace(s)
    ensures ReplaceWhitespaceRuns(s) == s
  {
    if s != [] {
      ReplaceRunsIdentity(s[1..]);
    }
  }

  /** A non-empty, all-whitespace string becomes a single `-`. */
  lemma ReplaceRunsAllWhitespace(s: string)
    requires s != [] && AllWhitespace(s)
    ensures ReplaceWhitespaceRuns(s) == "-"
  {
    ReplaceRunsSkipsRun(s[1..], []);
    assert s[1..] + [] == s[1..];
  }

  /** The replacement is compositional at run boundaries: a maximal
      whitespace run `w` between `p` and `q` turns into exactly one `-`,
      and the two sides are replaced independently. */
  lemma ReplaceRunsSplit(p: string, w: string, q: string)
    requires w != [] && AllWhitespace(w)
    requires p == [] || !IsWhitespace(p[|p| - 1])
    requires q == [] || !IsWhitespace(q[0])
    ensures ReplaceWhitespaceRuns(p + w + q) == ReplaceWhitespaceRuns(p) + "-" + ReplaceWhitespaceRuns(q)
  {
    assert p + w + q == p + (w + q);
    ReplaceRunsAppend(p, w + q, false);
    assert (w + q)[1..] == w[1..] + q;
    ReplaceRunsSkipsRun(w[1..], q);
  }
}
