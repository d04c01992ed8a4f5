/** Strings as the worker uses them: first occurrence, trimming, UTF-8 length and decimal numbers.
    A `string` is a sequence of Unicode scalar values. */
module Text {

  datatype Option<+T> = None | Some(value: T)

  /** The Unicode White_Space property, which is what `str::trim` removes. */
  predicate IsSpace(c: char) {
    var n := c as int;
    0x09 <= n <= 0x0D || n == 0x20 || n == 0x85 || n == 0xA0 || n == 0x1680 || 0x2000 <= n <= 0x200A
    || n == 0x2028 || n == 0x2029 || n == 0x202F || n == 0x205F || n == 0x3000
  }

  /** Its twenty-five characters: controls, blanks, Ogham, the widths of spaces, separators. */
  lemma SpacesAre(c: char)
    ensures IsSpace(c) <==> c in "\t\n\U{0B}\U{0C}\r \U{85}\U{A0}\U{1680}"
                              + "\U{2000}\U{2001}\U{2002}\U{2003}\U{2004}\U{2005}\U{2006}\U{2007}\U{2008}\U{2009}\U{200A}"
                              + "\U{2028}\U{2029}\U{202F}\U{205F}\U{3000}"
  {
  }

  predicate AllSpace(s: string) {
    forall i | 0 <= i < |s| :: IsSpace(s[i])
  }

  function TrimStart(s: string): (r: string)
    ensures |r| <= |s| && r == s[|s| - |r|..] && AllSpace(s[..|s| - |r|])
    ensures r != "" ==> !IsSpace(r[0])
  {
    if s != "" && IsSpace(s[0]) then
      var r := TrimStart(s[1..]);
      assert s[..|s| - |r|] == [s[0]] + s[1..][..|s| - 1 - |r|];
      r
    else s
  }

  function TrimEnd(s: string): (r: string)
    ensures |r| <= |s| && r == s[..|r|] && AllSpace(s[|r|..])
    ensures r != "" ==> !IsSpace(r[|r| - 1])
  {
    if s != "" && IsSpace(s[|s| - 1]) then
      var r := TrimEnd(s[..|s| - 1]);
      assert s[|r|..] == s[..|s| - 1][|r|..] + [s[|s| - 1]];
      r
    else s
  }

  function Trim(s: string): string {
    TrimEnd(TrimStart(s))
  }

  lemma TrimStartAt(s: string, k: nat)
    requires k < |s| && AllSpace(s[..k]) && !IsSpace(s[k])
    ensures TrimStart(s) == s[k..]
  {
    if k > 0 {
      assert IsSpace(s[..k][0]);
      assert s[1..][..k - 1] == s[..k][1..];
      TrimStartAt(s[1..], k - 1);
    }
  }

  lemma TrimEndAt(s: string, k: nat)
    requires 0 < k <= |s| && AllSpace(s[k..]) && !IsSpace(s[k - 1])
    ensures TrimEnd(s) == s[..k]
  {
    if k < |s| {
      var n, t := |s| - 1, s[..|s| - 1];
      assert s[n] == s[k..][n - k];
      assert t[k..] == s[k..][..n - k];
      assert t[k - 1] == s[k - 1];
      TrimEndAt(t, k);
      assert t[..k] == s[..k];
    }
  }

  /** Trimming removes padding around a text that starts and ends with something visible. */
  lemma TrimPadded(lead: string, core: string, trail: string)
    requires AllSpace(lead) && AllSpace(trail)
    requires core != "" && !IsSpace(core[0]) && !IsSpace(core[|core| - 1])
    ensures Trim(lead + core + trail) == core
  {
    var s := lead + core + trail;
    assert s[..|lead|] == lead && s[|lead|] == core[0];
    TrimStartAt(s, |lead|);
    var t := s[|lead|..];
    assert t == core + trail;
    assert t[|core|..] == trail;
    TrimEndAt(t, |core|);
    assert t[..|core|] == core;
  }

  ghost predicate OccursAt(s: string, pat: string, i: int) {
    0 <= i && i + |pat| <= |s| && s[i..i + |pat|] == pat
  }

  ghost predicate Contains(s: string, pat: string) {
    exists i :: OccursAt(s, pat, i)
  }

  /** `str::find`: the position of the first occurrence. */
  function Find(s: string, pat: string): (r: Option<nat>)
    ensures r.Some? ==> OccursAt(s, pat, r.value) && forall j | 0 <= j < r.value :: !OccursAt(s, pat, j)
    ensures r.None? <==> !Contains(s, pat)
  {
    FindFrom(s, pat, 0)
  }

  function FindFrom(s: string, pat: string, i: nat): (r: Option<nat>)
    requires i <= |s| + 1
    requires forall j | 0 <= j < i :: !OccursAt(s, pat, j)
    ensures r.Some? ==> OccursAt(s, pat, r.value) && forall j | 0 <= j < r.value :: !OccursAt(s, pat, j)
    ensures r.None? <==> !Contains(s, pat)
    decreases |s| + 1 - i
  {
    if i + |pat| > |s| then None
    else if s[i..i + |pat|] == pat then
      assert OccursAt(s, pat, i);
      Some(i)
    else FindFrom(s, pat, i + 1)
  }

  /** A tag's first character never recurs inside it, so a tag cannot overlap itself. */
  predicate IsTag(pat: string) {
    pat != "" && forall k | 0 < k < |pat| :: pat[k] != pat[0]
  }

  lemma OccursBeforeTag(gap: string, pat: string, rest: string, j: nat)
    requires IsTag(pat) && j < |gap|
    ensures OccursAt(gap + pat + rest, pat, j) ==> OccursAt(gap, pat, j)
  {
    var s := gap + pat + rest;
    if j + |pat| <= |gap| {
      assert gap[j..j + |pat|] == s[j..j + |pat|];
    } else {
      assert s[j..j + |pat|][|gap| - j] == s[|gap|] == pat[0];
    }
  }

  /** Searching for a tag after a text free of it finds it exactly at the end of that text: the
      first occurrence cannot straddle the boundary. */
  lemma FindTag(gap: string, pat: string, rest: string)
    requires IsTag(pat) && !Contains(gap, pat)
    ensures Find(gap + pat + rest, pat) == Some(|gap|)
  {
    var s := gap + pat + rest;
    assert s[|gap|..|gap| + |pat|] == pat;
    assert OccursAt(s, pat, |gap|);
    forall j | 0 <= j < |gap|
      ensures !OccursAt(s, pat, j)
    {
      OccursBeforeTag(gap, pat, rest, j);
    }
  }

  /** The text before the first occurrence is free of the pattern. */
  lemma FreeBeforeFind(s: string, pat: string)
    requires pat != "" && Find(s, pat).Some?
    ensures !Contains(s[..Find(s, pat).value], pat)
  {
    var i := Find(s, pat).value;
    forall j
      ensures !OccursAt(s[..i], pat, j)
    {
      if OccursAt(s[..i], pat, j) {
        assert s[j..j + |pat|] == s[..i][j..j + |pat|];
        assert OccursAt(s, pat, j);
      }
    }
  }

  lemma ContainsChar(s: string, c: char)
    ensures Contains(s, [c]) <==> c in s
  {
    if c in s {
      var i :| 0 <= i < |s| && s[i] == c;
      assert s[i..i + 1] == [c];
      assert OccursAt(s, [c], i);
    }
    if Contains(s, [c]) {
      var i :| OccursAt(s, [c], i);
      assert s[i..i + 1][0] == c;
    }
  }

  function Each<A, B>(f: A -> B, xs: seq<A>): seq<B> {
    if xs == [] then [] else [f(xs[0])] + Each(f, xs[1..])
  }

  lemma {:induction false} EachAppend<A, B>(f: A -> B, a: seq<A>, b: seq<A>)
    ensures Each(f, a + b) == Each(f, a) + Each(f, b)
  {
    if a == [] {
      assert a + b == b;
    } else {
      assert (a + b)[1..] == a[1..] + b;
      EachAppend(f, a[1..], b);
    }
  }

  lemma {:induction false} EachAt<A, B>(f: A -> B, xs: seq<A>, i: nat)
    requires i < |xs|
    ensures |Each(f, xs)| == |xs| && Each(f, xs)[i] == f(xs[i])
  {
    EachLength(f, xs);
    if i > 0 {
      EachAt(f, xs[1..], i - 1);
    }
  }

  lemma EachLast<A, B>(f: A -> B, xs: seq<A>)
    requires xs != []
    ensures var n := |xs| - 1;
      |Each(f, xs)| == |xs| && Each(f, xs)[..n] == Each(f, xs[..n]) && Each(f, xs)[n] == f(xs[n])
  {
    var before, last := xs[..|xs| - 1], xs[|xs| - 1..];
    assert before + last == xs && last[1..] == [];
    EachAppend(f, before, last);
    EachLength(f, before);
    assert Each(f, last) == [f(last[0])] + Each(f, last[1..]);
  }

  lemma {:induction false} EachLength<A, B>(f: A -> B, xs: seq<A>)
    ensures |Each(f, xs)| == |xs|
  {
    if xs != [] {
      EachLength(f, xs[1..]);
    }
  }

  lemma {:induction false} EachMember<A, B>(f: A -> B, xs: seq<A>)
    ensures forall y | y in Each(f, xs) :: exists x | x in xs :: y == f(x)
  {
    if xs != [] {
      EachMember(f, xs[1..]);
      assert xs == [xs[0]] + xs[1..];
    }
  }

  /** `retain` and `filter`: the elements kept, in order. */
  function Retain<T>(xs: seq<T>, keep: T -> bool): seq<T> {
    if xs == [] then []
    else
      var before, last := Retain(xs[..|xs| - 1], keep), xs[|xs| - 1];
      if keep(last) then before + [last] else before
  }

  function SaturatingSub(a: nat, b: nat): nat {
    if a >= b then a - b else 0
  }

  /** A state after a list of inputs, taken in order. */
  function Fold<S, E>(step: (S, E) -> S, s: S, es: seq<E>): S {
    if es == [] then s else step(Fold(step, s, es[..|es| - 1]), es[|es| - 1])
  }

  lemma {:induction false} FoldAppend<S, E>(step: (S, E) -> S, s: S, a: seq<E>, b: seq<E>)
    ensures Fold(step, s, a + b) == Fold(step, Fold(step, s, a), b)
  {
    if b == [] {
      assert a + b == a;
    } else {
      var n := |b| - 1;
      assert (a + b)[..|a| + n] == a + b[..n];
      FoldAppend(step, s, a, b[..n]);
    }
  }

  lemma FoldSnoc<S, E>(step: (S, E) -> S, s: S, es: seq<E>, e: E)
    ensures Fold(step, s, es + [e]) == step(Fold(step, s, es), e)
  {
    assert (es + [e])[..|es|] == es;
  }

  lemma FoldNone<S, E>(step: (S, E) -> S, s: S, es: seq<E>)
    ensures Fold(step, s, es[..0]) == s
  {
  }

  lemma FoldOne<S, E>(step: (S, E) -> S, s: S, es: seq<E>)
    requires |es| == 1
    ensures Fold(step, s, es) == step(s, es[0])
  {
    assert es[..0] == [];
  }

  lemma FoldTake<S, E>(step: (S, E) -> S, s: S, es: seq<E>, k: nat)
    requires k < |es|
    ensures Fold(step, s, es[..k + 1]) == step(Fold(step, s, es[..k]), es[k])
  {
    assert es[..k + 1] == es[..k] + [es[k]];
    FoldSnoc(step, s, es[..k], es[k]);
  }

  lemma FoldCons<S, E>(step: (S, E) -> S, s: S, e: E, es: seq<E>)
    ensures Fold(step, s, [e] + es) == Fold(step, step(s, e), es)
  {
    FoldAppend(step, s, [e], es);
    assert [e][..0] == [];
    assert Fold(step, s, [e]) == step(Fold(step, s, []), e);
  }

  /** `a + b`, written so that the empty text is plainly a unit. */
  function Add(a: string, b: string): string {
    if a == "" then b else if b == "" then a else a + b
  }

  lemma AddIs(a: string, b: string)
    ensures Add(a, b) == a + b
  {
  }

  lemma AddTwice(a: string, b: string, c: string)
    ensures Add(a, Add(b, c)) == Add(Add(a, b), c)
  {
    if a != "" && b != "" && c != "" {
      assert |a + b| > 0 && |b + c| > 0;
      assert a + (b + c) == (a + b) + c;
    }
  }

  function Concat(parts: seq<string>): string {
    if parts == [] then "" else parts[0] + Concat(parts[1..])
  }

  lemma {:induction false} ConcatAppend(a: seq<string>, b: seq<string>)
    ensures Concat(a + b) == Concat(a) + Concat(b)
  {
    if a == [] {
      assert a + b == b;
    } else {
      assert (a + b)[1..] == a[1..] + b;
      ConcatAppend(a[1..], b);
    }
  }

  lemma ConcatSnoc(a: seq<string>, x: string)
    ensures Concat(a + [x]) == Concat(a) + x
  {
    ConcatAppend(a, [x]);
    assert Concat([x]) == x + Concat([]);
  }

  /** Length in bytes of one scalar value in UTF-8 (section 3 of RFC 3629). */
  function CharBytes(c: char): nat {
    var n := c as int;
    if n < 0x80 then 1 else if n < 0x800 then 2 else if n < 0x1_0000 then 3 else 4
  }

  /** The bytes themselves. */
  function Utf8(c: char): seq<int> {
    var n := c as int;
    if n < 0x80 then [n]
    else if n < 0x800 then [0xC0 + n / 64, 0x80 + n % 64]
    else if n < 0x1_0000 then [0xE0 + n / 4096, 0x80 + n / 64 % 64, 0x80 + n % 64]
    else [0xF0 + n / 262_144, 0x80 + n / 4096 % 64, 0x80 + n / 64 % 64, 0x80 + n % 64]
  }

  /** The length counted is that of the encoding: its first byte tells the length, every other byte
      carries six bits, and together they give the scalar value back. */
  lemma CharBytesIs(c: char)
    ensures var u, n := Utf8(c), c as int;
      && |u| == CharBytes(c) && (forall i | 0 < i < |u| :: 0x80 <= u[i] < 0xC0)
      && (if u[0] < 0x80 then |u| == 1 && n == u[0]
          else if u[0] < 0xE0 then |u| == 2 && n == 64 * (u[0] - 0xC0) + (u[1] - 0x80)
          else if u[0] < 0xF0 then |u| == 3 && n == 64 * (64 * (u[0] - 0xE0) + (u[1] - 0x80)) + (u[2] - 0x80)
          else |u| == 4 && n == 64 * (64 * (64 * (u[0] - 0xF0) + (u[1] - 0x80)) + (u[2] - 0x80)) + (u[3] - 0x80))
  {
    SixBits(c as int);
  }

  lemma SixBits(n: int)
    requires 0 <= n < 0x20_0000
    ensures n == 64 * (n / 64) + n % 64 && n / 64 == 64 * (n / 4096) + n / 64 % 64
    ensures n / 4096 == 64 * (n / 262_144) + n / 4096 % 64 && 0 <= n / 262_144 < 8
  {
  }

  /** `str::len`, which counts bytes. */
  function ByteLen(s: string): nat {
    if s == "" then 0 else CharBytes(s[0]) + ByteLen(s[1..])
  }

  lemma {:induction false} ByteLenAppend(a: string, b: string)
    ensures ByteLen(a + b) == ByteLen(a) + ByteLen(b)
  {
    if a == "" {
      assert a + b == b;
    } else {
      assert (a + b)[1..] == a[1..] + b;
      ByteLenAppend(a[1..], b);
    }
  }

  const DIGITS: string := "0123456789"

  /** Decimal rendering of a natural number, as `format!("{n}")`. */
  function Decimal(n: nat): (s: string)
    ensures s != ""
  {
    if n < 10 then [DIGITS[n]] else Decimal(n / 10) + [DIGITS[n % 10]]
  }

  lemma {:induction false} DecimalInjective(m: nat, n: nat)
    requires Decimal(m) == Decimal(n)
    ensures m == n
  {
    var a, b := Decimal(m), Decimal(n);
    assert forall i, j | 0 <= i < 10 && 0 <= j < 10 && DIGITS[i] == DIGITS[j] :: i == j;
    assert a[|a| - 1] == DIGITS[m % 10] && b[|b| - 1] == DIGITS[n % 10];
    if m >= 10 && n >= 10 {
      assert a[..|a| - 1] == Decimal(m / 10) && b[..|b| - 1] == Decimal(n / 10);
      DecimalInjective(m / 10, n / 10);
    }
  }
}
