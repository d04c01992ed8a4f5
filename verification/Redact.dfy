/** Scrubbing of token-shaped text before it is logged (`redact`, vault.rs). */
module Redact {
  import opened Text

  const PREFIXES: seq<string> := ["sk-ant-", "sk-", "AIza", "gsk_", "or-", "r8_", "hf_", "ya29."]
  const MARK := "...REDACTED"

  predicate IsToken(c: char) {
    '0' <= c <= '9' || 'A' <= c <= 'Z' || 'a' <= c <= 'z' || c == '_' || c == '-'
  }

  predicate StartsWith(s: string, p: string) {
    |p| <= |s| && forall i | 0 <= i < |p| :: s[i] == p[i]
  }

  /** The first prefix in the list that the text starts with. */
  function FirstMatch(ps: seq<string>, s: string): (r: Option<string>)
    ensures r.None? <==> forall q | q in ps :: !StartsWith(s, q)
    ensures r.Some? ==> r.value in ps && StartsWith(s, r.value)
  {
    if ps == [] then None
    else if StartsWith(s, ps[0]) then Some(ps[0])
    else FirstMatch(ps[1..], s)
  }

  /** The length of the leading run of token characters. */
  function TokenRun(s: string): (n: nat)
    ensures n <= |s| && (n < |s| ==> !IsToken(s[n])) && forall i | 0 <= i < n :: IsToken(s[i])
  {
    if s != "" && IsToken(s[0]) then 1 + TokenRun(s[1..]) else 0
  }

  function SkipRun(s: string): string {
    s[TokenRun(s)..]
  }

  /** The first matching prefix is followed by a token character. */
  predicate Hit(ps: seq<string>, s: string) {
    var m := FirstMatch(ps, s);
    m.Some? && |m.value| < |s| && IsToken(s[|m.value|])
  }

  /** A prefix and the token after it become the prefix and a mark; anything else is copied. */
  function Scrub(ps: seq<string>, mark: string, s: string): string
    decreases |s|
  {
    if s == "" then ""
    else if Hit(ps, s) then
      var p := FirstMatch(ps, s).value;
      assert IsToken(s[|p|..][0]);
      p + mark + Scrub(ps, mark, SkipRun(s[|p|..]))
    else [s[0]] + Scrub(ps, mark, s[1..])
  }

  function Redacted(s: string): string {
    Scrub(PREFIXES, MARK, s)
  }

  method RedactText(s: string) returns (out: string)
    ensures out == Redacted(s)
  {
    out := Scan(PREFIXES, MARK, s);
  }

  /** The scanner: an index moves over the text, and the output grows. */
  method Scan(ps: seq<string>, mark: string, s: string) returns (out: string)
    ensures out == Scrub(ps, mark, s)
  {
    out := "";
    var i := 0;
    while i < |s|
      invariant i <= |s| && Scrub(ps, mark, s) == out + Scrub(ps, mark, s[i..])
    {
      var rest := s[i..];
      ghost var before := out;
      var m := FirstMatch(ps, rest);
      if m.Some? {
        var p := m.value;
        var run := TokenRun(rest[|p|..]);
        if run > 0 {
          out := out + p;
          out := out + mark;
          i := i + |p| + run;
          ScrubHit(ps, mark, rest, p);
          assert SkipRun(rest[|p|..]) == s[i..];
          Regroup(before, p, mark, Scrub(ps, mark, s[i..]));
          continue;
        }
      }
      out := out + [rest[0]];
      i := i + 1;
      ScrubCopy(ps, mark, rest, s[i..]);
      Regroup(before, [rest[0]], "", Scrub(ps, mark, s[i..]));
      assert before + [rest[0]] + "" == out;
    }
    assert s[i..] == "";
  }

  lemma Regroup(a: string, b: string, c: string, d: string)
    ensures a + (b + c + d) == a + b + c + d
  {
  }

  lemma HitIff(ps: seq<string>, s: string)
    requires FirstMatch(ps, s).Some?
    ensures Hit(ps, s) <==> TokenRun(s[|FirstMatch(ps, s).value|..]) > 0
  {
    var after := s[|FirstMatch(ps, s).value|..];
    assert after != "" ==> after[0] == s[|FirstMatch(ps, s).value|];
  }

  lemma ScrubHit(ps: seq<string>, mark: string, s: string, p: string)
    requires FirstMatch(ps, s) == Some(p) && TokenRun(s[|p|..]) > 0
    ensures Scrub(ps, mark, s) == p + mark + Scrub(ps, mark, SkipRun(s[|p|..]))
  {
    HitIff(ps, s);
  }

  lemma ScrubCopy(ps: seq<string>, mark: string, s: string, rest: string)
    requires s != "" && rest == s[1..]
    requires FirstMatch(ps, s).Some? ==> TokenRun(s[|FirstMatch(ps, s).value|..]) == 0
    ensures Scrub(ps, mark, s) == [s[0]] + "" + Scrub(ps, mark, rest)
  {
    if FirstMatch(ps, s).Some? {
      HitIff(ps, s);
    }
    assert [s[0]] + "" == [s[0]];
  }

  // ---- what the list of prefixes has to satisfy ----------------------------------------

  /** As far as `w` tells, `q` may begin at its position `k`. */
  predicate MayBegin(q: string, w: string, k: nat) {
    forall j | k <= j < |w| && j - k < |q| :: w[j] == q[j - k]
  }

  /** `q` is `p`, then the first character of the mark, then perhaps more. */
  predicate Completes(q: string, p: string, mark: string) {
    |p| < |q| && StartsWith(q, p) && mark != "" && q[|p|] == mark[0]
  }

  predicate NoneInside(ps: seq<string>, w: string, from: nat) {
    forall q, k | q in ps && from <= k < |w| :: !MayBegin(q, w, k)
  }

  /** No prefix begins inside another or inside the mark, and the mark is no token and cannot
      complete a prefix to a longer one. */
  predicate Distinctive(ps: seq<string>, mark: string) {
    && (forall p | p in ps :: NoneInside(ps, p, 1))
    && NoneInside(ps, mark, 0)
    && mark != "" && !IsToken(mark[0])
    && (forall p, q | p in ps && q in ps :: !Completes(q, p, mark))
  }

  lemma NoneBeginsIn(q: string, w: string, k: nat, rest: string)
    requires k < |w| && !MayBegin(q, w, k)
    ensures !StartsWith(w[k..] + rest, q)
  {
    var s := w[k..] + rest;
    assert forall j | k <= j < |w| :: s[j - k] == w[j];
  }

  // ---- the output is clean -------------------------------------------------------------

  /** At no position does the first matching prefix have a token character after it. */
  predicate Clean(ps: seq<string>, s: string) {
    s == "" || (!Hit(ps, s) && Clean(ps, s[1..]))
  }

  lemma {:induction false} CleanEverywhere(ps: seq<string>, s: string, i: nat)
    requires Clean(ps, s) && i < |s|
    ensures !Hit(ps, s[i..])
  {
    if i > 0 {
      CleanEverywhere(ps, s[1..], i - 1);
      assert s[1..][i - 1..] == s[i..];
    } else {
      assert s[0..] == s;
    }
  }

  lemma {:induction false} SameMatches(ps: seq<string>, s: string, t: string)
    requires forall q | q in ps :: StartsWith(s, q) <==> StartsWith(t, q)
    ensures FirstMatch(ps, s) == FirstMatch(ps, t)
  {
    if ps != [] {
      assert ps[0] in ps;
      SameMatches(ps[1..], s, t);
    }
  }

  function FirstHit(ps: seq<string>, s: string): Option<nat> {
    if s == "" then None
    else if Hit(ps, s) then Some(0)
    else match FirstHit(ps, s[1..]) case Some(k) => Some(k + 1) case None => None
  }

  predicate AgreeTo(s: string, t: string, n: nat) {
    n < |s| && n < |t| && forall i | 0 <= i < n :: s[i] == t[i]
  }

  /** A text without hits is copied. */
  lemma {:induction false} CopiedWithoutHit(ps: seq<string>, mark: string, s: string)
    requires FirstHit(ps, s).None?
    ensures Scrub(ps, mark, s) == s
  {
    if s != "" {
      CopiedWithoutHit(ps, mark, s[1..]);
    }
  }

  /** Up to the end of the prefix of its first hit a text is copied, and then the mark follows. */
  lemma {:induction false} CopiedUpToHit(ps: seq<string>, mark: string, s: string, k: nat)
    requires mark != "" && FirstHit(ps, s) == Some(k)
    ensures k < |s| && Hit(ps, s[k..])
    ensures AgreeTo(s, Scrub(ps, mark, s), k + |FirstMatch(ps, s[k..]).value|)
  {
    assert s[0..] == s;
    if k > 0 {
      CopiedUpToHit(ps, mark, s[1..], k - 1);
      assert s[1..][k - 1..] == s[k..];
    }
  }

  lemma Crosses(s: string, p: string, q: string, k: nat)
    requires 0 < k < |q| && !MayBegin(p, q, k)
    requires k <= |s| && StartsWith(s[k..], p)
    ensures !StartsWith(s, q)
  {
    assert forall j | k <= j < |s| :: s[k..][j - k] == s[j];
  }

  /** Two texts that agree as far as the end of a prefix at a later position match the same prefixes,
      and none of them reaches that position. */
  lemma AgreeOnMatches(ps: seq<string>, s: string, t: string, k: nat, p: string)
    requires p in ps && forall q | q in ps :: NoneInside(ps, q, 1)
    requires k > 0 && AgreeTo(s, t, k + |p|) && StartsWith(s[k..], p)
    ensures FirstMatch(ps, s) == FirstMatch(ps, t)
    ensures FirstMatch(ps, s).Some? ==> |FirstMatch(ps, s).value| <= k
  {
    assert forall i | 0 <= i < |p| :: t[k..][i] == t[k + i] == s[k + i] == s[k..][i];
    forall q | q in ps
      ensures |q| > k ==> !StartsWith(s, q) && !StartsWith(t, q)
      ensures StartsWith(s, q) <==> StartsWith(t, q)
    {
      if |q| > k {
        Crosses(s, p, q, k);
        Crosses(t, p, q, k);
      }
    }
    SameMatches(ps, s, t);
  }

  /** A text that agrees past a match with one that is no hit is no hit. */
  lemma SameNoHit(ps: seq<string>, s: string, t: string, n: nat)
    requires !Hit(ps, s) && AgreeTo(s, t, n) && FirstMatch(ps, s) == FirstMatch(ps, t)
    requires FirstMatch(ps, s).Some? ==> |FirstMatch(ps, s).value| < n
    ensures !Hit(ps, t)
  {
  }

  /** Copying a character over a scrubbed rest makes no new hit. */
  lemma CopyMakesNoHit(ps: seq<string>, mark: string, s: string)
    requires mark != "" && s != "" && !Hit(ps, s)
    requires forall q | q in ps :: q != "" && NoneInside(ps, q, 1)
    ensures !Hit(ps, Scrub(ps, mark, s))
  {
    if FirstHit(ps, s).None? {
      CopiedWithoutHit(ps, mark, s);
    } else {
      var k := FirstHit(ps, s).value;
      CopiedUpToHit(ps, mark, s, k);
      assert s[0..] == s;
      var p, t := FirstMatch(ps, s[k..]).value, Scrub(ps, mark, s);
      assert p in ps && p != "";
      AgreeOnMatches(ps, s, t, k, p);
      SameNoHit(ps, s, t, k + |p|);
    }
  }

  lemma {:induction false} NoMatchNoHit(ps: seq<string>, x: string, rest: string, k: nat)
    requires k <= |x| && Clean(ps, rest) && NoneInside(ps, x, k)
    ensures Clean(ps, x[k..] + rest)
    decreases |x| - k
  {
    if k == |x| {
      assert x[k..] + rest == rest;
    } else {
      NoMatchNoHit(ps, x, rest, k + 1);
      assert (x[k..] + rest)[1..] == x[k + 1..] + rest;
      forall q | q in ps
        ensures !StartsWith(x[k..] + rest, q)
      {
        NoneBeginsIn(q, x, k, rest);
      }
    }
  }

  /** Cut to its first match, a text still has that first match, whatever the mark is after it. */
  lemma {:induction false} MatchSurvives(ps: seq<string>, p: string, s: string, t: string)
    requires FirstMatch(ps, s) == Some(p) && StartsWith(t, p)
    requires forall q | q in ps && StartsWith(t, q) :: |q| <= |p|
    ensures FirstMatch(ps, t) == Some(p)
  {
    assert ps[0] in ps;
    if !StartsWith(s, ps[0]) {
      assert StartsWith(t, ps[0]) && |ps[0]| <= |p| ==> StartsWith(s, ps[0]);
      MatchSurvives(ps[1..], p, s, t);
    } else {
      assert ps[0] == p;
    }
  }

  /** A prefix followed by the mark is no hit. */
  lemma MarkedIsNoHit(ps: seq<string>, mark: string, p: string, s: string, t: string)
    requires mark != "" && !IsToken(mark[0]) && forall q | q in ps :: !Completes(q, p, mark)
    requires FirstMatch(ps, s) == Some(p) && StartsWith(t, p) && |t| > |p| && t[|p|] == mark[0]
    ensures !Hit(ps, t)
  {
    forall q | q in ps && StartsWith(t, q)
      ensures |q| <= |p|
    {
      assert |q| > |p| ==> Completes(q, p, mark);
    }
    MatchSurvives(ps, p, s, t);
  }

  /** Neither is anything inside them. */
  lemma MarkedIsClean(ps: seq<string>, mark: string, p: string, s: string, rest: string)
    requires p != "" && FirstMatch(ps, s) == Some(p) && NoneInside(ps, p, 1) && Clean(ps, mark + rest)
    requires mark != "" && !IsToken(mark[0]) && forall q | q in ps :: !Completes(q, p, mark)
    ensures Clean(ps, p + mark + rest)
  {
    var t, tail := p + mark + rest, p[1..] + (mark + rest);
    assert t[1..] == tail;
    assert Clean(ps, tail) by { NoMatchNoHit(ps, p, mark + rest, 1); }
    assert !Hit(ps, t) by {
      assert t[|p|] == mark[0] && StartsWith(t, p);
      MarkedIsNoHit(ps, mark, p, s, t);
    }
    CleanStep(ps, t, tail);
  }

  lemma CleanStep(ps: seq<string>, t: string, tail: string)
    requires t != "" && t[1..] == tail && !Hit(ps, t) && Clean(ps, tail)
    ensures Clean(ps, t)
  {
  }

  lemma NonEmptyPrefix(ps: seq<string>, mark: string, p: string)
    requires Distinctive(ps, mark) && p in ps
    ensures p != ""
  {
    assert !MayBegin(p, mark, 0);
  }

  lemma MarkIsClean(ps: seq<string>, mark: string, rest: string)
    requires Distinctive(ps, mark) && Clean(ps, rest)
    ensures Clean(ps, mark + rest)
  {
    NoMatchNoHit(ps, mark, rest, 0);
    assert mark[0..] + rest == mark + rest;
  }

  lemma {:induction false} ScrubIsClean(ps: seq<string>, mark: string, s: string)
    requires Distinctive(ps, mark)
    ensures Clean(ps, Scrub(ps, mark, s))
    decreases |s|
  {
    if s == "" {
    } else if Hit(ps, s) {
      var p := FirstMatch(ps, s).value;
      var rest := SkipRun(s[|p|..]);
      ScrubIsClean(ps, mark, rest);
      MarkIsClean(ps, mark, Scrub(ps, mark, rest));
      NonEmptyPrefix(ps, mark, p);
      MarkedIsClean(ps, mark, p, s, Scrub(ps, mark, rest));
    } else {
      ScrubIsClean(ps, mark, s[1..]);
      forall q | q in ps
        ensures q != ""
      {
        NonEmptyPrefix(ps, mark, q);
      }
      CopyMakesNoHit(ps, mark, s);
      assert Scrub(ps, mark, s)[1..] == Scrub(ps, mark, s[1..]);
    }
  }

  lemma {:induction false} CleanIsFixed(ps: seq<string>, mark: string, s: string)
    requires Clean(ps, s)
    ensures Scrub(ps, mark, s) == s
  {
    if s != "" {
      CleanIsFixed(ps, mark, s[1..]);
    }
  }

  // ---- the list in the program ---------------------------------------------------------

  /** The first two characters of a prefix. */
  predicate Opens(c: char, d: char) {
    (c == 's' && d == 'k') || (c == 'A' && d == 'I') || (c == 'g' && d == 's') || (c == 'o' && d == 'r')
    || (c == 'r' && d == '8') || (c == 'h' && d == 'f') || (c == 'y' && d == 'a')
  }

  /** No prefix begins here: the last character is not the first of one, and no two are the first two
      of one, unless a third sets them apart from `sk-`. */
  predicate InertAt(w: string, k: nat)
    requires k < |w|
  {
    if k + 1 == |w| then w[k] !in "sAgorhy"
    else !Opens(w[k], w[k + 1]) || (w[k] == 's' && k + 2 < |w| && w[k + 2] != '-')
  }

  /** What tells the prefixes apart: only `ya29.` has a full stop, and no other begins with `y`. */
  predicate Telling(p: string) {
    && |p| >= 3 && Opens(p[0], p[1]) && (p[0] == 's' ==> p[2] == '-') && (forall k | 1 <= k < |p| :: InertAt(p, k))
    && (forall k | 0 <= k < |p| && p[k] == '.' :: p[0] == 'y' && k == 4) && (p[0] == 'y' ==> |p| == 5)
  }

  lemma InertHere(q: string, w: string, k: nat)
    requires Telling(q) && k < |w| && InertAt(w, k)
    ensures !MayBegin(q, w, k)
  {
    var firsts := "sAgorhy";
    assert firsts[0] == 's' && firsts[1] == 'A' && firsts[2] == 'g' && firsts[3] == 'o';
    assert firsts[4] == 'r' && firsts[5] == 'h' && firsts[6] == 'y';
    assert q[0] in firsts;
  }

  lemma TellingIsDistinctive(ps: seq<string>, mark: string)
    requires forall p | p in ps :: Telling(p)
    requires mark != "" && mark[0] == '.' && forall k | 0 <= k < |mark| :: InertAt(mark, k)
    ensures Distinctive(ps, mark)
  {
    forall w, q, k: nat | q in ps && k < |w| && InertAt(w, k)
      ensures !MayBegin(q, w, k)
    {
      assert Telling(q);
      InertHere(q, w, k);
    }
    forall p, q | p in ps && q in ps
      ensures !Completes(q, p, mark)
    {
      assert Telling(p) && Telling(q);
    }
  }

  lemma PrefixesAreTelling(p: string, k: nat)
    requires p in PREFIXES && 1 <= k < |p|
    ensures |p| >= 3 && Opens(p[0], p[1]) && (p[0] == 's' ==> p[2] == '-') && InertAt(p, k)
    ensures (p[k] == '.' ==> p[0] == 'y' && k == 4) && p[0] != '.' && (p[0] == 'y' ==> |p| == 5)
  {
    if k == 1 {} else if k == 2 {} else if k == 3 {} else if k == 4 {} else if k == 5 {}
  }

  lemma MarkIsInert(k: nat)
    requires k < |MARK|
    ensures InertAt(MARK, k)
  {
    if k == 0 {} else if k == 1 {} else if k == 2 {} else if k == 3 {} else if k == 4 {} else if k == 5 {}
    else if k == 6 {} else if k == 7 {} else if k == 8 {} else if k == 9 {}
  }

  lemma PrefixesAreDistinctive()
    ensures Distinctive(PREFIXES, MARK)
  {
    forall p | p in PREFIXES
      ensures Telling(p)
    {
      assert |p| >= 3;
      forall k: nat | 1 <= k < |p|
        ensures Opens(p[0], p[1]) && (p[0] == 's' ==> p[2] == '-') && InertAt(p, k)
        ensures (p[k] == '.' ==> p[0] == 'y' && k == 4) && p[0] != '.' && (p[0] == 'y' ==> |p| == 5)
      {
        PrefixesAreTelling(p, k);
      }
    }
    forall k: nat | k < |MARK|
      ensures InertAt(MARK, k)
    {
      MarkIsInert(k);
    }
    TellingIsDistinctive(PREFIXES, MARK);
  }

  /** Redacting is idempotent, and at no position of its output does the first matching prefix have a
      token character after it. */
  lemma RedactedIsClean(s: string, i: nat)
    ensures Redacted(Redacted(s)) == Redacted(s)
    ensures i < |Redacted(s)| ==> !Hit(PREFIXES, Redacted(s)[i..])
  {
    PrefixesAreDistinctive();
    ScrubIsClean(PREFIXES, MARK, s);
    CleanIsFixed(PREFIXES, MARK, Redacted(s));
    if i < |Redacted(s)| {
      CleanEverywhere(PREFIXES, Redacted(s), i);
    }
  }

  /** A text is left as it is exactly when it is clean. */
  lemma UnchangedIff(s: string)
    ensures Redacted(s) == s <==> Clean(PREFIXES, s)
  {
    PrefixesAreDistinctive();
    ScrubIsClean(PREFIXES, MARK, s);
    if Clean(PREFIXES, s) {
      CleanIsFixed(PREFIXES, MARK, s);
    }
  }

  // ---- first is longest ----------------------------------------------------------------

  /** No prefix in the list extends an earlier one. */
  predicate LongestFirst(ps: seq<string>) {
    forall i, j | 0 <= i < j < |ps| && |ps[i]| < |ps[j]| :: !StartsWith(ps[j], ps[i])
  }

  lemma {:induction false} FirstIsLongestIn(ps: seq<string>, s: string, q: string)
    requires LongestFirst(ps) && q in ps && StartsWith(s, q)
    ensures FirstMatch(ps, s).Some? && |q| <= |FirstMatch(ps, s).value|
  {
    var j :| 0 <= j < |ps| && ps[j] == q;
    if StartsWith(s, ps[0]) {
      assert j > 0 && |ps[0]| < |ps[j]| ==> StartsWith(ps[j], ps[0]);
    } else {
      assert ps[1..][j - 1] == q;
      FirstIsLongestIn(ps[1..], s, q);
    }
  }

  lemma ListIsLongestFirst(i: nat, j: nat)
    requires i < j < |PREFIXES| && |PREFIXES[i]| < |PREFIXES[j]|
    ensures !StartsWith(PREFIXES[j], PREFIXES[i])
  {
    if i > 0 {
      assert PREFIXES[j][0] != PREFIXES[i][0];
    }
  }

  /** The first prefix in the list that matches is the longest that matches. */
  lemma FirstIsLongest(s: string, q: string)
    requires q in PREFIXES && StartsWith(s, q)
    ensures FirstMatch(PREFIXES, s).Some? && |q| <= |FirstMatch(PREFIXES, s).value|
  {
    forall i: nat, j: nat | i < j < |PREFIXES| && |PREFIXES[i]| < |PREFIXES[j]|
      ensures !StartsWith(PREFIXES[j], PREFIXES[i])
    {
      ListIsLongestFirst(i, j);
    }
    FirstIsLongestIn(PREFIXES, s, q);
  }

  // ---- the rule in its own terms -------------------------------------------------------

  /** The provider prefixes. */
  predicate Listed(p: string) {
    p == "sk-ant-" || p == "sk-" || p == "AIza" || p == "gsk_" || p == "or-" || p == "r8_" || p == "hf_" || p == "ya29."
  }

  /** An ASCII letter or digit, an underscore or a hyphen. */
  predicate TokenChar(c: char) {
    'a' <= c <= 'z' || 'A' <= c <= 'Z' || '0' <= c <= '9' || c == '_' || c == '-'
  }

  /** The longest listed prefix of a text. */
  ghost predicate LongestListed(p: string, s: string) {
    Listed(p) && p <= s && forall q | Listed(q) && q <= s :: |q| <= |p|
  }

  lemma StartsIff(s: string, p: string)
    ensures StartsWith(s, p) <==> p <= s
  {
  }

  lemma ListedIff(p: string)
    ensures p in PREFIXES <==> Listed(p)
  {
    assert PREFIXES[0] == "sk-ant-" && PREFIXES[1] == "sk-" && PREFIXES[2] == "AIza" && PREFIXES[3] == "gsk_";
    assert PREFIXES[4] == "or-" && PREFIXES[5] == "r8_" && PREFIXES[6] == "hf_" && PREFIXES[7] == "ya29.";
  }

  lemma SameLength(p: string, q: string, s: string)
    requires p <= s && q <= s && |p| == |q|
    ensures p == q
  {
    assert p == s[..|p|] && q == s[..|q|];
  }

  lemma LongestIsFirst(p: string, s: string)
    requires LongestListed(p, s)
    ensures FirstMatch(PREFIXES, s) == Some(p)
  {
    ListedIff(p);
    StartsIff(s, p);
    FirstIsLongest(s, p);
    var q := FirstMatch(PREFIXES, s).value;
    ListedIff(q);
    StartsIff(s, q);
    SameLength(p, q, s);
  }

  lemma NoneListed(s: string)
    requires forall p | Listed(p) :: !(p <= s)
    ensures FirstMatch(PREFIXES, s) == None
  {
    forall p | p in PREFIXES
      ensures !StartsWith(s, p)
    {
      ListedIff(p);
      StartsIff(s, p);
    }
  }

  lemma TokenRunIs(token: string, rest: string)
    requires (forall c | c in token :: TokenChar(c)) && (rest != "" ==> !TokenChar(rest[0]))
    ensures TokenRun(token + rest) == |token|
  {
    var s := token + rest;
    forall i | 0 <= i < |token|
      ensures IsToken(s[i])
    {
      assert s[i] in token;
    }
    RunIs(s, |token|);
  }

  lemma ScrubToken(ps: seq<string>, mark: string, p: string, token: string, rest: string)
    requires FirstMatch(ps, p + (token + rest)) == Some(p) && token != "" && TokenRun(token + rest) == |token|
    ensures Scrub(ps, mark, p + (token + rest)) == p + mark + Scrub(ps, mark, rest)
  {
    var s := p + (token + rest);
    assert s[|p|..] == token + rest && SkipRun(token + rest) == rest;
    ScrubHit(ps, mark, s, p);
  }

  /** A text that begins with a listed prefix, the longest it begins with, and a token after it: the
      token, to its end, becomes the mark. */
  lemma TokenIsScrubbed(p: string, token: string, rest: string)
    requires LongestListed(p, p + (token + rest)) && token != ""
    requires (forall c | c in token :: TokenChar(c)) && (rest != "" ==> !TokenChar(rest[0]))
    ensures Redacted(p + (token + rest)) == p + "...REDACTED" + Redacted(rest)
  {
    LongestIsFirst(p, p + (token + rest));
    TokenRunIs(token, rest);
    ScrubToken(PREFIXES, MARK, p, token, rest);
  }

  /** A text that begins with no listed prefix, or with one and no token character after the longest:
      its first character stays, and the rest is scrubbed on its own. */
  lemma OtherIsCopied(c: char, rest: string)
    requires forall p | LongestListed(p, [c] + rest) :: |p| <= |rest| ==> !TokenChar(([c] + rest)[|p|])
    ensures Redacted([c] + rest) == [c] + Redacted(rest)
  {
    var s := [c] + rest;
    var m := FirstMatch(PREFIXES, s);
    if m.Some? {
      ListedIff(m.value);
      StartsIff(s, m.value);
      forall q | Listed(q) && q <= s
        ensures |q| <= |m.value|
      {
        ListedIff(q);
        StartsIff(s, q);
        FirstIsLongest(s, q);
      }
      assert LongestListed(m.value, s);
    }
    assert s[1..] == rest;
    CopyNoHit(PREFIXES, MARK, s);
  }

  lemma CopyNoHit(ps: seq<string>, mark: string, s: string)
    requires s != "" && !Hit(ps, s)
    ensures Scrub(ps, mark, s) == [s[0]] + Scrub(ps, mark, s[1..])
  {
  }

  // ---- what is logged does not depend on the token -------------------------------------

  /** The scan of `s` comes to rest at position `i`. */
  predicate Reaches(ps: seq<string>, s: string, i: nat)
    decreases |s|
  {
    i == 0 || (s != "" && if Hit(ps, s) then ReachesAfterHit(ps, s, i) else Reaches(ps, s[1..], i - 1))
  }

  predicate ReachesAfterHit(ps: seq<string>, s: string, i: nat)
    requires s != "" && Hit(ps, s)
    decreases |s|, 0
  {
    var p := FirstMatch(ps, s).value;
    assert IsToken(s[|p|..][0]);
    var n := |p| + TokenRun(s[|p|..]);
    n <= i && Reaches(ps, SkipRun(s[|p|..]), i - n)
  }

  lemma RunIs(s: string, n: nat)
    requires n <= |s| && (forall i | 0 <= i < n :: IsToken(s[i])) && (n < |s| ==> !IsToken(s[n]))
    ensures TokenRun(s) == n
  {
  }

  /** A run that ends before a token character ends the same whatever follows. */
  lemma SameRun(pre: string, a: string, b: string, n: nat)
    requires n <= |pre| && a != "" && IsToken(a[0]) && n + TokenRun((pre + a)[n..]) <= |pre|
    ensures n < |pre| && TokenRun((pre + b)[n..]) == TokenRun((pre + a)[n..]) < |pre| - n
  {
    var w := pre[n..];
    assert (pre + a)[n..] == w + a && (pre + b)[n..] == w + b;
    var run := TokenRun(w + a);
    assert (w + a)[|w|] == a[0];
    assert forall i | 0 <= i < |w| :: (w + a)[i] == w[i] == (w + b)[i];
    RunIs(w + b, run);
  }

  /** Two texts that both start with `p` look alike to the scanner until it gets to them. */
  lemma SameBefore(ps: seq<string>, pre: string, a: string, b: string, p: string)
    requires pre != "" && p in ps && StartsWith(a, p) && StartsWith(b, p) && |p| < |a| && |p| < |b|
    requires p != "" && IsToken(p[0]) && forall q | q in ps :: NoneInside(ps, q, 1)
    requires Hit(ps, pre + a) ==> |FirstMatch(ps, pre + a).value| + TokenRun((pre + a)[|FirstMatch(ps, pre + a).value|..]) <= |pre|
    ensures FirstMatch(ps, pre + a) == FirstMatch(ps, pre + b) && (Hit(ps, pre + a) <==> Hit(ps, pre + b))
    ensures Hit(ps, pre + a) ==>
              var n := |FirstMatch(ps, pre + a).value|;
              n < |pre| && TokenRun((pre + b)[n..]) == TokenRun((pre + a)[n..]) < |pre| - n
  {
    var s, t := pre + a, pre + b;
    assert s[|pre|..] == a && t[|pre|..] == b;
    assert AgreeTo(s, t, |pre| + |p|);
    AgreeOnMatches(ps, s, t, |pre|, p);
    if FirstMatch(ps, s).Some? {
      var n := |FirstMatch(ps, s).value|;
      assert s[n] == t[n];
      if Hit(ps, s) {
        assert a[0] == p[0];
        SameRun(pre, a, b, n);
      }
    }
  }

  lemma SameAfterHit(ps: seq<string>, mark: string, s: string, t: string, p: string)
    requires Hit(ps, s) && Hit(ps, t) && FirstMatch(ps, s) == FirstMatch(ps, t) == Some(p)
    requires Scrub(ps, mark, SkipRun(s[|p|..])) == Scrub(ps, mark, SkipRun(t[|p|..]))
    ensures Scrub(ps, mark, s) == Scrub(ps, mark, t)
  {
    HitIff(ps, s);
    HitIff(ps, t);
    ScrubHit(ps, mark, s, p);
    ScrubHit(ps, mark, t, p);
  }

  lemma ReachesWithin(ps: seq<string>, s: string, i: nat)
    requires Reaches(ps, s, i) && i > 0
    ensures Hit(ps, s) ==> |FirstMatch(ps, s).value| + TokenRun(s[|FirstMatch(ps, s).value|..]) <= i
  {
  }

  lemma ReachesRest(ps: seq<string>, s: string, i: nat)
    requires Reaches(ps, s, i) && i > 0
    ensures s != ""
    ensures !Hit(ps, s) ==> Reaches(ps, s[1..], i - 1)
  {
  }

  lemma ReachesPastHit(ps: seq<string>, s: string, i: nat, p: string, j: nat)
    requires Reaches(ps, s, i) && i > 0 && Hit(ps, s) && FirstMatch(ps, s) == Some(p)
    requires j + |p| + TokenRun(s[|p|..]) == i
    ensures Reaches(ps, SkipRun(s[|p|..]), j)
  {
  }

  lemma SkipInContext(pre: string, a: string, n: nat)
    requires n < |pre| && TokenRun((pre + a)[n..]) < |pre| - n
    ensures SkipRun((pre + a)[n..]) == pre[n + TokenRun((pre + a)[n..])..] + a
  {
    var run := TokenRun((pre + a)[n..]);
    assert (pre + a)[n..] == pre[n..] + a;
    assert (pre[n..] + a)[run..] == pre[n..][run..] + a;
    assert pre[n..][run..] == pre[n + run..];
  }

  lemma AdvanceHit(ps: seq<string>, mark: string, pre: string, a: string, b: string, m: string) returns (rest: string)
    requires Hit(ps, pre + a) && Hit(ps, pre + b) && FirstMatch(ps, pre + a) == FirstMatch(ps, pre + b) == Some(m)
    requires |m| < |pre| && TokenRun((pre + b)[|m|..]) == TokenRun((pre + a)[|m|..]) < |pre| - |m|
    requires Reaches(ps, pre + a, |pre|)
    ensures |rest| + |m| + TokenRun((pre + a)[|m|..]) == |pre| && Reaches(ps, rest + a, |rest|)
    ensures Scrub(ps, mark, rest + a) == Scrub(ps, mark, rest + b) ==> Scrub(ps, mark, pre + a) == Scrub(ps, mark, pre + b)
  {
    rest := pre[|m| + TokenRun((pre + a)[|m|..])..];
    assert SkipRun((pre + a)[|m|..]) == rest + a by { SkipInContext(pre, a, |m|); }
    assert SkipRun((pre + b)[|m|..]) == rest + b by { SkipInContext(pre, b, |m|); }
    assert Reaches(ps, rest + a, |rest|) by { ReachesPastHit(ps, pre + a, |pre|, m, |rest|); }
    if Scrub(ps, mark, rest + a) == Scrub(ps, mark, rest + b) {
      SameAfterHit(ps, mark, pre + a, pre + b, m);
    }
  }

  lemma AdvanceCopy(ps: seq<string>, mark: string, pre: string, a: string, b: string)
    requires pre != "" && !Hit(ps, pre + a) && !Hit(ps, pre + b)
    ensures (pre + a)[1..] == pre[1..] + a
    ensures Scrub(ps, mark, pre[1..] + a) == Scrub(ps, mark, pre[1..] + b) ==> Scrub(ps, mark, pre + a) == Scrub(ps, mark, pre + b)
  {
    assert (pre + a)[1..] == pre[1..] + a && (pre + b)[1..] == pre[1..] + b;
  }

  lemma {:induction false} SameScrub(ps: seq<string>, mark: string, pre: string, a: string, b: string, p: string)
    requires p in ps && StartsWith(a, p) && StartsWith(b, p) && |p| < |a| && |p| < |b|
    requires p != "" && IsToken(p[0]) && forall q | q in ps :: NoneInside(ps, q, 1)
    requires Reaches(ps, pre + a, |pre|) && Scrub(ps, mark, a) == Scrub(ps, mark, b)
    ensures Scrub(ps, mark, pre + a) == Scrub(ps, mark, pre + b)
    decreases |pre|
  {
    if pre == "" {
      assert pre + a == a && pre + b == b;
    } else {
      ReachesWithin(ps, pre + a, |pre|);
      SameBefore(ps, pre, a, b, p);
      if Hit(ps, pre + a) {
        var m := FirstMatch(ps, pre + a).value;
        var rest := AdvanceHit(ps, mark, pre, a, b, m);
        assert |rest| < |pre| by { assert IsToken((pre + a)[|m|..][0]); }
        SameScrub(ps, mark, rest, a, b, p);
      } else {
        AdvanceCopy(ps, mark, pre, a, b);
        ReachesRest(ps, pre + a, |pre|);
        SameScrub(ps, mark, pre[1..], a, b, p);
      }
    }
  }

  /** A prefix and a whole token scrub to the prefix and the mark. */
  lemma TokenGoes(ps: seq<string>, mark: string, p: string, x: string, post: string)
    requires FirstMatch(ps, p + x + post) == Some(p)
    requires x != "" && (forall i | 0 <= i < |x| :: IsToken(x[i])) && (post != "" ==> !IsToken(post[0]))
    ensures Scrub(ps, mark, p + x + post) == p + mark + Scrub(ps, mark, post)
  {
    var s := p + x + post;
    assert s[|p|..] == x + post;
    RunIs(x + post, |x|);
    assert (x + post)[|x|..] == post;
    ScrubHit(ps, mark, s, p);
  }

  predicate AllTokens(x: string) {
    x != "" && forall i | 0 <= i < |x| :: IsToken(x[i])
  }

  /** `p` and then `x` is what the scanner takes for a prefix and its token before `post`. */
  predicate IsTokenAt(ps: seq<string>, p: string, x: string, post: string) {
    FirstMatch(ps, p + x + post) == Some(p) && AllTokens(x) && (post != "" ==> !IsToken(post[0]))
  }

  lemma TokenDoesNotMatterIn(ps: seq<string>, mark: string, pre: string, p: string, x: string, y: string, post: string)
    requires IsTokenAt(ps, p, x, post) && IsTokenAt(ps, p, y, post) && Reaches(ps, pre + (p + x + post), |pre|)
    requires p != "" && IsToken(p[0]) && forall q | q in ps :: NoneInside(ps, q, 1)
    ensures Scrub(ps, mark, pre + (p + x + post)) == Scrub(ps, mark, pre + (p + y + post))
  {
    TokenGoes(ps, mark, p, x, post);
    TokenGoes(ps, mark, p, y, post);
    SameScrub(ps, mark, pre, p + x + post, p + y + post, p);
  }

  lemma MatchIsPrefix(p: string, x: string, post: string)
    requires IsTokenAt(PREFIXES, p, x, post)
    ensures p in PREFIXES && p != "" && IsToken(p[0])
  {
    PrefixStartsToken(p);
  }

  /** What is logged does not depend on the token: where the scanner meets a prefix, any other token
      under the same prefix would have left the same text. */
  lemma TokenDoesNotMatter(pre: string, p: string, x: string, y: string, post: string)
    requires IsTokenAt(PREFIXES, p, x, post) && IsTokenAt(PREFIXES, p, y, post)
    requires Reaches(PREFIXES, pre + (p + x + post), |pre|)
    ensures Redacted(pre + (p + x + post)) == Redacted(pre + (p + y + post))
  {
    MatchIsPrefix(p, x, post);
    PrefixesAreDistinctive();
    TokenDoesNotMatterIn(PREFIXES, MARK, pre, p, x, y, post);
  }

  lemma PrefixStartsToken(p: string)
    requires p in PREFIXES
    ensures p != "" && IsToken(p[0])
  {
  }

  // ---- what is not scrubbed ------------------------------------------------------------

  /** No character is the first of a prefix. */
  predicate FreeOfFirsts(ps: seq<string>, w: string) {
    forall c, p | c in w && p in ps :: p != "" && p[0] != c
  }

  /** Where no prefix can begin, the text is copied and the rest is scrubbed on its own. */
  lemma {:induction false} FreeIsCopied(ps: seq<string>, mark: string, w: string, x: string)
    requires FreeOfFirsts(ps, w)
    ensures Scrub(ps, mark, w + x) == w + Scrub(ps, mark, x) && (Clean(ps, w + x) <==> Clean(ps, x))
  {
    if w == "" {
      assert w + x == x;
      assert w + Scrub(ps, mark, x) == Scrub(ps, mark, x);
    } else {
      FreeParts(ps, w);
      FreeIsCopied(ps, mark, w[1..], x);
      FreeCharIsCopied(ps, mark, w[0], w[1..] + x);
      HeadFirst(w, x);
      HeadFirst(w, Scrub(ps, mark, x));
    }
  }

  lemma FreeParts(ps: seq<string>, w: string)
    requires FreeOfFirsts(ps, w) && w != ""
    ensures FreeOfFirsts(ps, [w[0]]) && FreeOfFirsts(ps, w[1..])
  {
    assert w[0] in w && forall c | c in w[1..] :: c in w;
  }

  lemma HeadFirst(w: string, t: string)
    requires w != ""
    ensures w + t == [w[0]] + (w[1..] + t)
  {
  }

  lemma FreeCharIsCopied(ps: seq<string>, mark: string, c: char, s: string)
    requires FreeOfFirsts(ps, [c])
    ensures Scrub(ps, mark, [c] + s) == [c] + Scrub(ps, mark, s) && (Clean(ps, [c] + s) <==> Clean(ps, s))
  {
    assert c in [c] && ([c] + s)[1..] == s;
    assert forall p | p in ps :: !StartsWith([c] + s, p);
  }

  lemma SamePrefix(w: string, a: string, b: string)
    ensures w + a == w + b <==> a == b
  {
    assert (w + a)[|w|..] == a && (w + b)[|w|..] == b;
  }

  lemma FreeIsRedacted(w: string, x: string)
    requires FreeOfFirsts(PREFIXES, w)
    ensures Redacted(w + x) == w + Redacted(x) && (Redacted(w + x) == w + x <==> Clean(PREFIXES, x))
  {
    FreeIsCopied(PREFIXES, MARK, w, x);
    UnchangedIff(x);
    SamePrefix(w, Redacted(x), x);
  }

  /** The program's comment also names `1//`, the prefix of Google refresh tokens, but the list does
      not have it: what follows is scrubbed as if `1//` were not there, so such a token is left whole
      exactly when its remainder has no hit of its own. */
  lemma RefreshTokensPass(x: string)
    ensures Redacted("1//" + x) == "1//" + Redacted(x)
    ensures Redacted("1//" + x) == "1//" + x <==> Clean(PREFIXES, x)
  {
    RefreshIsFree();
    FreeIsRedacted("1//", x);
  }

  lemma RefreshIsFree()
    ensures FreeOfFirsts(PREFIXES, "1//")
  {
  }

  lemma FreeTokenPasses(w: string)
    requires FreeOfFirsts(PREFIXES, w)
    ensures Redacted("1//" + w) == "1//" + w
  {
    FreeIsRedacted(w, "");
    assert w + "" == w && Redacted("") == "";
    RefreshTokensPass(w);
    UnchangedIff(w);
  }

  /** One such token. */
  lemma RefreshTokenPasses()
    ensures Redacted("1//" + "0abc") == "1//" + "0abc"
  {
    FreeTokenPasses("0abc");
  }
}
