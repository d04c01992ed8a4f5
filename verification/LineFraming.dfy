/** The line-splitting loop every streaming adapter runs over network chunks. Chunks are decoded
    text: bytes are turned into text chunk by chunk before this loop. */
module LineFraming {
  import opened Text

  const NEWLINE := "\n"
  const DATA := "data: "

  /** `strip_prefix` */
  function StripPrefix(line: string, prefix: string): Option<string> {
    if prefix <= line then Some(line[|prefix|..]) else None
  }

  /** The first newline of a text. */
  function LineEnd(text: string): (r: Option<nat>)
    ensures r.Some? ==> r.value < |text| && text[r.value] == '\n' && '\n' !in text[..r.value]
    ensures r.Some? ==> forall k | 0 <= k < r.value :: text[k] != '\n'
    ensures r.None? ==> '\n' !in text
  {
    ContainsChar(text, '\n');
    if Find(text, NEWLINE).Some? then
      var i := Find(text, NEWLINE).value;
      assert text[i..i + 1] == NEWLINE;
      FreeBeforeFind(text, NEWLINE);
      ContainsChar(text[..i], '\n');
      assert forall k | 0 <= k < i :: text[k] == text[..i][k];
      Some(i)
    else None
  }

  /** The newline-terminated lines of a text, newlines included. */
  function LinesOf(text: string): seq<string>
    decreases |text|
  {
    match LineEnd(text)
    case None => []
    case Some(i) => [text[..i + 1]] + LinesOf(text[i + 1..])
  }

  /** What follows the last newline. */
  function TailOf(text: string): (tail: string)
    ensures '\n' !in tail
    decreases |text|
  {
    match LineEnd(text)
    case None => text
    case Some(i) => TailOf(text[i + 1..])
  }

  predicate IsLine(line: string) {
    line != "" && line[|line| - 1] == '\n' && '\n' !in line[..|line| - 1]
  }

  lemma LineEndAt(text: string, i: nat)
    requires i < |text| && text[i] == '\n' && '\n' !in text[..i]
    ensures LineEnd(text) == Some(i)
  {
    assert text[i] in text;
    assert forall k | 0 <= k < i :: text[k] == text[..i][k];
  }

  lemma {:induction false} LinesAreLines(text: string)
    ensures forall l | l in LinesOf(text) :: IsLine(l)
    decreases |text|
  {
    var i := LineEnd(text);
    if i.Some? {
      var first := text[..i.value + 1];
      assert first[..i.value] == text[..i.value] && first[i.value] == '\n';
      assert IsLine(first);
      LinesAreLines(text[i.value + 1..]);
    }
  }

  lemma RebuildStep(first: string, lines: seq<string>, tail: string, rest: string)
    requires Concat(lines) + tail == rest
    ensures Concat([first] + lines) + tail == first + rest
  {
    assert ([first] + lines)[1..] == lines;
    assert (first + Concat(lines)) + tail == first + (Concat(lines) + tail);
  }

  lemma CutAndJoin(text: string, n: nat)
    requires n <= |text|
    ensures text[..n] + text[n..] == text
  {
  }

  /** A text is its lines followed by its tail. */
  lemma {:induction false} LinesRebuild(text: string)
    ensures Concat(LinesOf(text)) + TailOf(text) == text
    decreases |text|
  {
    var end := LineEnd(text);
    if end.None? {
      assert "" + text == text;
    } else {
      var n := end.value + 1;
      LinesRebuild(text[n..]);
      RebuildStep(text[..n], LinesOf(text[n..]), TailOf(text[n..]), text[n..]);
      CutAndJoin(text, n);
    }
  }

  /** Nothing else is: lines and tail are determined by the text. */
  lemma {:induction false} LinesUnique(lines: seq<string>, tail: string)
    requires (forall l | l in lines :: IsLine(l)) && '\n' !in tail
    ensures LinesOf(Concat(lines) + tail) == lines && TailOf(Concat(lines) + tail) == tail
  {
    if lines == [] {
      assert Concat(lines) + tail == tail;
    } else {
      var l, rest := lines[0], Concat(lines[1..]) + tail;
      assert l in lines;
      assert Concat(lines) + tail == l + rest;
      FirstLine(l, rest);
      LinesUnique(lines[1..], tail);
    }
  }

  lemma FirstLine(l: string, rest: string)
    requires IsLine(l)
    ensures LinesOf(l + rest) == [l] + LinesOf(rest) && TailOf(l + rest) == TailOf(rest)
  {
    var text, n := l + rest, |l| - 1;
    assert text[..n] == l[..n] && text[n] == l[n];
    LineEndAt(text, n);
    assert text[..n + 1] == l && text[n + 1..] == rest;
  }

  /** Lines already complete stay as they are when more text arrives; only the tail is revisited. */
  lemma {:induction false} LinesAppend(a: string, b: string)
    ensures LinesOf(a + b) == LinesOf(a) + LinesOf(TailOf(a) + b)
    ensures TailOf(a + b) == TailOf(TailOf(a) + b)
    decreases |a|
  {
    var i := LineEnd(a);
    if i.Some? {
      assert (a + b)[..i.value] == a[..i.value];
      LineEndAt(a + b, i.value);
      assert (a + b)[..i.value + 1] == a[..i.value + 1];
      assert (a + b)[i.value + 1..] == a[i.value + 1..] + b;
      LinesAppend(a[i.value + 1..], b);
    }
  }

  // ---- the loop ------------------------------------------------------------------------

  /** Feed lines one by one, each without its trailing white space. */
  function FeedLines<S>(feed: (S, string) -> S, s: S, lines: seq<string>): S {
    if lines == [] then s else FeedLines(feed, feed(s, TrimEnd(lines[0])), lines[1..])
  }

  lemma {:induction false} FeedLinesAppend<S>(feed: (S, string) -> S, s: S, a: seq<string>, b: seq<string>)
    ensures FeedLines(feed, s, a + b) == FeedLines(feed, FeedLines(feed, s, a), b)
  {
    if a == [] {
      assert a + b == b;
    } else {
      assert (a + b)[1..] == a[1..] + b;
      FeedLinesAppend(feed, feed(s, TrimEnd(a[0])), a[1..], b);
    }
  }

  lemma FeedLinesSnoc<S>(feed: (S, string) -> S, s: S, lines: seq<string>, line: string)
    ensures FeedLines(feed, s, lines + [line]) == feed(FeedLines(feed, s, lines), TrimEnd(line))
  {
    FeedLinesAppend(feed, s, lines, [line]);
    var t := FeedLines(feed, s, lines);
    assert FeedLines(feed, t, [line]) == FeedLines(feed, feed(t, TrimEnd(line)), [line][1..]);
    assert [line][1..] == [];
  }

  /** Chunks are appended to a buffer and every complete line is drained from it and fed. Whatever
      the chunks, the lines fed are those of the whole text, and no newline stays behind. */
  method Pump<S>(chunks: seq<string>, init: S, feed: (S, string) -> S) returns (s: S, buf: string)
    ensures s == FeedLines(feed, init, LinesOf(Concat(chunks)))
    ensures buf == TailOf(Concat(chunks)) && '\n' !in buf
  {
    s, buf := init, "";
    assert chunks[..0] == [];
    for k := 0 to |chunks|
      invariant s == FeedLines(feed, init, LinesOf(Concat(chunks[..k])))
      invariant buf == TailOf(Concat(chunks[..k]))
    {
      assert chunks[..k + 1] == chunks[..k] + [chunks[k]];
      ConcatSnoc(chunks[..k], chunks[k]);
      LinesAppend(Concat(chunks[..k]), chunks[k]);
      FeedLinesAppend(feed, init, LinesOf(Concat(chunks[..k])), LinesOf(buf + chunks[k]));
      s, buf := Drain(s, buf + chunks[k], feed);
    }
    assert chunks[..|chunks|] == chunks;
  }

  /** The inner loop. */
  method Drain<S>(before: S, text: string, feed: (S, string) -> S) returns (s: S, buf: string)
    ensures s == FeedLines(feed, before, LinesOf(text)) && buf == TailOf(text)
  {
    s, buf := before, text;
    var pos := LineEnd(buf);
    while pos.Some?
      invariant pos == LineEnd(buf)
      invariant FeedLines(feed, before, LinesOf(text)) == FeedLines(feed, s, LinesOf(buf))
      invariant TailOf(text) == TailOf(buf)
      decreases |buf|
    {
      s := feed(s, TrimEnd(buf[..pos.value + 1]));
      buf := buf[pos.value + 1..];
      pos := LineEnd(buf);
    }
  }

  /** What an adapter with a tail flush feeds after the last chunk. */
  function FlushTail<S>(feed: (S, string) -> S, s: S, tail: string): S {
    if Trim(tail) == "" then s else feed(s, Trim(tail))
  }

  function Trimmed(lines: seq<string>): seq<string> {
    if lines == [] then [] else [TrimEnd(lines[0])] + Trimmed(lines[1..])
  }

  /** The lines a text feeds: its complete lines and a tail that is not blank. */
  function FedLines(text: string): seq<string> {
    if Trim(TailOf(text)) == "" then Trimmed(LinesOf(text)) else Trimmed(LinesOf(text)) + [Trim(TailOf(text))]
  }

  lemma {:induction false} FeedLinesIsFold<S>(feed: (S, string) -> S, s: S, lines: seq<string>)
    ensures FeedLines(feed, s, lines) == Fold(feed, s, Trimmed(lines))
    decreases |lines|
  {
    if lines != [] {
      FeedLinesIsFold(feed, feed(s, TrimEnd(lines[0])), lines[1..]);
      FoldCons(feed, s, TrimEnd(lines[0]), Trimmed(lines[1..]));
    }
  }

  lemma FlushIsFold<S>(feed: (S, string) -> S, s: S, text: string)
    ensures FlushTail(feed, FeedLines(feed, s, LinesOf(text)), TailOf(text)) == Fold(feed, s, FedLines(text))
  {
    FeedLinesIsFold(feed, s, LinesOf(text));
    FoldSnoc(feed, s, Trimmed(LinesOf(text)), Trim(TailOf(text)));
  }

  /** The loop followed by a final line that need not be terminated. */
  method PumpAndFlush<S>(chunks: seq<string>, init: S, feed: (S, string) -> S) returns (s: S)
    ensures s == FlushTail(feed, FeedLines(feed, init, LinesOf(Concat(chunks))), TailOf(Concat(chunks)))
  {
    var buf;
    s, buf := Pump(chunks, init, feed);
    if Trim(buf) != "" {
      s := feed(s, Trim(buf));
    }
  }
}
