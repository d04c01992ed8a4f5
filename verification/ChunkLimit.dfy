/** What the byte check of the OpenAI line loop (adapters/openai_compatible.rs) accepts: it measures
    the buffer with a whole network chunk in it, so it depends on more than the lines. */
module ChunkLimit {
  import opened Text
  import opened Json
  import opened LineFraming
  import opened OpenAiStream

  predicate Fits(s: string) {
    ByteLen(s) <= 1_048_576
  }

  ghost predicate LinesFit(lines: seq<string>) {
    forall l | l in lines :: Fits(l)
  }

  /** Every line of a text, newline included, and its unterminated tail are within the limit. */
  ghost predicate PartsFit(text: string) {
    LinesFit(LinesOf(text)) && Fits(TailOf(text))
  }

  // ---- where the check fires -----------------------------------------------------------

  lemma {:induction false} PassingAt(before: string, chunks: seq<string>, k: nat)
    requires k < |chunks| && k <= Passing(before, chunks)
    ensures Overfull(before + Concat(chunks[..k]), chunks[k]) <==> k == Passing(before, chunks)
    decreases k
  {
    if k == 0 {
      assert before + Concat(chunks[..0]) == before;
    } else {
      var first, rest := chunks[0], chunks[1..];
      PassingAt(before + first, rest, k - 1);
      assert chunks[..k] == [first] + rest[..k - 1];
      FirstOut(before, first, rest[..k - 1]);
    }
  }

  lemma FirstOut(before: string, first: string, rest: seq<string>)
    ensures before + Concat([first] + rest) == before + first + Concat(rest)
  {
    assert ([first] + rest)[1..] == rest;
    assert before + (first + Concat(rest)) == (before + first) + Concat(rest);
  }

  /** The check fires on the first chunk that, with what the chunks before it left unfinished, is too
      long; when there is none, all chunks pass. */
  lemma PassingIsFirstFailure(chunks: seq<string>)
    ensures var n := Passing("", chunks);
      && (forall k | 0 <= k < n :: !Overfull(Concat(chunks[..k]), chunks[k]))
      && (n < |chunks| ==> Overfull(Concat(chunks[..n]), chunks[n]))
  {
    forall k: nat | k < |chunks| && k <= Passing("", chunks)
      ensures Overfull(Concat(chunks[..k]), chunks[k]) <==> k == Passing("", chunks)
    {
      PassingAt("", chunks, k);
      assert "" + Concat(chunks[..k]) == Concat(chunks[..k]);
    }
  }

  // ---- every chunking ------------------------------------------------------------------

  lemma {:induction false} TailIsShorter(text: string)
    ensures ByteLen(TailOf(text)) <= ByteLen(text)
    decreases |text|
  {
    var i := LineEnd(text);
    if i.Some? {
      var rest := text[i.value + 1..];
      assert TailOf(text) == TailOf(rest);
      CutBytes(text, i.value + 1);
      TailIsShorter(rest);
    }
  }

  lemma CutBytes(text: string, n: nat)
    requires n <= |text|
    ensures ByteLen(text) == ByteLen(text[..n]) + ByteLen(text[n..])
  {
    assert text[..n] + text[n..] == text;
    ByteLenAppend(text[..n], text[n..]);
  }

  lemma {:induction false} ShortPasses(before: string, chunks: seq<string>)
    requires Fits(before + Concat(chunks))
    ensures Passing(before, chunks) == |chunks|
    decreases |chunks|
  {
    if chunks != [] {
      var rest := Concat(chunks[1..]);
      assert before + Concat(chunks) == before + chunks[0] + rest;
      ByteLenAppend(before + chunks[0], rest);
      ByteLenAppend(before, chunks[0]);
      ByteLenAppend(TailOf(before), chunks[0]);
      TailIsShorter(before);
      ShortPasses(before + chunks[0], chunks[1..]);
    }
  }

  lemma OneChunk(text: string)
    ensures Concat([text]) == text && (CheckNeverFires([text]) <==> Fits(text))
  {
    assert Concat([text]) == text + Concat([]);
    assert TailOf("") + text == text;
    assert Passing("", [text]) == if Overfull("", text) then 0 else 1 + Passing("" + text, []);
  }

  /** However a text is cut it passes the check, exactly when the whole of it is within the limit. */
  lemma EveryChunkingIff(text: string)
    ensures (forall chunks | Concat(chunks) == text :: CheckNeverFires(chunks)) <==> Fits(text)
  {
    OneChunk(text);
    if Fits(text) {
      forall chunks | Concat(chunks) == text
        ensures CheckNeverFires(chunks)
      {
        assert "" + text == text;
        ShortPasses("", chunks);
      }
    }
  }

  // ---- some chunking -------------------------------------------------------------------

  lemma LinesFitAppend(a: seq<string>, b: seq<string>)
    ensures LinesFit(a + b) <==> LinesFit(a) && LinesFit(b)
  {
    assert forall l | l in a :: l in a + b;
    assert forall l | l in b :: l in a + b;
  }

  lemma {:induction false} ShortPartsFit(text: string)
    requires Fits(text)
    ensures PartsFit(text)
    decreases |text|
  {
    var i := LineEnd(text);
    if i.Some? {
      CutBytes(text, i.value + 1);
      ShortPartsFit(text[i.value + 1..]);
    }
  }

  /** More text only adds to the unfinished line. */
  lemma PartsFitAppend(a: string, b: string)
    requires LinesFit(LinesOf(a))
    ensures PartsFit(a + b) <==> PartsFit(TailOf(a) + b)
  {
    LinesAppend(a, b);
    LinesFitAppend(LinesOf(a), LinesOf(TailOf(a) + b));
  }

  /** Whatever passes the check has lines that fit: each was completed inside a buffer that fitted. */
  lemma {:induction false} PassedPartsFit(before: string, chunks: seq<string>)
    requires Fits(TailOf(before)) && Passing(before, chunks) == |chunks|
    ensures PartsFit(TailOf(before) + Concat(chunks))
    decreases |chunks|
  {
    if chunks == [] {
      assert TailOf(before) + Concat(chunks) == TailOf(before);
      ShortPartsFit(TailOf(before));
    } else {
      var tail, first, rest := TailOf(before), chunks[0], Concat(chunks[1..]);
      ShortPartsFit(tail + first);
      LinesAppend(before, first);
      PassedPartsFit(before + first, chunks[1..]);
      PartsFitAppend(tail + first, rest);
      assert (tail + first) + rest == tail + (first + rest);
    }
  }

  /** Chunks that are lines pass when they fit, after a text that ends where a line does. */
  lemma {:induction false} LinesPass(before: string, lines: seq<string>, tail: string)
    requires TailOf(before) == "" && LinesFit(lines) && Fits(tail) && forall l | l in lines :: IsLine(l)
    ensures Passing(before, lines + [tail]) == |lines| + 1
    decreases |lines|
  {
    var chunks := lines + [tail];
    var first := chunks[0];
    assert TailOf(before) + first == first;
    if lines == [] {
      assert chunks[1..] == [];
    } else {
      assert chunks[1..] == lines[1..] + [tail] && first in lines;
      LinesAppend(before, first);
      LineLeavesNothing(first);
      LinesPass(before + first, lines[1..], tail);
    }
  }

  lemma LineLeavesNothing(l: string)
    requires IsLine(l)
    ensures TailOf(l) == ""
  {
    assert l + "" == l;
    FirstLine(l, "");
  }

  /** A text can be cut so that it passes the check, exactly when every line of it and its tail are
      within the limit. */
  lemma SomeChunkingIff(text: string)
    ensures (exists chunks :: Concat(chunks) == text && CheckNeverFires(chunks)) <==> PartsFit(text)
  {
    if chunks :| Concat(chunks) == text && CheckNeverFires(chunks) {
      assert TailOf("") + text == text;
      PassedPartsFit("", chunks);
    }
    if PartsFit(text) {
      var lines, tail := LinesOf(text), TailOf(text);
      LinesAreLines(text);
      LinesRebuild(text);
      ConcatSnoc(lines, tail);
      LinesPass("", lines, tail);
      assert Concat(lines + [tail]) == text && CheckNeverFires(lines + [tail]);
    }
  }

  // ---- chunk independence --------------------------------------------------------------

  /** The result of a stream is the same for every way its text is cut, exactly when the text is within
      the limit as a whole, or has a line or a tail that no cut makes acceptable. */
  lemma ChunksDoNotMatterIff(codec: Codec, text: string)
    ensures (forall a, b | Concat(a) == text && Concat(b) == text :: OutcomeOf(codec, a).0 == OutcomeOf(codec, b).0)
       <==> Fits(text) || !PartsFit(text)
  {
    EveryChunkingIff(text);
    SomeChunkingIff(text);
    forall a, b | Concat(a) == text && Concat(b) == text
      ensures (CheckNeverFires(a) <==> CheckNeverFires(b)) <==> OutcomeOf(codec, a).0 == OutcomeOf(codec, b).0
    {
      PassedOutcome(codec, a);
      PassedOutcome(codec, b);
    }
    if !Fits(text) && PartsFit(text) {
      var a :| Concat(a) == text && CheckNeverFires(a);
      var b :| Concat(b) == text && !CheckNeverFires(b);
      assert OutcomeOf(codec, a).0 != OutcomeOf(codec, b).0;
    }
  }

  function PassedOutcomeOf(codec: Codec, text: string): (StreamResult, Assembly) {
    var a := Fed(codec, text);
    (if a.overflowed then TooMuchContent else Done(FinishOf(a)), a)
  }

  /** A stream whose chunks all pass is decided by its text. */
  lemma PassedOutcome(codec: Codec, chunks: seq<string>)
    ensures OutcomeOf(codec, chunks).0 == LineTooLong <==> !CheckNeverFires(chunks)
    ensures CheckNeverFires(chunks) ==> OutcomeOf(codec, chunks) == PassedOutcomeOf(codec, Concat(chunks))
  {
    assert chunks[..|chunks|] == chunks;
  }

  lemma LineBefore(line: string, rest: string)
    requires IsLine(line)
    ensures PartsFit(line + rest) <==> Fits(line) && PartsFit(rest)
    ensures ByteLen(line + rest) == ByteLen(line) + ByteLen(rest)
  {
    FirstLine(line, rest);
    LinesFitAppend([line], LinesOf(rest));
    ByteLenAppend(line, rest);
  }

  /** As many empty lines as one likes. */
  lemma {:induction false} EmptyLines(line: string, n: nat) returns (text: string)
    requires IsLine(line) && ByteLen(line) == 1
    ensures ByteLen(text) == n && PartsFit(text) && forall c | c in text :: c in line
  {
    if n == 0 {
      text := "";
      ShortPartsFit(text);
    } else {
      var rest := EmptyLines(line, n - 1);
      LineBefore(line, rest);
      text := line + rest;
    }
  }

  /** Both happen: a mebibyte of newlines and one more is refused as one chunk and accepted as lines. */
  lemma NewlinesDependOnChunks(codec: Codec)
    ensures exists a, b ::
      && Concat(a) == Concat(b) && (forall c | c in Concat(a) :: c == '\n')
      && ByteLen(Concat(a)) == 1_048_577
      && OutcomeOf(codec, a).0 == LineTooLong && OutcomeOf(codec, b).0 != LineTooLong
  {
    assert ByteLen("\n") == CharBytes('\n') + ByteLen("");
    var text := EmptyLines("\n", MAX_SSE_LINE_BYTES + 1);
    OneChunk(text);
    SomeChunkingIff(text);
    var b :| Concat(b) == text && CheckNeverFires(b);
    PassedOutcome(codec, [text]);
    PassedOutcome(codec, b);
    assert Concat([text]) == Concat(b);
  }
}
