/** Event streams as they are printed: data lines that carry JSON, and lines that carry nothing. */
module WireLines {
  import opened Text
  import opened Json
  import opened LineFraming

  /** A data line, the end marker of the OpenAI protocol, or any other line: an event name, a comment or
      a blank line. */
  datatype WireLine = Data(v: Value) | EndMarker | Noise(text: string)

  function Printed(codec: Codec, l: WireLine): string {
    match l
    case Data(v) => "data: " + codec.render(v) + "\n"
    case EndMarker => "data: " + "[DONE]" + "\n"
    case Noise(text) => text + "\n"
  }

  /** A printed value: it reads back, takes one line without white space at either end, and is not
      the end marker. */
  predicate Prints(codec: Codec, v: Value) {
    var s := codec.render(v);
    ReadsBack(codec, v) && s != "" && s != "[DONE]" && '\n' !in s && !IsSpace(s[0]) && !IsSpace(s[|s| - 1])
  }

  /** What a line may be. The end marker is not JSON. */
  predicate LineOk(codec: Codec, l: WireLine) {
    match l
    case Data(v) => Prints(codec, v)
    case EndMarker => codec.parse("[DONE]").None?
    case Noise(text) => '\n' !in text && !("data: " <= text)
  }

  predicate LinesOk(codec: Codec, ls: seq<WireLine>) {
    forall l | l in ls :: LineOk(codec, l)
  }

  function PrintedAll(codec: Codec, ls: seq<WireLine>): seq<string> {
    Each((l: WireLine) => Printed(codec, l), ls)
  }

  function TextOf(codec: Codec, ls: seq<WireLine>): string {
    Concat(PrintedAll(codec, ls))
  }

  // ---- one line ------------------------------------------------------------------------

  lemma Terminated(s: string, line: string)
    requires '\n' !in s && line == s + "\n"
    ensures IsLine(line)
  {
    assert line[..|line| - 1] == s;
  }

  lemma PrintedIsLine(codec: Codec, l: WireLine)
    requires LineOk(codec, l)
    ensures IsLine(Printed(codec, l))
  {
    match l
    case Data(v) => Terminated("data: " + codec.render(v), Printed(codec, l));
    case EndMarker => Terminated("data: " + "[DONE]", Printed(codec, l));
    case Noise(text) => Terminated(text, Printed(codec, l));
  }

  lemma TrimmedLine(s: string)
    requires s != "" && !IsSpace(s[|s| - 1])
    ensures TrimEnd(s + "\n") == s
  {
    var line := s + "\n";
    assert line[|s|..] == "\n" && line[..|s|] == s;
    TrimEndAt(line, |s|);
  }

  lemma PrefixOf(prefix: string, s: string)
    ensures StripPrefix(prefix + s, prefix) == Some(s)
  {
  }

  lemma DataPayload(codec: Codec, v: Value)
    requires Prints(codec, v)
    ensures StripPrefix(TrimEnd(Printed(codec, Data(v))), DATA) == Some(codec.render(v))
  {
    var s := codec.render(v);
    TrimmedLine("data: " + s);
    PrefixOf(DATA, s);
  }

  lemma EndPayload(codec: Codec)
    ensures StripPrefix(TrimEnd(Printed(codec, EndMarker)), DATA) == Some("[DONE]")
  {
    TrimmedLine("data: " + "[DONE]");
    PrefixOf(DATA, "[DONE]");
  }

  lemma NoisePayload(codec: Codec, text: string)
    requires !("data: " <= text)
    ensures StripPrefix(TrimEnd(Printed(codec, Noise(text))), DATA) == None
  {
    var line := text + "\n";
    var t := TrimEnd(line);
    assert t == line[..|t|];
    if DATA <= t {
      NoNewlineIn(DATA, text, line);
    }
  }

  lemma NoNewlineIn(prefix: string, text: string, line: string)
    requires line == text + "\n" && prefix <= line && '\n' !in prefix
    ensures prefix <= text
  {
    assert forall k | 0 <= k < |prefix| :: prefix[k] == line[k] && prefix[k] in prefix;
    assert line[|text|] == '\n' && line[..|text|] == text;
  }

  // ---- the whole text ------------------------------------------------------------------

  lemma {:induction false} AllAreLines(codec: Codec, ls: seq<WireLine>)
    requires LinesOk(codec, ls)
    ensures forall s | s in PrintedAll(codec, ls) :: IsLine(s)
  {
    if ls != [] {
      assert ls[0] in ls;
      PrintedIsLine(codec, ls[0]);
      AllAreLines(codec, ls[1..]);
    }
  }

  /** A printed text has the lines that were printed, and nothing after them. */
  lemma PrintedLines(codec: Codec, ls: seq<WireLine>)
    requires LinesOk(codec, ls)
    ensures LinesOf(TextOf(codec, ls)) == PrintedAll(codec, ls) && TailOf(TextOf(codec, ls)) == ""
  {
    AllAreLines(codec, ls);
    LinesUnique(PrintedAll(codec, ls), "");
    assert Concat(PrintedAll(codec, ls)) + "" == Concat(PrintedAll(codec, ls));
  }

  /** Feeding a printed text feeds its lines, one by one. */
  lemma FeedPrinted<S>(codec: Codec, feed: (S, string) -> S, s: S, ls: seq<WireLine>)
    requires ls != []
    ensures var next := feed(s, TrimEnd(Printed(codec, ls[0])));
      FeedLines(feed, s, PrintedAll(codec, ls)) == FeedLines(feed, next, PrintedAll(codec, ls[1..]))
  {
    assert PrintedAll(codec, ls)[1..] == PrintedAll(codec, ls[1..]);
  }
}
