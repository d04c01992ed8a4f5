/** The grammar of tool markup, as a printer. The parser of `ToolMarkup` accepts exactly what the
    printer produces, and reads back what was printed. */
module ToolMarkupGrammar {
  import opened Text
  import opened Json
  import opened ToolMarkup

  // ---- one element ---------------------------------------------------------------------

  function PrintTagged(tag: Tag, gap: string, attr: string, inner: string, rest: string): string {
    gap + tag.open + (attr + END + (inner + tag.close + rest))
  }

  /** No opening tag before the element, no `>` in its attribute, no closing tag inside it. */
  ghost predicate TaggedOk(tag: Tag, gap: string, attr: string, inner: string) {
    !Contains(gap, tag.open) && '>' !in attr && !Contains(inner, tag.close)
  }

  lemma SplitAtFind(s: string, pat: string)
    requires Find(s, pat).Some?
    ensures var i := Find(s, pat).value; s == s[..i] + pat + s[i + |pat|..]
  {
  }

  /** The scanner finds an element exactly where the printer put it, and nowhere else. */
  lemma NextTaggedIff(tag: Tag, text: string, gap: string, attr: string, inner: string, rest: string)
    requires IsTag(tag.open) && IsTag(tag.close)
    ensures NextTagged(tag, text) == Element(gap, attr, inner, rest)
       <==> TaggedOk(tag, gap, attr, inner) && text == PrintTagged(tag, gap, attr, inner, rest)
  {
    if NextTagged(tag, text) == Element(gap, attr, inner, rest) {
      TaggedIsPrinted(tag, text);
    }
    if TaggedOk(tag, gap, attr, inner) && text == PrintTagged(tag, gap, attr, inner, rest) {
      PrintedIsTagged(tag, gap, attr, inner, rest);
    }
  }

  lemma TaggedIsPrinted(tag: Tag, text: string)
    requires IsTag(tag.open) && IsTag(tag.close) && NextTagged(tag, text).Element?
    ensures var e := NextTagged(tag, text);
      TaggedOk(tag, e.gap, e.attr, e.inner) && text == PrintTagged(tag, e.gap, e.attr, e.inner, e.rest)
  {
    SplitAtFind(text, tag.open);
    FreeBeforeFind(text, tag.open);
    var after := text[Find(text, tag.open).value + |tag.open|..];
    SplitAtFind(after, END);
    FreeBeforeFind(after, END);
    ContainsChar(after[..Find(after, END).value], '>');
    var body := after[Find(after, END).value + 1..];
    SplitAtFind(body, tag.close);
    FreeBeforeFind(body, tag.close);
  }

  lemma PrintedIsTagged(tag: Tag, gap: string, attr: string, inner: string, rest: string)
    requires IsTag(tag.open) && IsTag(tag.close) && TaggedOk(tag, gap, attr, inner)
    ensures NextTagged(tag, PrintTagged(tag, gap, attr, inner, rest)) == Element(gap, attr, inner, rest)
  {
    var body := inner + tag.close + rest;
    FindTag(inner, tag.close, rest);
    assert body[..|inner|] == inner && body[|inner| + |tag.close|..] == rest;
    var after := attr + END + body;
    ContainsChar(attr, '>');
    FindTag(attr, END, body);
    assert after[..|attr|] == attr && after[|attr| + 1..] == body;
    FindTag(gap, tag.open, after);
    var text := gap + tag.open + after;
    assert text[..|gap|] == gap && text[|gap| + |tag.open|..] == after;
  }

  // ---- parameters ----------------------------------------------------------------------

  /** A parameter with the text before it. Key and value may be padded. */
  datatype Param = Param(gap: string, key: string, value: string)

  function PrintParams(params: seq<Param>, tail: string): string {
    if params == [] then tail
    else PrintTagged(PARAMETER, params[0].gap, params[0].key, params[0].value, PrintParams(params[1..], tail))
  }

  ghost predicate ParamsOk(params: seq<Param>, tail: string) {
    !Contains(tail, PARAMETER.open)
    && forall p | p in params :: TaggedOk(PARAMETER, p.gap, p.key, p.value)
  }

  function PairOf(codec: Codec, p: Param): (string, Value) {
    (Trim(p.key), ParamValue(codec, Trim(p.value)))
  }

  function PairsOf(codec: Codec, params: seq<Param>): seq<(string, Value)> {
    Each((p: Param) => PairOf(codec, p), params)
  }

  lemma {:induction false} ParamsRoundTrip(codec: Codec, params: seq<Param>, tail: string)
    requires ParamsOk(params, tail)
    ensures ParsePairs(codec, PrintParams(params, tail)) == Ok(PairsOf(codec, params))
  {
    TagsAreTags();
    if params != [] {
      var p := params[0];
      assert p in params;
      PrintedIsTagged(PARAMETER, p.gap, p.key, p.value, PrintParams(params[1..], tail));
      ParamsRoundTrip(codec, params[1..], tail);
    }
  }

  lemma {:induction false} ParamsParsed(codec: Codec, text: string) returns (params: seq<Param>, tail: string)
    requires ParsePairs(codec, text).Ok?
    ensures ParamsOk(params, tail) && text == PrintParams(params, tail)
    decreases |text|
  {
    TagsAreTags();
    var e := NextTagged(PARAMETER, text);
    if e.Element? {
      TaggedIsPrinted(PARAMETER, text);
      var rest;
      rest, tail := ParamsParsed(codec, e.rest);
      params := [Param(e.gap, e.attr, e.inner)] + rest;
      assert params[1..] == rest;
    } else {
      params, tail := [], text;
    }
  }

  /** A parameter list parses exactly when it is a printed one. */
  lemma ParamsIff(codec: Codec, text: string)
    ensures ParsePairs(codec, text).Ok? <==> exists params, tail :: ParamsOk(params, tail) && text == PrintParams(params, tail)
  {
    if ParsePairs(codec, text).Ok? {
      var params, tail := ParamsParsed(codec, text);
    }
    if exists params, tail :: ParamsOk(params, tail) && text == PrintParams(params, tail) {
      var params, tail :| ParamsOk(params, tail) && text == PrintParams(params, tail);
      ParamsRoundTrip(codec, params, tail);
    }
  }

  /** A key of the argument object holds the value of its last occurrence. */
  lemma {:induction false} MapOfLast(pairs: seq<(string, Value)>, key: string)
    ensures key in MapOf(pairs) <==> exists i :: 0 <= i < |pairs| && pairs[i].0 == key
    ensures forall i | 0 <= i < |pairs| && pairs[i].0 == key && (forall j | i < j < |pairs| :: pairs[j].0 != key)
              :: MapOf(pairs)[key] == pairs[i].1
  {
    if pairs != [] {
      var n := |pairs| - 1;
      var before := pairs[..n];
      MapOfLast(before, key);
      assert forall i | 0 <= i < n :: before[i] == pairs[i];
      if pairs[n].0 != key {
        assert MapOf(pairs) == MapOf(before)[pairs[n].0 := pairs[n].1];
        assert (exists i :: 0 <= i < n && before[i].0 == key) <==> exists i :: 0 <= i < |pairs| && pairs[i].0 == key;
      }
    }
  }

  // ---- calls ---------------------------------------------------------------------------

  datatype Call = Call(gap: string, name: string, params: seq<Param>, tail: string)
  {
    function Inner(): string {
      PrintParams(params, tail)
    }
  }

  function PrintCalls(calls: seq<Call>, tail: string): string {
    if calls == [] then tail
    else PrintTagged(FUNCTION, calls[0].gap, calls[0].name, calls[0].Inner(), PrintCalls(calls[1..], tail))
  }

  ghost predicate CallOk(c: Call) {
    ParamsOk(c.params, c.tail) && TaggedOk(FUNCTION, c.gap, c.name, c.Inner())
  }

  ghost predicate CallsOk(calls: seq<Call>, tail: string) {
    !Contains(tail, FUNCTION.open) && forall c | c in calls :: CallOk(c)
  }

  function Meaning(codec: Codec, c: Call): RawCall {
    RawCall(Trim(c.name), Arguments(codec, PairsOf(codec, c.params)))
  }

  function Meanings(codec: Codec, calls: seq<Call>): seq<RawCall> {
    Each((c: Call) => Meaning(codec, c), calls)
  }

  lemma {:induction false} CallsRoundTrip(codec: Codec, calls: seq<Call>, tail: string)
    requires CallsOk(calls, tail)
    ensures ParseCalls(codec, PrintCalls(calls, tail)) == Ok(Meanings(codec, calls))
  {
    TagsAreTags();
    if calls != [] {
      var c := calls[0];
      assert c in calls;
      PrintedIsTagged(FUNCTION, c.gap, c.name, c.Inner(), PrintCalls(calls[1..], tail));
      ParamsRoundTrip(codec, c.params, c.tail);
      CallsRoundTrip(codec, calls[1..], tail);
    }
  }

  lemma {:induction false} CallsParsed(codec: Codec, text: string) returns (calls: seq<Call>, tail: string)
    requires ParseCalls(codec, text).Ok?
    ensures CallsOk(calls, tail) && text == PrintCalls(calls, tail)
    decreases |text|
  {
    TagsAreTags();
    var e := NextTagged(FUNCTION, text);
    if e.Element? {
      TaggedIsPrinted(FUNCTION, text);
      var params, inside := ParamsParsed(codec, e.inner);
      var rest;
      rest, tail := CallsParsed(codec, e.rest);
      calls := [Call(e.gap, e.attr, params, inside)] + rest;
      assert calls[1..] == rest;
    } else {
      calls, tail := [], text;
    }
  }

  /** A tagged block yields calls exactly when it is a non-empty list of printed calls, and the
      calls are the printed ones. */
  lemma TaggedCallsIff(codec: Codec, body: string, raw: seq<RawCall>)
    ensures TaggedCalls(codec, body) == Ok(raw)
       <==> raw != [] && exists calls, tail ::
              CallsOk(calls, tail) && body == PrintCalls(calls, tail) && raw == Meanings(codec, calls)
  {
    if TaggedCalls(codec, body) == Ok(raw) {
      var calls, tail := CallsParsed(codec, body);
      CallsRoundTrip(codec, calls, tail);
    }
    if exists calls, tail :: CallsOk(calls, tail) && body == PrintCalls(calls, tail) && raw == Meanings(codec, calls) {
      var calls, tail :| CallsOk(calls, tail) && body == PrintCalls(calls, tail) && raw == Meanings(codec, calls);
      CallsRoundTrip(codec, calls, tail);
    }
  }

  // ---- documents -----------------------------------------------------------------------

  /** A block with the plain text before it. */
  datatype Block = Block(plain: string, body: string)

  function Print(blocks: seq<Block>, tail: string): string {
    if blocks == [] then tail
    else blocks[0].plain + OPEN + (blocks[0].body + CLOSE + Print(blocks[1..], tail))
  }

  ghost predicate BlocksOk(blocks: seq<Block>, tail: string) {
    !Contains(tail, OPEN)
    && forall b | b in blocks :: !Contains(b.plain, OPEN) && !Contains(b.body, CLOSE)
  }

  function Plain(blocks: seq<Block>): string {
    if blocks == [] then "" else blocks[0].plain + Plain(blocks[1..])
  }

  /** The calls of all blocks, or the first error met: one bad block fails the whole parse. */
  function CheckedBlocks(codec: Codec, tools: Value, blocks: seq<Block>): Result<seq<RawCall>> {
    if blocks == [] then Ok([])
    else
      match CheckedBlock(codec, tools, blocks[0].body)
      case Err(e) => Err(e)
      case Ok(calls) => Prefix(calls, CheckedBlocks(codec, tools, blocks[1..]))
  }

  lemma PrintedBlock(plain: string, body: string, rest: string)
    requires !Contains(plain, OPEN) && !Contains(body, CLOSE)
    ensures NextBlock(plain + OPEN + (body + CLOSE + rest)) == Element(plain, "", body, rest)
  {
    TagsAreTags();
    var after := body + CLOSE + rest;
    FindTag(body, CLOSE, rest);
    assert after[..|body|] == body && after[|body| + |CLOSE|..] == rest;
    FindTag(plain, OPEN, after);
    var text := plain + OPEN + after;
    assert text[..|plain|] == plain && text[|plain| + |OPEN|..] == after;
  }

  lemma BlockIsPrinted(text: string)
    requires NextBlock(text).Element?
    ensures var e := NextBlock(text);
      !Contains(e.gap, OPEN) && !Contains(e.inner, CLOSE) && text == e.gap + OPEN + (e.inner + CLOSE + e.rest)
  {
    SplitAtFind(text, OPEN);
    FreeBeforeFind(text, OPEN);
    var after := text[Find(text, OPEN).value + |OPEN|..];
    SplitAtFind(after, CLOSE);
    FreeBeforeFind(after, CLOSE);
  }

  lemma JoinAfter(p: string, block: Result<seq<RawCall>>, q: string, blocks: Result<seq<RawCall>>, tail: string)
    ensures After(p, block, After(q, blocks, Ok((tail, []))))
         == After(p + q, if block.Ok? then Prefix(block.value, blocks) else block, Ok((tail, [])))
  {
    if block.Ok? && blocks.Ok? {
      JoinTwice(p, block.value, q, blocks.value, Ok((tail, [])));
    }
  }

  lemma ScanOne(codec: Codec, tools: Value, b: Block, rest: string)
    requires !Contains(b.plain, OPEN) && !Contains(b.body, CLOSE)
    ensures Scan(codec, tools, b.plain + OPEN + (b.body + CLOSE + rest))
         == After(b.plain, CheckedBlock(codec, tools, b.body), Scan(codec, tools, rest))
  {
    PrintedBlock(b.plain, b.body, rest);
  }

  /** Scanning a printed document meets its blocks in order. */
  lemma {:induction false} ScanPrinted(codec: Codec, tools: Value, blocks: seq<Block>, tail: string)
    requires BlocksOk(blocks, tail)
    ensures Scan(codec, tools, Print(blocks, tail)) == After(Plain(blocks), CheckedBlocks(codec, tools, blocks), Ok((tail, [])))
  {
    if blocks == [] {
      JoinNone(Ok((tail, [])));
    } else {
      var b, rest := blocks[0], Print(blocks[1..], tail);
      assert b in blocks;
      ScanOne(codec, tools, b, rest);
      ScanPrinted(codec, tools, blocks[1..], tail);
      JoinAfter(b.plain, CheckedBlock(codec, tools, b.body), Plain(blocks[1..]), CheckedBlocks(codec, tools, blocks[1..]), tail);
    }
  }

  lemma ScanElement(codec: Codec, tools: Value, text: string)
    requires NextBlock(text).Element?
    ensures var e := NextBlock(text);
      Scan(codec, tools, text) == After(e.gap, CheckedBlock(codec, tools, e.inner), Scan(codec, tools, e.rest))
  {
  }

  lemma AfterOk(plain: string, block: Result<seq<RawCall>>, rest: Result<(string, seq<RawCall>)>)
    requires After(plain, block, rest).Ok?
    ensures rest.Ok?
  {
  }

  lemma PrintCons(b: Block, rest: seq<Block>, tail: string)
    requires BlocksOk(rest, tail) && !Contains(b.plain, OPEN) && !Contains(b.body, CLOSE)
    ensures BlocksOk([b] + rest, tail)
    ensures Print([b] + rest, tail) == b.plain + OPEN + (b.body + CLOSE + Print(rest, tail))
  {
    assert ([b] + rest)[1..] == rest;
  }

  /** A text whose scan succeeds is a printed document. */
  lemma {:induction false} ScanParsed(codec: Codec, tools: Value, text: string) returns (blocks: seq<Block>, tail: string)
    requires Scan(codec, tools, text).Ok?
    ensures BlocksOk(blocks, tail) && text == Print(blocks, tail)
    decreases |text|
  {
    var e := NextBlock(text);
    if e.Element? {
      BlockIsPrinted(text);
      ScanElement(codec, tools, text);
      AfterOk(e.gap, CheckedBlock(codec, tools, e.inner), Scan(codec, tools, e.rest));
      var rest;
      rest, tail := ScanParsed(codec, tools, e.rest);
      blocks := [Block(e.gap, e.inner)] + rest;
      PrintCons(Block(e.gap, e.inner), rest, tail);
    } else {
      blocks, tail := [], text;
    }
  }

  /** The outcome on any printed document with a block in it. */
  lemma NormalizePrinted(codec: Codec, tools: Value, blocks: seq<Block>, tail: string)
    requires BlocksOk(blocks, tail) && blocks != []
    ensures Normalize(codec, Print(blocks, tail), tools)
         == Finish(After(Plain(blocks), CheckedBlocks(codec, tools, blocks), Ok((tail, []))))
  {
    PrintedBlock(blocks[0].plain, blocks[0].body, Print(blocks[1..], tail));
    ScanPrinted(codec, tools, blocks, tail);
  }

  ghost predicate Reads(codec: Codec, tools: Value, content: string, blocks: seq<Block>, tail: string,
                        plain: string, calls: seq<ToolCall>) {
    && BlocksOk(blocks, tail) && content == Print(blocks, tail)
    && CheckedBlocks(codec, tools, blocks).Ok?
    && var raw := CheckedBlocks(codec, tools, blocks).value;
       raw != [] && plain == Trim(Plain(blocks) + tail) && calls == WithIds(raw)
  }

  lemma FinishIff(before: string, checked: Result<seq<RawCall>>, tail: string, plain: string, calls: seq<ToolCall>)
    ensures Finish(After(before, checked, Ok((tail, [])))) == Ok(Some((plain, calls)))
       <==> checked.Ok? && checked.value != [] && plain == Trim(before + tail) && calls == WithIds(checked.value)
  {
    if checked.Ok? {
      assert checked.value + [] == checked.value;
    }
  }

  lemma ReadsIff(codec: Codec, tools: Value, blocks: seq<Block>, tail: string, plain: string, calls: seq<ToolCall>)
    requires BlocksOk(blocks, tail) && blocks != []
    ensures Reads(codec, tools, Print(blocks, tail), blocks, tail, plain, calls)
       <==> Normalize(codec, Print(blocks, tail), tools) == Ok(Some((plain, calls)))
  {
    NormalizePrinted(codec, tools, blocks, tail);
    FinishIff(Plain(blocks), CheckedBlocks(codec, tools, blocks), tail, plain, calls);
  }

  /** Soundness and completeness on every input: a parse succeeds exactly when the content is
      plain text and blocks whose tags rebuild it, every block parses to offered calls and there
      is at least one call; the answer is then the trimmed plain text and the numbered calls. */
  lemma NormalizeIff(codec: Codec, tools: Value, content: string, plain: string, calls: seq<ToolCall>)
    ensures Normalize(codec, content, tools) == Ok(Some((plain, calls)))
       <==> exists blocks: seq<Block>, tail: string :: Reads(codec, tools, content, blocks, tail, plain, calls)
  {
    if Normalize(codec, content, tools) == Ok(Some((plain, calls))) {
      var blocks, tail := ScanParsed(codec, tools, content);
      ReadsIff(codec, tools, blocks, tail, plain, calls);
    }
    if exists blocks: seq<Block>, tail: string :: Reads(codec, tools, content, blocks, tail, plain, calls) {
      var blocks: seq<Block>, tail: string :| Reads(codec, tools, content, blocks, tail, plain, calls);
      ReadsIff(codec, tools, blocks, tail, plain, calls);
    }
  }

  lemma NoMarkerIff(codec: Codec, tools: Value, content: string)
    ensures Normalize(codec, content, tools) == Ok(None) <==> !Contains(content, OPEN)
  {
  }

  // ---- errors and offered names --------------------------------------------------------

  lemma {:induction false} CheckNamesIff(tools: Value, calls: seq<RawCall>)
    ensures CheckNames(tools, calls) == Ok(calls) <==> forall c | c in calls :: Offered(tools, c.name)
    ensures CheckNames(tools, calls).Ok? ==> CheckNames(tools, calls).value == calls
  {
    if calls != [] {
      CheckNamesIff(tools, calls[1..]);
      assert calls == [calls[0]] + calls[1..];
    }
  }

  lemma {:induction false} CheckedBlocksOffered(codec: Codec, tools: Value, blocks: seq<Block>)
    requires CheckedBlocks(codec, tools, blocks).Ok?
    ensures forall c | c in CheckedBlocks(codec, tools, blocks).value :: Offered(tools, c.name)
  {
    if blocks != [] {
      CheckedBlocksOffered(codec, tools, blocks[1..]);
      CheckNamesIff(tools, ToolBlock(codec, Trim(blocks[0].body)).value);
    }
  }

  /** Whatever the input, a success only names offered functions and numbers its calls from 0. */
  lemma OnlyOfferedNames(codec: Codec, tools: Value, content: string, plain: string, calls: seq<ToolCall>)
    requires Normalize(codec, content, tools) == Ok(Some((plain, calls)))
    ensures calls != [] && forall i | 0 <= i < |calls| :: Offered(tools, calls[i].name) && calls[i].id == SynthesizedId(i)
  {
    NormalizeIff(codec, tools, content, plain, calls);
    var blocks: seq<Block>, tail: string :| Reads(codec, tools, content, blocks, tail, plain, calls);
    CheckedBlocksOffered(codec, tools, blocks);
    var raw := CheckedBlocks(codec, tools, blocks).value;
    forall i | 0 <= i < |calls|
      ensures Offered(tools, calls[i].name)
    {
      assert raw[i] in raw;
    }
  }

  lemma {:induction false} CheckedBlocksAllParse(codec: Codec, tools: Value, blocks: seq<Block>, i: nat)
    requires i < |blocks|
    ensures CheckedBlocks(codec, tools, blocks).Ok? ==> CheckedBlock(codec, tools, blocks[i].body).Ok?
    decreases i
  {
    var rest := blocks[1..];
    if i > 0 {
      CheckedBlocksAllParse(codec, tools, rest, i - 1);
      assert rest[i - 1] == blocks[i];
    }
  }

  /** One bad block fails the whole parse. */
  lemma OneBadBlockFails(codec: Codec, tools: Value, blocks: seq<Block>, tail: string, bad: nat)
    requires BlocksOk(blocks, tail) && bad < |blocks| && CheckedBlock(codec, tools, blocks[bad].body).Err?
    ensures Normalize(codec, Print(blocks, tail), tools).Err?
  {
    NormalizePrinted(codec, tools, blocks, tail);
    CheckedBlocksAllParse(codec, tools, blocks, bad);
  }

  /** An opening tag that is never closed fails the parse, whatever precedes it. */
  lemma {:induction false} UnclosedFails(codec: Codec, tools: Value, blocks: seq<Block>, plain: string, unclosed: string)
    requires BlocksOk(blocks, plain) && !Contains(unclosed, CLOSE)
    ensures Normalize(codec, Print(blocks, plain + OPEN + unclosed), tools).Err?
    ensures Scan(codec, tools, Print(blocks, plain + OPEN + unclosed)).Err?
  {
    TagsAreTags();
    var text := plain + OPEN + unclosed;
    if blocks == [] {
      FindTag(plain, OPEN, unclosed);
      assert text[|plain| + |OPEN|..] == unclosed;
    } else {
      var b, rest := blocks[0], Print(blocks[1..], text);
      assert b in blocks;
      UnclosedFails(codec, tools, blocks[1..], plain, unclosed);
      PrintedBlock(b.plain, b.body, rest);
      ScanOne(codec, tools, b, rest);
    }
  }

  // ---- round trips ---------------------------------------------------------------------

  /** A block of tagged calls with the plain text before it and white space around its calls. */
  datatype TaggedBlock = TaggedBlock(plain: string, lead: string, calls: seq<Call>, tail: string, trail: string)
  {
    function Core(): string {
      PrintCalls(calls, tail)
    }

    function ToBlock(): Block {
      Block(plain, lead + Core() + trail)
    }
  }

  ghost predicate TaggedBlockOk(b: TaggedBlock) {
    && !Contains(b.plain, OPEN) && !Contains(b.ToBlock().body, CLOSE)
    && AllSpace(b.lead) && AllSpace(b.trail)
    && b.calls != [] && CallsOk(b.calls, b.tail)
    && var core := b.Core();
       core != "" && core[0] != '{' && core[0] != '[' && !IsSpace(core[0]) && !IsSpace(core[|core| - 1])
  }

  ghost predicate NamesOffered(tools: Value, calls: seq<Call>) {
    forall c | c in calls :: Offered(tools, Trim(c.name))
  }

  function ToBlocks(doc: seq<TaggedBlock>): seq<Block> {
    if doc == [] then [] else [doc[0].ToBlock()] + ToBlocks(doc[1..])
  }

  function AllCalls(doc: seq<TaggedBlock>): seq<Call> {
    if doc == [] then [] else doc[0].calls + AllCalls(doc[1..])
  }

  lemma MeaningsOffered(codec: Codec, tools: Value, calls: seq<Call>)
    requires NamesOffered(tools, calls)
    ensures forall r | r in Meanings(codec, calls) :: Offered(tools, r.name)
  {
    EachMember((c: Call) => Meaning(codec, c), calls);
    forall r | r in Meanings(codec, calls)
      ensures Offered(tools, r.name)
    {
      var c :| c in calls && r == Meaning(codec, c);
    }
  }

  lemma NotJson(core: string)
    requires core != "" && core[0] != '{' && core[0] != '['
    ensures !LooksLikeJson(core)
  {
  }

  lemma TaggedBlockRoundTrip(codec: Codec, tools: Value, b: TaggedBlock)
    requires TaggedBlockOk(b) && NamesOffered(tools, b.calls)
    ensures CheckedBlock(codec, tools, b.ToBlock().body) == Ok(Meanings(codec, b.calls))
  {
    TrimPadded(b.lead, b.Core(), b.trail);
    NotJson(b.Core());
    CallsRoundTrip(codec, b.calls, b.tail);
    MeaningsOffered(codec, tools, b.calls);
    CheckNamesIff(tools, Meanings(codec, b.calls));
  }

  lemma {:induction false} DocumentRoundTrip(codec: Codec, tools: Value, doc: seq<TaggedBlock>, tail: string)
    requires !Contains(tail, OPEN)
    requires forall b | b in doc :: TaggedBlockOk(b) && NamesOffered(tools, b.calls)
    ensures BlocksOk(ToBlocks(doc), tail)
    ensures CheckedBlocks(codec, tools, ToBlocks(doc)) == Ok(Meanings(codec, AllCalls(doc)))
  {
    if doc != [] {
      assert doc[0] in doc;
      TaggedBlockRoundTrip(codec, tools, doc[0]);
      DocumentRoundTrip(codec, tools, doc[1..], tail);
      EachAppend((c: Call) => Meaning(codec, c), doc[0].calls, AllCalls(doc[1..]));
    }
  }

  lemma MeaningRoundTrip(codec: Codec, tools: Value, doc: seq<TaggedBlock>, tail: string)
    requires doc != [] && !Contains(tail, OPEN)
    requires forall b | b in doc :: TaggedBlockOk(b) && NamesOffered(tools, b.calls)
    ensures Normalize(codec, Print(ToBlocks(doc), tail), tools)
         == Ok(Some((Trim(Plain(ToBlocks(doc)) + tail), WithIds(Meanings(codec, AllCalls(doc))))))
  {
    DocumentRoundTrip(codec, tools, doc, tail);
    NormalizePrinted(codec, tools, ToBlocks(doc), tail);
    var raw, plain := Meanings(codec, AllCalls(doc)), Plain(ToBlocks(doc));
    assert doc[0] in doc && AllCalls(doc) != [];
    EachLength((c: Call) => Meaning(codec, c), AllCalls(doc));
    FinishIff(plain, Ok(raw), tail, Trim(plain + tail), WithIds(raw));
  }

  /** A call as it is meant: a name, and arguments by name. */
  datatype NamedCall = NamedCall(name: string, args: seq<(string, Value)>)

  /** A text writes a value: as JSON that reads back, or, for a string that is not JSON, bare. */
  predicate Writes(codec: Codec, text: string, v: Value) {
    (text == codec.render(v) && ReadsBack(codec, v)) || (v == Str(text) && codec.parse(text).None?)
  }

  /** Two lists of the same length, related entry by entry. */
  predicate AllPairs<A, B>(related: (A, B) -> bool, xs: seq<A>, ys: seq<B>) {
    |xs| == |ys| && forall i | 0 <= i < |xs| :: related(xs[i], ys[i])
  }

  lemma OnePair<A, B>(related: (A, B) -> bool, xs: seq<A>, ys: seq<B>)
    requires |xs| == |ys| == 1 && related(xs[0], ys[0])
    ensures AllPairs(related, xs, ys)
  {
  }

  predicate WritesPair(codec: Codec, p: Param, arg: (string, Value)) {
    Trim(p.key) == arg.0 && Writes(codec, Trim(p.value), arg.1)
  }

  /** A printed call writes a named one, with white space around names, keys and values. */
  predicate WritesCall(codec: Codec, c: Call, n: NamedCall) {
    Trim(c.name) == n.name && AllPairs((p: Param, arg: (string, Value)) => WritesPair(codec, p, arg), c.params, n.args)
  }

  lemma WrittenValue(codec: Codec, text: string, v: Value)
    requires Writes(codec, text, v)
    ensures ParamValue(codec, text) == v
  {
  }

  lemma WrittenPair(codec: Codec, p: Param, arg: (string, Value))
    requires WritesPair(codec, p, arg)
    ensures PairOf(codec, p) == arg
  {
    WrittenValue(codec, Trim(p.value), arg.1);
  }

  lemma WrittenPairs(codec: Codec, params: seq<Param>, args: seq<(string, Value)>)
    requires AllPairs((p: Param, arg: (string, Value)) => WritesPair(codec, p, arg), params, args)
    ensures PairsOf(codec, params) == args
  {
    var pairs := PairsOf(codec, params);
    EachLength((p: Param) => PairOf(codec, p), params);
    forall i | 0 <= i < |args|
      ensures pairs[i] == args[i]
    {
      EachAt((p: Param) => PairOf(codec, p), params, i);
      WrittenPair(codec, params[i], args[i]);
    }
  }

  lemma WrittenCall(codec: Codec, c: Call, n: NamedCall)
    requires WritesCall(codec, c, n)
    ensures Meaning(codec, c) == RawCall(n.name, codec.render(Obj(MapOf(n.args))))
  {
    WrittenPairs(codec, c.params, n.args);
  }

  lemma {:induction false} CallInDoc(doc: seq<TaggedBlock>, c: Call) returns (b: TaggedBlock)
    requires c in AllCalls(doc)
    ensures b in doc && c in b.calls
  {
    if c in doc[0].calls {
      b := doc[0];
    } else {
      b := CallInDoc(doc[1..], c);
    }
  }

  lemma {:induction false} CallOfDoc(doc: seq<TaggedBlock>, b: TaggedBlock, c: Call)
    requires b in doc && c in b.calls
    ensures c in AllCalls(doc)
  {
    if b != doc[0] {
      CallOfDoc(doc[1..], b, c);
    }
  }

  predicate WritesOffered(codec: Codec, tools: Value, c: Call, n: NamedCall) {
    WritesCall(codec, c, n) && Offered(tools, n.name)
  }

  /** The calls of a document write named calls, all of offered functions. */
  predicate WritesAll(codec: Codec, tools: Value, doc: seq<TaggedBlock>, named: seq<NamedCall>) {
    AllPairs((c: Call, n: NamedCall) => WritesOffered(codec, tools, c, n), AllCalls(doc), named)
  }

  lemma WrittenAreOffered(codec: Codec, tools: Value, doc: seq<TaggedBlock>, named: seq<NamedCall>, b: TaggedBlock)
    requires WritesAll(codec, tools, doc, named) && b in doc
    ensures NamesOffered(tools, b.calls)
  {
    forall c | c in b.calls
      ensures Offered(tools, Trim(c.name))
    {
      CallOfDoc(doc, b, c);
      var i :| 0 <= i < |AllCalls(doc)| && AllCalls(doc)[i] == c;
      assert WritesOffered(codec, tools, AllCalls(doc)[i], named[i]);
    }
  }

  /** Calls with the names and arguments meant, numbered from 0. */
  predicate CallsMean(codec: Codec, calls: seq<ToolCall>, named: seq<NamedCall>) {
    && |calls| == |named|
    && forall i | 0 <= i < |named| ::
         calls[i] == ToolCall("call_" + Decimal(i), named[i].name, codec.render(Obj(MapOf(named[i].args))))
  }

  /** Round trip: plain text and blocks of tagged calls, written and normalized, give back the calls that
      were meant, in order and numbered across blocks, and the trimmed plain text. Argument values may be
      written as JSON, and strings that are not JSON as they are. */
  lemma RoundTrip(codec: Codec, tools: Value, doc: seq<TaggedBlock>, tail: string, named: seq<NamedCall>)
    requires doc != [] && !Contains(tail, OPEN) && (forall b | b in doc :: TaggedBlockOk(b))
    requires WritesAll(codec, tools, doc, named)
    ensures var r := Normalize(codec, Print(ToBlocks(doc), tail), tools);
      && r.Ok? && r.value.Some? && r.value.value.0 == Trim(Plain(ToBlocks(doc)) + tail)
      && CallsMean(codec, r.value.value.1, named)
  {
    forall b | b in doc
      ensures NamesOffered(tools, b.calls)
    {
      WrittenAreOffered(codec, tools, doc, named, b);
    }
    MeaningRoundTrip(codec, tools, doc, tail);
    var raw := Meanings(codec, AllCalls(doc));
    EachLength((c: Call) => Meaning(codec, c), AllCalls(doc));
    forall i | 0 <= i < |named|
      ensures WithIds(raw)[i] == ToolCall("call_" + Decimal(i), named[i].name, codec.render(Obj(MapOf(named[i].args))))
    {
      EachAt((c: Call) => Meaning(codec, c), AllCalls(doc), i);
      WrittenCall(codec, AllCalls(doc)[i], named[i]);
    }
  }

  // ---- one call, written out -----------------------------------------------------------

  function OneParameter(key: string, text: string): string {
    "<parameter=" + (key + ">" + (text + "</parameter>"))
  }

  function OneFunction(name: string, inner: string): string {
    "<function=" + (name + ">" + (inner + "</function>"))
  }

  function OneBlock(body: string): string {
    "<tool_call>" + (body + "</tool_call>")
  }

  lemma PrintedOnce(tag: Tag, attr: string, inner: string)
    ensures PrintTagged(tag, "", attr, inner, "") == tag.open + (attr + END + (inner + tag.close))
  {
    assert "" + tag.open == tag.open && inner + tag.close + "" == inner + tag.close;
  }

  lemma FreeOfEmpty(pat: string)
    requires pat != ""
    ensures !Contains("", pat)
  {
  }

  function OneCall(name: string, key: string, text: string): Call {
    Call("", name, [Param("", key, text)], "")
  }

  lemma OneCallIs(name: string, key: string, text: string)
    ensures OneCall(name, key, text).Inner() == OneParameter(key, text)
    ensures PrintCalls([OneCall(name, key, text)], "") == OneFunction(name, OneParameter(key, text))
  {
    OneParamPrints(Param("", key, text));
    OneCallPrints(OneCall(name, key, text));
  }

  lemma OneParamPrints(p: Param)
    requires p.gap == ""
    ensures PrintParams([p], "") == OneParameter(p.key, p.value)
  {
    assert [p][1..] == [];
    PrintedOnce(PARAMETER, p.key, p.value);
  }

  lemma OneCallPrints(c: Call)
    requires c.gap == ""
    ensures PrintCalls([c], "") == OneFunction(c.name, c.Inner())
  {
    assert [c][1..] == [];
    PrintedOnce(FUNCTION, c.name, c.Inner());
  }

  lemma OneCallOk(name: string, key: string, text: string)
    requires '>' !in name && '>' !in key && !Contains(text, "</parameter>")
    requires !Contains(OneParameter(key, text), "</function>")
    ensures CallsOk([OneCall(name, key, text)], "")
  {
    OneCallIs(name, key, text);
    FreeOfEmpty(PARAMETER.open);
    FreeOfEmpty(FUNCTION.open);
  }

  /** The common form: one call of an offered function with one argument, written either way. */
  lemma OneCallRoundTrip(codec: Codec, tools: Value, name: string, key: string, text: string, v: Value)
    requires '>' !in name && '>' !in key && !Contains(text, "</parameter>")
    requires !Contains(OneParameter(key, text), "</function>")
    requires !Contains(OneFunction(name, OneParameter(key, text)), "</tool_call>")
    requires Trim(name) == name && Trim(key) == key && Trim(text) == text && Writes(codec, text, v) && Offered(tools, name)
    ensures Normalize(codec, OneBlock(OneFunction(name, OneParameter(key, text))), tools)
         == Ok(Some(("", [ToolCall("call_0", name, codec.render(Obj(map[key := v])))])))
  {
    var c, n := OneCall(name, key, text), NamedCall(name, [(key, v)]);
    OneCallIs(name, key, text);
    OneCallOk(name, key, text);
    OneBlockOk(c, OneFunction(name, OneParameter(key, text)));
    OneDocument(c);
    OneWrites(codec, c, n);
    OneWritesAll(codec, tools, OneDoc(c), c, n);
    FreeOfEmpty(OPEN);
    OneOfDoc(codec, tools, OneDoc(c), "", OneBlock(OneFunction(name, OneParameter(key, text))), name, key, v);
  }

  function OneDoc(c: Call): seq<TaggedBlock> {
    [TaggedBlock("", "", [c], "", "")]
  }

  lemma OneWrites(codec: Codec, c: Call, n: NamedCall)
    requires |c.params| == |n.args| == 1 && Trim(c.name) == n.name && WritesPair(codec, c.params[0], n.args[0])
    ensures WritesCall(codec, c, n)
  {
    OnePair((p: Param, arg: (string, Value)) => WritesPair(codec, p, arg), c.params, n.args);
  }

  lemma OneWritesAll(codec: Codec, tools: Value, doc: seq<TaggedBlock>, c: Call, n: NamedCall)
    requires AllCalls(doc) == [c] && WritesCall(codec, c, n) && Offered(tools, n.name)
    ensures WritesAll(codec, tools, doc, [n])
  {
    OnePair((d: Call, m: NamedCall) => WritesOffered(codec, tools, d, m), AllCalls(doc), [n]);
  }

  lemma OneOfDoc(codec: Codec, tools: Value, doc: seq<TaggedBlock>, tail: string, text: string, name: string, key: string, v: Value)
    requires doc != [] && !Contains(tail, OPEN) && (forall b | b in doc :: TaggedBlockOk(b))
    requires WritesAll(codec, tools, doc, [NamedCall(name, [(key, v)])])
    requires Print(ToBlocks(doc), tail) == text && Trim(Plain(ToBlocks(doc)) + tail) == ""
    ensures Normalize(codec, text, tools) == Ok(Some(("", [ToolCall("call_0", name, codec.render(Obj(map[key := v])))])))
  {
    RoundTrip(codec, tools, doc, tail, [NamedCall(name, [(key, v)])]);
    OneResult(codec, Normalize(codec, text, tools).value.value.1, name, key, v);
  }

  lemma OneResult(codec: Codec, calls: seq<ToolCall>, name: string, key: string, v: Value)
    requires CallsMean(codec, calls, [NamedCall(name, [(key, v)])])
    ensures calls == [ToolCall("call_0", name, codec.render(Obj(map[key := v])))]
  {
    MapOfSnoc([], key, v);
    assert [] + [(key, v)] == [(key, v)];
    OneIdIs();
  }

  lemma OneIdIs()
    ensures "call_" + Decimal(0) == "call_0"
  {
  }

  lemma OneBlockOk(c: Call, core: string)
    requires CallsOk([c], "") && PrintCalls([c], "") == core && core != "" && core[0] == '<' && core[|core| - 1] == '>'
    requires !Contains(core, "</tool_call>")
    ensures forall b | b in OneDoc(c) :: TaggedBlockOk(b)
  {
    assert "" + core + "" == core;
    FreeOfEmpty(OPEN);
  }

  lemma OneDocument(c: Call)
    ensures var doc, core := OneDoc(c), PrintCalls([c], "");
      && AllCalls(doc) == [c] && Print(ToBlocks(doc), "") == OneBlock(core) && Trim(Plain(ToBlocks(doc)) + "") == ""
  {
    var doc, core := [TaggedBlock("", "", [c], "", "")], PrintCalls([c], "");
    assert doc[1..] == [] && [c] + AllCalls([]) == [c];
    assert "" + core + "" == core;
    assert ToBlocks(doc) == [Block("", core)] && ToBlocks(doc)[1..] == [];
    assert "" + OPEN == OPEN && core + CLOSE + "" == core + CLOSE;
  }

  /** A parameter list prints the given arguments when each value is printed as JSON. */
  ghost predicate PrintsArguments(codec: Codec, params: seq<Param>, args: seq<(string, Value)>) {
    && |params| == |args|
    && forall i | 0 <= i < |args| ::
         Trim(params[i].key) == args[i].0 && Trim(params[i].value) == codec.render(args[i].1)
  }

  lemma PrintedPair(codec: Codec, p: Param, key: string, v: Value)
    requires ReadsBack(codec, v) && Trim(p.key) == key && Trim(p.value) == codec.render(v)
    ensures PairOf(codec, p) == (key, v)
  {
  }

  lemma PrintedPairs(codec: Codec, params: seq<Param>, args: seq<(string, Value)>)
    requires PrintsArguments(codec, params, args) && forall a | a in args :: ReadsBack(codec, a.1)
    ensures PairsOf(codec, params) == args
  {
    var pairs := PairsOf(codec, params);
    EachLength((p: Param) => PairOf(codec, p), params);
    forall i | 0 <= i < |args|
      ensures pairs[i] == args[i]
    {
      EachAt((p: Param) => PairOf(codec, p), params, i);
      assert args[i] in args;
      PrintedPair(codec, params[i], args[i].0, args[i].1);
    }
  }

  /** The argument object read back is the one printed, a repeated key keeping its last value. */
  lemma ArgumentsReadBack(codec: Codec, c: Call, args: seq<(string, Value)>)
    requires PrintsArguments(codec, c.params, args) && (forall a | a in args :: ReadsBack(codec, a.1))
    requires ReadsBack(codec, Obj(MapOf(args)))
    ensures codec.parse(Meaning(codec, c).arguments) == Some(Obj(MapOf(args)))
  {
    PrintedPairs(codec, c.params, args);
  }

  /** A call as JSON: `{"name": .., "arguments": ..}`, whose arguments may be JSON text in a string. */
  function JsonCallValue(call: (string, Value)): Value {
    Obj(map["name" := Str(call.0), "arguments" := call.1])
  }

  function JsonMeaning(codec: Codec, call: (string, Value)): RawCall {
    RawCall(call.0, if call.1.Str? then call.1.s else codec.render(call.1))
  }

  /** Arguments in a string have to be JSON text. */
  predicate JsonCallOk(codec: Codec, call: (string, Value)) {
    call.1.Str? ==> codec.parse(call.1.s).Some?
  }

  lemma JsonCallIff(codec: Codec, call: (string, Value))
    ensures JsonCall(codec, JsonCallValue(call)).Ok? <==> JsonCallOk(codec, call)
    ensures JsonCallOk(codec, call) ==> JsonCall(codec, JsonCallValue(call)) == Ok(JsonMeaning(codec, call))
  {
    var fields := map["name" := Str(call.0), "arguments" := call.1];
    assert JsonCallValue(call).Get("name") == Some(fields["name"]);
  }

  /** How the printed form of an array or an object begins. */
  predicate StartsJson(text: string) {
    text != "" && (text[0] == '[' || text[0] == '{')
  }

  function JsonCallValues(calls: seq<(string, Value)>): seq<Value> {
    Each(JsonCallValue, calls)
  }

  function JsonMeanings(codec: Codec, calls: seq<(string, Value)>): seq<RawCall> {
    Each((call: (string, Value)) => JsonMeaning(codec, call), calls)
  }

  lemma {:induction false} JsonCallsIff(codec: Codec, calls: seq<(string, Value)>)
    ensures JsonCalls(codec, JsonCallValues(calls)).Ok? <==> forall c | c in calls :: JsonCallOk(codec, c)
    ensures (forall c | c in calls :: JsonCallOk(codec, c)) ==> JsonCalls(codec, JsonCallValues(calls)) == Ok(JsonMeanings(codec, calls))
  {
    if calls != [] {
      JsonCallIff(codec, calls[0]);
      JsonCallsIff(codec, calls[1..]);
      assert calls == [calls[0]] + calls[1..];
    }
  }

  /** The JSON forms of a block, an array of calls or one call alone, read back the same calls, exactly
      when every argument given as a string is JSON text. */
  lemma JsonBlockRoundTrip(codec: Codec, calls: seq<(string, Value)>)
    requires ReadsBack(codec, Arr(JsonCallValues(calls))) && StartsJson(codec.render(Arr(JsonCallValues(calls))))
    ensures var r := ToolBlock(codec, codec.render(Arr(JsonCallValues(calls))));
      && (r.Ok? <==> forall c | c in calls :: JsonCallOk(codec, c))
      && (r.Ok? ==> r == Ok(JsonMeanings(codec, calls)))
  {
    JsonCallsIff(codec, calls);
  }

  lemma JsonSingleRoundTrip(codec: Codec, call: (string, Value))
    requires ReadsBack(codec, JsonCallValue(call)) && StartsJson(codec.render(JsonCallValue(call)))
    ensures var r := ToolBlock(codec, codec.render(JsonCallValue(call)));
      && (r.Ok? <==> JsonCallOk(codec, call)) && (r.Ok? ==> r == Ok([JsonMeaning(codec, call)]))
  {
    JsonCallsIff(codec, [call]);
    assert call in [call] && [call][1..] == [];
    assert JsonCallValues([call]) == [JsonCallValue(call)] + JsonCallValues([]);
    assert JsonMeanings(codec, [call]) == [JsonMeaning(codec, call)] + JsonMeanings(codec, []);
    assert JsonCallValues([]) == [] && JsonMeanings(codec, []) == [];
    assert JsonCallValues([call]) == [JsonCallValue(call)] && JsonMeanings(codec, [call]) == [JsonMeaning(codec, call)];
  }
}
