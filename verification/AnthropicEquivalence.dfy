/** Streaming a message gives what the blocking decoder gives, however the message was cut into
    events. */
module AnthropicEquivalence {
  import opened Text
  import opened Json
  import opened LineFraming
  import opened AnthropicStream

  // ---- what a stream carries -----------------------------------------------------------

  /** A text fragment with the index of its block. */
  datatype Piece = Piece(index: nat, text: string)

  function PiecesOf(es: seq<Event>): seq<Piece> {
    if es == [] then []
    else
      var e, before := es[|es| - 1], PiecesOf(es[..|es| - 1]);
      if e.TextDelta? then before + [Piece(e.index, e.text)] else before
  }

  /** Fragments in order of arrival. */
  function Arrival(ps: seq<Piece>): string {
    if ps == [] then "" else Add(Arrival(ps[..|ps| - 1]), ps[|ps| - 1].text)
  }

  /** The fragments of block `i`. */
  function TextFor(ps: seq<Piece>, i: nat): string {
    if ps == [] then ""
    else
      var p, before := ps[|ps| - 1], TextFor(ps[..|ps| - 1], i);
      if p.index == i then Add(before, p.text) else before
  }

  /** The fragments block by block, for the first `n` blocks. */
  function ByBlock(ps: seq<Piece>, n: nat): string {
    if n == 0 then "" else Add(ByBlock(ps, n - 1), TextFor(ps, n - 1))
  }

  predicate InBlockOrder(ps: seq<Piece>) {
    forall i, j | 0 <= i < j < |ps| :: ps[i].index <= ps[j].index
  }

  function JsonFor(es: seq<Event>, i: nat): string {
    if es == [] then ""
    else
      var e, before := es[|es| - 1], JsonFor(es[..|es| - 1], i);
      if e.InputJsonDelta? && e.index == i then before + e.fragment else before
  }

  /** The tool block `i` was last opened as. */
  function ToolFor(es: seq<Event>, i: nat): Option<(string, string)> {
    if es == [] then None
    else
      var e := es[|es| - 1];
      if e.BlockStart? && e.index == i && e.tool.Some? then e.tool else ToolFor(es[..|es| - 1], i)
  }

  function InputReported(es: seq<Event>): Option<Uint64> {
    if es == [] then None
    else
      var e := es[|es| - 1];
      if e.MessageStart? then e.inputTokens else InputReported(es[..|es| - 1])
  }

  function OutputReported(es: seq<Event>): Option<Uint64> {
    if es == [] then None
    else
      var e := es[|es| - 1];
      if e.MessageDelta? && e.outputTokens.Some? then e.outputTokens else OutputReported(es[..|es| - 1])
  }

  function SlotFor(es: seq<Event>, i: nat): Slot {
    var tool := ToolFor(es, i);
    Slot(if tool.Some? then tool.value.0 else "", if tool.Some? then tool.value.1 else "", JsonFor(es, i))
  }

  /** The argument text of a tool block stands for its input; no text at all stands for `{}`. */
  ghost predicate Carries(codec: Codec, text: string, input: Value) {
    if text == "" then input == Obj(map[]) else codec.parse(text) == Some(input)
  }

  /** The events are a fragmentation of the message: text fragments in block order, each tool
      block opened once or more with its id and name, its input cut anywhere and interleaved with
      anything, token counts where the protocol puts them. Thinking deltas may be anywhere. */
  ghost predicate Encodes(codec: Codec, m: Message, es: seq<Event>) {
    && InBlockOrder(PiecesOf(es))
    && (forall p | p in PiecesOf(es) :: p.index < |m.blocks|)
    && (forall i | 0 <= i < |m.blocks| ::
          match m.blocks[i]
          case TextBlock(text) => TextFor(PiecesOf(es), i) == text && ToolFor(es, i) == None
          case ToolUse(id, name, input) =>
            TextFor(PiecesOf(es), i) == "" && ToolFor(es, i) == Some((id, name)) && Carries(codec, JsonFor(es, i), input)
          case OtherBlock => TextFor(PiecesOf(es), i) == "" && ToolFor(es, i) == None)
    && (forall i: nat | |m.blocks| <= i :: ToolFor(es, i) == None)
    && m.usage == Usage(InputReported(es), OutputReported(es))
  }

  // ---- the assembler computes what the stream carries ----------------------------------

  lemma {:induction false} UsageHolds(es: seq<Event>)
    ensures HeardAll(NEW, es).usage == Usage(InputReported(es), OutputReported(es))
  {
    if es != [] {
      UsageHolds(es[..|es| - 1]);
    }
  }

  /** The content is the text that arrived, and the answer forwarded is that content. */
  lemma {:induction false} ContentHolds(es: seq<Event>)
    ensures var a := HeardAll(NEW, es);
      a.content == Arrival(PiecesOf(es)) && AnswerText(a.deltas) == a.content
  {
    if es != [] {
      var before, e := es[..|es| - 1], es[|es| - 1];
      ContentHolds(before);
      var a := HeardAll(NEW, before);
      if e.TextDelta? {
        var ps := PiecesOf(before);
        assert (ps + [Piece(e.index, e.text)])[..|ps|] == ps;
        AddIs(Arrival(ps), e.text);
        AnswerTextSnoc(a.deltas, Delta(e.text, false));
        assert e.text == "" ==> a.content + e.text == a.content;
      } else if e.ThinkingDelta? {
        AnswerTextSnoc(a.deltas, Delta(e.text, true));
      }
    }
  }

  lemma SlotStep(a: Assembly, before: seq<Event>, e: Event, es: seq<Event>, i: nat)
    requires es == before + [e]
    requires i < |a.blocks| ==> a.blocks[i] == SlotFor(before, i)
    requires |a.blocks| <= i ==> SlotFor(before, i) == EMPTY_SLOT && ToolFor(before, i) == None
    ensures var blocks := Heard(a, e).blocks;
      if i < |blocks| then blocks[i] == SlotFor(es, i) else SlotFor(es, i) == EMPTY_SLOT && ToolFor(es, i) == None
  {
    assert es[..|es| - 1] == before;
  }

  lemma {:induction false} SlotsHold(es: seq<Event>)
    ensures var blocks := HeardAll(NEW, es).blocks;
      && (forall i | 0 <= i < |blocks| :: blocks[i] == SlotFor(es, i))
      && (forall i: nat | |blocks| <= i :: SlotFor(es, i) == EMPTY_SLOT && ToolFor(es, i) == None)
  {
    if es != [] {
      var before, e := es[..|es| - 1], es[|es| - 1];
      SlotsHold(before);
      var blocks := HeardAll(NEW, es).blocks;
      forall i: nat
        ensures i < |blocks| ==> blocks[i] == SlotFor(es, i)
        ensures |blocks| <= i ==> SlotFor(es, i) == EMPTY_SLOT && ToolFor(es, i) == None
      {
        SlotStep(HeardAll(NEW, before), before, e, es, i);
      }
    }
  }

  // ---- text ----------------------------------------------------------------------------

  lemma TextForSnoc(ps: seq<Piece>, p: Piece, i: nat)
    ensures TextFor(ps + [p], i) == if p.index == i then Add(TextFor(ps, i), p.text) else TextFor(ps, i)
  {
    assert (ps + [p])[..|ps|] == ps;
  }

  lemma {:induction false} ByBlockSnoc(ps: seq<Piece>, p: Piece, n: nat)
    requires forall q | q in ps :: q.index <= p.index
    ensures ByBlock(ps + [p], n) == if p.index < n then Add(ByBlock(ps, n), p.text) else ByBlock(ps, n)
  {
    if n > 0 {
      ByBlockSnoc(ps, p, n - 1);
      TextForSnoc(ps, p, n - 1);
      if p.index < n - 1 {
        LaterBlocksEmpty(ps, p.index, n - 1);
      } else if p.index == n - 1 {
        AddTwice(ByBlock(ps, n - 1), TextFor(ps, n - 1), p.text);
      }
    }
  }

  lemma {:induction false} LaterBlocksEmpty(ps: seq<Piece>, last: nat, i: nat)
    requires (forall q | q in ps :: q.index <= last) && last < i
    ensures TextFor(ps, i) == ""
  {
    if ps != [] {
      assert ps[|ps| - 1] in ps;
      LaterBlocksEmpty(ps[..|ps| - 1], last, i);
    }
  }

  lemma {:induction false} ArrivalIsByBlock(ps: seq<Piece>, n: nat)
    requires InBlockOrder(ps) && forall p | p in ps :: p.index < n
    ensures Arrival(ps) == ByBlock(ps, n)
  {
    if ps == [] {
      NothingByBlock(n);
    } else {
      var before, p := ps[..|ps| - 1], ps[|ps| - 1];
      assert p in ps && ps == before + [p];
      ArrivalIsByBlock(before, n);
      ByBlockSnoc(before, p, n);
    }
  }

  lemma {:induction false} NothingByBlock(n: nat)
    ensures ByBlock([], n) == ""
  {
    if n > 0 {
      NothingByBlock(n - 1);
    }
  }

  /** Fragments whose blocks follow a given schedule. */
  predicate Follows(ps: seq<Piece>, schedule: seq<nat>) {
    |ps| == |schedule| && forall i | 0 <= i < |ps| :: ps[i].index == schedule[i]
  }

  predicate Sorted(schedule: seq<nat>) {
    forall i, j | 0 <= i < j < |schedule| :: schedule[i] <= schedule[j]
  }

  /** The assembler ignores block indices of text, so arrival order is block order for every text
      exactly when the schedule of blocks never steps back. */
  lemma TextOrderIff(schedule: seq<nat>, n: nat)
    requires forall i | 0 <= i < |schedule| :: schedule[i] < n
    ensures Sorted(schedule) <==> forall ps | Follows(ps, schedule) :: Arrival(ps) == ByBlock(ps, n)
  {
    if Sorted(schedule) {
      forall ps | Follows(ps, schedule)
        ensures Arrival(ps) == ByBlock(ps, n)
      {
        ArrivalIsByBlock(ps, n);
      }
    } else {
      var ps := StepBack(schedule, n);
    }
  }

  /** Fragments on a schedule, empty but for `x` at `i` and `y` at `j`. */
  function Marked(schedule: seq<nat>, i: nat, j: nat, x: string, y: string): seq<Piece> {
    if schedule == [] then []
    else
      var k := |schedule| - 1;
      Marked(schedule[..k], i, j, x, y) + [Piece(schedule[k], if k == i then x else if k == j then y else "")]
  }

  lemma Snoc(ps: seq<Piece>, p: Piece, b: nat)
    ensures Arrival(ps + [p]) == Add(Arrival(ps), p.text)
    ensures TextFor(ps + [p], b) == if p.index == b then Add(TextFor(ps, b), p.text) else TextFor(ps, b)
  {
    assert (ps + [p])[..|ps|] == ps;
  }

  lemma {:induction false} MarkedFollows(schedule: seq<nat>, i: nat, j: nat, x: string, y: string)
    ensures Follows(Marked(schedule, i, j, x, y), schedule)
  {
    if schedule != [] {
      MarkedFollows(schedule[..|schedule| - 1], i, j, x, y);
    }
  }

  lemma {:induction false} MarkedArrival(schedule: seq<nat>, i: nat, j: nat, x: string, y: string)
    requires i < j
    ensures Arrival(Marked(schedule, i, j, x, y)) == if j < |schedule| then Add(x, y) else if i < |schedule| then x else ""
  {
    if schedule != [] {
      var k := |schedule| - 1;
      MarkedArrival(schedule[..k], i, j, x, y);
      var ps := Marked(schedule[..k], i, j, x, y);
      Snoc(ps, Piece(schedule[k], if k == i then x else if k == j then y else ""), 0);
    }
  }

  lemma {:induction false} MarkedText(schedule: seq<nat>, i: nat, j: nat, x: string, y: string, b: nat)
    requires i < j && (j < |schedule| ==> schedule[i] != schedule[j])
    ensures TextFor(Marked(schedule, i, j, x, y), b)
         == if i < |schedule| && b == schedule[i] then x else if j < |schedule| && b == schedule[j] then y else ""
  {
    if schedule != [] {
      var k := |schedule| - 1;
      MarkedText(schedule[..k], i, j, x, y, b);
      var ps := Marked(schedule[..k], i, j, x, y);
      Snoc(ps, Piece(schedule[k], if k == i then x else if k == j then y else ""), b);
    }
  }

  /** With only `x` in a block and `y` in an earlier one, the text in block order is `y`, then `x`. */
  lemma {:induction false} TwoByBlock(ps: seq<Piece>, high: nat, low: nat, x: string, y: string, n: nat)
    requires low < high && forall b: nat :: TextFor(ps, b) == if b == high then x else if b == low then y else ""
    ensures ByBlock(ps, n) == if high < n then Add(y, x) else if low < n then y else ""
  {
    if n > 0 {
      TwoByBlock(ps, high, low, x, y, n - 1);
    }
  }

  lemma StepBack(schedule: seq<nat>, n: nat) returns (ps: seq<Piece>)
    requires !Sorted(schedule) && forall i | 0 <= i < |schedule| :: schedule[i] < n
    ensures Follows(ps, schedule) && Arrival(ps) != ByBlock(ps, n)
  {
    var i, j :| 0 <= i < j < |schedule| && schedule[i] > schedule[j];
    var x, y := "a", "b";
    ps := Marked(schedule, i, j, x, y);
    MarkedFollows(schedule, i, j, x, y);
    MarkedArrival(schedule, i, j, x, y);
    forall b: nat
      ensures TextFor(ps, b) == if b == schedule[i] then x else if b == schedule[j] then y else ""
    {
      MarkedText(schedule, i, j, x, y, b);
    }
    TwoByBlock(ps, schedule[i], schedule[j], x, y, n);
    assert Add(x, y)[0] != Add(y, x)[0];
  }

  // ---- tool calls ----------------------------------------------------------------------

  /** The calls of the first `n` slots of a stream. */
  function CallsTo(es: seq<Event>, n: nat): seq<ToolCall> {
    if n == 0 then [] else CallsTo(es, n - 1) + SlotCall(SlotFor(es, n - 1))
  }

  lemma {:induction false} FinishIsCallsTo(es: seq<Event>, slots: seq<Slot>)
    requires forall i | 0 <= i < |slots| :: slots[i] == SlotFor(es, i)
    ensures FinishSlots(slots) == CallsTo(es, |slots|)
  {
    if slots != [] {
      var n := |slots| - 1;
      FinishIsCallsTo(es, slots[..n]);
      assert slots[n] == SlotFor(es, n);
    }
  }

  /** Slots that name no tool make no call. */
  lemma {:induction false} UnnamedTail(es: seq<Event>, n: nat, more: nat)
    requires n <= more && forall i: nat | n <= i < more :: ToolFor(es, i) == None
    ensures CallsTo(es, more) == CallsTo(es, n)
    decreases more
  {
    if n < more {
      UnnamedTail(es, n, more - 1);
    }
  }

  predicate Named(b: Block) {
    b.ToolUse? ==> b.id != "" || b.name != ""
  }

  predicate AllNamed(blocks: seq<Block>) {
    forall b | b in blocks :: Named(b)
  }

  lemma AllNamedSnoc(blocks: seq<Block>)
    requires blocks != []
    ensures AllNamed(blocks) <==> AllNamed(blocks[..|blocks| - 1]) && Named(blocks[|blocks| - 1])
  {
    assert blocks == blocks[..|blocks| - 1] + [blocks[|blocks| - 1]];
  }

  /** Two lists of calls with the same ids and names whose argument texts are the same JSON. */
  ghost predicate SameCalls(codec: Codec, a: seq<ToolCall>, b: seq<ToolCall>) {
    |a| == |b|
    && forall i | 0 <= i < |a| ::
         a[i].id == b[i].id && a[i].name == b[i].name && codec.parse(a[i].arguments) == codec.parse(b[i].arguments)
  }

  /** The inputs of the tool blocks read back, and `{}` reads as the empty object. */
  predicate InputsReadBack(codec: Codec, blocks: seq<Block>) {
    codec.parse("{}") == Some(Obj(map[])) && forall b | b in blocks && b.ToolUse? :: ReadsBack(codec, b.input)
  }

  predicate BlockEncoded(es: seq<Event>, i: nat, b: Block) {
    ToolFor(es, i) == if b.ToolUse? then Some((b.id, b.name)) else None
  }

  /** One block: its slot becomes the call the blocking decoder makes of it, unless it is unnamed. */
  lemma CallMatches(codec: Codec, es: seq<Event>, n: nat, b: Block)
    requires InputsReadBack(codec, [b]) && BlockEncoded(es, n, b) && (b.ToolUse? ==> Carries(codec, JsonFor(es, n), b.input))
    ensures |SlotCall(SlotFor(es, n))| <= |CallOf(codec, b)|
    ensures Named(b) <==> |SlotCall(SlotFor(es, n))| == |CallOf(codec, b)|
    ensures Named(b) ==> SameCalls(codec, SlotCall(SlotFor(es, n)), CallOf(codec, b))
  {
    assert b in [b];
  }

  lemma SameCallsAppend(codec: Codec, a: seq<ToolCall>, b: seq<ToolCall>, c: seq<ToolCall>, d: seq<ToolCall>)
    ensures SameCalls(codec, a, b) && SameCalls(codec, c, d) ==> SameCalls(codec, a + c, b + d)
  {
  }

  lemma {:induction false} CallsMatch(codec: Codec, es: seq<Event>, blocks: seq<Block>)
    requires InputsReadBack(codec, blocks)
    requires forall i | 0 <= i < |blocks| ::
               BlockEncoded(es, i, blocks[i]) && (blocks[i].ToolUse? ==> Carries(codec, JsonFor(es, i), blocks[i].input))
    ensures |CallsTo(es, |blocks|)| <= |CallsOf(codec, blocks)|
    ensures AllNamed(blocks) <==> |CallsTo(es, |blocks|)| == |CallsOf(codec, blocks)|
    ensures AllNamed(blocks) ==> SameCalls(codec, CallsTo(es, |blocks|), CallsOf(codec, blocks))
  {
    if blocks != [] {
      var n := |blocks| - 1;
      var b, before := blocks[n], blocks[..n];
      CallsMatch(codec, es, before);
      AllNamedSnoc(blocks);
      CallMatches(codec, es, n, b);
      SameCallsAppend(codec, CallsTo(es, n), CallsOf(codec, before), SlotCall(SlotFor(es, n)), CallOf(codec, b));
    }
  }

  // ---- streaming equals blocking -------------------------------------------------------

  lemma {:induction false} ContentByBlock(m: seq<Block>, ps: seq<Piece>)
    requires forall i | 0 <= i < |m| :: TextFor(ps, i) == if m[i].TextBlock? then m[i].text else ""
    ensures ContentOf(m) == ByBlock(ps, |m|)
  {
    if m != [] {
      ContentByBlock(m[..|m| - 1], ps);
      AddIs(ContentOf(m[..|m| - 1]), TextFor(ps, |m| - 1));
    }
  }

  lemma ToolsEncoded(codec: Codec, m: Message, es: seq<Event>)
    requires Encodes(codec, m, es)
    ensures forall i | 0 <= i < |m.blocks| ::
              BlockEncoded(es, i, m.blocks[i])
              && (m.blocks[i].ToolUse? ==> Carries(codec, JsonFor(es, i), m.blocks[i].input))
  {
  }

  /** Any fragmentation of a message, fed and finished, gives the blocking decoder's content and
      usage; the answer forwarded live is that content. */
  lemma ContentAgrees(codec: Codec, m: Message, es: seq<Event>)
    requires Encodes(codec, m, es)
    ensures var a := HeardAll(NEW, es);
      FinishOf(a).content == Blocking(codec, m).content && FinishOf(a).usage == Blocking(codec, m).usage
      && AnswerText(a.deltas) == Blocking(codec, m).content
  {
    UsageHolds(es);
    ContentHolds(es);
    ArrivalIsByBlock(PiecesOf(es), |m.blocks|);
    ContentByBlock(m.blocks, PiecesOf(es));
  }

  function ListOf(calls: Option<seq<ToolCall>>): seq<ToolCall> {
    match calls case Some(cs) => cs case None => []
  }

  /** Its tool calls are the blocking decoder's, in order, with the same ids and names and the
      same JSON arguments, exactly when every tool block has an id or a name: the assembler drops
      a slot with neither. */
  lemma CallsAgreeIff(codec: Codec, m: Message, es: seq<Event>)
    requires InputsReadBack(codec, m.blocks) && Encodes(codec, m, es)
    ensures var streamed, blocking := FinishOf(HeardAll(NEW, es)).toolCalls, Blocking(codec, m).toolCalls;
      AllNamed(m.blocks)
      <==> (streamed.Some? <==> blocking.Some?) && SameCalls(codec, ListOf(streamed), ListOf(blocking))
  {
    var slots := HeardAll(NEW, es).blocks;
    SlotsHold(es);
    FinishIsCallsTo(es, slots);
    var n := |m.blocks|;
    if |slots| <= n {
      UnnamedTail(es, |slots|, n);
    } else {
      UnnamedTail(es, n, |slots|);
    }
    ToolsEncoded(codec, m, es);
    CallsMatch(codec, es, m.blocks);
  }

  /** The argument text is the one the blocking decoder prints. */
  predicate CarriesExactly(codec: Codec, text: string, input: Value) {
    codec.render(input) == if text == "" then "{}" else text
  }

  lemma BlockMatchesExactly(codec: Codec, es: seq<Event>, n: nat, b: Block)
    requires BlockEncoded(es, n, b) && Named(b) && (b.ToolUse? ==> CarriesExactly(codec, JsonFor(es, n), b.input))
    ensures SlotCall(SlotFor(es, n)) == CallOf(codec, b)
  {
  }

  lemma {:induction false} CallsMatchExactly(codec: Codec, es: seq<Event>, blocks: seq<Block>)
    requires forall i | 0 <= i < |blocks| ::
               BlockEncoded(es, i, blocks[i]) && Named(blocks[i])
               && (blocks[i].ToolUse? ==> CarriesExactly(codec, JsonFor(es, i), blocks[i].input))
    ensures CallsTo(es, |blocks|) == CallsOf(codec, blocks)
  {
    if blocks != [] {
      var n := |blocks| - 1;
      CallsMatchExactly(codec, es, blocks[..n]);
      BlockMatchesExactly(codec, es, n, blocks[n]);
    }
  }

  /** When the fragments of each input are cut from the text the blocking decoder prints, the two
      responses are equal. */
  lemma StreamingEqualsBlocking(codec: Codec, m: Message, es: seq<Event>)
    requires Encodes(codec, m, es)
    requires forall i | 0 <= i < |m.blocks| && m.blocks[i].ToolUse? ::
               Named(m.blocks[i]) && CarriesExactly(codec, JsonFor(es, i), m.blocks[i].input)
    ensures FinishOf(HeardAll(NEW, es)) == Blocking(codec, m)
  {
    ContentAgrees(codec, m, es);
    var slots, n := HeardAll(NEW, es).blocks, |m.blocks|;
    SlotsHold(es);
    FinishIsCallsTo(es, slots);
    if |slots| <= n {
      UnnamedTail(es, |slots|, n);
    } else {
      UnnamedTail(es, n, |slots|);
    }
    ToolsEncoded(codec, m, es);
    CallsMatchExactly(codec, es, m.blocks);
  }

  // ---- from network chunks -------------------------------------------------------------

  function EventsOf(codec: Codec, lines: seq<string>): seq<Event> {
    if lines == [] then [] else [LineEvent(codec, TrimEnd(lines[0]))] + EventsOf(codec, lines[1..])
  }

  lemma {:induction false} LinesAreEvents(codec: Codec, a: Assembly, lines: seq<string>)
    ensures FeedLines(Feeder(codec), a, lines) == HeardAll(a, EventsOf(codec, lines))
    decreases |lines|
  {
    if lines != [] {
      var e := LineEvent(codec, TrimEnd(lines[0]));
      LinesAreEvents(codec, Heard(a, e), lines[1..]);
      FoldCons(Heard, a, e, EventsOf(codec, lines[1..]));
    }
  }
}
