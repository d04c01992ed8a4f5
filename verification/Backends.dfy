/** The backends behind the gateway: what each streaming call forwards and returns on the network
    chunks it receives, and which of them forward the answer they return. */
module Backends {
  import opened Text
  import opened Json
  import opened LineFraming
  import opened Gateway
  import OpenAiStream
  import AnthropicStream
  import AnthropicEquivalence
  import GeminiStream
  import OllamaStream
  import ResponsesStream

  /** A backend, with the body its call receives. The two Gemini adapters differ in `unwrap`. A silent
      backend keeps the default of the adapter interface: the blocking call, and no deltas. */
  datatype Backend =
    | OpenAi(chunks: seq<string>)
    | Anthropic(chunks: seq<string>)
    | Gemini(unwrap: Value -> Value, chunks: seq<string>)
    | Ollama(chunks: seq<string>)
    | ChatGpt(chunks: seq<string>)
    | Silent(response: ChatResponse)

  /** Of the streaming calls only the OpenAI one limits what it reads; it refuses after the deltas it
      has already forwarded. */
  function OpenAiResult(r: OpenAiStream.StreamResult): AdapterResult {
    match r
    case Done(response) => Answered(response)
    case LineTooLong => Refuses(LineOverLimit)
    case TooMuchContent => Refuses(ContentOverLimit)
  }

  function OpenAiReply(codec: Codec, chunks: seq<string>): Reply {
    var (r, a) := OpenAiStream.OutcomeOf(codec, chunks);
    Reply(a.deltas, OpenAiResult(r))
  }

  function AnthropicReply(codec: Codec, text: string): Reply {
    var a := AnthropicStream.FeedText(codec, text);
    Reply(a.deltas, Answered(AnthropicStream.FinishOf(a)))
  }

  function GeminiReply(codec: Codec, unwrap: Value -> Value, text: string): Reply {
    var a := GeminiStream.FeedText(codec, unwrap, text);
    Reply(a.deltas, Answered(GeminiStream.FinishOf(a)))
  }

  function OllamaReply(codec: Codec, text: string): Reply {
    var a := OllamaStream.FeedText(codec, text);
    Reply(a.deltas, Answered(OllamaStream.FinishOf(a)))
  }

  function ChatGptReply(codec: Codec, text: string): Reply {
    var a := ResponsesStream.FeedText(ResponsesStream.Reader(codec), text);
    Reply(a.deltas, Answered(ResponsesStream.FinishOf(a)))
  }

  function ReplyOf(codec: Codec, backend: Backend): Reply {
    match backend
    case OpenAi(chunks) => OpenAiReply(codec, chunks)
    case Anthropic(chunks) => AnthropicReply(codec, Concat(chunks))
    case Gemini(unwrap, chunks) => GeminiReply(codec, unwrap, Concat(chunks))
    case Ollama(chunks) => OllamaReply(codec, Concat(chunks))
    case ChatGpt(chunks) => ChatGptReply(codec, Concat(chunks))
    case Silent(response) => Reply([], Answered(response))
  }

  method RunOpenAi(codec: Codec, chunks: seq<string>) returns (reply: Reply)
    ensures reply == OpenAiReply(codec, chunks)
  {
    var outcome, assembly := OpenAiStream.ChatStream(codec, chunks);
    assert assembly.State() == OpenAiStream.OutcomeOf(codec, chunks).1;
    reply := Reply(assembly.deltas, OpenAiResult(outcome));
  }

  method RunAnthropic(codec: Codec, chunks: seq<string>) returns (reply: Reply)
    ensures reply == AnthropicReply(codec, Concat(chunks))
  {
    var r, deltas := AnthropicStream.RunStreaming(codec, chunks);
    reply := Reply(deltas, Answered(r));
  }

  method RunGemini(codec: Codec, unwrap: Value -> Value, chunks: seq<string>) returns (reply: Reply)
    ensures reply == GeminiReply(codec, unwrap, Concat(chunks))
  {
    var r, deltas := GeminiStream.RunStreaming(codec, unwrap, chunks);
    reply := Reply(deltas, Answered(r));
  }

  method RunOllama(codec: Codec, chunks: seq<string>) returns (reply: Reply)
    ensures reply == OllamaReply(codec, Concat(chunks))
  {
    var r, deltas := OllamaStream.RunStreaming(codec, chunks);
    reply := Reply(deltas, Answered(r));
  }

  method RunChatGpt(codec: Codec, chunks: seq<string>) returns (reply: Reply)
    ensures reply == ChatGptReply(codec, Concat(chunks))
  {
    var r, deltas := ResponsesStream.RunResponses(codec, chunks);
    reply := Reply(deltas, Answered(r));
  }

  // ---- which of them forward their answer ----------------------------------------------

  /** The answer deltas concatenate to the content returned. */
  predicate StreamsItsContent(reply: Reply) {
    reply.result.Answered? ==> AnswerText(reply.emitted) == reply.result.response.content
  }

  lemma OpenAiStreams(codec: Codec, chunks: seq<string>)
    ensures StreamsItsContent(OpenAiReply(codec, chunks))
  {
    var passed := chunks[..OpenAiStream.Passing("", chunks)];
    OpenAiStream.ContentIsDeltas(codec, LinesOf(Concat(passed)));
  }

  lemma AnthropicStreams(codec: Codec, text: string)
    ensures StreamsItsContent(AnthropicReply(codec, text))
  {
    AnthropicEquivalence.LinesAreEvents(codec, AnthropicStream.NEW, LinesOf(text));
    AnthropicEquivalence.ContentHolds(AnthropicEquivalence.EventsOf(codec, LinesOf(text)));
  }

  lemma GeminiStreams(codec: Codec, unwrap: Value -> Value, text: string)
    ensures StreamsItsContent(GeminiReply(codec, unwrap, text))
  {
    var values := GeminiStream.ValuesOf(codec, unwrap, LinesOf(text));
    GeminiStream.LinesAreValues(codec, unwrap, GeminiStream.NEW, LinesOf(text));
    GeminiStream.ChunksDoNotMatter(codec, values);
    GeminiStream.ContentAgrees(codec, GeminiStream.AllParts(values));
  }

  lemma OllamaStreams(codec: Codec, text: string)
    ensures StreamsItsContent(OllamaReply(codec, text))
  {
    OllamaStream.ContentIsDeltas(codec, text);
  }

  /** The text of the last completed event that has one is the text streamed, or there is none. */
  predicate TerminalAgrees(codec: Codec, text: string) {
    var es := ResponsesStream.EventsOf(ResponsesStream.Reader(codec), FedLines(text));
    var terminal := ResponsesStream.TerminalText(es);
    terminal == None || terminal == Some(ResponsesStream.StreamedText(es))
  }

  lemma ChatGptStreamsIff(codec: Codec, text: string)
    ensures StreamsItsContent(ChatGptReply(codec, text)) <==> TerminalAgrees(codec, text)
  {
    ResponsesStream.TerminalIsPreferred(codec, text);
  }

  /** Four of the five assemblers forward exactly the content they return, for every text and every
      way it is cut into chunks. ChatGPT's prefers a terminal text, so it does when that text, if any,
      is the one streamed; a silent backend does when it has nothing to say. */
  predicate ForwardsAnswer(codec: Codec, backend: Backend) {
    match backend
    case ChatGpt(chunks) => TerminalAgrees(codec, Concat(chunks))
    case Silent(response) => response.content == ""
    case _ => true
  }

  lemma BackendStreamsIff(codec: Codec, backend: Backend)
    ensures StreamsItsContent(ReplyOf(codec, backend)) <==> ForwardsAnswer(codec, backend)
  {
    match backend {
      case OpenAi(chunks) => OpenAiStreams(codec, chunks);
      case Anthropic(chunks) => AnthropicStreams(codec, Concat(chunks));
      case Gemini(unwrap, chunks) => GeminiStreams(codec, unwrap, Concat(chunks));
      case Ollama(chunks) => OllamaStreams(codec, Concat(chunks));
      case ChatGpt(chunks) => ChatGptStreamsIff(codec, Concat(chunks));
      case Silent(response) =>
    }
  }
}
