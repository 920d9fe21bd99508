/**
 * `ApiService` (src/apiService.ts): the provider dispatch, the configuration
 * check, and the scanning of the server-sent-event streams of the two
 * providers.
 *
 * The network is a parameter: what `fetch` gives back (`Transport`), and for
 * a streamed reply the chunks the decoder produces, in order. Times are left
 * out; only whether a first-byte time is reported is kept.
 */
module ApiService {
  import opened Wrappers
  import opened Text
  import opened Json

  /**
   * What a streaming caller of `executePrompt` observes: the tokens handed to
   * `onToken`, then either the message handed to `onError` (which the caller
   * may rethrow) or the promise settling, with the `data` handed to
   * `onComplete` if it was called at all.
   */
  datatype LlmCall =
    | Raised(streamed: seq<string>, message: string)
    | Returned(streamed: seq<string>, completion: Option<string>)

  /** The settings: `provider` is "openai" or "anthropic" for any configuration the settings form produces. */
  datatype ApiConfig = ApiConfig(provider: string, openaiKey: string, openaiModel: string, anthropicKey: string, anthropicModel: string)

  const OpenAIKeyRequired: string := "OpenAI API key is required"
  const OpenAIKeyPrefix: string := "OpenAI API key should start with \"sk-\""
  const OpenAIModelRequired: string := "OpenAI model selection is required"
  const AnthropicKeyRequired: string := "Anthropic API key is required"
  const AnthropicKeyPrefix: string := "Anthropic API key should start with \"sk-ant-\""
  const AnthropicModelRequired: string := "Anthropic model selection is required"

  /** What `validateConfig` reports: key checks, then the model check, for the selected provider only. */
  function ConfigErrors(c: ApiConfig): seq<string> {
    if c.provider == "openai" then
      (if c.openaiKey == "" then [OpenAIKeyRequired] else if !StartsWith(c.openaiKey, "sk-") then [OpenAIKeyPrefix] else [])
      + (if c.openaiModel == "" then [OpenAIModelRequired] else [])
    else if c.provider == "anthropic" then
      (if c.anthropicKey == "" then [AnthropicKeyRequired] else if !StartsWith(c.anthropicKey, "sk-ant-") then [AnthropicKeyPrefix] else [])
      + (if c.anthropicModel == "" then [AnthropicModelRequired] else [])
    else []
  }

  /** What `executePrompt` does before any request: refuse, or call one of the two providers. */
  datatype Vendor = OpenAI | Anthropic

  datatype Preflight = Rejected(error: string) | Send(vendor: Vendor)

  function Dispatch(c: ApiConfig): Preflight {
    if c.provider == "openai" then
      if c.openaiKey == "" then Rejected("OpenAI API key is required. Please configure it in Settings.") else Send(OpenAI)
    else if c.provider == "anthropic" then
      if c.anthropicKey == "" then Rejected("Anthropic API key is required. Please configure it in Settings.") else Send(Anthropic)
    else Rejected("Unknown provider selected")
  }

  /**
   * A configuration passes the check exactly when the selected provider's key
   * carries its prefix and its model is chosen; a provider other than the two
   * known ones passes unchecked.
   */
  lemma ConfigValidIff(c: ApiConfig)
    ensures ConfigErrors(c) == [] <==>
      && (c.provider == "openai" ==> StartsWith(c.openaiKey, "sk-") && c.openaiModel != "")
      && (c.provider == "anthropic" ==> StartsWith(c.anthropicKey, "sk-ant-") && c.anthropicModel != "")
    ensures |ConfigErrors(c)| <= 2
  {
    if c.provider == "openai" && c.openaiKey == "" {
      assert !StartsWith(c.openaiKey, "sk-");
    }
    if c.provider == "anthropic" && c.anthropicKey == "" {
      assert !StartsWith(c.anthropicKey, "sk-ant-");
    }
  }

  /** A missing key and a wrongly prefixed key are reported apart: never both. */
  lemma KeyErrorsExclusive(c: ApiConfig)
    ensures OpenAIKeyRequired in ConfigErrors(c) <==> c.provider == "openai" && c.openaiKey == ""
    ensures OpenAIKeyPrefix in ConfigErrors(c) <==> c.provider == "openai" && c.openaiKey != "" && !StartsWith(c.openaiKey, "sk-")
    ensures AnthropicKeyRequired in ConfigErrors(c) <==> c.provider == "anthropic" && c.anthropicKey == ""
    ensures AnthropicKeyPrefix in ConfigErrors(c) <==> c.provider == "anthropic" && c.anthropicKey != "" && !StartsWith(c.anthropicKey, "sk-ant-")
  {
    MessagesDiffer();
  }

  lemma MessagesDiffer()
    ensures OpenAIKeyRequired != OpenAIKeyPrefix && OpenAIKeyRequired != OpenAIModelRequired && OpenAIKeyPrefix != OpenAIModelRequired
    ensures AnthropicKeyRequired != AnthropicKeyPrefix && AnthropicKeyRequired != AnthropicModelRequired && AnthropicKeyPrefix != AnthropicModelRequired
  {
    assert OpenAIKeyRequired[15] == 'i' && OpenAIKeyPrefix[15] == 's' && OpenAIModelRequired[7] == 'm' && OpenAIKeyPrefix[7] == 'A';
    assert AnthropicKeyRequired[18] == 'i' && AnthropicKeyPrefix[18] == 's' && AnthropicModelRequired[10] == 'm' && AnthropicKeyPrefix[10] == 'A';
  }

  /**
   * For the two known providers, a configuration that passes the check is
   * always sent, and a refused one always fails the check.
   */
  lemma ValidConfigIsSent(c: ApiConfig)
    requires c.provider == "openai" || c.provider == "anthropic"
    ensures ConfigErrors(c) == [] ==> Dispatch(c).Send?
    ensures Dispatch(c).Rejected? ==> ConfigErrors(c) != []
  {
  }

  /** An unknown provider passes the check but every request is refused. */
  lemma UnknownProviderPassesButIsRefused(c: ApiConfig)
    requires c.provider != "openai" && c.provider != "anthropic"
    ensures ConfigErrors(c) == []
    ensures Dispatch(c) == Rejected("Unknown provider selected")
  {
  }

  /** `JSON.parse` of an object or array, then `v?.[i]`. */
  function Index(v: Json, i: nat): Option<Json> {
    match v
    case JArray(items) => if i < |items| then Some(items[i]) else None
    case JObject(es) => Lookup(es, NatToString(i))
    case _ => None
  }

  /** `v?.key` for a named key (any other value gives `undefined`). */
  function Property(v: Json, key: string): Option<Json> {
    match v
    case JObject(es) => Lookup(es, key)
    case _ => None
  }

  function PropertyOf(v: Option<Json>, key: string): Option<Json> {
    if v.Some? then Property(v.value, key) else None
  }

  /** A truthy string: a non-empty string value. */
  function TruthyText(v: Option<Json>): Option<string> {
    if v.Some? && v.value.JString? && v.value.s != "" then Some(v.value.s) else None
  }

  /** `parsed.choices?.[0]?.delta?.content` when it is a non-empty string. */
  function OpenAIDelta(v: Json): Option<string> {
    var choice := match Property(v, "choices") case Some(cs) => Index(cs, 0) case None => None;
    TruthyText(PropertyOf(PropertyOf(choice, "delta"), "content"))
  }

  /** `parsed.delta?.text` when it is a non-empty string. */
  function AnthropicDelta(v: Json): Option<string> {
    TruthyText(PropertyOf(Property(v, "delta"), "text"))
  }

  const DataPrefix: string := "data: "
  const DoneText: string := "[DONE]"

  datatype StopKind = DoneMarker | MessageStop

  /** What one line of a decoded chunk does to the stream. */
  datatype LineEffect = Skip | Token(text: string) | Stop(kind: StopKind)

  /**
   * Only `data: ` lines count; `[DONE]` ends either stream; a payload that
   * does not parse is skipped. OpenAI payloads carry their text in
   * `choices[0].delta.content`; Anthropic payloads of type
   * `content_block_delta` carry it in `delta.text`, and `message_stop` ends
   * the stream.
   */
  function LineEffectOf(vendor: Vendor, codec: JsonCodec, line: string): LineEffect {
    if !StartsWith(line, DataPrefix) then Skip
    else
      var data := line[|DataPrefix|..];
      if data == DoneText then Stop(DoneMarker)
      else match codec.parse(data)
        case Failure(_) => Skip
        case Success(v) =>
          match vendor
          case OpenAI =>
            (match OpenAIDelta(v) case Some(t) => Token(t) case None => Skip)
          case Anthropic =>
            if Property(v, "type") == Some(JString("content_block_delta")) && AnthropicDelta(v).Some? then Token(AnthropicDelta(v).value)
            else if Property(v, "type") == Some(JString("message_stop")) then Stop(MessageStop)
            else Skip
  }

  /** The tokens of the lines up to the first line that stops the stream, and that stop. */
  datatype Scan = Scan(tokens: seq<string>, stop: Option<StopKind>)

  function ScanLines(vendor: Vendor, codec: JsonCodec, lines: seq<string>): Scan
    decreases |lines|
  {
    if lines == [] then Scan([], None)
    else match LineEffectOf(vendor, codec, lines[0])
      case Skip => ScanLines(vendor, codec, lines[1..])
      case Token(t) => var rest := ScanLines(vendor, codec, lines[1..]); Scan([t] + rest.tokens, rest.stop)
      case Stop(k) => Scan([], Some(k))
  }

  /** Each chunk is split on its own: a line broken across two chunks is two lines. */
  function ScanChunks(vendor: Vendor, codec: JsonCodec, chunks: seq<string>): Scan
    decreases |chunks|
  {
    if chunks == [] then Scan([], None)
    else
      var first := ScanLines(vendor, codec, Split(chunks[0], '\n'));
      if first.stop.Some? then first
      else var rest := ScanChunks(vendor, codec, chunks[1..]); Scan(first.tokens + rest.tokens, rest.stop)
  }

  /** A streamed body: the decoded chunks, then either the end of the stream or a read that throws. */
  datatype StreamReply = StreamReply(chunks: seq<string>, readError: Option<string>)

  /** The parts of an `LLMResponse` the model keeps: times are reduced to whether a first-byte time is reported. */
  datatype LlmResponse = LlmResponse(success: bool, data: Option<string>, error: Option<string>, hasFirstByteTime: bool)

  /** What a stream handler hands to `onToken` and resolves with (`onComplete` or `onError` receives the same). */
  function StreamOutcome(vendor: Vendor, codec: JsonCodec, reply: StreamReply): (seq<string>, LlmResponse) {
    var scan := ScanChunks(vendor, codec, reply.chunks);
    if scan.stop.Some? then
      (scan.tokens, LlmResponse(true, Some(Concat(scan.tokens)), None, vendor == OpenAI))
    else if reply.readError.Some? then
      (scan.tokens, LlmResponse(false, None, reply.readError, |reply.chunks| > 0))
    else
      (scan.tokens, LlmResponse(true, Some(Concat(scan.tokens)), None, |reply.chunks| > 0))
  }

  /**
   * `handleOpenAIStream` / `handleAnthropicStream`: read chunk after chunk,
   * split each on newlines, and act on each line; a stopping line returns at
   * once.
   */
  method HandleStream(vendor: Vendor, codec: JsonCodec, reply: StreamReply) returns (tokens: seq<string>, response: LlmResponse)
    ensures (tokens, response) == StreamOutcome(vendor, codec, reply)
  {
    var fullContent := "";
    var firstByte := false;
    tokens := [];
    var c := 0;
    while c < |reply.chunks|
      invariant 0 <= c <= |reply.chunks|
      invariant fullContent == Concat(tokens)
      invariant firstByte <==> c > 0
      invariant ScanChunks(vendor, codec, reply.chunks) == Then(tokens, ScanChunks(vendor, codec, reply.chunks[c..]))
    {
      firstByte := true;
      var stop;
      ghost var before := tokens;
      tokens, fullContent, stop := HandleLines(vendor, codec, Split(reply.chunks[c], '\n'), tokens, fullContent);
      ChunkStep(vendor, codec, reply.chunks, c, before, tokens, stop);
      if stop.Some? {
        return tokens, LlmResponse(true, Some(fullContent), None, vendor == OpenAI);
      }
      c := c + 1;
    }
    assert reply.chunks[c..] == [] && tokens + [] == tokens;
    assert ScanChunks(vendor, codec, reply.chunks) == Scan(tokens, None);
    if reply.readError.Some? {
      return tokens, LlmResponse(false, None, reply.readError, firstByte);
    }
    response := LlmResponse(true, Some(fullContent), None, firstByte);
  }

  /** One turn of the chunk loop: the chunk's lines either stop the scan or hand on to the next chunk. */
  lemma ChunkStep(vendor: Vendor, codec: JsonCodec, chunks: seq<string>, c: nat, tokens0: seq<string>, tokens1: seq<string>, stop: Option<StopKind>)
    requires c < |chunks|
    requires Scan(tokens1, stop) == Then(tokens0, ScanLines(vendor, codec, Split(chunks[c], '\n')))
    ensures stop.Some? ==> Then(tokens0, ScanChunks(vendor, codec, chunks[c..])) == Scan(tokens1, stop)
    ensures stop.None? ==> Then(tokens0, ScanChunks(vendor, codec, chunks[c..])) == Then(tokens1, ScanChunks(vendor, codec, chunks[c + 1..]))
  {
    assert chunks[c..][0] == chunks[c];
    assert chunks[c..][1..] == chunks[c + 1..];
    var first := ScanLines(vendor, codec, Split(chunks[c], '\n'));
    if stop.None? {
      var rest := ScanChunks(vendor, codec, chunks[c + 1..]);
      assert tokens0 + (first.tokens + rest.tokens) == (tokens0 + first.tokens) + rest.tokens;
    }
  }

  /** The loop over the lines of one chunk: append and hand on each token, and stop at a stopping line. */
  method HandleLines(vendor: Vendor, codec: JsonCodec, lines: seq<string>, tokens0: seq<string>, content0: string)
      returns (tokens: seq<string>, fullContent: string, stop: Option<StopKind>)
    requires content0 == Concat(tokens0)
    ensures Scan(tokens, stop) == Then(tokens0, ScanLines(vendor, codec, lines))
    ensures fullContent == Concat(tokens)
  {
    tokens, fullContent := tokens0, content0;
    var l := 0;
    while l < |lines|
      invariant 0 <= l <= |lines|
      invariant fullContent == Concat(tokens)
      invariant Then(tokens0, ScanLines(vendor, codec, lines)) == Then(tokens, ScanLines(vendor, codec, lines[l..]))
    {
      assert lines[l..][1..] == lines[l + 1..];
      match LineEffectOf(vendor, codec, lines[l]) {
        case Skip =>
        case Token(t) =>
          ThenAppend(tokens, t, ScanLines(vendor, codec, lines[l + 1..]));
          tokens := tokens + [t];
          fullContent := fullContent + t;
        case Stop(k) =>
          return tokens, fullContent, Some(k);
      }
      l := l + 1;
    }
    stop := None;
  }

  /** The scan of what follows, after `tokens` already seen. */
  function Then(tokens: seq<string>, rest: Scan): Scan {
    Scan(tokens + rest.tokens, rest.stop)
  }

  lemma ThenAppend(tokens: seq<string>, t: string, rest: Scan)
    ensures Then(tokens, Scan([t] + rest.tokens, rest.stop)) == Then(tokens + [t], rest)
  {
    assert tokens + ([t] + rest.tokens) == tokens + [t] + rest.tokens;
  }

  /** Every token is a non-empty piece of text. */
  lemma {:induction false} ScanLinesTokensNonEmpty(vendor: Vendor, codec: JsonCodec, lines: seq<string>)
    ensures forall i :: 0 <= i < |ScanLines(vendor, codec, lines).tokens| ==> ScanLines(vendor, codec, lines).tokens[i] != ""
    decreases |lines|
  {
    if lines != [] {
      ScanLinesTokensNonEmpty(vendor, codec, lines[1..]);
    }
  }

  lemma {:induction false} ScanChunksTokensNonEmpty(vendor: Vendor, codec: JsonCodec, chunks: seq<string>)
    ensures forall i :: 0 <= i < |ScanChunks(vendor, codec, chunks).tokens| ==> ScanChunks(vendor, codec, chunks).tokens[i] != ""
    decreases |chunks|
  {
    if chunks != [] {
      ScanLinesTokensNonEmpty(vendor, codec, Split(chunks[0], '\n'));
      ScanChunksTokensNonEmpty(vendor, codec, chunks[1..]);
    }
  }

  /**
   * Once a line stops the stream, later chunks are never looked at; until
   * then, the chunks scan one after another and their tokens add up.
   */
  lemma {:induction false} ScanChunksAppend(vendor: Vendor, codec: JsonCodec, a: seq<string>, b: seq<string>)
    ensures ScanChunks(vendor, codec, a).stop.Some? ==> ScanChunks(vendor, codec, a + b) == ScanChunks(vendor, codec, a)
    ensures ScanChunks(vendor, codec, a).stop.None? ==>
      ScanChunks(vendor, codec, a + b) == Then(ScanChunks(vendor, codec, a).tokens, ScanChunks(vendor, codec, b))
    decreases |a|
  {
    if a == [] {
      assert a + b == b;
    } else {
      assert (a + b)[0] == a[0] && (a + b)[1..] == a[1..] + b;
      ScanChunksAppend(vendor, codec, a[1..], b);
      var first := ScanLines(vendor, codec, Split(a[0], '\n'));
      if first.stop.None? {
        var mid, rest := ScanChunks(vendor, codec, a[1..]), ScanChunks(vendor, codec, b);
        if mid.stop.None? {
          assert first.tokens + (mid.tokens + rest.tokens) == (first.tokens + mid.tokens) + rest.tokens;
        }
      }
    }
  }

  /**
   * A streamed reply that settles hands `onComplete` exactly the
   * concatenation of the tokens it handed to `onToken`, every token
   * non-empty; a read that throws after the stream stopped is never reached.
   */
  lemma StreamDataIsTokens(vendor: Vendor, codec: JsonCodec, reply: StreamReply)
    ensures var (tokens, response) := StreamOutcome(vendor, codec, reply);
      && (forall i :: 0 <= i < |tokens| ==> tokens[i] != "")
      && (response.success <==> ScanChunks(vendor, codec, reply.chunks).stop.Some? || reply.readError.None?)
      && (response.success ==> response.data == Some(Concat(tokens)) && response.error.None?)
      && (!response.success ==> response.error == reply.readError && response.data.None?)
  {
    ScanChunksTokensNonEmpty(vendor, codec, reply.chunks);
  }

  /**
   * A first-byte time is reported once a chunk was read, except that an
   * Anthropic stream ended by `[DONE]` or `message_stop` reports none.
   */
  lemma FirstByteTimeReported(vendor: Vendor, codec: JsonCodec, reply: StreamReply)
    ensures var stopped := ScanChunks(vendor, codec, reply.chunks).stop.Some?;
      StreamOutcome(vendor, codec, reply).1.hasFirstByteTime <==>
        |reply.chunks| > 0 && (vendor == OpenAI || !stopped)
  {
    if reply.chunks == [] {
      assert ScanChunks(vendor, codec, reply.chunks).stop.None?;
    }
  }

  lemma DoneLineEffect(vendor: Vendor, codec: JsonCodec)
    ensures LineEffectOf(vendor, codec, "data: [DONE]") == Stop(DoneMarker)
  {
    assert "data: [DONE]"[..|DataPrefix|] == DataPrefix;
    assert "data: [DONE]"[|DataPrefix|..] == DoneText;
  }

  lemma DoneChunk(vendor: Vendor, codec: JsonCodec)
    ensures ScanChunks(vendor, codec, ["data: [DONE]"]) == Scan([], Some(DoneMarker))
  {
    SplitWithoutSeparator("data: [DONE]", '\n');
    DoneLineEffect(vendor, codec);
  }

  /** A `data: [DONE]` chunk ends the stream for both providers, with whatever came before it. */
  lemma DoneLineStops(vendor: Vendor, codec: JsonCodec, before: seq<string>, after: seq<string>)
    requires ScanChunks(vendor, codec, before).stop.None?
    ensures ScanChunks(vendor, codec, before + ["data: [DONE]"] + after) == Scan(ScanChunks(vendor, codec, before).tokens, Some(DoneMarker))
  {
    DoneChunk(vendor, codec);
    ScanChunksAppend(vendor, codec, before, ["data: [DONE]"]);
    ScanChunksAppend(vendor, codec, before + ["data: [DONE]"], after);
    assert ScanChunks(vendor, codec, before).tokens + [] == ScanChunks(vendor, codec, before).tokens;
  }

  lemma BrokenLineEffects(vendor: Vendor, codec: JsonCodec)
    requires codec.parse("[DO").Failure?
    ensures LineEffectOf(vendor, codec, "data: [DO") == Skip
    ensures LineEffectOf(vendor, codec, "NE]") == Skip
  {
    assert "data: [DO"[..|DataPrefix|] == DataPrefix;
    assert "data: [DO"[|DataPrefix|..] == "[DO";
    assert "NE]"[0] != DataPrefix[0];
  }

  /**
   * Lines are split chunk by chunk with nothing carried over: `data: [DONE]`
   * delivered as the two chunks "data: [DO" and "NE]" does not end the stream.
   */
  lemma ChunkBoundarySplitsLines(vendor: Vendor, codec: JsonCodec)
    requires codec.parse("[DO").Failure?
    ensures ScanChunks(vendor, codec, ["data: [DO", "NE]"]) == Scan([], None)
  {
    SplitWithoutSeparator("data: [DO", '\n');
    SplitWithoutSeparator("NE]", '\n');
    BrokenLineEffects(vendor, codec);
    assert ["data: [DO", "NE]"][1..] == ["NE]"];
    assert ScanLines(vendor, codec, ["NE]"]) == Scan([], None) by {
      assert ["NE]"][1..] == [];
    }
    assert ScanLines(vendor, codec, ["data: [DO"]) == Scan([], None) by {
      assert ["data: [DO"][1..] == [];
    }
  }


  /** An OpenAI chunk payload `{"choices":[{"delta":{"content":t}}]}` with non-empty `t` yields the token `t`. */
  lemma OpenAIContentLine(codec: JsonCodec, payload: string, t: string)
    requires t != "" && payload != DoneText
    requires codec.parse(payload) == Success(JObject([("choices", JArray([JObject([("delta", JObject([("content", JString(t))]))])]))]))
    ensures LineEffectOf(OpenAI, codec, DataPrefix + payload) == Token(t)
  {
    assert (DataPrefix + payload)[..|DataPrefix|] == DataPrefix;
    assert (DataPrefix + payload)[|DataPrefix|..] == payload;
  }

  /** An Anthropic `content_block_delta` payload with non-empty `delta.text` yields that text. */
  lemma AnthropicDeltaLine(codec: JsonCodec, payload: string, t: string)
    requires t != "" && payload != DoneText
    requires codec.parse(payload) == Success(JObject([("type", JString("content_block_delta")), ("delta", JObject([("text", JString(t))]))]))
    ensures LineEffectOf(Anthropic, codec, DataPrefix + payload) == Token(t)
  {
    assert (DataPrefix + payload)[..|DataPrefix|] == DataPrefix;
    assert (DataPrefix + payload)[|DataPrefix|..] == payload;
    var es := [("type", JString("content_block_delta")), ("delta", JObject([("text", JString(t))]))];
    assert "type" != "delta" && es[1..][0].0 == "delta";
    assert Lookup(es, "type") == Some(JString("content_block_delta"));
    assert Lookup(es, "delta") == Some(JObject([("text", JString(t))]));
    assert AnthropicDelta(JObject(es)) == Some(t);
  }

  /** An Anthropic `message_stop` payload ends the stream. */
  lemma AnthropicStopLine(codec: JsonCodec, payload: string)
    requires payload != DoneText
    requires codec.parse(payload) == Success(JObject([("type", JString("message_stop"))]))
    ensures LineEffectOf(Anthropic, codec, DataPrefix + payload) == Stop(MessageStop)
  {
    assert (DataPrefix + payload)[..|DataPrefix|] == DataPrefix;
    assert (DataPrefix + payload)[|DataPrefix|..] == payload;
    assert JString("message_stop") != JString("content_block_delta");
  }

  /** What `fetch` gives back: a rejection, or a response with its status and, when streamed, its body. */
  datatype Transport =
    | FetchFailed(message: string)
    | Response(ok: bool, status: nat, statusText: string, body: Option<StreamReply>)

  function VendorName(v: Vendor): string {
    match v
    case OpenAI => "OpenAI"
    case Anthropic => "Anthropic"
  }

  /**
   * An OK response without a body takes the non-streaming branch, where
   * `response.json()` reads the empty text and rejects with the parser's
   * SyntaxError, which reaches `onError`. `JSON.parse` rejects "", so the
   * second case is there only because the codec is a parameter.
   */
  function NullBodyCall(codec: JsonCodec): (c: LlmCall)
    ensures c.Raised? && c.streamed == []
    ensures codec.parse("").Failure? ==> c.message == codec.parse("").error
  {
    match codec.parse("")
    case Failure(m) => Raised([], m)
    case Success(_) => Raised([], "")
  }

  /**
   * What a caller that passes streaming callbacks observes of
   * `executePrompt`: a refused request calls no callback; a failed request or
   * a non-OK status reaches `onError`; a streamed body goes through the
   * stream handler, whose `onError` reaches the caller too.
   */
  function ObservedCall(codec: JsonCodec, config: ApiConfig, transport: Transport): LlmCall {
    match Dispatch(config)
    case Rejected(_) => Returned([], None)
    case Send(vendor) =>
      match transport
      case FetchFailed(message) => Raised([], message)
      case Response(ok, status, statusText, body) =>
        if !ok then Raised([], VendorName(vendor) + " API error: " + NatToString(status) + " " + statusText)
        else if body.None? then NullBodyCall(codec)
        else
          var (tokens, response) := StreamOutcome(vendor, codec, body.value);
          if response.success then Returned(tokens, response.data) else Raised(tokens, response.error.GetOr(""))
  }

  /**
   * A refused request settles with nothing streamed and no completion; a
   * non-OK status raises `<provider> API error: <status> <statusText>`; an OK
   * response without a body raises the parser's error for the empty text; a
   * settled stream completes with exactly its streamed tokens.
   */
  lemma ObservedCallProperties(codec: JsonCodec, config: ApiConfig, transport: Transport)
    ensures Dispatch(config).Rejected? ==> ObservedCall(codec, config, transport) == Returned([], None)
    ensures Dispatch(config).Send? && transport.Response? && !transport.ok ==>
      ObservedCall(codec, config, transport) ==
        Raised([], VendorName(Dispatch(config).vendor) + " API error: " + NatToString(transport.status) + " " + transport.statusText)
    ensures Dispatch(config).Send? && transport.Response? && transport.ok && transport.body.None? && codec.parse("").Failure? ==>
      ObservedCall(codec, config, transport) == Raised([], codec.parse("").error)
    ensures ObservedCall(codec, config, transport).Returned? && ObservedCall(codec, config, transport).completion.Some? ==>
      ObservedCall(codec, config, transport).completion.value == Concat(ObservedCall(codec, config, transport).streamed)
  {
    if Dispatch(config).Send? && transport.Response? && transport.ok && transport.body.Some? {
      StreamDataIsTokens(Dispatch(config).vendor, codec, transport.body.value);
    }
  }

  /** The service object: the configuration is the one field, replaced by `updateConfig`. */
  class ApiService {
    var config: ApiConfig

    constructor(config: ApiConfig)
      ensures this.config == config
    {
      this.config := config;
    }

    method UpdateConfig(config: ApiConfig)
      modifies this
      ensures this.config == config
    {
      this.config := config;
    }

    /** `validateConfig`: push the errors of the selected provider's settings. */
    method ValidateConfig() returns (v: Validation)
      ensures v.errors == ConfigErrors(config)
      ensures v.isValid <==> v.errors == []
    {
      var errors: seq<string> := [];
      if config.provider == "openai" {
        if config.openaiKey == "" {
          errors := errors + [OpenAIKeyRequired];
        } else if !StartsWith(config.openaiKey, "sk-") {
          errors := errors + [OpenAIKeyPrefix];
        }
        if config.openaiModel == "" {
          errors := errors + [OpenAIModelRequired];
        }
      } else if config.provider == "anthropic" {
        if config.anthropicKey == "" {
          errors := errors + [AnthropicKeyRequired];
        } else if !StartsWith(config.anthropicKey, "sk-ant-") {
          errors := errors + [AnthropicKeyPrefix];
        }
        if config.anthropicModel == "" {
          errors := errors + [AnthropicModelRequired];
        }
      }
      v := Validation(errors == [], errors);
    }

    /** `executePrompt` with streaming callbacks, given what the network does. */
    method ExecutePrompt(codec: JsonCodec, transport: Transport) returns (call: LlmCall)
      ensures call == ObservedCall(codec, config, transport)
    {
      var preflight := Dispatch(config);
      if preflight.Rejected? {
        return Returned([], None);
      }
      match transport {
        case FetchFailed(message) =>
          return Raised([], message);
        case Response(ok, status, statusText, body) =>
          if !ok {
            return Raised([], VendorName(preflight.vendor) + " API error: " + NatToString(status) + " " + statusText);
          }
          if body.None? {
            return NullBodyCall(codec);
          }
          var tokens, response := HandleStream(preflight.vendor, codec, body.value);
          if response.success {
            call := Returned(tokens, response.data);
          } else {
            call := Raised(tokens, response.error.GetOr(""));
          }
      }
    }
  }
}
