/** The part of services/OpenAIService.js that does not talk to the network:
    the API-key check of the constructor, the extraction of the JSON object
    from the engine's reply with the greedy regular expression
    `/\{[\s\S]*\}/`, the metadata stamped on an analysis, and the wrapping
    of every failure in an Error with a fixed prefix. The chat-completion
    call itself is outside the model: its outcome (the reply text, or the
    message of the error it threw) is a parameter, and so is JSON.parse. */
module OpenAIService {
  import opened Results
  import opened Seqs
  import opened Text
  import opened JsValues

  const MISSING_KEY_MESSAGE := "OPENAI_API_KEY is not set. Please add it to your .env file."
  const NO_JSON_MESSAGE := "No valid JSON found in response"
  const ANALYZE_PREFIX := "Failed to analyze document: "
  const ENHANCE_PREFIX := "Failed to enhance data: "
  const MODEL := "gpt-4o"

  /** The constructor's guard: an unset or empty key throws. */
  function CheckApiKey(key: Option<string>): (r: Result<string>)
    ensures r.Success? <==> key.Some? && key.value != ""
    ensures r.Success? ==> r.value == key.value
    ensures r.Failure? ==> r.error == MISSING_KEY_MESSAGE
  {
    match key
    case Some(k) => if k == "" then Failure(MISSING_KEY_MESSAGE) else Success(k)
    case None => Failure(MISSING_KEY_MESSAGE)
  }

  /** `/\{[\s\S]*\}/` matches content[i..j+1]: a `{` at i and a `}` at a
      later j (`[\s\S]` matches every character). */
  ghost predicate IsMatch(content: string, i: int, j: int) {
    0 <= i < j < |content| && content[i] == '{' && content[j] == '}'
  }

  /** The match String.prototype.match reports: the leftmost start, and for
      it the longest match, since `*` is greedy. */
  ghost predicate IsLeftmostGreedy(content: string, i: int, j: int) {
    && IsMatch(content, i, j)
    && (forall i', j' :: IsMatch(content, i', j') ==> i <= i')
    && (forall j' :: IsMatch(content, i, j') ==> j' <= j)
  }

  /** `content.match(/\{[\s\S]*\}/)`, computed as the span from the first
      `{` to the last `}`; None when no `{` has a `}` after it. */
  function ExtractJsonSpan(content: string): (r: Option<string>)
    ensures r.None? <==> forall i, j :: !IsMatch(content, i, j)
    ensures r.Some? ==> exists i, j :: IsLeftmostGreedy(content, i, j) && r.value == content[i..j + 1]
  {
    var first := FindFirst(content, (c: char) => c == '{');
    var last := FindLast(content, (c: char) => c == '}');
    if first.Some? && last.Some? && first.value < last.value then
      assert IsLeftmostGreedy(content, first.value, last.value);
      Some(content[first.value..last.value + 1])
    else
      None
  }

  /** The extracted span is a piece of the reply that opens with `{` and
      closes with `}`. */
  lemma SpanShape(content: string)
    requires ExtractJsonSpan(content).Some?
    ensures var span := ExtractJsonSpan(content).value;
            && |span| >= 2 && span[0] == '{' && span[|span| - 1] == '}'
            && Contains(content, span)
  {
    var span := ExtractJsonSpan(content).value;
    var i, j :| IsLeftmostGreedy(content, i, j) && span == content[i..j + 1];
    assert IsPrefix(span, content[i..]);
  }

  /** A reply that is exactly one brace-delimited text is kept whole. */
  lemma WholeReplyKept(content: string)
    requires |content| > 0 && content[0] == '{' && content[|content| - 1] == '}'
    ensures ExtractJsonSpan(content) == Some(content)
  {
    assert IsMatch(content, 0, |content| - 1);
    assert ExtractJsonSpan(content).Some?;
    var i, j :| IsLeftmostGreedy(content, i, j) && ExtractJsonSpan(content).value == content[i..j + 1];
    assert i <= 0 && |content| - 1 <= j;
    assert content[0..|content|] == content;
  }

  /** Chatter around the object is cut off: text without `{` before it and
      text without `}` after it are dropped. */
  lemma {:induction false} SurroundingTextDropped(before: string, body: string, after: string)
    requires |body| >= 2 && body[0] == '{' && body[|body| - 1] == '}'
    requires forall k :: 0 <= k < |before| ==> before[k] != '{'
    requires forall k :: 0 <= k < |after| ==> after[k] != '}'
    ensures ExtractJsonSpan(before + body + after) == Some(body)
  {
    var content := before + body + after;
    var i0, j0 := |before|, |before| + |body| - 1;
    assert content[i0] == body[0] && content[j0] == body[|body| - 1];
    assert IsMatch(content, i0, j0);
    assert ExtractJsonSpan(content).Some?;
    var i, j :| IsLeftmostGreedy(content, i, j) && ExtractJsonSpan(content).value == content[i..j + 1];
    forall k | 0 <= k < i0
      ensures content[k] != '{'
    {
      assert content[k] == before[k];
    }
    forall k | j0 < k < |content|
      ensures content[k] != '}'
    {
      assert content[k] == after[k - j0 - 1];
    }
    assert i == i0 && j == j0;
    assert content[i..j + 1] == body;
  }

  /** The steps analyzeDocument and enhanceData share once the engine has
      answered: a failed call passes its message on, a reply with no
      brace-delimited span fails with NO_JSON_MESSAGE, and otherwise the
      span is handed to JSON.parse, whose outcome is the result. */
  function ParseReply(reply: Result<string>, parse: string -> Result<Object>): (r: Result<Object>)
    ensures reply.Failure? ==> r == Failure(reply.error)
    ensures reply.Success? && ExtractJsonSpan(reply.value).None? ==> r == Failure(NO_JSON_MESSAGE)
    ensures reply.Success? && ExtractJsonSpan(reply.value).Some? ==> r == parse(ExtractJsonSpan(reply.value).value)
  {
    match reply
    case Failure(m) => Failure(m)
    case Success(content) =>
      match ExtractJsonSpan(content)
      case None => Failure(NO_JSON_MESSAGE)
      case Some(span) => parse(span)
  }

  /** The OpenAIService instance; its OpenAI client is represented by the
      key it was configured with. */
  class AnalysisClient {
    const apiKey: string

    /** The client is built only after the key check has passed. */
    constructor (apiKey: string)
      requires apiKey != ""
      ensures this.apiKey == apiKey
    {
      this.apiKey := apiKey;
    }

    /** analyzeDocument after the chat-completion call: the parsed object
        gets `analyzedAt` and `model = "gpt-4o"` written onto it in place,
        overriding same-named fields of the reply and keeping all others and
        their order; any failure is rethrown with the ANALYZE_PREFIX. */
    method AnalyzeDocument(reply: Result<string>, parse: string -> Result<Object>, analyzedIso: string)
      returns (r: Result<Object>)
      ensures ParseReply(reply, parse).Failure? ==>
                r == Failure(ANALYZE_PREFIX + ParseReply(reply, parse).error)
      ensures ParseReply(reply, parse).Success? ==>
                var parsed := ParseReply(reply, parse).value;
                && r.Success?
                && Get(r.value, "analyzedAt") == Some(Str(analyzedIso))
                && Get(r.value, "model") == Some(Str(MODEL))
                && (forall k :: k != "analyzedAt" && k != "model" ==> Get(r.value, k) == Get(parsed, k))
                && |parsed| <= |r.value|
                && (forall j :: 0 <= j < |parsed| ==> r.value[j].key == parsed[j].key)
    {
      var outcome := ParseReply(reply, parse);
      match outcome {
        case Failure(m) =>
          r := Failure(ANALYZE_PREFIX + m);
        case Success(result) =>
          result := Set(result, "analyzedAt", Str(analyzedIso));
          result := Set(result, "model", Str(MODEL));
          r := Success(result);
      }
    }

    /** enhanceData after the chat-completion call: the parsed object is
        returned as it is, with no metadata; any failure is rethrown with the
        ENHANCE_PREFIX. */
    method EnhanceData(reply: Result<string>, parse: string -> Result<Object>) returns (r: Result<Object>)
      ensures ParseReply(reply, parse).Failure? ==>
                r == Failure(ENHANCE_PREFIX + ParseReply(reply, parse).error)
      ensures ParseReply(reply, parse).Success? ==> r == ParseReply(reply, parse)
    {
      var outcome := ParseReply(reply, parse);
      match outcome {
        case Failure(m) =>
          r := Failure(ENHANCE_PREFIX + m);
        case Success(result) =>
          r := Success(result);
      }
    }
  }

  /** `new OpenAIService()`: throws MISSING_KEY_MESSAGE when the key is
      unset or empty, otherwise configures a client with it. */
  method NewAnalysisClient(key: Option<string>) returns (r: Result<AnalysisClient>)
    ensures r.Failure? <==> key.None? || key.value == ""
    ensures r.Failure? ==> r.error == MISSING_KEY_MESSAGE
    ensures r.Success? ==> r.value.apiKey == key.value
  {
    match CheckApiKey(key) {
      case Failure(m) =>
        r := Failure(m);
      case Success(k) =>
        var client := new AnalysisClient(k);
        r := Success(client);
    }
  }
}
