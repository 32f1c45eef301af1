/** The Python chat relay: request validation, a priority chain over a local
    model, a hosted model and a canned offline answer, and the provider probe.
    The network is a parameter: `post` answers an outgoing request with a status
    and a decoded JSON body, or with `Raised` when the call throws. */
module AiServer {
  import opened Common

  /** A decoded JSON value.  Objects are maps: Python's decoder keeps the last
      of duplicate keys, and no operation here depends on key order. */
  datatype Json =
    | JNull
    | JBool(b: bool)
    | JNum(n: real)
    | JStr(s: string)
    | JArr(items: seq<Json>)
    | JObj(fields: map<string, Json>)

  /** Python truthiness of a decoded value. */
  predicate Truthy(v: Json)
  {
    match v
    case JNull => false
    case JBool(b) => b
    case JNum(n) => n != 0.0
    case JStr(s) => s != ""
    case JArr(items) => items != []
    case JObj(fields) => fields != map[]
  }

  /** The outcome of one HTTP call: it raised, or it returned a status and a
      body that did (`Some`) or did not (`None`) decode as JSON. */
  datatype HttpOutcome = Raised | Status(code: int, body: Option<Json>)

  datatype Request = Request(url: string, headers: seq<(string, string)>, payload: Json)

  /** The reply of the `/chat` endpoint. */
  datatype Reply =
    | Failure(code: nat, error: string)
    | Answer(response: string, provider: string, status: string)

  const OllamaUrl := "http://localhost:11434/api/generate"
  const OllamaModel := "llama2"
  const OllamaTagsUrl := "http://localhost:11434/api/tags"
  const GroqUrl := "https://api.groq.com/openai/v1/chat/completions"
  const GroqModel := "llama3-8b-8192"
  const GroqKeyEnv := "GROQ_API_KEY"
  const OpenAiUrl := "https://api.openai.com/v1/chat/completions"
  const OpenAiModel := "gpt-3.5-turbo"
  const OpenAiKeyEnv := "OPENAI_API_KEY"

  const PromptHead := "You are AstroBot, an expert space exploration assistant. You specialize in astronomy, astrophysics, space missions, planets, stars, galaxies, and all things related to space exploration.\n\nUser Question: "
  const PromptTail := "\n\nPlease provide an informative, engaging response about space topics. Keep responses conversational and educational, around 100-150 words."
  const GroqSystem := "You are AstroBot, an expert space exploration assistant specializing in astronomy, astrophysics, and space science."

  /** Python's `str.strip()`. */
  function PyStrip(s: string): string
  {
    TrimWith(s, IsPySpace)
  }

  /** Python truthiness of an optional string result. */
  predicate Nonblank(r: Option<string>)
  {
    r.Some? && r.value != ""
  }

  // ---------------------------------------------------------------------
  // Prompt and provider adapters
  // ---------------------------------------------------------------------

  /** The space-focused prompt wraps the question in a fixed header and tail,
      so the question can be read back from the prompt. */
  function SpacePrompt(userInput: string): (p: string)
    ensures |p| == |PromptHead| + |userInput| + |PromptTail|
    ensures p[..|PromptHead|] == PromptHead
    ensures p[|PromptHead|..|PromptHead| + |userInput|] == userInput
    ensures p[|PromptHead| + |userInput|..] == PromptTail
  {
    PromptHead + userInput + PromptTail
  }

  /** Different questions give different prompts. */
  lemma SpacePromptInjective(a: string, b: string)
    requires SpacePrompt(a) == SpacePrompt(b)
    ensures a == b
  {
    assert |a| == |b|;
    assert a == SpacePrompt(a)[|PromptHead|..|PromptHead| + |a|];
  }

  function OllamaRequest(userInput: string): (q: Request)
    ensures q.url == OllamaUrl && q.headers == []
    ensures q.payload.JObj? && q.payload.fields.Keys == {"model", "prompt", "stream"}
    ensures q.payload.fields["model"] == JStr(OllamaModel)
    ensures q.payload.fields["prompt"] == JStr(SpacePrompt(userInput))
    ensures q.payload.fields["stream"] == JBool(false)
  {
    Request(OllamaUrl, [],
      JObj(map["model" := JStr(OllamaModel),
               "prompt" := JStr(SpacePrompt(userInput)),
               "stream" := JBool(false)]))
  }

  /** What `call_ollama_api` makes of the HTTP outcome: on status 200 with
      a JSON object, its stripped `response` string, or the empty string
      when the field is missing; `None` on anything else, where the call
      or the lookup raises. */
  function OllamaResult(o: HttpOutcome): (r: Option<string>)
    ensures o.Raised? || (o.Status? && o.code != 200) ==> r == None
    ensures r.Some? ==> o.Status? && o.code == 200 && o.body.Some? && o.body.value.JObj?
    ensures o.Status? && o.code == 200 && o.body.Some? && o.body.value.JObj? ==>
              var f := o.body.value.fields;
              && ("response" !in f ==> r == Some(""))
              && ("response" in f && f["response"].JStr? ==> r == Some(PyStrip(f["response"].s)))
              && ("response" in f && !f["response"].JStr? ==> r == None)
    ensures r.Some? ==> PyStrip(r.value) == r.value
  {
    match o
    case Raised => None
    case Status(code, body) =>
      if code != 200 then None
      else match body
        case Some(JObj(fields)) =>
          if "response" !in fields then Some("")
          else if fields["response"].JStr? then
            TrimIdempotent(fields["response"].s, IsPySpace);
            Some(PyStrip(fields["response"].s))
          else None
        case _ => None
  }

  /** Stripping twice is stripping once. */
  lemma TrimIdempotent(s: string, isSpace: char -> bool)
    ensures TrimWith(TrimWith(s, isSpace), isSpace) == TrimWith(s, isSpace)
  {
    var t := TrimWith(s, isSpace);
    if t != [] {
      assert !isSpace(t[0]) && !isSpace(t[|t| - 1]);
    }
  }

  /** `call_ollama_api`: one POST to the local model; the stripped `response`
      field on status 200, `None` on any other status or on any exception. */
  function CallOllama(userInput: string, post: Request -> HttpOutcome): (r: Option<string>)
    ensures post(OllamaRequest(userInput)).Raised? ==> r == None
    ensures post(OllamaRequest(userInput)).Status? && post(OllamaRequest(userInput)).code != 200
            ==> r == None
  {
    OllamaResult(post(OllamaRequest(userInput)))
  }

  function GroqRequest(userInput: string, apiKey: string): (q: Request)
    ensures q.url == GroqUrl
    ensures q.headers == [("Authorization", "Bearer " + apiKey), ("Content-Type", "application/json")]
    ensures q.payload.JObj? && q.payload.fields.Keys == {"messages", "model", "max_tokens", "temperature"}
    ensures q.payload.fields["messages"]
            == JArr([JObj(map["role" := JStr("system"), "content" := JStr(GroqSystem)]),
                     JObj(map["role" := JStr("user"), "content" := JStr(userInput)])])
    ensures q.payload.fields["model"] == JStr(GroqModel)
    ensures q.payload.fields["max_tokens"] == JNum(200.0)
    ensures q.payload.fields["temperature"] == JNum(0.7)
  {
    Request(GroqUrl,
      [("Authorization", "Bearer " + apiKey), ("Content-Type", "application/json")],
      JObj(map["messages" := JArr([JObj(map["role" := JStr("system"), "content" := JStr(GroqSystem)]),
                                   JObj(map["role" := JStr("user"), "content" := JStr(userInput)])]),
               "model" := JStr(GroqModel),
               "max_tokens" := JNum(200.0),
               "temperature" := JNum(0.7)]))
  }

  /** The lookup `result["choices"][0]["message"]["content"]` succeeds and
      gives a string. */
  predicate HasContent(body: Json)
  {
    && body.JObj? && "choices" in body.fields
    && body.fields["choices"].JArr? && |body.fields["choices"].items| > 0
    && body.fields["choices"].items[0].JObj?
    && "message" in body.fields["choices"].items[0].fields
    && body.fields["choices"].items[0].fields["message"].JObj?
    && "content" in body.fields["choices"].items[0].fields["message"].fields
    && body.fields["choices"].items[0].fields["message"].fields["content"].JStr?
  }

  /** `result["choices"][0]["message"]["content"].strip()`: the stripped
      content when the lookup gives a string, and `None` exactly where a
      step of the lookup or the `strip` would raise. */
  function GroqContent(body: Json): (r: Option<string>)
    ensures r.Some? <==> HasContent(body)
    ensures HasContent(body) ==>
              r == Some(PyStrip(body.fields["choices"].items[0].fields["message"].fields["content"].s))
    ensures r.Some? ==> PyStrip(r.value) == r.value
  {
    if HasContent(body) then
      var c := body.fields["choices"].items[0].fields["message"].fields["content"].s;
      TrimIdempotent(c, IsPySpace);
      Some(PyStrip(c))
    else None
  }

  /** A reply of the hosted service's shape, with any further choices and
      fields, gives back its first choice's content, stripped. */
  lemma GroqReadsFirstChoice(content: string, more: seq<Json>)
    ensures GroqContent(JObj(map["choices" := JArr([JObj(map["message" := JObj(map["content" := JStr(content)])])] + more)]))
            == Some(PyStrip(content))
  {
    var first := JObj(map["message" := JObj(map["content" := JStr(content)])]);
    assert ([first] + more)[0] == first;
  }

  /** `call_groq_api`: no request at all without a (non-empty) key; otherwise
      one POST whose stripped first choice is the answer on status 200. */
  function CallGroq(userInput: string, apiKey: Option<string>, post: Request -> HttpOutcome): (r: Option<string>)
    ensures !Nonblank(apiKey) ==> r == None
    ensures Nonblank(apiKey) && post(GroqRequest(userInput, apiKey.value)).Raised? ==> r == None
  {
    if !Nonblank(apiKey) then None
    else
      match post(GroqRequest(userInput, apiKey.value))
      case Raised => None
      case Status(code, body) =>
        if code == 200 && body.Some? then GroqContent(body.value) else None
  }

  /** Without a key the hosted adapter does not depend on the network at all. */
  lemma GroqWithoutKeyMakesNoRequest(userInput: string, apiKey: Option<string>,
                                     post1: Request -> HttpOutcome, post2: Request -> HttpOutcome)
    requires !Nonblank(apiKey)
    ensures CallGroq(userInput, apiKey, post1) == CallGroq(userInput, apiKey, post2) == None
  {
  }

  // ---------------------------------------------------------------------
  // Offline fallback
  // ---------------------------------------------------------------------

  const BlackHoleAnswer := "Black holes are fascinating cosmic objects where gravity is so strong that nothing can escape once it crosses the event horizon. They form when massive stars collapse at the end of their lives."
  const MarsAnswer := "Mars is our neighboring red planet, currently being explored by rovers like Perseverance. It has evidence of ancient water flows and is a prime target for future human missions."
  const UniverseAnswer := "The universe is an incredible place filled with billions of galaxies, each containing billions of stars. We're constantly discovering new exoplanets and learning more about our cosmic neighborhood!"
  const GenericAnswer := "That's an interesting space question! I'd love to help you explore the cosmos. Ask me about planets, stars, galaxies, space missions, or any other astronomical phenomena."

  /** A keyword table: each row lists keywords and the answer given when the
      text contains any of them; the first matching row wins. */
  function FirstMatch(table: seq<(seq<string>, string)>, default: string, text: string): (r: string)
    ensures r == default || exists row :: row in table && r == row.1
  {
    if table == [] then default
    else if ContainsAny(text, table[0].0) then table[0].1
    else
      var r := FirstMatch(table[1..], default, text);
      assert r != default ==> exists row :: row in table[1..] && r == row.1;
      r
  }

  /** The text contains at least one of the words. */
  predicate ContainsAny(text: string, words: seq<string>)
  {
    words != [] && (Contains(text, words[0]) || ContainsAny(text, words[1..]))
  }

  /** The Python fallback table, in the order its branches are tried. */
  const FallbackTable: seq<(seq<string>, string)> :=
    [(["black hole"], BlackHoleAnswer),
     (["mars"], MarsAnswer),
     (["space", "universe"], UniverseAnswer)]

  /** `get_offline_fallback`: a first match, on the lower-cased question, over
      black hole, mars, space/universe, else a generic answer. */
  function OfflineFallback(userInput: string): (r: string)
    ensures r != ""
    ensures r in {BlackHoleAnswer, MarsAnswer, UniverseAnswer, GenericAnswer}
  {
    var l := ToLower(userInput);
    if Contains(l, "black hole") then BlackHoleAnswer
    else if Contains(l, "mars") then MarsAnswer
    else if Contains(l, "space") || Contains(l, "universe") then UniverseAnswer
    else GenericAnswer
  }

  /** The if/elif chain is exactly the first match over the fallback table. */
  lemma OfflineFallbackIsFirstMatch(userInput: string)
    ensures OfflineFallback(userInput) == FirstMatch(FallbackTable, GenericAnswer, ToLower(userInput))
  {
    var l := ToLower(userInput);
    var t1 := FallbackTable[1..];
    var t2 := t1[1..];
    assert t2 == [(["space", "universe"], UniverseAnswer)];
    assert ContainsAny(l, ["universe"]) == Contains(l, "universe") by {
      assert ["universe"][1..] == [];
    }
    assert ContainsAny(l, ["space", "universe"]) == (Contains(l, "space") || Contains(l, "universe")) by {
      assert ["space", "universe"][1..] == ["universe"];
    }
    assert FirstMatch(t2, GenericAnswer, l)
           == if Contains(l, "space") || Contains(l, "universe") then UniverseAnswer else GenericAnswer by {
      assert t2[1..] == [];
    }
    assert ContainsAny(l, ["mars"]) == Contains(l, "mars") by {
      assert ["mars"][1..] == [];
    }
    assert ContainsAny(l, ["black hole"]) == Contains(l, "black hole") by {
      assert ["black hole"][1..] == [];
    }
  }

  /** Each answer is given exactly when its row is the first that matches. */
  lemma OfflineFallbackCases(userInput: string)
    ensures var l := ToLower(userInput);
            (OfflineFallback(userInput) == BlackHoleAnswer <==> Contains(l, "black hole"))
            && (OfflineFallback(userInput) == MarsAnswer
                <==> !Contains(l, "black hole") && Contains(l, "mars"))
            && (OfflineFallback(userInput) == UniverseAnswer
                <==> !Contains(l, "black hole") && !Contains(l, "mars")
                     && (Contains(l, "space") || Contains(l, "universe")))
            && (OfflineFallback(userInput) == GenericAnswer
                <==> !Contains(l, "black hole") && !Contains(l, "mars")
                     && !Contains(l, "space") && !Contains(l, "universe"))
  {
    assert BlackHoleAnswer != MarsAnswer && BlackHoleAnswer != UniverseAnswer
           && BlackHoleAnswer != GenericAnswer && MarsAnswer != UniverseAnswer
           && MarsAnswer != GenericAnswer && UniverseAnswer != GenericAnswer by {
      assert |BlackHoleAnswer| == 193 && |MarsAnswer| == 177;
      assert |UniverseAnswer| == 197 && |GenericAnswer| == 170;
    }
  }

  /** Matching ignores ASCII case. */
  lemma OfflineFallbackIgnoresCase(userInput: string)
    ensures OfflineFallback(ToLower(userInput)) == OfflineFallback(userInput)
  {
    ToLowerIdempotent(userInput);
  }

  /** A question mentioning a black hole gets the black-hole answer even when it
      also mentions Mars or space. */
  lemma BlackHoleWinsOverMars(before: string, after: string)
    ensures OfflineFallback(ToLower(before) + "black hole" + ToLower(after)) == BlackHoleAnswer
  {
    var t := ToLower(before) + "black hole" + ToLower(after);
    assert ToLower(t) == t by {
      ToLowerIdempotent(before);
      ToLowerIdempotent(after);
      assert ToLower("black hole") == "black hole";
      forall i | 0 <= i < |t| ensures ToLower(t)[i] == t[i] {
        if i < |before| {
          assert t[i] == ToLower(before)[i];
        } else if i < |before| + 10 {
          assert t[i] == "black hole"[i - |before|];
        } else {
          assert t[i] == ToLower(after)[i - |before| - 10];
        }
      }
    }
    ContainsInfix(ToLower(before), "black hole", ToLower(after));
  }

  // ---------------------------------------------------------------------
  // The /chat endpoint
  // ---------------------------------------------------------------------

  /** The validated message of a request body: `Ok` with the stripped message,
      or the error reply the endpoint gives instead. */
  datatype Validation = Valid(message: string) | Invalid(reply: Reply)

  const MessageRequired := Failure(400, "Message is required")
  const MessageEmpty := Failure(400, "Message cannot be empty")
  const InternalError := Failure(500, "Internal server error")

  /** The checks before any provider is called.  `body` is `None` when the
      request body is not JSON, which makes `get_json` raise.  The membership
      test `'message' in data` means a key test for objects, an element test
      for arrays and a substring test for strings, and raises for numbers and
      booleans; `data.get` and `.strip()` raise for anything but an object and
      a string message. */
  function Validate(body: Option<Json>): (v: Validation)
    ensures v.Valid? ==> body.Some? && body.value.JObj? && "message" in body.value.fields
                         && body.value.fields["message"].JStr?
                         && v.message == PyStrip(body.value.fields["message"].s) && v.message != ""
    ensures v.Invalid? ==> v.reply in {MessageRequired, MessageEmpty, InternalError}
    ensures body.Some? && body.value.JObj? && "message" !in body.value.fields ==> v == Invalid(MessageRequired)
    ensures body.Some? && body.value.JObj? && "message" in body.value.fields ==>
              var j := body.value.fields["message"];
              v == (if !j.JStr? then Invalid(InternalError)
                    else if PyStrip(j.s) == "" then Invalid(MessageEmpty)
                    else Valid(PyStrip(j.s)))
  {
    match body
    case None => Invalid(InternalError)
    case Some(data) =>
      if !Truthy(data) then Invalid(MessageRequired)
      else match data
        case JObj(fields) =>
          if "message" !in fields then Invalid(MessageRequired)
          else if !fields["message"].JStr? then Invalid(InternalError)
          else if PyStrip(fields["message"].s) == "" then Invalid(MessageEmpty)
          else Valid(PyStrip(fields["message"].s))
        case JArr(items) =>
          if JStr("message") in items then Invalid(InternalError) else Invalid(MessageRequired)
        case JStr(s) =>
          if Contains(s, "message") then Invalid(InternalError) else Invalid(MessageRequired)
        case _ => Invalid(InternalError)
  }

  /** `chat`: validation, then the local model, the hosted model and the
      offline answer, the first non-empty one winning. */
  function Chat(body: Option<Json>, post: Request -> HttpOutcome, groqKey: Option<string>): (r: Reply)
    ensures r.Failure? <==> Validate(body).Invalid?
    ensures r.Answer? ==> r.response != ""
    ensures r.Answer? ==> (r.provider, r.status) in {("ollama", "success"), ("groq", "success"), ("offline", "fallback")}
  {
    match Validate(body)
    case Invalid(reply) => reply
    case Valid(m) =>
      var local := CallOllama(m, post);
      if Nonblank(local) then Answer(local.value, "ollama", "success")
      else
        var hosted := CallGroq(m, groqKey, post);
        if Nonblank(hosted) then Answer(hosted.value, "groq", "success")
        else Answer(OfflineFallback(m), "offline", "fallback")
  }

  /** A rejected request never reaches a provider: the reply is the same
      whatever the network and the key would have done. */
  lemma ChatRejectsBeforeProviders(body: Option<Json>,
                                   post1: Request -> HttpOutcome, key1: Option<string>,
                                   post2: Request -> HttpOutcome, key2: Option<string>)
    requires Validate(body).Invalid?
    ensures Chat(body, post1, key1) == Chat(body, post2, key2) == Validate(body).reply
  {
  }

  /** An object without a message, or with a blank one, is a 400. */
  lemma ChatMissingOrBlankMessage(fields: map<string, Json>, post: Request -> HttpOutcome, key: Option<string>)
    requires "message" !in fields
             || (fields["message"].JStr? && PyStrip(fields["message"].s) == "")
    ensures Chat(Some(JObj(fields)), post, key).Failure?
    ensures Chat(Some(JObj(fields)), post, key).code == 400
    ensures "message" !in fields ==> Chat(Some(JObj(fields)), post, key) == MessageRequired
    ensures "message" in fields ==> Chat(Some(JObj(fields)), post, key) == MessageEmpty
  {
    var v := Validate(Some(JObj(fields)));
    assert v.Invalid? && v.reply.code == 400;
    ChatRejectsBeforeProviders(Some(JObj(fields)), post, key, post, key);
  }

  /** A non-empty local answer is returned as "ollama", whatever the hosted
      provider would have answered. */
  lemma ChatLocalFirst(body: Option<Json>, post: Request -> HttpOutcome, key: Option<string>)
    requires Validate(body).Valid? && Nonblank(CallOllama(Validate(body).message, post))
    ensures Chat(body, post, key) == Answer(CallOllama(Validate(body).message, post).value, "ollama", "success")
    ensures forall key2 :: Chat(body, post, key2) == Chat(body, post, key)
  {
  }

  /** Without a usable local answer, a non-empty hosted answer is returned as "groq". */
  lemma ChatHostedSecond(body: Option<Json>, post: Request -> HttpOutcome, key: Option<string>)
    requires Validate(body).Valid?
    requires !Nonblank(CallOllama(Validate(body).message, post))
    requires Nonblank(CallGroq(Validate(body).message, key, post))
    ensures Chat(body, post, key) == Answer(CallGroq(Validate(body).message, key, post).value, "groq", "success")
  {
  }

  /** When neither provider answers, the offline answer for the stripped
      message is returned, so a valid request always gets an answer. */
  lemma ChatOfflineLast(body: Option<Json>, post: Request -> HttpOutcome, key: Option<string>)
    requires Validate(body).Valid?
    requires !Nonblank(CallOllama(Validate(body).message, post))
    requires !Nonblank(CallGroq(Validate(body).message, key, post))
    ensures Chat(body, post, key) == Answer(OfflineFallback(Validate(body).message), "offline", "fallback")
  {
  }

  /** With the local server down and no key, every valid request is answered offline. */
  lemma ChatAllProvidersDown(body: Option<Json>, key: Option<string>)
    requires Validate(body).Valid? && !Nonblank(key)
    ensures Chat(body, q => Raised, key) == Answer(OfflineFallback(Validate(body).message), "offline", "fallback")
  {
  }

  // ---------------------------------------------------------------------
  // The /providers endpoint
  // ---------------------------------------------------------------------

  datatype ProviderStatus = ProviderStatus(ollama: bool, groq: bool, recommended: string)

  /** `get_providers`: the local probe succeeds only on status 200, the hosted
      provider is available when its key is set, and the recommendation
      follows the same priority as the chat chain. */
  function Providers(probe: HttpOutcome, groqKey: Option<string>): (p: ProviderStatus)
    ensures p.ollama <==> probe.Status? && probe.code == 200
    ensures p.groq <==> Nonblank(groqKey)
    ensures p.recommended == "ollama" <==> p.ollama
    ensures p.recommended == "groq" <==> !p.ollama && p.groq
    ensures p.recommended == "offline" <==> !p.ollama && !p.groq
  {
    var ollama := probe.Status? && probe.code == 200;
    var groq := Nonblank(groqKey);
    ProviderStatus(ollama, groq, if ollama then "ollama" else if groq then "groq" else "offline")
  }

  /** The recommendation names a provider the chat chain can actually reach:
      "groq" is only recommended when the hosted adapter would send a request. */
  lemma RecommendedGroqHasKey(probe: HttpOutcome, groqKey: Option<string>, m: string,
                              post: Request -> HttpOutcome)
    requires Providers(probe, groqKey).recommended == "groq"
    ensures CallGroq(m, groqKey, post) == (match post(GroqRequest(m, groqKey.value))
                                           case Raised => None
                                           case Status(code, body) =>
                                             if code == 200 && body.Some? then GroqContent(body.value) else None)
  {
  }
}
