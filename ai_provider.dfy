/** `AiProvider.generateIntro`: ask a chat-completion service for a short
    introduction of an article. The HTTP request itself is a parameter
    `send`, giving either the response or the error it was rejected with. */
module AiProvider {
  import opened Js
  import opened Strings

  /** The stored AI setting. */
  datatype AiConfig = AiConfig(enabled: Json, endpoint: Json, apiKey: Json, model: Json, timeout: Json)

  /** The request `generateIntro` makes. */
  datatype Request = Request(url: string, authorization: string, model: Json, timeout: Json, prompt: string)

  /** What the HTTP client gives back: a response, or the error it throws. */
  datatype Reply = Responded(res: Json) | Rejected(err: Json)

  /** An introduction, or the message of the error thrown to the caller. */
  datatype Outcome = Intro(text: string) | Failure(message: Json)

  const ConfigureFirst: string := "请先配置AI功能"
  const NoContent: string := "AI 未返回内容"
  const GenericFailure: string := "AI 简介生成失败"
  const PromptPrefix: string := "请根据以下文章内容，用中文生成不超过100字的简介，突出主题，避免换行与多余标点：\n\n"
  const MaxIntro: nat := 120

  /** The feature is enabled and the key, the endpoint and the model are all set. */
  predicate Configured(cfg: AiConfig) {
    Truthy(cfg.enabled) && Truthy(cfg.apiKey) && Truthy(cfg.endpoint) && Truthy(cfg.model)
  }

  function IntroRequest(cfg: AiConfig, content: string): (r: Request)
    ensures r.url == ToJsString(cfg.endpoint) + "/chat/completions"
    ensures r.prompt == PromptPrefix + content && r.model == cfg.model
  {
    Request(ToJsString(cfg.endpoint) + "/chat/completions", "Bearer " + ToJsString(cfg.apiKey),
            cfg.model, cfg.timeout, PromptPrefix + content)
  }

  /** `v?.[0]` for arrays; other values have no element 0 here. */
  function First(v: Json): Json {
    if v.JArr? && |v.items| > 0 then v.items[0] else JUndefined
  }

  /** `res?.data?.choices?.[0]?.message?.content`. */
  function Content(res: Json): Json {
    Member(Member(First(Member(Member(res, "data"), "choices")), "message"), "content")
  }

  /** What the trimmed output is: text, absent, or a value without a `trim`
      method (calling it throws). */
  datatype Output = Text(s: string) | Absent | NotText

  function TrimmedOutput(res: Json): (r: Output)
    ensures Content(res).JStr? ==> r == Text(Trim(Content(res).s))
    ensures (Content(res).JUndefined? || Content(res).JNull?) ==> r == Absent
  {
    match Content(res)
    case JStr(s) => Text(Trim(s))
    case JUndefined => Absent
    case JNull => Absent
    case _ => NotText
  }

  /** The upstream message, then the error's own message, then the fixed fallback. */
  function ErrorMessage(err: Json): Json {
    Or(Or(Member(Member(Member(Member(err, "response"), "data"), "error"), "message"), Member(err, "message")),
       JStr(GenericFailure))
  }

  /** The error `generateIntro` throws from inside its `try` with message `m`: an
      exception whose `message` is `m` and that has no upstream body. */
  function ThrownError(m: string): Json {
    JObj([("message", JStr(m))])
  }

  /** The error a call of `trim` on a value that is not a string throws. */
  const NotAFunction: Json := JObj([("message", JStr("res?.data?.choices?.[0]?.message?.content?.trim is not a function"))])

  function GenerateIntro(cfg: AiConfig, content: string, send: Request -> Reply): (r: Outcome)
    ensures !Configured(cfg) ==> r == Failure(JStr(ConfigureFirst))
    ensures r.Intro? ==> 0 < |r.text| <= MaxIntro
  {
    if !Configured(cfg) then Failure(JStr(ConfigureFirst))
    else
      match send(IntroRequest(cfg, content))
      case Rejected(err) => Failure(ErrorMessage(err))
      case Responded(res) =>
        match TrimmedOutput(res)
        case Text(output) =>
          if output == "" then Failure(ErrorMessage(ThrownError(NoContent)))
          else Intro(if |output| > MaxIntro then output[..MaxIntro] else output)
        case Absent => Failure(ErrorMessage(ThrownError(NoContent)))
        case NotText => Failure(ErrorMessage(NotAFunction))
  }

  /** A returned introduction is a non-empty prefix of the trimmed output of at
      most 120 characters, and the whole output when that is short enough. */
  lemma IntroIsTruncatedOutput(cfg: AiConfig, content: string, send: Request -> Reply)
    requires GenerateIntro(cfg, content, send).Intro?
    ensures var reply := send(IntroRequest(cfg, content));
            var text := GenerateIntro(cfg, content, send).text;
            Configured(cfg) && reply.Responded? && TrimmedOutput(reply.res).Text? &&
            var output := TrimmedOutput(reply.res).s;
            output != "" && text == Take(output, MaxIntro) &&
            (|output| <= MaxIntro ==> text == output)
  {
  }

  /** A response whose content trims to nothing, or that has none, is an
      error with the "no content" message. */
  lemma EmptyOutputFails(cfg: AiConfig, content: string, send: Request -> Reply)
    requires Configured(cfg) && send(IntroRequest(cfg, content)).Responded?
    requires var out := TrimmedOutput(send(IntroRequest(cfg, content)).res);
             out == Absent || out == Text("")
    ensures GenerateIntro(cfg, content, send) == Failure(JStr(NoContent))
  {
  }

  /** A rejected request is rethrown with the service's message when it sent
      one, the client's message otherwise, and the fallback when neither exists. */
  lemma RejectionMessage(cfg: AiConfig, content: string, send: Request -> Reply)
    requires Configured(cfg) && send(IntroRequest(cfg, content)).Rejected?
    ensures var err := send(IntroRequest(cfg, content)).err;
            var upstream := Member(Member(Member(Member(err, "response"), "data"), "error"), "message");
            var own := Member(err, "message");
            GenerateIntro(cfg, content, send) ==
              Failure(if Truthy(upstream) then upstream else if Truthy(own) then own else JStr(GenericFailure))
  {
  }
}
