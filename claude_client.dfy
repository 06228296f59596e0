/** ClaudeTranslationClient: the guards, the Messages API request with its
    translator system prompt, and the check of the answer. */
module ClaudeClient {
  import opened Common
  import opened TranslationProperties
  import opened ProviderHttp

  /** The language names the prompt uses. */
  function LangName(l: Language): (name: string)
    ensures l == DE ==> name == "German"
    ensures l == PT ==> name == "Portuguese"
    ensures l == EN ==> name == "English"
  {
    match l
    case DE => "German"
    case PT => "Portuguese"
    case EN => "English"
  }

  lemma LangNameInjective(a: Language, b: Language)
    requires LangName(a) == LangName(b)
    ensures a == b
  {
  }

  const PromptOpening := "You are a professional translator for an educational blog about early childhood education " +
    "(fr\U{FC}hkindliche Bildung). Translate the following content from "

  const PreserveHtml := "Preserve ALL HTML tags, structure, and formatting exactly as-is. "

  const OtherDirectives := "Only translate the text content between/around HTML tags. " +
    "Maintain the educational and professional tone. " +
    "Return ONLY the translated content, no explanations or wrapping."

  /** The system prompt for one language pair. */
  function SystemPrompt(source: Language, target: Language): (p: string)
    ensures |p| > |PromptOpening| && p[..|PromptOpening|] == PromptOpening
  {
    PromptOpening + LangName(source) + " to " + LangName(target) + ". " + PreserveHtml + OtherDirectives
  }

  const AnthropicVersion := "2023-06-01"
  const MaxTokens := 8192

  /** The POST: url, the two API headers, and the JSON body. */
  datatype ClaudeRequest = ClaudeRequest(
    url: Str, apiKey: string, anthropicVersion: string,
    model: string, maxTokens: int, system: string, messages: seq<(string, string)>)

  function RequestFor(props: Properties, model: string, text: string, source: Language, target: Language): (req: ClaudeRequest)
    requires IsClaudeConfigured(props)
    ensures req.apiKey == props.claude.apiKey.value && req.anthropicVersion == "2023-06-01"
    ensures req.model == model && req.maxTokens == 8192 && req.url == props.claude.apiUrl
    ensures req.messages == [("user", text)]
    ensures req.system == SystemPrompt(source, target)
  {
    ClaudeRequest(props.claude.apiUrl, props.claude.apiKey.value, AnthropicVersion,
                  model, MaxTokens, SystemPrompt(source, target), [("user", text)])
  }

  /** translate: blank or null text comes back as it is; an unconfigured
      client answers null; a null model makes building the body throw, so
      null; otherwise the first entry of the `content` array, or null. */
  function Translate(props: Properties, exchange: ClaudeRequest -> HttpReply,
                     text: Str, source: Language, target: Language): (r: Str)
    ensures IsBlank(text) ==> r == text
    ensures HasText(text) && (!IsClaudeConfigured(props) || props.claude.model.None?) ==> r.None?
    ensures HasText(text) && IsClaudeConfigured(props) && props.claude.model.Some? ==>
      r == FirstText(exchange(RequestFor(props, props.claude.model.value, text.value, source, target)), "content")
  {
    if IsBlank(text) then text
    else if !IsClaudeConfigured(props) then None
    else if props.claude.model.None? then None
    else FirstText(exchange(RequestFor(props, props.claude.model.value, text.value, source, target)), "content")
  }

  /** Without a key (or a model) no request is made: the answer does not
      depend on the exchange at all. */
  lemma UnconfiguredIgnoresExchange(props: Properties, e1: ClaudeRequest -> HttpReply, e2: ClaudeRequest -> HttpReply,
                                    text: Str, source: Language, target: Language)
    requires !IsClaudeConfigured(props) || props.claude.model.None?
    ensures Translate(props, e1, text, source, target) == Translate(props, e2, text, source, target)
  {
  }

  /** Where the second, fourth and sixth of seven pieces sit in their
      concatenation. */
  lemma {:induction false} SevenPieces(a: string, b: string, c: string, d: string, e: string, f: string, g: string)
    ensures OccursAt(a + b + c + d + e + f + g, b, |a|)
    ensures OccursAt(a + b + c + d + e + f + g, d, |a| + |b| + |c|)
    ensures OccursAt(a + b + c + d + e + f + g, f, |a| + |b| + |c| + |d| + |e|)
  {
    var p := a + b + c + d + e + f + g;
    assert p[|a|..|a| + |b|] == b;
    assert p[|a| + |b| + |c|..|a| + |b| + |c| + |d|] == d;
    assert p[|a| + |b| + |c| + |d| + |e|..|a| + |b| + |c| + |d| + |e| + |f|] == f;
  }

  /** The prompt names both languages and asks for the HTML to be kept. */
  lemma {:induction false} PromptNamesPairAndKeepsHtml(source: Language, target: Language)
    ensures Contains(SystemPrompt(source, target), LangName(source))
    ensures Contains(SystemPrompt(source, target), LangName(target))
    ensures Contains(SystemPrompt(source, target), PreserveHtml)
  {
    var s, t := LangName(source), LangName(target);
    SevenPieces(PromptOpening, s, " to ", t, ". ", PreserveHtml, OtherDirectives);
  }
}
