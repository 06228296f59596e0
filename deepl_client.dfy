/** DeepLTranslationClient: the guards, the form it posts and the check of
    DeepL's answer. */
module DeepLClient {
  import opened Common
  import opened TranslationProperties
  import opened ProviderHttp

  /** The language codes DeepL is sent. */
  function DeepLLang(l: Language): (code: string)
    ensures l == DE ==> code == "DE"
    ensures l == PT ==> code == "PT-PT"
    ensures l == EN ==> code == "EN"
  {
    match l
    case DE => "DE"
    case PT => "PT-PT"
    case EN => "EN"
  }

  /** Different languages get different codes. */
  lemma DeepLLangInjective(a: Language, b: Language)
    requires DeepLLang(a) == DeepLLang(b)
    ensures a == b
  {
  }

  /** The POST: url, headers, and the three form fields. */
  datatype DeepLRequest = DeepLRequest(
    url: Str, contentType: string, authorization: string,
    text: string, sourceLang: string, targetLang: string)

  function RequestFor(props: Properties, text: string, source: Language, target: Language): (req: DeepLRequest)
    requires IsDeepLConfigured(props)
    ensures req.authorization == "DeepL-Auth-Key " + props.deepl.apiKey.value
    ensures req.text == text && req.sourceLang == DeepLLang(source) && req.targetLang == DeepLLang(target)
    ensures req.url == props.deepl.apiUrl
  {
    DeepLRequest(props.deepl.apiUrl, "application/x-www-form-urlencoded",
                 "DeepL-Auth-Key " + props.deepl.apiKey.value,
                 text, DeepLLang(source), DeepLLang(target))
  }

  /** translate: blank or null text comes back as it is, before anything
      else; an unconfigured client answers null without a request;
      otherwise the first entry of the `translations` array, or null. */
  function Translate(props: Properties, exchange: DeepLRequest -> HttpReply,
                     text: Str, source: Language, target: Language): (r: Str)
    ensures IsBlank(text) ==> r == text
    ensures HasText(text) && !IsDeepLConfigured(props) ==> r.None?
    ensures HasText(text) && IsDeepLConfigured(props) ==>
      r == FirstText(exchange(RequestFor(props, text.value, source, target)), "translations")
  {
    if IsBlank(text) then text
    else if !IsDeepLConfigured(props) then None
    else FirstText(exchange(RequestFor(props, text.value, source, target)), "translations")
  }

  /** Whatever the network does, a failed or malformed exchange yields null
      and never the text it was asked to translate. */
  lemma FailureGivesNull(props: Properties, exchange: DeepLRequest -> HttpReply, text: string, source: Language, target: Language)
    requires HasText(Some(text)) && IsDeepLConfigured(props)
    requires exchange(RequestFor(props, text, source, target)).Threw?
      || !Is2xx(exchange(RequestFor(props, text, source, target)).status)
    ensures Translate(props, exchange, Some(text), source, target).None?
  {
  }
}
