/** LanguageResolver: which content language a public request asks for —
    the `lang` parameter, else the Accept-Language header, else the default. */
module LanguageResolver {
  import opened Common
  import JavaString

  /** `Language.valueOf(p.toUpperCase())` for a parameter with text; None
      where valueOf would throw (the exception is swallowed). */
  function FromParam(p: Str): (r: Option<Language>)
    ensures r.Some? ==> HasText(p) && LanguageName(r.value) == JavaString.ToUpper(p.value)
    ensures HasText(p) && LanguageValueOf(JavaString.ToUpper(p.value)).Some? ==> r.Some?
  {
    if HasText(p) then LanguageValueOf(JavaString.ToUpper(p.value)) else None
  }

  /** resolve(langParam): the parameter's language, else DEFAULT. */
  function Resolve(p: Str): (r: Language)
    ensures HasText(p) && LanguageValueOf(JavaString.ToUpper(p.value)).Some? ==>
      r == LanguageValueOf(JavaString.ToUpper(p.value)).value
    ensures r != DEFAULT ==> HasText(p) && LanguageName(r) == JavaString.ToUpper(p.value)
    ensures FromParam(p).None? ==> r == DEFAULT
  {
    match FromParam(p)
    case Some(l) => l
    case None => DEFAULT
  }

  /** The separators of the header split, the regex `[,;]`. */
  const HeaderSeparators: set<char> := {',', ';'}

  /** `acceptLang.split("[,;]")[0].trim().toLowerCase()`; the index fails
      when the split yields no element at all. */
  function PrimaryTag(header: string): (r: Result<string>)
    ensures r.Err? ==> r.error == IndexOutOfBounds
  {
    var parts := JavaString.Split(header, HeaderSeparators);
    if |parts| == 0 then Err(IndexOutOfBounds)
    else Ok(JavaString.ToLower(JavaString.Trim(parts[0])))
  }

  /** The header's language by the prefix of its primary tag: the text
      before the first separator, trimmed and lower-cased, is tested for
      "pt", then "en", then "de"; a missing header or any other tag gives
      DEFAULT, and a non-empty header of separators alone throws. */
  function FromHeader(header: Str): (r: Result<Language>)
    ensures header.None? ==> r == Ok(DEFAULT)
    ensures r.Err? ==> r == Err(IndexOutOfBounds)
    ensures header.Some? ==>
      (r.Err? <==> |header.value| > 0 && JavaString.OnlySeparators(header.value, HeaderSeparators))
    ensures header.Some? && r.Ok? ==>
      var primary := JavaString.ToLower(JavaString.Trim(JavaString.BeforeFirst(header.value, HeaderSeparators)));
      var pt, en, de :=
        JavaString.StartsWith(primary, "pt"), JavaString.StartsWith(primary, "en"), JavaString.StartsWith(primary, "de");
      && (pt ==> r.value == PT)
      && (!pt && en ==> r.value == EN)
      && (!pt && !en && de ==> r.value == DE)
      && (!pt && !en && !de ==> r.value == DEFAULT)
  {
    if header.None? then Ok(DEFAULT)
    else
      PrimaryTagSpec(header.value);
      match PrimaryTag(header.value)
      case Err(e) => Err(e)
      case Ok(primary) =>
        if JavaString.StartsWith(primary, "pt") then Ok(PT)
        else if JavaString.StartsWith(primary, "en") then Ok(EN)
        else if JavaString.StartsWith(primary, "de") then Ok(DE)
        else Ok(DEFAULT)
  }

  /** resolve(langParam, request): a valid parameter wins; otherwise the
      header decides; otherwise DEFAULT. */
  function ResolveWithHeader(p: Str, header: Str): (r: Result<Language>)
    ensures FromParam(p).Some? ==> r == Ok(FromParam(p).value)
    ensures FromParam(p).None? ==> r == FromHeader(header)
  {
    match FromParam(p)
    case Some(l) => Ok(l)
    case None => FromHeader(header)
  }

  /** The parameter is matched case-insensitively: any casing of a
      language's name selects it. */
  lemma ParamAnyCase(p: string, l: Language)
    requires JavaString.ToUpper(p) == LanguageName(l)
    ensures Resolve(Some(p)) == l
    ensures ResolveWithHeader(Some(p), None) == Ok(l)
  {
    assert HasText(Some(p)) by {
      assert |p| == 2;
      assert !JavaString.IsWhitespace(p[0]) by {
        assert JavaString.ToUpperChar(p[0]) == LanguageName(l)[0];
      }
    }
    LanguageNameRoundTrip(l, JavaString.ToUpper(p));
  }

  /** The primary tag is the text before the first ',' or ';', trimmed and
      lower-cased; only a non-empty header made of separators alone has no
      element to take, and indexing it fails. */
  lemma PrimaryTagSpec(header: string)
    ensures PrimaryTag(header).Err? <==> |header| > 0 && JavaString.OnlySeparators(header, HeaderSeparators)
    ensures PrimaryTag(header).Ok? ==>
      PrimaryTag(header).value == JavaString.ToLower(JavaString.Trim(JavaString.BeforeFirst(header, HeaderSeparators)))
  {
    JavaString.SplitSpec(header, HeaderSeparators);
  }

  /** Prefixes pick the language in the order pt, en, de; any other tag
      gives DEFAULT, and so does a missing header. */
  lemma HeaderPrefixes(header: string)
    requires PrimaryTag(header).Ok?
    ensures var primary := PrimaryTag(header).value;
      && (JavaString.StartsWith(primary, "pt") ==> FromHeader(Some(header)) == Ok(PT))
      && (!JavaString.StartsWith(primary, "pt") && JavaString.StartsWith(primary, "en") ==> FromHeader(Some(header)) == Ok(EN))
      && (!JavaString.StartsWith(primary, "pt") && !JavaString.StartsWith(primary, "en") && !JavaString.StartsWith(primary, "de")
          ==> FromHeader(Some(header)) == Ok(DEFAULT))
    ensures FromHeader(None) == Ok(DEFAULT)
  {
  }

  /** A concrete header that makes the two-argument resolve throw: a lone
      comma splits into no element at all. */
  lemma SeparatorOnlyHeaderThrows()
    ensures ResolveWithHeader(None, Some(",")) == Err(IndexOutOfBounds)
  {
    PrimaryTagSpec(",");
  }

  /** An empty header is not the failing case: split returns it whole. */
  lemma EmptyHeaderGivesDefault()
    ensures ResolveWithHeader(None, Some("")) == Ok(DEFAULT)
  {
    PrimaryTagSpec("");
    assert JavaString.BeforeFirst("", HeaderSeparators) == "";
  }
}
