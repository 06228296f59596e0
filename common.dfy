/** Vocabulary shared by the whole backend model: nullable values, the
    exceptions the services raise, and the closed set of content languages. */
module Common {
  import JavaString

  datatype Option<T> = None | Some(value: T)

  /** A Java String reference: None stands for null. */
  type Str = Option<string>

  /** `s == null || s.isBlank()` */
  predicate IsBlank(s: Str) {
    s.None? || JavaString.IsBlank(s.value)
  }

  /** `s != null && !s.isBlank()` */
  predicate HasText(s: Str) {
    !IsBlank(s)
  }

  /** The exceptions the modelled code raises (or lets escape). */
  datatype Error =
    | NotFound(what: string)            // ResourceNotFoundException
    | SlugAlreadyExists(slug: string)   // SlugAlreadyExistsException
    | IllegalArgument(message: string)  // IllegalArgumentException, also from Enum.valueOf
    | IllegalState(message: string)     // IllegalStateException
    | NullPointer                       // NullPointerException, e.g. Enum.valueOf(null)
    | IndexOutOfBounds                  // ArrayIndexOutOfBoundsException
    | IncorrectResultSize               // a single-result repository query matched several rows
    | ConstraintViolation               // the database refused a write (NOT NULL column, foreign key)
    | Runtime(message: string)          // RuntimeException, e.g. a mail the mail server refused

  datatype Result<T> = Ok(value: T) | Err(error: Error)

  /** The content languages, in declaration order. */
  datatype Language = DE | PT | EN

  /** Language.DEFAULT: the language canonical content is written in. */
  const DEFAULT: Language := DE

  /** Language.values() */
  const AllLanguages: seq<Language> := [DE, PT, EN]

  /** Enum.name() */
  function LanguageName(l: Language): string {
    match l
    case DE => "DE"
    case PT => "PT"
    case EN => "EN"
  }

  /** Enum.valueOf: the constant whose name is exactly s. */
  function LanguageValueOf(s: string): (r: Option<Language>)
    ensures r.Some? ==> LanguageName(r.value) == s
  {
    if s == "DE" then Some(DE) else if s == "PT" then Some(PT) else if s == "EN" then Some(EN) else None
  }

  /** valueOf undoes name(), and name() is injective. */
  lemma LanguageNameRoundTrip(l: Language, s: string)
    ensures LanguageValueOf(LanguageName(l)) == Some(l)
    ensures LanguageValueOf(s) == Some(l) <==> s == LanguageName(l)
  {
  }

  lemma AllLanguagesComplete(l: Language)
    ensures l in AllLanguages
  {
  }

  /** The message of the IllegalArgumentException Enum.valueOf raises for an unknown name. */
  function NoEnumConstant(enumClass: string, name: string): string {
    "No enum constant " + enumClass + "." + name
  }

  /** Enum.valueOf on a possibly-null name, as `Language.valueOf(dto.language())`. */
  function ParseLanguage(s: Str): (r: Result<Language>)
    ensures s.None? ==> r == Err(NullPointer)
    ensures s.Some? && LanguageValueOf(s.value).Some? ==> r == Ok(LanguageValueOf(s.value).value)
    ensures r.Err? ==> s.None? || LanguageValueOf(s.value).None?
    ensures r.Err? ==> r.error == NullPointer || r.error.IllegalArgument?
  {
    if s.None? then Err(NullPointer)
    else match LanguageValueOf(s.value)
      case Some(l) => Ok(l)
      case None => Err(IllegalArgument(NoEnumConstant("de.tzr.model.Language", s.value)))
  }

  /** Some element of a non-empty set. */
  method ElementOf(s: set<int>) returns (x: int)
    requires |s| != 0
    ensures x in s
  {
    EmptyOrElement(s);
    x :| x in s;
  }

  lemma EmptyOrElement(s: set<int>)
    ensures s == {} || exists y :: y in s
  {
    if forall y :: y !in s {
      assert s == {};
    }
  }
}
