/** ArticleMapper: the localised detail and list views of an article and
    the localised tag view they embed. The author part of both views is not
    modelled (AuthorMapper has no localised form in this code). */
module ArticleMapper {
  import opened Common
  import opened Model
  import opened TranslationResolver
  import CategoryMapper

  datatype ArticleTranslationDTO = ArticleTranslationDTO(
    language: string, title: Str, excerpt: Str, body: Str,
    metaTitle: Str, metaDescription: Str, readingTimeMinutes: Option<int>)

  datatype TagTranslationDTO = TagTranslationDTO(language: string, name: Str)

  /** `translations` is null in the views that embed tags. */
  datatype TagDTO = TagDTO(id: int, name: Str, slug: string, articleCount: int,
                           translations: Option<seq<TagTranslationDTO>>)

  datatype ArticleDTO = ArticleDTO(
    id: int, title: Str, slug: string, excerpt: Str, body: Str,
    category: CategoryMapper.CategoryDTO, tags: set<TagDTO>,
    cardEmoji: Str, coverImageUrl: Str, coverImageCredit: Str,
    status: string, academic: bool, featured: bool,
    publishedDate: Option<int>, readingTimeMinutes: Option<int>,
    metaTitle: Str, metaDescription: Str,
    translations: seq<ArticleTranslationDTO>)

  datatype ArticleListDTO = ArticleListDTO(
    id: int, title: Str, slug: string, excerpt: Str,
    category: CategoryMapper.CategoryDTO, tags: set<TagDTO>,
    cardEmoji: Str, coverImageUrl: Str,
    status: string, academic: bool, featured: bool,
    publishedDate: Option<int>, readingTimeMinutes: Option<int>)

  /** The reading time shown: the first non-null of the requested overlay's,
      the fallback overlay's and the article's own value. Unlike the text
      fields this is a null test only. */
  function ReadTime(t: Option<ArticleTranslation>, fallback: Option<ArticleTranslation>, own: Option<int>): (r: Option<int>)
    ensures t.Some? && t.value.readingTimeMinutes.Some? ==> r == t.value.readingTimeMinutes
    ensures (t.None? || t.value.readingTimeMinutes.None?) && fallback.Some? && fallback.value.readingTimeMinutes.Some?
      ==> r == fallback.value.readingTimeMinutes
    ensures (t.None? || t.value.readingTimeMinutes.None?) && (fallback.None? || fallback.value.readingTimeMinutes.None?)
      ==> r == own
  {
    if t.Some? && t.value.readingTimeMinutes.Some? then t.value.readingTimeMinutes
    else if fallback.Some? && fallback.value.readingTimeMinutes.Some? then fallback.value.readingTimeMinutes
    else own
  }

  /** The article's reading time in `lang`. */
  function LocalReadTime(a: Article, lang: Language): Option<int> {
    ReadTime(OverlayFor(a.translations, lang), FallbackFor(a.translations, lang), a.readingTimeMinutes)
  }

  /** toTagDTO: the tag name by the three-tier rule, count 0, no overlay list. */
  function ToTagDTO(id: int, t: Tag, lang: Language): (r: TagDTO)
    ensures r.id == id && r.slug == t.slug && r.articleCount == 0 && r.translations.None?
    ensures lang in t.translations ==>
      r.name == (if HasText(t.translations[lang].name) then t.translations[lang].name else t.name)
    ensures lang !in t.translations && lang != DE && DE in t.translations ==>
      r.name == (if HasText(t.translations[DE].name) then t.translations[DE].name else t.name)
    ensures lang !in t.translations && (lang == DE || DE !in t.translations) ==> r.name == t.name
  {
    LocaliseCases(t.translations, lang, (o: TagTranslation) => o.name, t.name);
    TagDTO(id, Localise(t.translations, lang, (o: TagTranslation) => o.name, t.name), t.slug, 0, None)
  }

  /** The localised views of the article's tags (those of `tags` it carries). */
  function TagDTOs(a: Article, tags: map<int, Tag>, lang: Language): (r: set<TagDTO>)
    ensures forall d :: d in r <==> exists id :: id in a.tags && id in tags && d == ToTagDTO(id, tags[id], lang)
  {
    set id | id in a.tags && id in tags :: ToTagDTO(id, tags[id], lang)
  }

  function RawTranslations(a: Article): (r: seq<ArticleTranslationDTO>)
    ensures |r| == |Dump(a.translations)|
    ensures forall i :: 0 <= i < |r| ==>
      var (l, t) := Dump(a.translations)[i];
      r[i] == ArticleTranslationDTO(LanguageName(l), t.title, t.excerpt, t.body, t.metaTitle, t.metaDescription, t.readingTimeMinutes)
  {
    var d := Dump(a.translations);
    seq(|d|, i requires 0 <= i < |d| =>
      ArticleTranslationDTO(LanguageName(d[i].0), d[i].1.title, d[i].1.excerpt, d[i].1.body,
                            d[i].1.metaTitle, d[i].1.metaDescription, d[i].1.readingTimeMinutes))
  }

  /** toDTO(a, lang): five text fields by the three-tier rule, the reading
      time by the null chain, the category and tags localised alike, the
      raw overlays listed, everything else copied. */
  function ToDTO(id: int, a: Article, category: Category, tags: map<int, Tag>, lang: Language): (r: ArticleDTO)
    ensures r.id == id && r.slug == a.slug && r.status == ArticleStatusName(a.status)
    ensures r.cardEmoji == a.cardEmoji && r.coverImageUrl == a.coverImageUrl && r.coverImageCredit == a.coverImageCredit
    ensures r.academic == a.academic && r.featured == a.featured && r.publishedDate == a.publishedDate
    ensures r.category == CategoryMapper.ToDTO(a.categoryId, category, 0, lang)
    ensures r.tags == TagDTOs(a, tags, lang)
    ensures r.readingTimeMinutes == LocalReadTime(a, lang)
    ensures r.translations == RawTranslations(a)
  {
    ArticleDTO(
      id,
      Localise(a.translations, lang, (t: ArticleTranslation) => t.title, a.title),
      a.slug,
      Localise(a.translations, lang, (t: ArticleTranslation) => t.excerpt, a.excerpt),
      Localise(a.translations, lang, (t: ArticleTranslation) => t.body, a.body),
      CategoryMapper.ToDTO(a.categoryId, category, 0, lang),
      TagDTOs(a, tags, lang),
      a.cardEmoji, a.coverImageUrl, a.coverImageCredit,
      ArticleStatusName(a.status), a.academic, a.featured,
      a.publishedDate, LocalReadTime(a, lang),
      Localise(a.translations, lang, (t: ArticleTranslation) => t.metaTitle, a.metaTitle),
      Localise(a.translations, lang, (t: ArticleTranslation) => t.metaDescription, a.metaDescription),
      RawTranslations(a))
  }

  /** toListDTO(a, lang): the card view. */
  function ToListDTO(id: int, a: Article, category: Category, tags: map<int, Tag>, lang: Language): (r: ArticleListDTO)
    ensures r.id == id && r.slug == a.slug && r.status == ArticleStatusName(a.status)
    ensures r.cardEmoji == a.cardEmoji && r.coverImageUrl == a.coverImageUrl
    ensures r.academic == a.academic && r.featured == a.featured && r.publishedDate == a.publishedDate
    ensures r.readingTimeMinutes == LocalReadTime(a, lang)
  {
    ArticleListDTO(
      id,
      Localise(a.translations, lang, (t: ArticleTranslation) => t.title, a.title),
      a.slug,
      Localise(a.translations, lang, (t: ArticleTranslation) => t.excerpt, a.excerpt),
      CategoryMapper.ToDTO(a.categoryId, category, 0, lang),
      TagDTOs(a, tags, lang),
      a.cardEmoji, a.coverImageUrl,
      ArticleStatusName(a.status), a.academic, a.featured,
      a.publishedDate, LocalReadTime(a, lang))
  }

  /** toDTO(a): the detail view in the default language. */
  function ToDefaultDTO(id: int, a: Article, category: Category, tags: map<int, Tag>): (r: ArticleDTO)
    ensures r.title == (if DE in a.translations && HasText(a.translations[DE].title) then a.translations[DE].title else a.title)
    ensures r.body == (if DE in a.translations && HasText(a.translations[DE].body) then a.translations[DE].body else a.body)
    ensures r.readingTimeMinutes == (if DE in a.translations && a.translations[DE].readingTimeMinutes.Some?
                                     then a.translations[DE].readingTimeMinutes else a.readingTimeMinutes)
    ensures r.category == CategoryMapper.ToDTO(a.categoryId, category, 0, DE)
  {
    LocaliseCases(a.translations, DE, (t: ArticleTranslation) => t.title, a.title);
    LocaliseCases(a.translations, DE, (t: ArticleTranslation) => t.body, a.body);
    ToDTO(id, a, category, tags, DEFAULT)
  }

  /** toListDTO(a): the card view in the default language. */
  function ToDefaultListDTO(id: int, a: Article, category: Category, tags: map<int, Tag>): (r: ArticleListDTO)
    ensures r.title == (if DE in a.translations && HasText(a.translations[DE].title) then a.translations[DE].title else a.title)
    ensures r.excerpt == (if DE in a.translations && HasText(a.translations[DE].excerpt) then a.translations[DE].excerpt else a.excerpt)
    ensures r.readingTimeMinutes == (if DE in a.translations && a.translations[DE].readingTimeMinutes.Some?
                                     then a.translations[DE].readingTimeMinutes else a.readingTimeMinutes)
  {
    LocaliseCases(a.translations, DE, (t: ArticleTranslation) => t.title, a.title);
    LocaliseCases(a.translations, DE, (t: ArticleTranslation) => t.excerpt, a.excerpt);
    ToListDTO(id, a, category, tags, DEFAULT)
  }

  /** With no overlay for the language asked for nor for DE, the view is
      the article's own text. */
  lemma NoOverlayShowsCanonical(id: int, a: Article, c: Category, tags: map<int, Tag>, lang: Language)
    requires lang !in a.translations && DE !in a.translations
    ensures var r := ToDTO(id, a, c, tags, lang);
      r.title == a.title && r.excerpt == a.excerpt && r.body == a.body
      && r.metaTitle == a.metaTitle && r.metaDescription == a.metaDescription
      && r.readingTimeMinutes == a.readingTimeMinutes
  {
  }

  /** A requested overlay with text wins on every text field. */
  lemma OverlayTextWins(id: int, a: Article, c: Category, tags: map<int, Tag>, lang: Language)
    requires lang in a.translations
    ensures var r := ToDTO(id, a, c, tags, lang); var t := a.translations[lang];
      (HasText(t.title) ==> r.title == t.title)
      && (HasText(t.excerpt) ==> r.excerpt == t.excerpt)
      && (HasText(t.body) ==> r.body == t.body)
      && (HasText(t.metaTitle) ==> r.metaTitle == t.metaTitle)
      && (HasText(t.metaDescription) ==> r.metaDescription == t.metaDescription)
  {
  }

  /** The DE overlay is a whole-overlay fallback, not a per-field one: once
      an overlay for `lang` exists, its blank or null fields fall through to
      the article's own fields and the DE overlay is never looked at. */
  lemma ExistingOverlayShadowsDE(id: int, a: Article, c: Category, tags: map<int, Tag>, lang: Language)
    requires lang in a.translations
    ensures var r := ToDTO(id, a, c, tags, lang); var t := a.translations[lang];
      (IsBlank(t.title) ==> r.title == a.title)
      && (IsBlank(t.excerpt) ==> r.excerpt == a.excerpt)
      && (IsBlank(t.body) ==> r.body == a.body)
      && (IsBlank(t.metaTitle) ==> r.metaTitle == a.metaTitle)
      && (IsBlank(t.metaDescription) ==> r.metaDescription == a.metaDescription)
      && (t.readingTimeMinutes.None? ==> r.readingTimeMinutes == a.readingTimeMinutes)
  {
  }

  /** Without an overlay for a non-DE language, the DE overlay's text is
      used wherever it has some. */
  lemma MissingOverlayUsesDE(id: int, a: Article, c: Category, tags: map<int, Tag>, lang: Language)
    requires lang !in a.translations && lang != DE && DE in a.translations
    ensures var r := ToDTO(id, a, c, tags, lang); var f := a.translations[DE];
      r.title == (if HasText(f.title) then f.title else a.title)
      && r.excerpt == (if HasText(f.excerpt) then f.excerpt else a.excerpt)
      && r.body == (if HasText(f.body) then f.body else a.body)
      && r.metaTitle == (if HasText(f.metaTitle) then f.metaTitle else a.metaTitle)
      && r.metaDescription == (if HasText(f.metaDescription) then f.metaDescription else a.metaDescription)
      && r.readingTimeMinutes == (if f.readingTimeMinutes.Some? then f.readingTimeMinutes else a.readingTimeMinutes)
  {
  }

  /** The card and the detail view agree on what they share. */
  lemma ListAgreesWithDetail(id: int, a: Article, c: Category, tags: map<int, Tag>, lang: Language)
    ensures var l := ToListDTO(id, a, c, tags, lang); var d := ToDTO(id, a, c, tags, lang);
      l.title == d.title && l.excerpt == d.excerpt && l.readingTimeMinutes == d.readingTimeMinutes
      && l.category == d.category && l.tags == d.tags && l.slug == d.slug
  {
  }

  /** The raw overlay list names every stored overlay exactly once (the
      views embed it whatever language is asked for). */
  lemma RawListOnePerOverlay(a: Article)
    ensures forall l :: l in a.translations <==>
      exists i :: 0 <= i < |RawTranslations(a)| && RawTranslations(a)[i].language == LanguageName(l)
    ensures forall i, j :: 0 <= i < j < |RawTranslations(a)| ==>
      RawTranslations(a)[i].language != RawTranslations(a)[j].language
  {
    DumpNamesExact(a.translations, RawTranslations(a), (t: ArticleTranslationDTO) => t.language);
  }


}
