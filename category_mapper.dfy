/** CategoryMapper: the localised category view and the entity built from
    an admin form. */
module CategoryMapper {
  import opened Common
  import opened Model
  import opened TranslationResolver
  import opened Overlays

  /** One raw overlay as the admin view lists it. */
  datatype CategoryTranslationDTO = CategoryTranslationDTO(
    language: string, name: Str, displayName: Str, description: Str)

  datatype CategoryDTO = CategoryDTO(
    id: int, name: Str, slug: string, displayName: Str, description: Str,
    emoji: Str, color: Str, bgColor: Str, categoryType: string, sortOrder: int,
    articleCount: int, translations: seq<CategoryTranslationDTO>)

  /** The admin form; `translations` is null when the form sends none. */
  datatype CategoryCreateDTO = CategoryCreateDTO(
    name: string, slug: Str, displayName: string, description: Str,
    emoji: Str, color: Str, bgColor: Str, categoryType: string, sortOrder: Option<int>,
    translations: Option<seq<TranslationDTO<CategoryTranslation>>>)

  function RawTranslations(c: Category): (r: seq<CategoryTranslationDTO>)
    ensures |r| == |Dump(c.translations)|
    ensures forall i :: 0 <= i < |r| ==>
      var (l, t) := Dump(c.translations)[i];
      r[i] == CategoryTranslationDTO(LanguageName(l), t.name, t.displayName, t.description)
  {
    var d := Dump(c.translations);
    seq(|d|, i requires 0 <= i < |d| => CategoryTranslationDTO(LanguageName(d[i].0), d[i].1.name, d[i].1.displayName, d[i].1.description))
  }

  /** toDTO(c, articleCount, lang): name, displayName and description by the
      three-tier rule, everything else copied. */
  function ToDTO(id: int, c: Category, articleCount: int, lang: Language): (r: CategoryDTO)
    ensures r.id == id && r.slug == c.slug && r.emoji == c.emoji && r.color == c.color
    ensures r.bgColor == c.bgColor && r.categoryType == c.categoryType && r.sortOrder == c.sortOrder
    ensures r.articleCount == articleCount
    ensures r.translations == RawTranslations(c)
  {
    CategoryDTO(
      id,
      Localise(c.translations, lang, (t: CategoryTranslation) => t.name, c.name),
      c.slug,
      Localise(c.translations, lang, (t: CategoryTranslation) => t.displayName, c.displayName),
      Localise(c.translations, lang, (t: CategoryTranslation) => t.description, c.description),
      c.emoji, c.color, c.bgColor, c.categoryType, c.sortOrder, articleCount,
      RawTranslations(c))
  }

  /** The view in the default language DE: a DE overlay's text or the
      category's own field, never any other overlay. */
  predicate IsDefaultView(c: Category, r: CategoryDTO) {
    var t := OverlayFor(c.translations, DE);
    && r.name == (if t.Some? && HasText(t.value.name) then t.value.name else c.name)
    && r.displayName == (if t.Some? && HasText(t.value.displayName) then t.value.displayName else c.displayName)
    && r.description == (if t.Some? && HasText(t.value.description) then t.value.description else c.description)
    && r.translations == RawTranslations(c)
  }

  /** toDTO(c): count 0, default language. */
  function ToDefaultDTO(id: int, c: Category): (r: CategoryDTO)
    ensures r.articleCount == 0 && r.id == id && r.slug == c.slug
    ensures IsDefaultView(c, r)
  {
    ToDTO(id, c, 0, DEFAULT)
  }

  /** toDTO(c, articleCount): the given count, default language. */
  function ToCountedDTO(id: int, c: Category, articleCount: int): (r: CategoryDTO)
    ensures r.articleCount == articleCount && r.id == id && r.slug == c.slug
    ensures IsDefaultView(c, r)
  {
    ToDTO(id, c, articleCount, DEFAULT)
  }

  /** The three localised fields follow the overlay rule, each on its own:
      an overlay for `lang` decides alone (its text, else the category's
      own field); without one, a non-DE view takes the DE overlay's text;
      the category's field is the last resort. */
  lemma LocalisedFields(id: int, c: Category, n: int, lang: Language)
    ensures lang in c.translations ==>
      ToDTO(id, c, n, lang).name == (if HasText(c.translations[lang].name) then c.translations[lang].name else c.name)
      && ToDTO(id, c, n, lang).displayName == (if HasText(c.translations[lang].displayName) then c.translations[lang].displayName else c.displayName)
      && ToDTO(id, c, n, lang).description == (if HasText(c.translations[lang].description) then c.translations[lang].description else c.description)
    ensures lang !in c.translations && lang != DE && DE in c.translations ==>
      ToDTO(id, c, n, lang).name == (if HasText(c.translations[DE].name) then c.translations[DE].name else c.name)
      && ToDTO(id, c, n, lang).displayName == (if HasText(c.translations[DE].displayName) then c.translations[DE].displayName else c.displayName)
      && ToDTO(id, c, n, lang).description == (if HasText(c.translations[DE].description) then c.translations[DE].description else c.description)
    ensures lang !in c.translations && (lang == DE || DE !in c.translations) ==>
      ToDTO(id, c, n, lang).name == c.name
      && ToDTO(id, c, n, lang).displayName == c.displayName
      && ToDTO(id, c, n, lang).description == c.description
  {
    LocaliseCases(c.translations, lang, (t: CategoryTranslation) => t.name, c.name);
    LocaliseCases(c.translations, lang, (t: CategoryTranslation) => t.displayName, c.displayName);
    LocaliseCases(c.translations, lang, (t: CategoryTranslation) => t.description, c.description);
  }

  /** The raw overlay list names every stored overlay exactly once (the
      views embed it whatever language is asked for). */
  lemma RawListOnePerOverlay(c: Category)
    ensures forall l :: l in c.translations <==>
      exists i :: 0 <= i < |RawTranslations(c)| && RawTranslations(c)[i].language == LanguageName(l)
    ensures forall i, j :: 0 <= i < j < |RawTranslations(c)| ==>
      RawTranslations(c)[i].language != RawTranslations(c)[j].language
  {
    DumpNamesExact(c.translations, RawTranslations(c), (t: CategoryTranslationDTO) => t.language);
  }



  /** toEntity: the form's fields, the chosen slug, sortOrder 0 when absent
      and no overlays; an unknown type name raises, as CategoryType.valueOf
      does. */
  function ToEntity(dto: CategoryCreateDTO, slugify: string -> string, categoryTypes: set<string>): (r: Result<Category>)
    ensures r.Err? <==> dto.categoryType !in categoryTypes
    ensures r.Ok? ==> r.value.slug == ChosenSlug(dto.slug, dto.name, slugify)
    ensures r.Ok? ==> r.value.sortOrder == (if dto.sortOrder.Some? then dto.sortOrder.value else 0)
    ensures r.Ok? ==> r.value.name == Some(dto.name) && r.value.displayName == Some(dto.displayName)
    ensures r.Ok? ==> r.value.description == dto.description && r.value.categoryType == dto.categoryType
    ensures r.Ok? ==> r.value.emoji == dto.emoji && r.value.color == dto.color && r.value.bgColor == dto.bgColor
    ensures r.Ok? ==> r.value.translations == map[]
  {
    if dto.categoryType !in categoryTypes then
      Err(IllegalArgument(NoEnumConstant("de.tzr.model.CategoryType", dto.categoryType)))
    else
      Ok(Category(
        Some(dto.name), ChosenSlug(dto.slug, dto.name, slugify), Some(dto.displayName), dto.description,
        dto.emoji, dto.color, dto.bgColor, dto.categoryType,
        if dto.sortOrder.Some? then dto.sortOrder.value else 0,
        map[]))
  }
}
