/** PublicArticleController: how the public list, search and related
    endpoints turn their request parameters into a page request and a
    query. The queries themselves run in the repository and are not part
    of this model. */
module PublicArticleController {
  import opened Common
  import JavaString
  import LanguageResolver

  datatype Direction = ASC | DESC

  /** Sort.Order: a direction and a property. */
  datatype Order = Order(direction: Direction, property: string)

  /** PageRequest: `sort` is None for Sort.unsorted(). */
  datatype Pageable = Pageable(page: int, size: int, sort: Option<Order>)

  const MaxPageSize: int := 50
  const DefaultPage: int := 0
  const DefaultListSize: int := 12
  const DefaultRelatedSize: int := 3
  const DefaultSort: string := "publishedDate,desc"
  const SortSeparators: set<char> := {','}

  function Min(a: int, b: int): (m: int)
    ensures m <= a && m <= b && (m == a || m == b)
  {
    if a <= b then a else b
  }

  /** PageRequest.of: the page index must not be negative and the size at
      least one, checked in that order. */
  function PageRequestOf(page: int, size: int, sort: Option<Order>): (r: Result<Pageable>)
    ensures r.Ok? <==> page >= 0 && size >= 1
    ensures page < 0 ==> r == Err(IllegalArgument("Page index must not be less than zero"))
    ensures page >= 0 && size < 1 ==> r == Err(IllegalArgument("Page size must not be less than one"))
    ensures r.Ok? ==> r.value.page == page && r.value.size == size && r.value.sort == sort
  {
    if page < 0 then Err(IllegalArgument("Page index must not be less than zero"))
    else if size < 1 then Err(IllegalArgument("Page size must not be less than one"))
    else Ok(Pageable(page, size, sort))
  }

  /** Sort.by(direction, property): the property needs text. */
  function SortBy(direction: Direction, property: string): (r: Result<Order>)
    ensures r.Ok? <==> !JavaString.IsBlank(property)
    ensures r.Err? ==> r.error == IllegalArgument("Property must not be null or empty")
    ensures r.Ok? ==> r.value == Order(direction, property)
  {
    if JavaString.IsBlank(property) then Err(IllegalArgument("Property must not be null or empty"))
    else Ok(Order(direction, property))
  }

  /** The direction part of a sort string read directly: the text between
      its first and its second comma, None when it has no comma. */
  function SecondPart(sort: string): (r: Option<string>)
  {
    var k := |JavaString.BeforeFirst(sort, SortSeparators)|;
    if k < |sort| then Some(JavaString.BeforeFirst(sort[k + 1..], SortSeparators)) else None
  }

  /** `parts.length > 1 && parts[1].equalsIgnoreCase("asc")`. */
  function DirectionOf(parts: seq<string>): Direction {
    if |parts| > 1 && JavaString.EqualsIgnoreCase(parts[1], "asc") then ASC else DESC
  }

  /** The direction of the split parts is ASC exactly when the text after
      the first comma, up to the next one, is "asc" in any case. */
  lemma DirectionSpec(sort: string)
    ensures DirectionOf(JavaString.Split(sort, SortSeparators)) == ASC <==>
      (SecondPart(sort).Some? && JavaString.EqualsIgnoreCase(SecondPart(sort).value, "asc"))
  {
    var parts := JavaString.Split(sort, SortSeparators);
    var ps := JavaString.Pieces(sort, SortSeparators);
    var first := JavaString.BeforeFirst(sort, SortSeparators);
    JavaString.SplitSpec(sort, SortSeparators);
    if |first| < |sort| {
      JavaString.PiecesAfterFirst(sort, SortSeparators);
      JavaString.PiecesHead(sort[|first| + 1..], SortSeparators);
      assert ps[1] == ps[1..][0];
      assert ps[1] == SecondPart(sort).value;
      if JavaString.EqualsIgnoreCase(ps[1], "asc") {
        assert |JavaString.ToUpper(ps[1])| == 3;
      }
    } else {
      assert first == sort;
      assert JavaString.NoSeparator(sort, SortSeparators);
    }
  }

  /** createPageable(page, size, sort): the field is the text before the
      first comma; the split's first element is read before anything else,
      so a sort made of commas only fails there; then Sort.by checks the
      field and PageRequest.of the page and size. */
  function CreatePageable(page: int, size: int, sort: string): (r: Result<Pageable>)
    ensures r == Err(IndexOutOfBounds) <==> |sort| > 0 && JavaString.OnlySeparators(sort, SortSeparators)
    ensures !(|sort| > 0 && JavaString.OnlySeparators(sort, SortSeparators)) ==>
      var field := JavaString.BeforeFirst(sort, SortSeparators);
      && (JavaString.IsBlank(field) ==> r == Err(IllegalArgument("Property must not be null or empty")))
      && (r.Ok? <==> !JavaString.IsBlank(field) && page >= 0 && size >= 1)
      && (!JavaString.IsBlank(field) ==>
            r == PageRequestOf(page, size, Some(Order(DirectionOf(JavaString.Split(sort, SortSeparators)), field))))
    ensures r.Ok? ==>
      && r.value.page == page && r.value.size == size
      && r.value.sort.Some? && r.value.sort.value.property == JavaString.BeforeFirst(sort, SortSeparators)
      && (r.value.sort.value.direction == ASC <==>
            SecondPart(sort).Some? && JavaString.EqualsIgnoreCase(SecondPart(sort).value, "asc"))
  {
    JavaString.SplitSpec(sort, SortSeparators);
    DirectionSpec(sort);
    var parts := JavaString.Split(sort, SortSeparators);
    if |parts| == 0 then Err(IndexOutOfBounds)
    else
      var field := parts[0];
      var direction := DirectionOf(parts);
      match SortBy(direction, field)
      case Err(e) => Err(e)
      case Ok(order) => PageRequestOf(page, size, Some(order))
  }

  /** A sort string whose first part has text and whose second part is
      not "asc" orders by that first part, newest first. */
  lemma DescendingByFirstPart(page: int, size: int, sort: string)
    requires page >= 0 && size >= 1
    requires !JavaString.OnlySeparators(sort, SortSeparators)
    requires !JavaString.IsBlank(JavaString.BeforeFirst(sort, SortSeparators))
    requires SecondPart(sort).Some? ==> !JavaString.EqualsIgnoreCase(SecondPart(sort).value, "asc")
    ensures CreatePageable(page, size, sort)
         == Ok(Pageable(page, size, Some(Order(DESC, JavaString.BeforeFirst(sort, SortSeparators)))))
  {
  }

  /** A sort parameter written as field, comma, direction splits back
      into those two parts. */
  lemma {:induction false} SortFromParts(field: string, dir: string)
    requires JavaString.NoSeparator(field, SortSeparators) && JavaString.NoSeparator(dir, SortSeparators)
    ensures JavaString.BeforeFirst(field + "," + dir, SortSeparators) == field
    ensures SecondPart(field + "," + dir) == Some(dir)
  {
    var sort := field + "," + dir;
    JavaString.BeforeFirstIs(sort, SortSeparators, |field|);
    assert sort[..|field|] == field;
    assert sort[|field| + 1..] == dir;
    JavaString.BeforeFirstIs(dir, SortSeparators, |dir|);
    assert dir[..|dir|] == dir;
  }

  /** The parts of the default sort parameter. */
  lemma DefaultSortParts(sort: string)
    requires sort == DefaultSort
    ensures JavaString.BeforeFirst(sort, SortSeparators) == "publishedDate"
    ensures SecondPart(sort) == Some("desc")
    ensures !JavaString.OnlySeparators(sort, SortSeparators)
  {
    assert sort == "publishedDate" + "," + "desc";
    SortFromParts("publishedDate", "desc");
    assert sort[0] !in SortSeparators;
  }

  /** Its field has text and its direction is not "asc". */
  lemma DefaultSortWords()
    ensures !JavaString.EqualsIgnoreCase("desc", "asc")
    ensures !JavaString.IsBlank("publishedDate")
  {
    assert JavaString.ToUpper("desc")[0] != JavaString.ToUpper("asc")[0];
    assert !JavaString.IsWhitespace("publishedDate"[0]);
  }

  /** The default sort parameter lists newest first. */
  lemma DefaultSortIsNewestFirst(page: int, size: int, sort: string)
    requires page >= 0 && size >= 1 && sort == DefaultSort
    ensures CreatePageable(page, size, sort) == Ok(Pageable(page, size, Some(Order(DESC, "publishedDate"))))
  {
    DefaultSortParts(sort);
    DefaultSortWords();
    DescendingByFirstPart(page, size, sort);
  }

  /** The list query each filter combination selects. */
  datatype ListQuery =
    | ByCategory(category: string)
    | ByAuthor(author: string)
    | ByTag(tag: string)
    | AcademicOnly
    | ByCategoryType(categoryType: string)
    | AllPublished

  /** The filter precedence of getAll: category, author, tag, academic
      (only when true), type, and otherwise every published article. */
  function Dispatch(category: Str, author: Str, categoryType: Str, academic: Option<bool>, tag: Str): (q: ListQuery)
    ensures q.ByCategory? <==> category.Some?
    ensures q.ByAuthor? <==> category.None? && author.Some?
    ensures q.ByTag? <==> category.None? && author.None? && tag.Some?
    ensures q.AcademicOnly? <==> category.None? && author.None? && tag.None? && academic == Some(true)
    ensures q.ByCategoryType? <==>
      category.None? && author.None? && tag.None? && academic != Some(true) && categoryType.Some?
    ensures q.AllPublished? <==>
      category.None? && author.None? && tag.None? && academic != Some(true) && categoryType.None?
    ensures q.ByCategory? ==> q.category == category.value
    ensures q.ByAuthor? ==> q.author == author.value
    ensures q.ByTag? ==> q.tag == tag.value
    ensures q.ByCategoryType? ==> q.categoryType == categoryType.value
  {
    if category.Some? then ByCategory(category.value)
    else if author.Some? then ByAuthor(author.value)
    else if tag.Some? then ByTag(tag.value)
    else if academic.Some? && academic.value then AcademicOnly
    else if categoryType.Some? then ByCategoryType(categoryType.value)
    else AllPublished
  }

  /** A category filter hides every other filter. */
  lemma CategoryWins(category: string, author: Str, categoryType: Str, academic: Option<bool>, tag: Str)
    ensures Dispatch(Some(category), author, categoryType, academic, tag)
         == Dispatch(Some(category), None, None, None, None)
  {
  }

  /** academic=false filters exactly as an absent academic parameter. */
  lemma AcademicFalseIsAbsent(category: Str, author: Str, categoryType: Str, tag: Str)
    ensures Dispatch(category, author, categoryType, Some(false), tag) == Dispatch(category, author, categoryType, None, tag)
  {
  }

  /** What a list request resolves to. */
  datatype ListRequest = ListRequest(query: ListQuery, language: Language, pageable: Pageable)

  /** getAll: the page request is built first, with the size capped at 50;
      then the language; then the query. */
  function GetAll(page: int, size: int, category: Str, author: Str, categoryType: Str, academic: Option<bool>,
                  tag: Str, lang: Str, sort: string): (r: Result<ListRequest>)
    ensures CreatePageable(page, Min(size, MaxPageSize), sort).Err? ==>
      r == Err(CreatePageable(page, Min(size, MaxPageSize), sort).error)
    ensures r.Ok? <==> CreatePageable(page, Min(size, MaxPageSize), sort).Ok?
    ensures r.Ok? ==>
      && r.value.pageable.size == Min(size, MaxPageSize) && 1 <= r.value.pageable.size <= MaxPageSize
      && r.value.pageable.page == page
      && r.value.language == LanguageResolver.Resolve(lang)
      && r.value.query == Dispatch(category, author, categoryType, academic, tag)
  {
    match CreatePageable(page, Min(size, MaxPageSize), sort)
    case Err(e) => Err(e)
    case Ok(pageable) => Ok(ListRequest(Dispatch(category, author, categoryType, academic, tag),
                                        LanguageResolver.Resolve(lang), pageable))
  }

  /** With every parameter at its default the list is page 0 of 12 newest
      published articles. */
  lemma DefaultListRequest(lang: Str)
    ensures GetAll(DefaultPage, DefaultListSize, None, None, None, None, None, lang, DefaultSort)
         == Ok(ListRequest(AllPublished, LanguageResolver.Resolve(lang),
                           Pageable(0, 12, Some(Order(DESC, "publishedDate")))))
  {
    DefaultSortIsNewestFirst(0, 12, DefaultSort);
  }

  /** What a search or related request resolves to; both are unsorted. */
  datatype SearchRequest = SearchRequest(key: string, language: Language, pageable: Pageable)

  /** search: capped at 50 like the list. */
  function Search(q: string, page: int, size: int, lang: Str): (r: Result<SearchRequest>)
    ensures r.Ok? <==> page >= 0 && Min(size, MaxPageSize) >= 1
    ensures r.Err? ==> r == Err(PageRequestOf(page, Min(size, MaxPageSize), None).error)
    ensures r.Ok? ==>
      && r.value.key == q && r.value.language == LanguageResolver.Resolve(lang)
      && r.value.pageable == Pageable(page, Min(size, MaxPageSize), None)
      && 1 <= r.value.pageable.size <= MaxPageSize
  {
    match PageRequestOf(page, Min(size, MaxPageSize), None)
    case Err(e) => Err(e)
    case Ok(pageable) => Ok(SearchRequest(q, LanguageResolver.Resolve(lang), pageable))
  }

  /** getRelated: the size is not capped. */
  function Related(slug: string, page: int, size: int, lang: Str): (r: Result<SearchRequest>)
    ensures r.Ok? <==> page >= 0 && size >= 1
    ensures r.Err? ==> r == Err(PageRequestOf(page, size, None).error)
    ensures r.Ok? ==>
      && r.value.key == slug && r.value.language == LanguageResolver.Resolve(lang)
      && r.value.pageable == Pageable(page, size, None)
  {
    match PageRequestOf(page, size, None)
    case Err(e) => Err(e)
    case Ok(pageable) => Ok(SearchRequest(slug, LanguageResolver.Resolve(lang), pageable))
  }

  /** The same oversized request is cut to 50 by search and served whole
      by related. */
  lemma OnlySearchIsCapped(key: string, size: int, lang: Str)
    requires size > MaxPageSize
    ensures Search(key, 0, size, lang).Ok? && Search(key, 0, size, lang).value.pageable.size == MaxPageSize
    ensures Related(key, 0, size, lang).Ok? && Related(key, 0, size, lang).value.pageable.size == size
  {
  }
}
