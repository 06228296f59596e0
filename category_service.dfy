/** CategoryService: the admin writes on categories. Every public method is
    one transaction, so a method that raises leaves the store as it was. */
module CategoryService {
  import opened Common
  import opened Model
  import opened Overlays
  import JavaString
  import CategoryMapper
  import TranslationTaskService

  function CategoryNotFound(id: int): string {
    "Category not found: " + JavaString.IntToString(id)
  }

  /** existsBySlug */
  predicate SlugTaken(categories: map<int, Category>, slug: string) {
    exists id :: id in categories && categories[id].slug == slug
  }

  /** Entry i, when it is the first submission for a language the category
      has no overlay in yet, creates that overlay and must carry a name. */
  predicate NamedAt(current: map<Language, CategoryTranslation>,
                    dtos: seq<TranslationDTO<CategoryTranslation>>, i: nat)
    requires i < |dtos|
  {
    ParseLanguage(dtos[i].language).Ok? && ParseLanguage(dtos[i].language).value !in current
      && Latest(dtos[..i], ParseLanguage(dtos[i].language).value).None?
    ==> dtos[i].fields.name.Some?
  }

  /** Every overlay the list creates has a name. */
  predicate InsertsNamed(current: map<Language, CategoryTranslation>,
                         dtos: seq<TranslationDTO<CategoryTranslation>>) {
    forall i :: 0 <= i < |dtos| ==> NamedAt(current, dtos, i)
  }

  /** The saveTranslations loop: each entry's language is parsed, and an
      overlay the category does not have yet is inserted by its save at once
      (identity keys), so a null name is refused at that entry; an overlay
      already stored is only updated in memory. */
  function Inserted(current: map<Language, CategoryTranslation>,
                    dtos: seq<TranslationDTO<CategoryTranslation>>): (r: Result<map<Language, CategoryTranslation>>)
    ensures r.Ok? ==> r == SaveAll(current, dtos)
    ensures r.Err? ==> r.error == ConstraintViolation || r == SaveAll(current, dtos)
    ensures SaveAll(current, dtos).Err? ==> r.Err?
    decreases |dtos|
  {
    if dtos == [] then Ok(current)
    else match Inserted(current, dtos[..|dtos| - 1])
      case Err(e) => Err(e)
      case Ok(m) =>
        var last := dtos[|dtos| - 1];
        match ParseLanguage(last.language)
        case Err(e) => Err(e)
        case Ok(l) => if l !in m && last.fields.name.None? then Err(ConstraintViolation) else Ok(m[l := last.fields])
  }

  /** The loop gets through every entry exactly when every language parses
      and every overlay it creates has a name. */
  lemma {:induction false} InsertedSpec(current: map<Language, CategoryTranslation>,
                                        dtos: seq<TranslationDTO<CategoryTranslation>>)
    ensures Inserted(current, dtos).Ok? <==> AllLanguagesValid(dtos) && InsertsNamed(current, dtos)
    decreases |dtos|
  {
    if dtos != [] {
      var n := |dtos| - 1;
      var init := dtos[..n];
      InsertedSpec(current, init);
      SaveAllSpec(current, init);
      PrefixConditions(current, dtos);
      if Inserted(current, init).Ok? && ParseLanguage(dtos[n].language).Ok? {
        var l := ParseLanguage(dtos[n].language).value;
        assert l in Inserted(current, init).value <==> l in current || Latest(init, l).Some?;
      }
    }
  }

  /** The conditions on a list are those on all but its last entry, plus
      that entry's own. */
  lemma PrefixConditions(current: map<Language, CategoryTranslation>,
                         dtos: seq<TranslationDTO<CategoryTranslation>>)
    requires dtos != []
    ensures var n := |dtos| - 1;
      && (AllLanguagesValid(dtos) <==> AllLanguagesValid(dtos[..n]) && ParseLanguage(dtos[n].language).Ok?)
      && (InsertsNamed(current, dtos) <==> InsertsNamed(current, dtos[..n]) && NamedAt(current, dtos, n))
  {
    var n := |dtos| - 1;
    var init := dtos[..n];
    assert forall i :: 0 <= i < n ==> init[i] == dtos[i] && init[..i] == dtos[..i];
    assert forall i :: 0 <= i < n ==> (NamedAt(current, init, i) <==> NamedAt(current, dtos, i));
  }

  /** saveTranslations followed by the flush at commit: the loop, then the
      NOT NULL check on the overlays it merely updated. */
  function SavedOverlays(current: map<Language, CategoryTranslation>,
                         dtos: seq<TranslationDTO<CategoryTranslation>>): (r: Result<map<Language, CategoryTranslation>>)
    ensures r.Ok? <==> SaveAll(current, dtos).Ok? && InsertsNamed(current, dtos) && NamesPresent(SaveAll(current, dtos).value)
    ensures r.Ok? ==> SaveAll(current, dtos) == r
    ensures SaveAll(current, dtos).Ok? && !NamesPresent(SaveAll(current, dtos).value) ==> r == Err(ConstraintViolation)
    ensures r.Err? ==> r.error == ConstraintViolation || r == SaveAll(current, dtos)
    ensures SaveAll(current, dtos).Err? ==> r.Err?
  {
    InsertedSpec(current, dtos);
    SaveAllSpec(current, dtos);
    match Inserted(current, dtos)
    case Err(e) => Err(e)
    case Ok(m) => if NamesPresent(m) then Ok(m) else Err(ConstraintViolation)
  }

  /** The saveTranslations loop gets through, and only the flush at commit
      refuses an overlay the loop left nameless. By then create and update
      have already dispatched their translation run. */
  predicate RefusedAtCommit(current: map<Language, CategoryTranslation>,
                            dtos: seq<TranslationDTO<CategoryTranslation>>) {
    Inserted(current, dtos).Ok? && !NamesPresent(Inserted(current, dtos).value)
  }

  /** A refusal at commit is exactly a loop that parses every language and
      names every overlay it creates, yet ends with a nameless overlay; the
      error is then the ConstraintViolation of the flush. */
  lemma RefusedAtCommitSpec(current: map<Language, CategoryTranslation>,
                            dtos: seq<TranslationDTO<CategoryTranslation>>)
    ensures RefusedAtCommit(current, dtos) <==>
      SaveAll(current, dtos).Ok? && InsertsNamed(current, dtos) && !NamesPresent(SaveAll(current, dtos).value)
    ensures RefusedAtCommit(current, dtos) ==> SavedOverlays(current, dtos) == Err(ConstraintViolation)
  {
    InsertedSpec(current, dtos);
    SaveAllSpec(current, dtos);
  }

  /** A second, nameless submission for an overlay the list itself created
      passes the loop and is refused at commit. */
  lemma RenamedToNullRefusedAtCommit()
    ensures RefusedAtCommit(map[], [TranslationDTO(Some("PT"), CategoryTranslation(Some("x"), None, None)),
                                    TranslationDTO(Some("PT"), CategoryTranslation(None, None, None))])
  {
    var dtos := [TranslationDTO(Some("PT"), CategoryTranslation(Some("x"), None, None)),
                 TranslationDTO(Some("PT"), CategoryTranslation(None, None, None))];
    assert dtos[..1] == [dtos[0]] && dtos[..1][..0] == [];
    assert map[PT := dtos[0].fields][PT := dtos[1].fields] == map[PT := dtos[1].fields];
  }

  /** A nameless submission for a stored overlay passes the loop and is
      refused at commit. */
  lemma StoredNamedNullRefusedAtCommit(stored: CategoryTranslation)
    requires stored.name.Some?
    ensures RefusedAtCommit(map[PT := stored], [TranslationDTO(Some("PT"), CategoryTranslation(None, None, None))])
  {
    var dtos := [TranslationDTO(Some("PT"), CategoryTranslation(None, None, None))];
    assert dtos[..0] == [];
    assert Inserted(map[PT := stored], dtos) == Ok(map[PT := stored][PT := dtos[0].fields]);
    assert map[PT := stored][PT := dtos[0].fields][PT].name.None?;
  }

  /** A nameless first submission is refused even when a later entry of the
      list would name the overlay. */
  lemma NamelessInsertRefusedAtOnce()
    ensures var dtos := [TranslationDTO(Some("PT"), CategoryTranslation(None, None, None)),
                         TranslationDTO(Some("PT"), CategoryTranslation(Some("x"), None, None))];
      && SaveAll(map[], dtos).Ok? && NamesPresent(SaveAll(map[], dtos).value)
      && SavedOverlays(map[], dtos) == Err(ConstraintViolation)
  {
    var dtos := [TranslationDTO(Some("PT"), CategoryTranslation(None, None, None)),
                 TranslationDTO(Some("PT"), CategoryTranslation(Some("x"), None, None))];
    assert dtos[..1] == [dtos[0]] && dtos[..1][..0] == [];
  }

  /** A nameless insert fails before a later unknown language is parsed; a
      nameless update of a stored overlay is only refused at commit, so the
      unknown language is the error then. */
  lemma RefusalOrder(stored: CategoryTranslation)
    requires stored.name.Some?
    ensures var dtos := [TranslationDTO(Some("PT"), CategoryTranslation(None, None, None)),
                         TranslationDTO(Some("XX"), CategoryTranslation(Some("x"), None, None))];
      && SavedOverlays(map[], dtos) == Err(ConstraintViolation)
      && SavedOverlays(map[PT := stored], dtos) == Err(IllegalArgument(NoEnumConstant("de.tzr.model.Language", "XX")))
  {
    var dtos := [TranslationDTO(Some("PT"), CategoryTranslation(None, None, None)),
                 TranslationDTO(Some("XX"), CategoryTranslation(Some("x"), None, None))];
    assert dtos[..1] == [dtos[0]] && dtos[..1][..0] == [];
    var first := [dtos[0]];
    assert first[..0] == [];
    assert Inserted(map[PT := stored], first[..0]) == Ok(map[PT := stored]);
    assert map[PT := stored][PT := dtos[0].fields] == map[PT := dtos[0].fields];
    assert Inserted(map[PT := stored], first) == Ok(map[PT := dtos[0].fields]);
    assert ParseLanguage(Some("XX")) == Err(IllegalArgument(NoEnumConstant("de.tzr.model.Language", "XX")));
  }

  /** The loop of saveTranslations, one entry at a time. */
  method SaveTranslations(current: map<Language, CategoryTranslation>,
                          dtos: seq<TranslationDTO<CategoryTranslation>>) returns (r: Result<map<Language, CategoryTranslation>>)
    ensures r == Inserted(current, dtos)
  {
    var m := current;
    var i := 0;
    while i < |dtos|
      invariant 0 <= i <= |dtos|
      invariant Inserted(current, dtos[..i]) == Ok(m)
    {
      assert dtos[..i + 1][..i] == dtos[..i];
      var parsed := ParseLanguage(dtos[i].language);
      if parsed.Err? {
        r := Err(parsed.error);
      } else if parsed.value !in m && dtos[i].fields.name.None? {
        r := Err(ConstraintViolation);
      }
      if parsed.Err? || (parsed.value !in m && dtos[i].fields.name.None?) {
        assert Inserted(current, dtos[..i + 1]) == r;
        InsertedStaysFailed(current, dtos, i + 1);
        return;
      }
      m := m[parsed.value := dtos[i].fields];
      i := i + 1;
    }
    assert dtos[..i] == dtos;
    r := Ok(m);
  }

  /** Once a prefix of the list fails, the whole list fails with the same error. */
  lemma {:induction false} InsertedStaysFailed(current: map<Language, CategoryTranslation>,
                                              dtos: seq<TranslationDTO<CategoryTranslation>>, k: nat)
    requires k <= |dtos| && Inserted(current, dtos[..k]).Err?
    ensures Inserted(current, dtos) == Inserted(current, dtos[..k])
    decreases |dtos| - k
  {
    if k < |dtos| {
      assert dtos[..k + 1][..k] == dtos[..k];
      InsertedStaysFailed(current, dtos, k + 1);
    } else {
      assert dtos[..k] == dtos;
    }
  }

  /** create as a function of the database: a free slug (the form's, else
      the slugified name), a known type, parsable languages and named
      overlays. */
  function NewCategory(db: Db, dto: CategoryMapper.CategoryCreateDTO, slugify: string -> string,
                       categoryTypes: set<string>): (r: Result<Category>)
    ensures var slug := ChosenSlug(dto.slug, dto.name, slugify);
      && (SlugTaken(db.categories, slug) ==> r == Err(SlugAlreadyExists(slug)))
      && (r.Ok? <==> !SlugTaken(db.categories, slug) && dto.categoryType in categoryTypes
                     && SavedOverlays(map[], Submitted(dto.translations)).Ok?)
    ensures r.Ok? ==>
      && r.value.slug == ChosenSlug(dto.slug, dto.name, slugify)
      && r.value.name == Some(dto.name) && r.value.displayName == Some(dto.displayName)
      && r.value.sortOrder == (if dto.sortOrder.Some? then dto.sortOrder.value else 0)
      && r.value.description == dto.description && r.value.emoji == dto.emoji
      && r.value.color == dto.color && r.value.bgColor == dto.bgColor
      && r.value.categoryType == dto.categoryType
      && SavedOverlays(map[], Submitted(dto.translations)) == Ok(r.value.translations)
    ensures CreateRefusedAtCommit(db, dto, slugify, categoryTypes) ==> r == Err(ConstraintViolation)
  {
    var slug := ChosenSlug(dto.slug, dto.name, slugify);
    if SlugTaken(db.categories, slug) then Err(SlugAlreadyExists(slug))
    else match CategoryMapper.ToEntity(dto, slugify, categoryTypes)
      case Err(e) => Err(e)
      case Ok(c) =>
        match SavedOverlays(c.translations, Submitted(dto.translations))
        case Err(e) => Err(e)
        case Ok(m) => Ok(c.(slug := slug, translations := m))
  }

  /** create passes every check and every insert, dispatches its run, and
      is rolled back by the flush at commit. */
  predicate CreateRefusedAtCommit(db: Db, dto: CategoryMapper.CategoryCreateDTO, slugify: string -> string,
                                  categoryTypes: set<string>) {
    && !SlugTaken(db.categories, ChosenSlug(dto.slug, dto.name, slugify))
    && dto.categoryType in categoryTypes
    && RefusedAtCommit(map[], Submitted(dto.translations))
  }

  /** update passes every check and the loop, dispatches its run, and is
      rolled back by the flush at commit. */
  predicate UpdateRefusedAtCommit(db: Db, id: int, dto: CategoryMapper.CategoryCreateDTO, slugify: string -> string,
                                  categoryTypes: set<string>) {
    && id in db.categories
    && (ChosenSlug(dto.slug, dto.name, slugify) == db.categories[id].slug
        || !SlugTaken(db.categories, ChosenSlug(dto.slug, dto.name, slugify)))
    && dto.categoryType in categoryTypes
    && RefusedAtCommit(db.categories[id].translations, Submitted(dto.translations))
  }

  /** update as a function of the database: the row must exist; a slug is
      refused only when it changed and is taken; the form's fields replace
      the row's, except that a null sortOrder keeps the current one. */
  function UpdatedCategory(db: Db, id: int, dto: CategoryMapper.CategoryCreateDTO, slugify: string -> string,
                           categoryTypes: set<string>): (r: Result<Category>)
    ensures id !in db.categories ==> r == Err(NotFound(CategoryNotFound(id)))
    ensures id in db.categories ==>
      var slug := ChosenSlug(dto.slug, dto.name, slugify);
      && (slug != db.categories[id].slug && SlugTaken(db.categories, slug) ==> r == Err(SlugAlreadyExists(slug)))
      && (r.Ok? <==>
            (slug == db.categories[id].slug || !SlugTaken(db.categories, slug)) && dto.categoryType in categoryTypes
            && SavedOverlays(db.categories[id].translations, Submitted(dto.translations)).Ok?)
    ensures r.Ok? ==>
      var c := db.categories[id];
      && r.value.slug == ChosenSlug(dto.slug, dto.name, slugify)
      && r.value.name == Some(dto.name) && r.value.displayName == Some(dto.displayName)
      && r.value.description == dto.description && r.value.emoji == dto.emoji
      && r.value.color == dto.color && r.value.bgColor == dto.bgColor && r.value.categoryType == dto.categoryType
      && r.value.sortOrder == (if dto.sortOrder.Some? then dto.sortOrder.value else c.sortOrder)
      && SavedOverlays(c.translations, Submitted(dto.translations)) == Ok(r.value.translations)
    ensures UpdateRefusedAtCommit(db, id, dto, slugify, categoryTypes) ==> r == Err(ConstraintViolation)
  {
    if id !in db.categories then Err(NotFound(CategoryNotFound(id)))
    else
      var c := db.categories[id];
      var slug := ChosenSlug(dto.slug, dto.name, slugify);
      if slug != c.slug && SlugTaken(db.categories, slug) then Err(SlugAlreadyExists(slug))
      else if dto.categoryType !in categoryTypes then
        Err(IllegalArgument(NoEnumConstant("de.tzr.model.CategoryType", dto.categoryType)))
      else match SavedOverlays(c.translations, Submitted(dto.translations))
        case Err(e) => Err(e)
        case Ok(m) =>
          Ok(Category(Some(dto.name), slug, Some(dto.displayName), dto.description,
                      dto.emoji, dto.color, dto.bgColor, dto.categoryType,
                      if dto.sortOrder.Some? then dto.sortOrder.value else c.sortOrder, m))
  }

  /** countByCategoryId */
  function ArticleCount(articles: map<int, Article>, id: int): (n: nat)
    ensures n == |set a | a in articles && articles[a].categoryId == id|
    ensures n == 0 <==> forall a :: a in articles ==> articles[a].categoryId != id
  {
    var s := set a | a in articles && articles[a].categoryId == id;
    if forall a :: a in articles ==> articles[a].categoryId != id then
      assert s == {};
      0
    else
      var a :| a in articles && articles[a].categoryId == id;
      assert a in s;
      |s|
  }

  function StillUsed(count: nat): string {
    "Kategorie kann nicht gel\U{F6}scht werden: Es existieren noch " + JavaString.NatToString(count)
      + " Beitr\U{E4}ge in dieser Kategorie."
  }

  /** delete: refused while any article is filed under the category. */
  function Deleted(db: Db, id: int): (r: Result<map<int, Category>>)
    ensures id !in db.categories ==> r == Err(NotFound(CategoryNotFound(id)))
    ensures id in db.categories && ArticleCount(db.articles, id) > 0 ==>
      r == Err(IllegalState(StillUsed(ArticleCount(db.articles, id))))
    ensures r.Ok? <==> id in db.categories && forall a :: a in db.articles ==> db.articles[a].categoryId != id
    ensures r.Ok? ==>
      (r.value.Keys == db.categories.Keys - {id} && forall k :: k in r.value ==> r.value[k] == db.categories[k])
  {
    if id !in db.categories then Err(NotFound(CategoryNotFound(id)))
    else
      var count := ArticleCount(db.articles, id);
      if count > 0 then Err(IllegalState(StillUsed(count)))
      else Ok(map k | k in db.categories && k != id :: db.categories[k])
  }

  /** reorder as a function: position by position, the category at each
      position takes that position as its sort order; an unknown id raises. */
  function Reordered(categories: map<int, Category>, ids: seq<int>): (r: Result<map<int, Category>>)
    ensures r.Ok? ==> r.value.Keys == categories.Keys
    decreases |ids|
  {
    if ids == [] then Ok(categories)
    else match Reordered(categories, ids[..|ids| - 1])
      case Err(e) => Err(e)
      case Ok(m) =>
        var id := ids[|ids| - 1];
        if id !in m then Err(NotFound("Category not found"))
        else Ok(m[id := m[id].(sortOrder := |ids| - 1)])
  }

  /** The last position of `id` in the list, if it is listed. */
  function LastIndex(ids: seq<int>, id: int): (r: Option<nat>)
    ensures r.Some? ==> r.value < |ids| && ids[r.value] == id && forall j :: r.value < j < |ids| ==> ids[j] != id
    ensures r.None? ==> forall j :: 0 <= j < |ids| ==> ids[j] != id
  {
    if ids == [] then None
    else if ids[|ids| - 1] == id then Some(|ids| - 1)
    else LastIndex(ids[..|ids| - 1], id)
  }

  /** reorder succeeds exactly when every listed id is a category; then a
      listed category's sort order is its (last) position, and every other
      field and every unlisted category are kept. */
  lemma {:induction false} ReorderSpec(categories: map<int, Category>, ids: seq<int>)
    ensures Reordered(categories, ids).Ok? <==> forall i :: 0 <= i < |ids| ==> ids[i] in categories
    ensures Reordered(categories, ids).Ok? ==> forall k :: k in categories ==>
      var r := Reordered(categories, ids).value;
      (LastIndex(ids, k).Some? ==> r[k] == categories[k].(sortOrder := LastIndex(ids, k).value))
      && (LastIndex(ids, k).None? ==> r[k] == categories[k])
    decreases |ids|
  {
    if ids != [] {
      var init := ids[..|ids| - 1];
      ReorderSpec(categories, init);
      assert forall i :: 0 <= i < |init| ==> init[i] == ids[i];
      if Reordered(categories, init).Ok? {
        var m := Reordered(categories, init).value;
        forall k | k in categories && Reordered(categories, ids).Ok?
          ensures var r := Reordered(categories, ids).value;
            (LastIndex(ids, k).Some? ==> r[k] == categories[k].(sortOrder := LastIndex(ids, k).value))
            && (LastIndex(ids, k).None? ==> r[k] == categories[k])
        {
          if ids[|ids| - 1] != k {
            assert LastIndex(ids, k) == LastIndex(init, k);
          }
        }
      }
    }
  }

  /** Listing distinct ids gives the i-th one sort order i. */
  lemma PositionIsSortOrder(categories: map<int, Category>, ids: seq<int>, i: int)
    requires forall j :: 0 <= j < |ids| ==> ids[j] in categories
    requires forall j, k :: 0 <= j < k < |ids| ==> ids[j] != ids[k]
    requires 0 <= i < |ids|
    ensures Reordered(categories, ids).Ok? && Reordered(categories, ids).value[ids[i]].sortOrder == i
  {
    ReorderSpec(categories, ids);
    assert LastIndex(ids, ids[i]) == Some(i);
  }

  // ---------------------------------------------------------------------
  // The transactional methods

  /** The part of create before the first write. */
  method BuildCategory(st: Store, dto: CategoryMapper.CategoryCreateDTO, slugify: string -> string,
                       categoryTypes: set<string>) returns (r: Result<Category>)
    ensures r == NewCategory(st.Snapshot(), dto, slugify, categoryTypes)
  {
    var slug := ChosenSlug(dto.slug, dto.name, slugify);
    if SlugTaken(st.categories, slug) {
      return Err(SlugAlreadyExists(slug));
    }
    var entity := CategoryMapper.ToEntity(dto, slugify, categoryTypes);
    if entity.Err? {
      return Err(entity.error);
    }
    var category := entity.value.(slug := slug);
    var overlays := SaveTranslations(category.translations, Submitted(dto.translations));
    if overlays.Err? {
      return Err(overlays.error);
    }
    if !NamesPresent(overlays.value) {
      return Err(ConstraintViolation);
    }
    r := Ok(category.(translations := overlays.value));
  }

  /** create: the category is inserted under the next id, PT and EN tasks
      are opened for it and a translation run from DE is dispatched. The
      @Async dispatch escapes the rollback: when the flush at commit refuses
      an overlay, the run stays dispatched for the identity value the
      rolled-back row drew, and that value is not handed out again. */
  method Create(st: Store, dto: CategoryMapper.CategoryCreateDTO, slugify: string -> string,
                categoryTypes: set<string>) returns (r: Result<int>)
    requires st.Valid()
    modifies st
    ensures st.Valid()
    ensures NewCategory(old(st.Snapshot()), dto, slugify, categoryTypes).Err?
            && !CreateRefusedAtCommit(old(st.Snapshot()), dto, slugify, categoryTypes) ==>
      r == Err(NewCategory(old(st.Snapshot()), dto, slugify, categoryTypes).error) && unchanged(st)
    ensures CreateRefusedAtCommit(old(st.Snapshot()), dto, slugify, categoryTypes) ==>
      && r == Err(ConstraintViolation)
      && st.jobs == old(st.jobs) + [TranslateJob(CATEGORY, old(st.nextId), DEFAULT)]
      && st.nextId == old(st.nextId) + 1
      && st.categories == old(st.categories) && st.tasks == old(st.tasks)
      && st.articles == old(st.articles) && st.authors == old(st.authors) && st.tags == old(st.tags)
      && st.subscribers == old(st.subscribers) && st.outbox == old(st.outbox)
    ensures NewCategory(old(st.Snapshot()), dto, slugify, categoryTypes).Ok? ==>
      var id := old(st.nextId);
      && r == Ok(id)
      && st.categories == old(st.categories)[id := NewCategory(old(st.Snapshot()), dto, slugify, categoryTypes).value]
      && TranslationTaskService.Ledger(st.tasks, st.nextId)
         == TranslationTaskService.CreateTasks(TranslationTaskService.Ledger(old(st.tasks), id + 1), CATEGORY, id)
      && st.jobs == old(st.jobs) + [TranslateJob(CATEGORY, id, DEFAULT)]
      && st.articles == old(st.articles) && st.authors == old(st.authors) && st.tags == old(st.tags)
      && st.subscribers == old(st.subscribers) && st.outbox == old(st.outbox)
  {
    var built := BuildCategory(st, dto, slugify, categoryTypes);
    if built.Err? {
      if CreateRefusedAtCommit(st.Snapshot(), dto, slugify, categoryTypes) {
        var drawn := st.FreshId();
        st.jobs := st.jobs + [TranslateJob(CATEGORY, drawn, DEFAULT)];
      }
      return Err(built.error);
    }
    var id := InsertCategory(st, built.value);
    r := Ok(id);
  }

  /** save, createTasksForEntity and translateCategory for a checked row. */
  method InsertCategory(st: Store, category: Category) returns (id: int)
    requires st.Valid() && !SlugTaken(st.categories, category.slug) && NamesPresent(category.translations)
    modifies st
    ensures st.Valid()
    ensures id == old(st.nextId) && st.categories == old(st.categories)[id := category]
    ensures TranslationTaskService.Ledger(st.tasks, st.nextId)
         == TranslationTaskService.CreateTasks(TranslationTaskService.Ledger(old(st.tasks), id + 1), CATEGORY, id)
    ensures st.jobs == old(st.jobs) + [TranslateJob(CATEGORY, id, DEFAULT)]
    ensures st.articles == old(st.articles) && st.authors == old(st.authors) && st.tags == old(st.tags)
    ensures st.subscribers == old(st.subscribers) && st.outbox == old(st.outbox)
  {
    id := st.FreshId();
    st.categories := st.categories[id := category];
    TranslationTaskService.CreateTasksKeepValid(st.Snapshot(), st.subscribers, st.nextId, CATEGORY, id);
    TranslationTaskService.CreateTasksForEntity(st, CATEGORY, id);
    st.jobs := st.jobs + [TranslateJob(CATEGORY, id, DEFAULT)];
  }

  /** The part of update before the save: the checks and the setters. */
  method BuildUpdate(st: Store, id: int, dto: CategoryMapper.CategoryCreateDTO, slugify: string -> string,
                     categoryTypes: set<string>) returns (r: Result<Category>)
    ensures r == UpdatedCategory(st.Snapshot(), id, dto, slugify, categoryTypes)
  {
    if id !in st.categories {
      return Err(NotFound(CategoryNotFound(id)));
    }
    var category := st.categories[id];
    var newSlug := ChosenSlug(dto.slug, dto.name, slugify);
    if newSlug != category.slug && SlugTaken(st.categories, newSlug) {
      return Err(SlugAlreadyExists(newSlug));
    }
    category := category.(name := Some(dto.name), slug := newSlug, displayName := Some(dto.displayName),
                          description := dto.description, emoji := dto.emoji, color := dto.color,
                          bgColor := dto.bgColor);
    if dto.categoryType !in categoryTypes {
      return Err(IllegalArgument(NoEnumConstant("de.tzr.model.CategoryType", dto.categoryType)));
    }
    category := category.(categoryType := dto.categoryType);
    if dto.sortOrder.Some? {
      category := category.(sortOrder := dto.sortOrder.value);
    }
    var overlays := SaveTranslations(category.translations, Submitted(dto.translations));
    if overlays.Err? {
      return Err(overlays.error);
    }
    if !NamesPresent(overlays.value) {
      return Err(ConstraintViolation);
    }
    r := Ok(category.(translations := overlays.value));
  }

  /** update: the row takes the form's fields and overlays; a translation
      run is dispatched, but no task is opened. When the flush at commit
      refuses an overlay, the row is rolled back but the run stays
      dispatched, and it works on the row as last committed. */
  method Update(st: Store, id: int, dto: CategoryMapper.CategoryCreateDTO, slugify: string -> string,
                categoryTypes: set<string>) returns (r: Result<int>)
    requires st.Valid()
    modifies st
    ensures st.Valid()
    ensures UpdatedCategory(old(st.Snapshot()), id, dto, slugify, categoryTypes).Err?
            && !UpdateRefusedAtCommit(old(st.Snapshot()), id, dto, slugify, categoryTypes) ==>
      r == Err(UpdatedCategory(old(st.Snapshot()), id, dto, slugify, categoryTypes).error) && unchanged(st)
    ensures UpdateRefusedAtCommit(old(st.Snapshot()), id, dto, slugify, categoryTypes) ==>
      && r == Err(ConstraintViolation)
      && st.jobs == old(st.jobs) + [TranslateJob(CATEGORY, id, DEFAULT)]
      && st.categories == old(st.categories) && st.tasks == old(st.tasks) && st.nextId == old(st.nextId)
      && st.articles == old(st.articles) && st.authors == old(st.authors) && st.tags == old(st.tags)
      && st.subscribers == old(st.subscribers) && st.outbox == old(st.outbox)
    ensures UpdatedCategory(old(st.Snapshot()), id, dto, slugify, categoryTypes).Ok? ==>
      && r == Ok(id)
      && st.categories == old(st.categories)[id := UpdatedCategory(old(st.Snapshot()), id, dto, slugify, categoryTypes).value]
      && st.jobs == old(st.jobs) + [TranslateJob(CATEGORY, id, DEFAULT)]
      && st.tasks == old(st.tasks) && st.nextId == old(st.nextId)
      && st.articles == old(st.articles) && st.authors == old(st.authors) && st.tags == old(st.tags)
      && st.subscribers == old(st.subscribers) && st.outbox == old(st.outbox)
  {
    var built := BuildUpdate(st, id, dto, slugify, categoryTypes);
    if built.Err? {
      if UpdateRefusedAtCommit(st.Snapshot(), id, dto, slugify, categoryTypes) {
        st.jobs := st.jobs + [TranslateJob(CATEGORY, id, DEFAULT)];
      }
      return Err(built.error);
    }
    st.categories := st.categories[id := built.value];
    st.jobs := st.jobs + [TranslateJob(CATEGORY, id, DEFAULT)];
    r := Ok(id);
  }

  /** delete */
  method Delete(st: Store, id: int) returns (r: Result<()>)
    requires st.Valid()
    modifies st`categories
    ensures st.Valid()
    ensures Deleted(old(st.Snapshot()), id).Err? ==>
      r == Err(Deleted(old(st.Snapshot()), id).error) && st.categories == old(st.categories)
    ensures Deleted(old(st.Snapshot()), id).Ok? ==> r == Ok(()) && st.categories == Deleted(old(st.Snapshot()), id).value
  {
    if id !in st.categories {
      return Err(NotFound(CategoryNotFound(id)));
    }
    var count := ArticleCount(st.articles, id);
    if count > 0 {
      return Err(IllegalState(StillUsed(count)));
    }
    st.categories := map k | k in st.categories && k != id :: st.categories[k];
    r := Ok(());
  }

  /** reorder: each listed category in turn takes its position as sort
      order; an unknown id rolls the whole list back. */
  method Reorder(st: Store, orderedIds: seq<int>) returns (r: Result<()>)
    requires st.Valid()
    modifies st`categories
    ensures st.Valid()
    ensures Reordered(old(st.categories), orderedIds).Err? ==>
      r == Err(Reordered(old(st.categories), orderedIds).error) && st.categories == old(st.categories)
    ensures Reordered(old(st.categories), orderedIds).Ok? ==>
      r == Ok(()) && st.categories == Reordered(old(st.categories), orderedIds).value
  {
    var saved := st.categories;
    var i := 0;
    while i < |orderedIds|
      invariant 0 <= i <= |orderedIds|
      invariant Reordered(saved, orderedIds[..i]) == Ok(st.categories)
      invariant st.Valid()
    {
      assert orderedIds[..i + 1][..i] == orderedIds[..i];
      var id := orderedIds[i];
      if id !in st.categories {
        assert Reordered(saved, orderedIds[..i + 1]).Err?;
        ReorderStaysFailed(saved, orderedIds, i + 1);
        st.categories := saved;
        return Err(NotFound("Category not found"));
      }
      st.categories := st.categories[id := st.categories[id].(sortOrder := i)];
      i := i + 1;
    }
    assert orderedIds[..i] == orderedIds;
    r := Ok(());
  }

  /** Once a prefix of the list fails, the whole list fails with the same error. */
  lemma {:induction false} ReorderStaysFailed(categories: map<int, Category>, ids: seq<int>, k: nat)
    requires k <= |ids| && Reordered(categories, ids[..k]).Err?
    ensures Reordered(categories, ids) == Reordered(categories, ids[..k])
    decreases |ids| - k
  {
    if k < |ids| {
      assert ids[..k + 1][..k] == ids[..k];
      ReorderStaysFailed(categories, ids, k + 1);
    } else {
      assert ids[..k] == ids;
    }
  }
}
